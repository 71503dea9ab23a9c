/** The OVSDB rows that the VLAN daemon and the VLAN commands share. */
module VlanTypes {

  const DEFAULT_VID: int := 1
  const VLAN_BITMAP_SIZE: nat := 4096
  const DEFAULT_BRIDGE_NAME: string := "bridge_normal"

  datatype Option<+T> = None | Some(value: T)

  /** VIDs usable by a VLAN (IEEE 802.1Q, clause 9.6: 0 and 4095 are reserved). */
  predicate ValidVid(x: int) {
    0 < x < 4095
  }

  /** The "vlan_mode" column; Unrecognised stands for any other string. */
  datatype VlanMode = Access | Trunk | NativeTagged | NativeUntagged | Unrecognised

  /** The VLAN columns of a Port row. */
  datatype PortConfig = PortConfig(mode: Option<VlanMode>, tag: Option<int>, trunks: seq<int>)

  datatype Admin = AdminUp | AdminDown

  /** The user-visible columns of a VLAN row; l3port is the L3PORT mark in "internal_usage". */
  datatype VlanConfig = VlanConfig(name: string, id: int, admin: Option<Admin>, l3port: bool)

  /** A Port row as the IDL presents it, with the sequence numbers of its last insert and last change. */
  datatype PortRow = PortRow(name: string, config: PortConfig, inserted: nat, modified: nat)

  /** A VLAN row as the IDL presents it; the uuid is the identity a row handle refers to. */
  datatype VlanRow = VlanRow(uuid: nat, config: VlanConfig, inserted: nat, modified: nat)

  datatype Bridge = Bridge(name: string, ports: seq<string>, vlans: seq<nat>)

  /** One state of the IDL replica; bridges are those the System row refers to. */
  datatype Snapshot = Snapshot(seqno: nat, ports: seq<PortRow>, vlans: seq<VlanRow>, bridges: seq<Bridge>)

  ghost predicate InBridges(bridges: seq<Bridge>, port: string) {
    exists i :: 0 <= i < |bridges| && port in bridges[i].ports
  }

  ghost predicate InBridge(s: Snapshot, port: string) {
    InBridges(s.bridges, port)
  }

  predicate PortFlagged(r: PortRow, since: nat) {
    r.inserted > since || r.modified > since
  }

  predicate VlanFlagged(r: VlanRow, since: nat) {
    r.inserted > since || r.modified > since
  }

  /** Rows by name; as with a hash that adds each key once, the first row of a name wins. */
  function PortIndex(rows: seq<PortRow>): (m: map<string, PortRow>)
    ensures forall n :: n in m ==> m[n] in rows && m[n].name == n
    ensures forall r :: r in rows ==> r.name in m
  {
    if rows == [] then map[] else
      var m := PortIndex(rows[..|rows| - 1]);
      var r := rows[|rows| - 1];
      assert rows == rows[..|rows| - 1] + [r];
      if r.name in m then m else m[r.name := r]
  }

  function VlanIndex(rows: seq<VlanRow>): (m: map<string, VlanRow>)
    ensures forall n :: n in m ==> m[n] in rows && m[n].config.name == n
    ensures forall r :: r in rows ==> r.config.name in m
  {
    if rows == [] then map[] else
      var m := VlanIndex(rows[..|rows| - 1]);
      var r := rows[|rows| - 1];
      assert rows == rows[..|rows| - 1] + [r];
      if r.config.name in m then m else m[r.config.name := r]
  }

  // ---- What a port row means -------------------------------------------------

  /** Defaults of the schema: no mode and a tag means access, no mode and no tag means trunk. */
  function EffectiveMode(c: PortConfig): VlanMode {
    match c.mode
    case Some(Unrecognised) => Trunk
    case Some(m) => m
    case None => if c.tag.Some? then Access else Trunk
  }

  function NativeVid(c: PortConfig): int {
    if c.tag.Some? && EffectiveMode(c) != Trunk then c.tag.value else -1
  }

  /** A trunk-mode port with an empty "trunks" column trunks every VLAN of the VLAN table. */
  predicate TrunksAll(c: PortConfig) {
    EffectiveMode(c) != Access && c.trunks == []
  }

  /** The VLANs of a VLAN table that a port row makes its port a member of. */
  predicate Carries(c: PortConfig, vid: int) {
    || (ValidVid(vid) && NativeVid(c) == vid)
    || (EffectiveMode(c) != Access && (c.trunks == [] || vid in c.trunks))
  }

  // ---- VLAN status -----------------------------------------------------------

  datatype OperState = OperUp | OperDown | OperUnknown
  datatype OperReason = ReasonOk | ReasonAdminDown | ReasonNoMemberPort | ReasonUnknown

  /** The columns of a VLAN row that the daemon writes. */
  datatype Columns = Columns(hwEnable: bool, oper: OperState, reason: OperReason)

  predicate AdminIsUp(c: VlanConfig) {
    c.admin == Some(AdminUp)
  }

  /** VLAN names, ids and row identities do not repeat, and every id is a usable VID. */
  ghost predicate WellFormedVlans(rows: seq<VlanRow>) {
    && (forall i :: 0 <= i < |rows| ==> ValidVid(rows[i].config.id))
    && (forall i, j :: 0 <= i < j < |rows| ==>
          && rows[i].config.name != rows[j].config.name
          && rows[i].config.id != rows[j].config.id
          && rows[i].uuid != rows[j].uuid)
  }
}
