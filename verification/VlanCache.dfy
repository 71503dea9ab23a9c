/**
 * The daemon's cache as a value, and the effect of each cache operation on it.
 * Module VlandDaemon holds the operations themselves; here is what they are proved to compute.
 */
module VlanCache {
  import opened VlanTypes

  datatype PortEntry = PortEntry(mode: VlanMode, native: int, trunkAll: bool, bits: set<int>)

  /** A cached VLAN; row is the handle to the VLAN row it was created from. */
  datatype VlanEntry = VlanEntry(row: nat, vid: int, any: bool, admin: Admin, op: OperState, reason: OperReason)

  /** db holds the columns the daemon last wrote to a row, writes counts its row updates. */
  datatype Cache = Cache(ports: map<string, PortEntry>, vlans: map<string, VlanEntry>, allVids: set<int>,
                         db: map<nat, Columns>, writes: nat)

  const EMPTY_CACHE: Cache := Cache(map[], map[], {}, map[], 0)

  // ---- Ports -----------------------------------------------------------------

  function NativeBits(c: PortConfig): set<int> {
    if ValidVid(NativeVid(c)) then {NativeVid(c)} else {}
  }

  function TrunkBits(c: PortConfig): set<int> {
    if EffectiveMode(c) == Access then {} else set t | t in c.trunks && 0 <= t < VLAN_BITMAP_SIZE
  }

  /** construct_vlan_bitmap: an implicit trunk starts from the VLANs cached before the pass. */
  function ParsePort(c: PortConfig, allVids: set<int>, inBridge: bool): PortEntry {
    PortEntry(EffectiveMode(c), NativeVid(c), TrunksAll(c) && inBridge,
              (if TrunksAll(c) then allVids else TrunkBits(c)) + NativeBits(c))
  }

  ghost predicate IsMember(s: Snapshot, ports: map<string, PortEntry>, p: string, vid: int)
    requires p in ports
  {
    InBridge(s, p) && (ports[p].trunkAll || vid in ports[p].bits)
  }

  ghost predicate AnyMember(s: Snapshot, ports: map<string, PortEntry>, vid: int) {
    exists p :: p in ports && IsMember(s, ports, p, vid)
  }

  ghost function SpreadOne(s: Snapshot, p: string, e: PortEntry, vid: int): PortEntry {
    if InBridge(s, p) && e.trunkAll then e.(bits := e.bits + {vid}) else e
  }

  ghost function Spread(s: Snapshot, ports: map<string, PortEntry>, vid: int): map<string, PortEntry> {
    map p | p in ports :: SpreadOne(s, p, ports[p], vid)
  }

  ghost function UpdateMembership(s: Snapshot, c: Cache, n: string): Cache
    requires n in c.vlans
  {
    var v := c.vlans[n];
    c.(ports := Spread(s, c.ports, v.vid), vlans := c.vlans[n := v.(any := AnyMember(s, c.ports, v.vid))])
  }

  // ---- VLAN state ------------------------------------------------------------

  predicate MentionsDefault(c: PortConfig) {
    if c.tag.Some? then c.tag.value == DEFAULT_VID else DEFAULT_VID in c.trunks
  }

  /** vland_default_vlan_member_port: looks at port rows, whatever bridge they are in. */
  ghost predicate DefaultVlanMember(s: Snapshot) {
    && (exists r :: r in s.vlans && r.config.id == DEFAULT_VID)
    && (exists r :: r in s.ports && MentionsDefault(r.config))
  }

  function StateOf(vid: int, admin: Admin, any: bool): (OperState, OperReason) {
    if admin == AdminUp && any then (OperUp, ReasonOk)
    else (if vid == DEFAULT_VID then OperUp else OperDown,
          if admin == AdminDown then ReasonAdminDown else ReasonNoMemberPort)
  }

  ghost function Promoted(s: Snapshot, v: VlanEntry): VlanEntry {
    if v.vid == DEFAULT_VID && DefaultVlanMember(s) then v.(any := true) else v
  }

  /** handle_vlan_config for cached VLAN n, writing to row uuid. */
  ghost function HandleConfig(s: Snapshot, c: Cache, n: string, uuid: nat, l3port: bool): Cache
    requires n in c.vlans
  {
    if l3port then c else
      var v := Promoted(s, c.vlans[n]);
      var (op, reason) := StateOf(v.vid, v.admin, v.any);
      if op == v.op && reason == v.reason then c.(vlans := c.vlans[n := v])
      else c.(vlans := c.vlans[n := v.(op := op, reason := reason)],
              db := c.db[uuid := Columns(op == OperUp, op, reason)],
              writes := c.writes + 1)
  }

  ghost predicate L3Marked(s: Snapshot, uuid: nat) {
    exists r :: r in s.vlans && r.uuid == uuid && r.config.l3port
  }

  ghost function Refresh(s: Snapshot, c: Cache, n: string): Cache
    requires n in c.vlans
  {
    var row := c.vlans[n].row;
    HandleConfig(s, UpdateMembership(s, c, n), n, row, L3Marked(s, row))
  }

  ghost function LookupVid(vlans: map<string, VlanEntry>, vid: int): (r: Option<string>)
    ensures r.Some? ==> r.value in vlans && vlans[r.value].vid == vid
    ensures r.None? ==> forall n :: n in vlans ==> vlans[n].vid != vid
  {
    if exists n :: n in vlans && vlans[n].vid == vid
    then var n :| n in vlans && vlans[n].vid == vid; Some(n)
    else None
  }

  /** One turn of the loop in del_old_port. */
  ghost function RefreshVid(s: Snapshot, c: Cache, vid: int): Cache {
    match LookupVid(c.vlans, vid)
    case None => c
    case Some(n) => Refresh(s, c, n)
  }

  /** The loop of del_old_port over the first k bits of a bitmap. */
  ghost function RefreshBits(s: Snapshot, c: Cache, bits: set<int>, k: nat): Cache {
    if k == 0 then c else
      var d := RefreshBits(s, c, bits, k - 1);
      if k - 1 in bits then RefreshVid(s, d, k - 1) else d
  }

  /** One turn of the inner loop of update_port_cache, for VLAN row r of the table. */
  ghost function ScanRow(s: Snapshot, c: Cache, vid: int, r: VlanRow): Cache {
    if r.config.id != vid then c else
      match LookupVid(c.vlans, vid)
      case None => c
      case Some(n) =>
        if r.config.l3port then UpdateMembership(s, c, n) else Refresh(s, c, n)
  }

  ghost function ScanRows(s: Snapshot, c: Cache, vid: int, k: nat): Cache
    requires k <= |s.vlans|
  {
    if k == 0 then c else ScanRow(s, ScanRows(s, c, vid, k - 1), vid, s.vlans[k - 1])
  }

  ghost function ScanBits(s: Snapshot, c: Cache, bits: set<int>, k: nat): Cache {
    if k == 0 then c else
      var d := ScanBits(s, c, bits, k - 1);
      if k - 1 in bits then ScanRows(s, d, k - 1, |s.vlans|) else d
  }

  // ---- The six kinds of work in a pass -----------------------------------------

  datatype Step =
    | DropPort(port: string)
    | AddPort(port: string)
    | ReadPort(port: string)
    | DropVlan(vlan: string)
    | AddVlan(vlan: string)
    | ReadVlan(vlan: string)

  function Phase(a: Step): nat {
    match a
    case DropPort(_) => 0
    case AddPort(_) => 1
    case ReadPort(_) => 2
    case DropVlan(_) => 3
    case AddVlan(_) => 4
    case ReadVlan(_) => 5
  }

  ghost function DoDropPort(s: Snapshot, c: Cache, p: string): Cache
    requires p in c.ports
  {
    RefreshBits(s, c.(ports := c.ports - {p}), c.ports[p].bits, VLAN_BITMAP_SIZE)
  }

  function NewPortEntry(): PortEntry {
    PortEntry(Access, -1, false, {})
  }

  ghost function DoReadPort(s: Snapshot, c: Cache, p: string, config: PortConfig): Cache
    requires p in c.ports
  {
    var e := ParsePort(config, c.allVids, InBridge(s, p));
    ScanBits(s, c.(ports := c.ports[p := e]), c.ports[p].bits + e.bits, VLAN_BITMAP_SIZE)
  }

  function DoDropVlan(c: Cache, n: string): Cache
    requires n in c.vlans
  {
    var vid := c.vlans[n].vid;
    c.(ports := map p | p in c.ports ::
         if c.ports[p].trunkAll then c.ports[p].(bits := c.ports[p].bits - {vid}) else c.ports[p],
       allVids := c.allVids - {vid},
       vlans := c.vlans - {n})
  }

  function NewVlanEntry(r: VlanRow): VlanEntry {
    VlanEntry(r.uuid, r.config.id, false, AdminDown, OperUnknown, ReasonUnknown)
  }

  ghost function DoAddVlan(s: Snapshot, c: Cache, n: string, r: VlanRow): Cache {
    UpdateMembership(s, c.(vlans := c.vlans[n := NewVlanEntry(r)], allVids := c.allVids + {r.config.id}), n)
  }

  ghost function DoReadVlan(s: Snapshot, c: Cache, n: string, r: VlanRow): Cache
    requires n in c.vlans
  {
    var v := c.vlans[n].(admin := if AdminIsUp(r.config) then AdminUp else AdminDown);
    HandleConfig(s, c.(vlans := c.vlans[n := v]), n, r.uuid, r.config.l3port)
  }

  /** A step that does not apply leaves the cache alone; a scheduled step always applies. */
  ghost function Apply(s: Snapshot, c: Cache, a: Step): Cache {
    var ports, vlans := PortIndex(s.ports), VlanIndex(s.vlans);
    match a
    case DropPort(p) => if p in c.ports then DoDropPort(s, c, p) else c
    case AddPort(p) => if p in c.ports then c else c.(ports := c.ports[p := NewPortEntry()])
    case ReadPort(p) => if p in c.ports && p in ports then DoReadPort(s, c, p, ports[p].config) else c
    case DropVlan(n) => if n in c.vlans then DoDropVlan(c, n) else c
    case AddVlan(n) => if n in c.vlans || n !in vlans then c else DoAddVlan(s, c, n, vlans[n])
    case ReadVlan(n) => if n in c.vlans && n in vlans then DoReadVlan(s, c, n, vlans[n]) else c
  }

  ghost function Run(s: Snapshot, c: Cache, steps: seq<Step>): Cache
    decreases |steps|
  {
    if steps == [] then c else Run(s, Apply(s, c, steps[0]), steps[1..])
  }

  lemma {:induction false} RunAppend(s: Snapshot, c: Cache, a: seq<Step>, b: seq<Step>)
    ensures Run(s, c, a + b) == Run(s, Run(s, c, a), b)
    decreases |a|
  {
    if a == [] {
      assert a + b == b;
    } else {
      assert (a + b)[1..] == a[1..] + b;
      RunAppend(s, Apply(s, c, a[0]), a[1..], b);
    }
  }

  lemma RunOneMore(s: Snapshot, c: Cache, steps: seq<Step>, x: Step)
    ensures Run(s, c, steps + [x]) == Apply(s, Run(s, c, steps), x)
  {
    RunAppend(s, c, steps, [x]);
    assert [x][1..] == [];
  }

  /** Steps of one phase, each once. */
  ghost predicate OnePhase(steps: seq<Step>, phase: nat) {
    && (forall x :: x in steps ==> Phase(x) == phase)
    && (forall i, j :: 0 <= i < j < |steps| ==> steps[i] != steps[j])
  }

  lemma OnePhaseMore(steps: seq<Step>, phase: nat, x: Step)
    requires OnePhase(steps, phase) && Phase(x) == phase && x !in steps
    ensures OnePhase(steps + [x], phase)
  {
  }

  /** Work is done phase by phase, and no item is done twice. */
  ghost predicate Scheduled(steps: seq<Step>) {
    forall i, j :: 0 <= i < j < |steps| ==> Phase(steps[i]) <= Phase(steps[j]) && steps[i] != steps[j]
  }

  lemma PhasesInOrder(a: seq<Step>, b: seq<Step>, phase: nat)
    requires Scheduled(a) && OnePhase(b, phase) && forall x :: x in a ==> Phase(x) < phase
    ensures Scheduled(a + b) && forall x :: x in a + b ==> Phase(x) <= phase
  {
    var c := a + b;
    forall i, j | 0 <= i < j < |c| ensures Phase(c[i]) <= Phase(c[j]) && c[i] != c[j] {
      if i < |a| {
        assert c[i] == a[i] && a[i] in a;
        if j >= |a| { assert c[j] == b[j - |a|] && b[j - |a|] in b; }
      } else {
        assert c[i] == b[i - |a|] && c[j] == b[j - |a|];
        assert c[i] in b && c[j] in b;
      }
    }
  }

  /**
   * The steps of one pass over snapshot s for rows flagged since the given sequence number.
   * Within a phase any order is possible: the source visits hash tables.
   */
  ghost predicate IsPass(s: Snapshot, since: nat, c: Cache, steps: seq<Step>) {
    var ports, vlans := PortIndex(s.ports), VlanIndex(s.vlans);
    && Scheduled(steps)
    && (forall p :: DropPort(p) in steps <==> p in c.ports && p !in ports)
    && (forall p :: AddPort(p) in steps <==> p in ports && p !in c.ports && p != DEFAULT_BRIDGE_NAME)
    && (forall p :: ReadPort(p) in steps <==> p in ports && p != DEFAULT_BRIDGE_NAME && PortFlagged(ports[p], since))
    && (forall n :: DropVlan(n) in steps <==> n in c.vlans && n !in vlans)
    && (forall n :: AddVlan(n) in steps <==> n in vlans && n !in c.vlans)
    && (forall n :: ReadVlan(n) in steps <==> n in vlans && VlanFlagged(vlans[n], since))
  }
}
