/**
 * The configuration database and the effect of each VLAN command on it, as values. A command is a
 * transaction: it commits a new database, leaves the old one, or stops at a row or column that is
 * not there.
 */
module CliCommands {
  import opened VlanTypes

  datatype VlanRec = VlanRec(uuid: nat, config: VlanConfig)

  datatype PortRec = PortRec(config: PortConfig, interfaces: set<string>)

  /** interfaces maps the name of an Interface row to whether its type is "system". */
  datatype Db = Db(ports: map<string, PortRec>, vlans: seq<VlanRec>, bridges: seq<Bridge>,
                   interfaces: map<string, bool>, nextUuid: nat)

  /** What a command learns from elsewhere: VLANs in internal use, and the System row's internal range. */
  datatype Env = Env(internalVids: set<int>, hasSystem: bool, minInternal: int, maxInternal: int)

  datatype Outcome = Committed(db: Db) | Unchanged | Faulted

  function After(db: Db, o: Outcome): Db {
    if o.Committed? then o.db else db
  }

  datatype Command =
    | CreateVlan(arg: string)
    | DeleteVlan(arg: string)
    | Shutdown(vid: int)
    | NoShutdown(vid: int)
    | IntfAccess(port: string, vid: int)
    | IntfNoAccess(port: string, given: Option<int>)
    | IntfAllow(port: string, vids: seq<int>)
    | IntfNoAllow(port: string, vid: int)
    | IntfNative(port: string, vid: int)
    | IntfNoNative(port: string, given: Option<int>)
    | IntfTag(port: string)
    | IntfNoTag(port: string)
    | LagAccess(port: string, vid: int)
    | LagNoAccess(port: string)
    | LagAllow(port: string, vid: int)
    | LagNoAllow(port: string, vid: int)
    | LagNative(port: string, vid: int)
    | LagNoNative(port: string)
    | LagTag(port: string)
    | LagNoTag(port: string)
    | CreateDefault  // not typed by a user: the daemon's create_default_vlan

  // ---- Arguments and names -----------------------------------------------------------

  predicate Digits(s: string) {
    forall i :: 0 <= i < |s| ==> '0' <= s[i] <= '9'
  }

  function Atoi(s: string): (n: int)
    requires Digits(s)
    ensures n >= 0
  {
    if s == "" then 0 else Atoi(s[..|s| - 1]) * 10 + (s[|s| - 1] - '0') as int
  }

  function Truncated(s: string, n: nat): string {
    if |s| <= n then s else s[..n]
  }

  /** The name column of a new VLAN: at most 8 characters survive. */
  function VlanName(arg: string): string {
    Truncated("VLAN" + arg, 8)
  }

  function VlanIfName(arg: string): string {
    "vlan" + arg
  }

  const DEFAULT_VLAN_NAME: string := "DEFAULT_VLAN_1"

  // ---- Lookups -------------------------------------------------------------------------

  function FindVlan(vlans: seq<VlanRec>, vid: int): (r: Option<nat>)
    ensures r.Some? ==> r.value < |vlans| && vlans[r.value].config.id == vid
    ensures r.None? <==> forall i :: 0 <= i < |vlans| ==> vlans[i].config.id != vid
  {
    if vlans == [] then None
    else if vlans[0].config.id == vid then Some(0)
    else match FindVlan(vlans[1..], vid)
         case None => None
         case Some(i) => assert vlans[1..][i] == vlans[i + 1]; Some(i + 1)
  }

  predicate HasVlan(db: Db, vid: int) {
    FindVlan(db.vlans, vid).Some?
  }

  function NamedBridge(bridges: seq<Bridge>): (r: Option<nat>)
    ensures r.Some? ==> r.value < |bridges| && bridges[r.value].name == DEFAULT_BRIDGE_NAME
  {
    if bridges == [] then None
    else if bridges[0].name == DEFAULT_BRIDGE_NAME then Some(0)
    else match NamedBridge(bridges[1..])
         case None => None
         case Some(i) => Some(i + 1)
  }

  /** The commands fall back to the first bridge when none has the default name. */
  function PickBridge(bridges: seq<Bridge>): (r: Option<nat>)
    ensures r.Some? ==> r.value < |bridges|
  {
    match NamedBridge(bridges)
    case Some(i) => Some(i)
    case None => if bridges == [] then None else Some(0)
  }

  /** The interface belongs to a port of another name: a link aggregation. */
  ghost predicate LagMember(db: Db, p: string) {
    p in db.interfaces && exists q :: q in db.ports && q != p && p in db.ports[q].interfaces
  }

  ghost predicate IntfUsable(db: Db, p: string) {
    !LagMember(db, p) && InBridges(db.bridges, p) && p in db.ports
  }

  /** The port row of an interface without creating one. */
  predicate OwnPort(db: Db, p: string) {
    p in db.interfaces && p in db.ports && p in db.ports[p].interfaces
  }

  predicate InternalBlocked(env: Env, db: Db, vid: int) {
    db.interfaces != map[] && vid in env.internalVids
  }

  // ---- Rows ------------------------------------------------------------------------------

  /** The entries other than v, in order. */
  function Without<T(==, !new)>(s: seq<T>, v: T): (r: seq<T>)
    ensures v !in r && |r| <= |s|
    ensures forall x :: x in r <==> x in s && x != v
  {
    if s == [] then [] else
      assert s == s[..|s| - 1] + [s[|s| - 1]];
      var r := Without(s[..|s| - 1], v);
      if s[|s| - 1] == v then r else r + [s[|s| - 1]]
  }

  predicate IsNative(m: Option<VlanMode>) {
    m == Some(NativeTagged) || m == Some(NativeUntagged)
  }

  predicate IsTrunking(m: Option<VlanMode>) {
    IsNative(m) || m == Some(Trunk)
  }

  function Put(db: Db, p: string, k: PortConfig): Outcome
    requires p in db.ports
  {
    Committed(db.(ports := db.ports[p := db.ports[p].(config := k)]))
  }

  function AccessRow(vid: int): PortConfig {
    PortConfig(Some(Access), Some(vid), [])
  }

  function NativeRow(k: PortConfig, vid: int): PortConfig {
    PortConfig(if IsNative(k.mode) then k.mode else Some(NativeUntagged), Some(vid), k.trunks)
  }

  function NoNativeRow(k: PortConfig): PortConfig {
    PortConfig(Some(if k.trunks != [] then Trunk else Access), Some(DEFAULT_VID), k.trunks)
  }

  /** The row after VLAN v left the trunk list; an emptied plain trunk becomes an access port. */
  function NoAllowRow(k: PortConfig, v: int): PortConfig {
    var trunks := Without(k.trunks, v);
    if k.mode == Some(Trunk) && trunks == [] then PortConfig(Some(Access), Some(DEFAULT_VID), trunks)
    else k.(trunks := trunks)
  }

  // ---- Commands on ports ---------------------------------------------------------------

  ghost function DoIntfAccess(env: Env, db: Db, p: string, vid: int): Outcome {
    if InternalBlocked(env, db, vid) || !IntfUsable(db, p) || !HasVlan(db, vid) then Unchanged
    else Put(db, p, AccessRow(vid))
  }

  ghost function DoIntfNoAccess(db: Db, p: string, given: Option<int>): Outcome {
    if db.vlans == [] || (given.Some? && !HasVlan(db, given.value)) || !IntfUsable(db, p) then Unchanged
    else
      var k := db.ports[p].config;
      if k.mode != Some(Access) || (given.Some? && k.tag != given) then Unchanged
      else Put(db, p, k.(tag := Some(DEFAULT_VID)))
  }

  /** The list loop of "vlan trunk allowed", with k the row as changed so far. */
  ghost function AllowFrom(env: Env, db: Db, p: string, k: PortConfig, vids: seq<int>): Outcome
    decreases |vids|
  {
    if vids == [] then (if p in db.ports then Put(db, p, k) else Unchanged)
    else if vids[0] in env.internalVids then AllowFrom(env, db, p, k, vids[1..])
    else if env.minInternal <= vids[0] <= env.maxInternal || !IntfUsable(db, p) || !HasVlan(db, vids[0]) then Unchanged
    else if k.mode == None then Faulted
    else
      var k1 := k.(mode := if IsNative(k.mode) then k.mode else Some(NativeUntagged));
      if vids[0] in k1.trunks then Put(db, p, k1)
      else AllowFrom(env, db, p, k1.(trunks := k1.trunks + [vids[0]]), vids[1..])
  }

  ghost function DoIntfAllow(env: Env, db: Db, p: string, vids: seq<int>): Outcome {
    if vids == [] || !env.hasSystem then Unchanged
    else AllowFrom(env, db, p, if p in db.ports then db.ports[p].config else PortConfig(None, None, []), vids)
  }

  ghost function DoIntfNoAllow(db: Db, p: string, v: int): Outcome {
    if LagMember(db, p) || !OwnPort(db, p) || !InBridges(db.bridges, p) then Unchanged
    else
      var k := db.ports[p].config;
      if (k.mode.Some? && !IsTrunking(k.mode)) || v !in k.trunks then Unchanged
      else Put(db, p, NoAllowRow(k, v))
  }

  ghost function DoIntfNative(env: Env, db: Db, p: string, vid: int): Outcome {
    if InternalBlocked(env, db, vid) || !IntfUsable(db, p) || !HasVlan(db, vid) then Unchanged
    else Put(db, p, NativeRow(db.ports[p].config, vid))
  }

  ghost function DoIntfNoNative(db: Db, p: string, given: Option<int>): Outcome {
    if !IntfUsable(db, p) then Unchanged
    else
      var k := db.ports[p].config;
      if (k.mode.Some? && !IsNative(k.mode)) || (given.Some? && k.tag != given) then Unchanged
      else Put(db, p, NoNativeRow(k))
  }

  ghost function DoIntfTag(db: Db, p: string): Outcome {
    if !IntfUsable(db, p) || db.ports[p].config.mode == Some(Access) then Unchanged
    else Put(db, p, db.ports[p].config.(mode := Some(NativeTagged)))
  }

  ghost function DoIntfNoTag(db: Db, p: string): Outcome {
    if !IntfUsable(db, p) then Unchanged
    else
      var k := db.ports[p].config;
      if k.mode.Some? && k.mode != Some(NativeTagged) then Unchanged
      else Put(db, p, k.(mode := Some(NativeUntagged)))
  }

  ghost function DoLagAccess(db: Db, p: string, vid: int): Outcome {
    if !InBridges(db.bridges, p) || !HasVlan(db, vid) then Unchanged
    else if p !in db.ports then Faulted
    else Put(db, p, AccessRow(vid))
  }

  ghost function DoLagNoAccess(db: Db, p: string): Outcome {
    if !InBridges(db.bridges, p) || p !in db.ports then Unchanged
    else
      var k := db.ports[p].config;
      if k.mode.Some? && k.mode != Some(Access) then Unchanged
      else Put(db, p, k.(mode := None, tag := Some(DEFAULT_VID)))
  }

  ghost function DoLagAllow(db: Db, p: string, v: int): Outcome {
    if !InBridges(db.bridges, p) || !HasVlan(db, v) then Unchanged
    else if p !in db.ports then Faulted
    else
      var k := db.ports[p].config;
      var k1 := k.(mode := if IsNative(k.mode) then k.mode else Some(Trunk));
      Put(db, p, if v in k.trunks then k1 else k1.(trunks := k.trunks + [v]))
  }

  ghost function DoLagNoAllow(db: Db, p: string, v: int): Outcome {
    if !InBridges(db.bridges, p) || p !in db.ports then Unchanged
    else
      var k := db.ports[p].config;
      if k.mode.Some? && !IsTrunking(k.mode) then Unchanged
      else if k.mode == None then Faulted
      else Put(db, p, NoAllowRow(k, v))
  }

  ghost function DoLagNative(db: Db, p: string, vid: int): Outcome {
    if !InBridges(db.bridges, p) || !HasVlan(db, vid) || p !in db.ports then Unchanged
    else Put(db, p, NativeRow(db.ports[p].config, vid))
  }

  ghost function DoLagNoNative(db: Db, p: string): Outcome {
    if !InBridges(db.bridges, p) then Unchanged
    else if p !in db.ports then Faulted
    else
      var k := db.ports[p].config;
      if k.mode.Some? && !IsNative(k.mode) then Unchanged else Put(db, p, NoNativeRow(k))
  }

  ghost function DoLagTag(db: Db, p: string): Outcome {
    if !InBridges(db.bridges, p) || p !in db.ports || db.ports[p].config.mode == Some(Access) then Unchanged
    else Put(db, p, db.ports[p].config.(mode := Some(NativeTagged)))
  }

  ghost function DoLagNoTag(db: Db, p: string): Outcome {
    if !InBridges(db.bridges, p) || p !in db.ports then Unchanged
    else
      var k := db.ports[p].config;
      if k.mode.Some? && k.mode != Some(NativeTagged) then Unchanged
      else Put(db, p, k.(mode := Some(NativeUntagged)))
  }

  // ---- Commands on VLANs -----------------------------------------------------------------

  function Insert(db: Db, b: nat, config: VlanConfig): Db
    requires b < |db.bridges|
  {
    db.(vlans := db.vlans + [VlanRec(db.nextUuid, config)],
        bridges := db.bridges[b := db.bridges[b].(vlans := db.bridges[b].vlans + [db.nextUuid])],
        nextUuid := db.nextUuid + 1)
  }

  /** An interface VLAN of the same number becomes a member of the new VLAN. */
  function Adopt(ports: map<string, PortRec>, name: string, vid: int): map<string, PortRec> {
    if name in ports
    then ports[name := ports[name].(config := ports[name].config.(mode := None, tag := Some(vid)))]
    else ports
  }

  /** The row that "vlan" inserts, administratively down. */
  function TypedConfig(arg: string): VlanConfig
    requires Digits(arg)
  {
    VlanConfig(VlanName(arg), Atoi(arg), Some(AdminDown), false)
  }

  /** The row that the daemon inserts, administratively up. */
  const DEFAULT_CONFIG: VlanConfig := VlanConfig(DEFAULT_VLAN_NAME, DEFAULT_VID, Some(AdminUp), false)

  function DoCreateVlan(db: Db, arg: string): Outcome
    requires Digits(arg)
  {
    if HasVlan(db, Atoi(arg)) then Unchanged
    else match PickBridge(db.bridges)
      case None => Faulted
      case Some(b) =>
        var d := Insert(db, b, TypedConfig(arg));
        Committed(d.(ports := Adopt(db.ports, VlanIfName(arg), Atoi(arg))))
  }

  /** What deleting VLAN v makes of a port row; system says whether a system interface has its name. */
  function SweepRow(k: PortConfig, system: bool, v: int): PortConfig {
    var trunks := Without(k.trunks, v);
    if v !in k.trunks && k.tag != Some(v) then k
    else if trunks != [] then PortConfig(Some(Trunk), Some(0), trunks)
    else if system then PortConfig(Some(Access), Some(DEFAULT_VID), trunks)
    else k.(trunks := trunks)
  }

  predicate IsSystem(db: Db, p: string) {
    p in db.interfaces && db.interfaces[p]
  }

  function Sweep(db: Db, v: int): map<string, PortRec> {
    map p | p in db.ports :: db.ports[p].(config := SweepRow(db.ports[p].config, IsSystem(db, p), v))
  }

  function DoDeleteVlan(db: Db, arg: string): Outcome
    requires Digits(arg)
  {
    match FindVlan(db.vlans, Atoi(arg))
    case None => Unchanged
    case Some(i) =>
      if db.vlans[i].config.l3port || VlanIfName(arg) in db.ports then Unchanged
      else match PickBridge(db.bridges)
        case None => Faulted
        case Some(b) =>
          var kept := Without(db.bridges[b].vlans, db.vlans[i].uuid);
          Committed(db.(bridges := db.bridges[b := db.bridges[b].(vlans := kept)],
                        ports := Sweep(db, Atoi(arg)),
                        vlans := db.vlans[..i] + db.vlans[i + 1..]))
  }

  function SetAdmin(db: Db, i: nat, a: Admin): Db
    requires i < |db.vlans|
  {
    db.(vlans := db.vlans[i := db.vlans[i].(config := db.vlans[i].config.(admin := Some(a)))])
  }

  function DoShutdown(db: Db, vid: int): Outcome {
    if vid == DEFAULT_VID then Unchanged
    else match FindVlan(db.vlans, vid)
      case None => Faulted
      case Some(i) => Committed(SetAdmin(db, i, AdminDown))
  }

  function DoNoShutdown(db: Db, vid: int): Outcome {
    match FindVlan(db.vlans, vid)
    case None => Faulted
    case Some(i) => Committed(SetAdmin(db, i, AdminUp))
  }

  function DoCreateDefault(db: Db): Outcome {
    if HasVlan(db, DEFAULT_VID) then Unchanged
    else match NamedBridge(db.bridges)
      case None => Unchanged
      case Some(b) => Committed(Insert(db, b, DEFAULT_CONFIG))
  }

  // ---- Any command -------------------------------------------------------------------------

  /** The names of interface VLANs; port commands are not offered in their context. */
  predicate IsVlanIf(p: string) {
    |p| >= 4 && p[..4] == "vlan"
  }

  predicate InVidRange(arg: string, lo: int) {
    Digits(arg) && lo <= Atoi(arg) <= 4094
  }

  /** The arguments the command patterns admit. */
  predicate Admitted(c: Command) {
    match c
    case CreateVlan(arg) => InVidRange(arg, 1)
    case DeleteVlan(arg) => InVidRange(arg, 2)
    case Shutdown(vid) => ValidVid(vid)
    case NoShutdown(vid) => ValidVid(vid)
    case IntfAllow(p, vids) => !IsVlanIf(p) && forall v :: v in vids ==> ValidVid(v)
    case IntfAccess(p, v) => !IsVlanIf(p) && ValidVid(v)
    case IntfNoAllow(p, v) => !IsVlanIf(p) && ValidVid(v)
    case IntfNative(p, v) => !IsVlanIf(p) && ValidVid(v)
    case LagAccess(p, v) => !IsVlanIf(p) && ValidVid(v)
    case LagAllow(p, v) => !IsVlanIf(p) && ValidVid(v)
    case LagNoAllow(p, v) => !IsVlanIf(p) && ValidVid(v)
    case LagNative(p, v) => !IsVlanIf(p) && ValidVid(v)
    case IntfNoAccess(p, given) => !IsVlanIf(p) && (given.Some? ==> ValidVid(given.value))
    case IntfNoNative(p, given) => !IsVlanIf(p) && (given.Some? ==> ValidVid(given.value))
    case CreateDefault => true
    case _ => !IsVlanIf(c.port)
  }

  ghost function Exec(env: Env, db: Db, c: Command): Outcome
    requires Admitted(c)
  {
    match c
    case CreateVlan(arg) => DoCreateVlan(db, arg)
    case DeleteVlan(arg) => DoDeleteVlan(db, arg)
    case Shutdown(vid) => DoShutdown(db, vid)
    case NoShutdown(vid) => DoNoShutdown(db, vid)
    case IntfAccess(p, vid) => DoIntfAccess(env, db, p, vid)
    case IntfNoAccess(p, given) => DoIntfNoAccess(db, p, given)
    case IntfAllow(p, vids) => DoIntfAllow(env, db, p, vids)
    case IntfNoAllow(p, vid) => DoIntfNoAllow(db, p, vid)
    case IntfNative(p, vid) => DoIntfNative(env, db, p, vid)
    case IntfNoNative(p, given) => DoIntfNoNative(db, p, given)
    case IntfTag(p) => DoIntfTag(db, p)
    case IntfNoTag(p) => DoIntfNoTag(db, p)
    case LagAccess(p, vid) => DoLagAccess(db, p, vid)
    case LagNoAccess(p) => DoLagNoAccess(db, p)
    case LagAllow(p, vid) => DoLagAllow(db, p, vid)
    case LagNoAllow(p, vid) => DoLagNoAllow(db, p, vid)
    case LagNative(p, vid) => DoLagNative(db, p, vid)
    case LagNoNative(p) => DoLagNoNative(db, p)
    case LagTag(p) => DoLagTag(db, p)
    case LagNoTag(p) => DoLagNoTag(db, p)
    case CreateDefault => DoCreateDefault(db)
  }
}
