/** What a command and its "no" form do to each other: the exact rows on which the second undoes the first. */
module CliUndo {
  import opened VlanTypes
  import opened CliCommands
  import opened CliInvariants

  /** Only port p's row differs between two databases that agree with db elsewhere, so comparing rows is enough. */
  lemma PutUndone(db: Db, p: string, k: PortConfig)
    requires p in db.ports
    ensures WithRow(db, p, k) == db <==> db.ports[p].config == k
  {
    assert WithRow(db, p, k).ports[p].config == k;
    WithOwnRow(db, p);
  }

  // ---- Pairs of port commands ------------------------------------------------------------------

  /** d is the "no" form of port command c. */
  predicate Opposite(c: Command, d: Command) {
    match c
    case IntfAccess(p, v) => d == IntfNoAccess(p, None) || d == IntfNoAccess(p, Some(v))
    case IntfAllow(p, vids) => |vids| == 1 && d == IntfNoAllow(p, vids[0])
    case IntfNative(p, v) => d == IntfNoNative(p, None) || d == IntfNoNative(p, Some(v))
    case IntfTag(p) => d == IntfNoTag(p)
    case LagAccess(p, _) => d == LagNoAccess(p)
    case LagAllow(p, v) => d == LagNoAllow(p, v)
    case LagNative(p, _) => d == LagNoNative(p)
    case LagTag(p) => d == LagNoTag(p)
    case _ => false
  }

  /** The row that a plain trunk of these trunks, less v, becomes: an emptied one is an access port on VLAN 1. */
  function TrunkLess(k: PortConfig, v: int): PortConfig {
    var trunks := Without(k.trunks, v);
    if IsNative(k.mode) then k.(trunks := trunks)
    else if trunks == [] then PortConfig(Some(Access), Some(DEFAULT_VID), [])
    else k.(mode := Some(Trunk), trunks := trunks)
  }

  /** What command c and its "no" form leave of row k. */
  function Residue(k: PortConfig, c: Command): PortConfig {
    match c
    case IntfAccess(_, _) => AccessRow(DEFAULT_VID)
    case IntfAllow(_, vids) => if vids == [] then k else NativeMode(k).(trunks := Without(k.trunks, vids[0]))
    case IntfNative(_, _) => NoNativeRow(k)
    case IntfTag(_) => k.(mode := Some(NativeUntagged))
    case LagAccess(_, _) => PortConfig(None, Some(DEFAULT_VID), [])
    case LagAllow(_, v) => TrunkLess(k, v)
    case LagNative(_, _) => NoNativeRow(k)
    case LagTag(_) => k.(mode := Some(NativeUntagged))
    case _ => k
  }

  /** A trunk with trunks or an access port without, on VLAN 1. */
  predicate OnDefault(k: PortConfig) {
    k.tag == Some(DEFAULT_VID) && k.mode == Some(if k.trunks != [] then Trunk else Access)
  }

  /** The rows on which the "no" form undoes the command. */
  predicate Undoable(k: PortConfig, c: Command) {
    match c
    case IntfAccess(_, _) => k.mode == Some(Access) && k.tag == Some(DEFAULT_VID) && k.trunks == []
    case IntfAllow(_, vids) => vids != [] && vids[0] !in k.trunks && IsNative(k.mode)
    case IntfNative(_, _) => OnDefault(k)
    case IntfTag(_) => k.mode == Some(NativeUntagged)
    case LagAccess(_, _) => k.mode == None && k.tag == Some(DEFAULT_VID) && k.trunks == []
    case LagAllow(_, v) =>
      v !in k.trunks && (IsNative(k.mode) || (k.mode == Some(Trunk) && k.trunks != []) || k == AccessRow(DEFAULT_VID))
    case LagNative(_, _) => OnDefault(k)
    case LagTag(_) => k.mode == Some(NativeUntagged)
    case _ => false
  }

  lemma {:induction false} WithoutSame(s: seq<int>, v: int)
    ensures Without(s, v) == s <==> v !in s
  {
    if s != [] {
      assert s == s[..|s| - 1] + [s[|s| - 1]];
      WithoutSame(s[..|s| - 1], v);
    }
  }

  lemma WithoutLast(s: seq<int>, v: int)
    ensures Without(s + [v], v) == Without(s, v)
  {
    assert (s + [v])[..|s|] == s;
  }

  lemma UndoableExactly(k: PortConfig, c: Command, d: Command)
    requires Opposite(c, d)
    ensures Residue(k, c) == k <==> Undoable(k, c)
  {
    match c
    case IntfAllow(_, vids) => WithoutSame(k.trunks, vids[0]);
    case LagAllow(_, v) => WithoutSame(k.trunks, v);
    case _ =>
  }

  /** What one allowed VLAN makes of a row that has a mode. */
  function AllowRow(k: PortConfig, v: int): PortConfig {
    if v in k.trunks then NativeMode(k) else NativeMode(k).(trunks := k.trunks + [v])
  }

  lemma AllowOneVlan(env: Env, db: Db, p: string, v: int)
    requires p in db.ports && v !in env.internalVids && DoIntfAllow(env, db, p, [v]).Committed?
    ensures IntfUsable(db, p) && DoIntfAllow(env, db, p, [v]) == Put(db, p, AllowRow(db.ports[p].config, v))
  {
    var k := db.ports[p].config;
    assert [v][1..] == [];
    if k.mode != None {
      AllowOne(env, db, p, k, [v]);
      var k1 := NativeMode(k).(trunks := k.trunks + [v]);
      assert AllowFrom(env, db, p, k1, []) == Put(db, p, k1);
    }
  }

  lemma AllowThenNo(env: Env, db: Db, p: string, v: int)
    requires p in db.ports && OwnPort(db, p) && v !in env.internalVids && DoIntfAllow(env, db, p, [v]).Committed?
    ensures DoIntfNoAllow(DoIntfAllow(env, db, p, [v]).db, p, v) ==
      Put(db, p, NativeMode(db.ports[p].config).(trunks := Without(db.ports[p].config.trunks, v)))
  {
    var k := db.ports[p].config;
    var k1 := AllowRow(k, v);
    AllowOneVlan(env, db, p, v);
    UsableWithRow(db, p, k1);
    WithoutLast(k.trunks, v);
    WithRowTwice(db, p, k1, NoAllowRow(k1, v));
    assert NoAllowRow(k1, v) == NativeMode(k).(trunks := Without(k.trunks, v));
  }

  lemma LagAllowThenNo(db: Db, p: string, v: int)
    requires DoLagAllow(db, p, v).Committed?
    ensures DoLagNoAllow(DoLagAllow(db, p, v).db, p, v) == Put(db, p, TrunkLess(db.ports[p].config, v))
  {
    var k := db.ports[p].config;
    var k1 := k.(mode := if IsNative(k.mode) then k.mode else Some(Trunk),
                 trunks := if v in k.trunks then k.trunks else k.trunks + [v]);
    WithoutLast(k.trunks, v);
    WithRowTwice(db, p, k1, NoAllowRow(k1, v));
    assert NoAllowRow(k1, v) == TrunkLess(k, v);
  }

  /** The row that a committed command other than the list command leaves. */
  function Interim(k: PortConfig, c: Command): PortConfig {
    match c
    case IntfAccess(_, v) => AccessRow(v)
    case IntfNative(_, v) => NativeRow(k, v)
    case LagAccess(_, v) => AccessRow(v)
    case LagNative(_, v) => NativeRow(k, v)
    case _ => k.(mode := Some(NativeTagged))
  }

  lemma SimplePairLeaves(env: Env, db: Db, c: Command, d: Command)
    requires Admitted(c) && Opposite(c, d) && !c.IntfAllow? && !c.LagAllow? && Exec(env, db, c).Committed?
    ensures Admitted(d) && c.port in db.ports
    ensures Exec(env, Exec(env, db, c).db, d) == Put(db, c.port, Residue(db.ports[c.port].config, c))
  {
    var k := db.ports[c.port].config;
    UsableWithRow(db, c.port, Interim(k, c));
    WithRowTwice(db, c.port, Interim(k, c), Residue(k, c));
    assert Exec(env, db, c) == Put(db, c.port, Interim(k, c));
  }

  /**
   * A committed port command and its "no" form change nothing but the port's row, leave of it the residue,
   * and leave the database as it was exactly on the undoable rows.
   */
  lemma PairUndone(env: Env, db: Db, c: Command, d: Command)
    requires Admitted(c) && Opposite(c, d) && Exec(env, db, c).Committed? && c.port in db.ports
    requires c.IntfAllow? ==> c.vids[0] !in env.internalVids && OwnPort(db, c.port)
    ensures Admitted(d)
    ensures var k, o := db.ports[c.port].config, Exec(env, Exec(env, db, c).db, d);
      && o == Put(db, c.port, Residue(k, c))
      && (o.db == db <==> Undoable(k, c))
  {
    var k := db.ports[c.port].config;
    if c.IntfAllow? {
      assert c.vids == [c.vids[0]];
      AllowThenNo(env, db, c.port, c.vids[0]);
    } else if c.LagAllow? {
      LagAllowThenNo(db, c.port, c.vid);
    } else {
      SimplePairLeaves(env, db, c, d);
    }
    PutUndone(db, c.port, Residue(k, c));
    UndoableExactly(k, c, d);
  }

  // ---- VLANs -------------------------------------------------------------------------------------

  /** "shutdown" and "no shutdown": undone exactly where the VLAN was up. */
  lemma ShutdownThenNo(db: Db, vid: int)
    requires DoShutdown(db, vid).Committed?
    ensures var d := DoShutdown(db, vid).db;
      && DoNoShutdown(d, vid).Committed?
      && (DoNoShutdown(d, vid).db == db <==> AdminIsUp(db.vlans[FindVlan(db.vlans, vid).value].config))
  {
    var i := FindVlan(db.vlans, vid).value;
    var d := DoShutdown(db, vid).db;
    FoundFirst(db.vlans, vid);
    FirstVlan(d.vlans, vid, i);
    var e := SetAdmin(d, i, AdminUp);
    assert e.vlans == db.vlans[i := e.vlans[i]];
    assert db.vlans[i := db.vlans[i]] == db.vlans;
  }

  /** A row that deleting VLAN v leaves alone: without v among its trunks, and tagged v at most idly. */
  predicate Unswept(k: PortConfig, system: bool, v: int) {
    v !in k.trunks && (k.tag == Some(v) ==> k.trunks == [] && !system)
  }

  lemma UnsweptExactly(k: PortConfig, system: bool, v: int)
    requires v > 1
    ensures SweepRow(k, system, v) == k <==> Unswept(k, system, v)
  {
    WithoutSame(k.trunks, v);
  }

  lemma SweepUndone(db: Db, v: int)
    requires v > 1
    ensures Sweep(db, v) == db.ports <==> forall p :: p in db.ports ==> Unswept(db.ports[p].config, IsSystem(db, p), v)
  {
    forall p | p in db.ports
      ensures Sweep(db, v)[p] == db.ports[p] <==> Unswept(db.ports[p].config, IsSystem(db, p), v)
    {
      UnsweptExactly(db.ports[p].config, IsSystem(db, p), v);
    }
  }

  lemma CreatedIsFound(db: Db, b: nat, config: VlanConfig)
    requires b < |db.bridges| && !HasVlan(db, config.id)
    ensures FindVlan(Insert(db, b, config).vlans, config.id) == Some(|db.vlans|)
  {
    var vlans := Insert(db, b, config).vlans;
    assert forall j :: 0 <= j < |db.vlans| ==> vlans[j] == db.vlans[j];
    FirstVlan(vlans, config.id, |db.vlans|);
  }

  lemma BridgeUndone(db: Db, d: Db, b: nat)
    requires BridgeInv(db) && VlansInv(db) && NamedBridge(db.bridges) == Some(b)
    requires d.bridges == db.bridges[b := db.bridges[b].(vlans := db.bridges[b].vlans + [db.nextUuid])]
    ensures NamedBridge(d.bridges) == Some(b)
    ensures d.bridges[b := d.bridges[b].(vlans := Without(d.bridges[b].vlans, db.nextUuid))] == db.bridges
  {
    var list := db.bridges[b].vlans;
    NamedBridgeStays(db.bridges, b, list + [db.nextUuid]);
    assert (list + [db.nextUuid])[..|list|] == list;
    WithoutKeepsOrder(list, db.nextUuid);
  }

  lemma CreateWithoutInterface(db: Db, arg: string)
    requires Digits(arg) && DoCreateVlan(db, arg).Committed? && VlanIfName(arg) !in db.ports
    ensures DoCreateVlan(db, arg) ==
      Committed(Insert(db, PickBridge(db.bridges).value, TypedConfig(arg)))
  {
  }

  /** What the deletion right after the creation makes of the database, port rows apart. */
  lemma DeleteAfterCreate(db: Db, d: Db, b: nat, config: VlanConfig, arg: string)
    requires DbInv(db) && NamedBridge(db.bridges) == Some(b) && Digits(arg) && config.id == Atoi(arg) && !config.l3port
    requires !HasVlan(db, config.id) && VlanIfName(arg) !in db.ports && d == Insert(db, b, config)
    ensures DoDeleteVlan(d, arg) == Committed(db.(nextUuid := db.nextUuid + 1, ports := Sweep(d, Atoi(arg))))
  {
    CreatedIsFound(db, b, config);
    BridgeUndone(db, d, b);
    assert d.vlans[..|db.vlans|] + d.vlans[|db.vlans| + 1..] == db.vlans;
  }

  lemma SweepAfterInsert(db: Db, b: nat, config: VlanConfig, v: int)
    requires b < |db.bridges|
    ensures Sweep(Insert(db, b, config), v) == Sweep(db, v)
  {
  }

  lemma TracesLeft(db: Db, ports: map<string, PortRec>)
    ensures db.(nextUuid := db.nextUuid + 1, ports := ports) == db.(nextUuid := db.nextUuid + 1) <==> ports == db.ports
  {
  }

  /**
   * Creating a VLAN and deleting it leaves no trace but the identity used up, exactly if no port row
   * was waiting for that VLAN: with v among its trunks, or tagged v with other trunks or as a system interface.
   */
  lemma CreateThenDelete(db: Db, arg: string)
    requires DbInv(db) && InVidRange(arg, 2) && DoCreateVlan(db, arg).Committed? && VlanIfName(arg) !in db.ports
    ensures var v, d := Atoi(arg), DoCreateVlan(db, arg).db;
      && DoDeleteVlan(d, arg).Committed?
      && (DoDeleteVlan(d, arg).db == db.(nextUuid := db.nextUuid + 1) <==>
            forall p :: p in db.ports ==> Unswept(db.ports[p].config, IsSystem(db, p), v))
  {
    var v, b := Atoi(arg), PickBridge(db.bridges).value;
    CreateWithoutInterface(db, arg);
    DeleteAfterCreate(db, Insert(db, b, TypedConfig(arg)), b, TypedConfig(arg), arg);
    SweepUndone(db, v);
    SweepAfterInsert(db, b, TypedConfig(arg), v);
    TracesLeft(db, Sweep(db, v));
  }
}
