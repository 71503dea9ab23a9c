/** What every command keeps, and what over any run of commands is never true of the database. */
module CliInvariants {
  import opened VlanTypes
  import opened CliCommands

  // ---- The invariant ---------------------------------------------------------------------

  ghost predicate NoRepeats<T(!new)>(s: seq<T>) {
    forall i, j :: 0 <= i < j < |s| ==> s[i] != s[j]
  }

  /** The id a VLAN name stands for: "VLAN" and at most four digits, or the default VLAN's name. */
  function IdOfName(name: string): Option<int> {
    if name == DEFAULT_VLAN_NAME then Some(DEFAULT_VID)
    else if 4 < |name| <= 8 && name[..4] == "VLAN" && Digits(name[4..]) then Some(Atoi(name[4..]))
    else None
  }

  ghost predicate VlansInv(db: Db) {
    && (forall i :: 0 <= i < |db.vlans| ==>
          var r := db.vlans[i];
          ValidVid(r.config.id) && r.uuid < db.nextUuid)
    && (forall i, j :: 0 <= i < j < |db.vlans| ==>
          db.vlans[i].config.id != db.vlans[j].config.id && db.vlans[i].uuid != db.vlans[j].uuid)
  }

  ghost predicate IsVlanRow(db: Db, uuid: nat) {
    exists i :: 0 <= i < |db.vlans| && db.vlans[i].uuid == uuid
  }

  /** The default bridge lists exactly the rows of the VLAN table, each once. */
  ghost predicate BridgeInv(db: Db) {
    && NamedBridge(db.bridges).Some?
    && var list := db.bridges[NamedBridge(db.bridges).value].vlans;
       NoRepeats(list) && forall u :: u in list <==> IsVlanRow(db, u)
  }

  ghost predicate RowInv(name: string, system: bool, k: PortConfig) {
    && NoRepeats(k.trunks)
    && (k.mode == None || k.mode == Some(Access) ==> k.trunks == [])
    && (system && k.mode == Some(Trunk) ==> k.trunks != [])
    && (IsVlanIf(name) ==> k.mode == None || k.mode == Some(Access))
  }

  ghost predicate PortsInv(db: Db) {
    forall p :: p in db.ports ==> RowInv(p, IsSystem(db, p), db.ports[p].config)
  }

  ghost predicate DbInv(db: Db) {
    VlansInv(db) && BridgeInv(db) && PortsInv(db)
  }

  /** Beside the invariant, true as long as no VLAN is created with more than four digits: names determine ids. */
  ghost predicate NamesInv(db: Db) {
    forall i :: 0 <= i < |db.vlans| ==> IdOfName(db.vlans[i].config.name) == Some(db.vlans[i].config.id)
  }

  /** A database nobody has configured: no VLANs, ports without mode or in access mode and without trunks. */
  ghost predicate Fresh(db: Db) {
    && db.vlans == [] && NamedBridge(db.bridges).Some?
    && db.bridges[NamedBridge(db.bridges).value].vlans == []
    && forall p :: p in db.ports ==>
         db.ports[p].config.trunks == [] && (db.ports[p].config.mode == None || db.ports[p].config.mode == Some(Access))
  }

  lemma FreshHasInv(db: Db)
    requires Fresh(db)
    ensures DbInv(db) && NamesInv(db)
  {
  }

  /** Arguments the patterns admit, a new VLAN being typed with at most four digits. */
  predicate Plain(c: Command) {
    Admitted(c) && (c.CreateVlan? ==> |c.arg| <= 4)
  }

  // ---- Names -----------------------------------------------------------------------------

  lemma {:induction false} AtoiPrefix(s: string, k: nat)
    requires Digits(s) && k <= |s|
    ensures Digits(s[..k]) && Atoi(s) >= Atoi(s[..k])
    decreases |s| - k
  {
    if k < |s| {
      AtoiPrefix(s, k + 1);
      assert s[..k + 1][..k] == s[..k];
    } else {
      assert s[..k] == s;
    }
  }

  /** What an untruncated or truncated name means: the first four digits typed. */
  lemma MeaningOfName(digits: string)
    requires Digits(digits) && 0 < |digits| <= 4
    ensures IdOfName("VLAN" + digits) == Some(Atoi(digits))
  {
    var name := "VLAN" + digits;
    assert |name| < |DEFAULT_VLAN_NAME|;
    assert name[..4] == "VLAN" && name[4..] == digits;
  }

  lemma MoreDigitsMeanMore(arg: string)
    requires Digits(arg) && |arg| > 4 && Atoi(arg) > 0
    ensures Digits(arg[..4]) && Atoi(arg) != Atoi(arg[..4])
  {
    var most := arg[..|arg| - 1];
    AtoiPrefix(most, 4);
    assert most[..4] == arg[..4];
  }

  /** The name of a new VLAN stands for its id exactly when at most four digits were typed. */
  lemma NameStandsForId(arg: string)
    requires InVidRange(arg, 1)
    ensures IdOfName(VlanName(arg)) == Some(Atoi(arg)) <==> |arg| <= 4
  {
    if |arg| <= 4 {
      assert arg != "";
      MeaningOfName(arg);
    } else {
      MoreDigitsMeanMore(arg);
      MeaningOfName(arg[..4]);
      assert ("VLAN" + arg)[..8] == "VLAN" + arg[..4];
    }
  }

  lemma AtoiOfZeros()
    ensures Atoi("0001") == 1
  {
    assert "0001"[..3] == "000" && "000"[..2] == "00" && "00"[..1] == "0" && "0"[..0] == "";
    assert Atoi("0") == 0;
    assert Atoi("00") == 0;
    assert Atoi("000") == 0;
  }

  /** Typed with leading zeros, two VLANs of different ids get the same name. */
  lemma LongArgumentsCollide()
    ensures Admitted(CreateVlan("00012")) && Admitted(CreateVlan("00013"))
    ensures Atoi("00012") == 12 && Atoi("00013") == 13 && VlanName("00012") == VlanName("00013")
  {
    AtoiOfZeros();
    assert "00012"[..4] == "0001" && "00013"[..4] == "0001";
    assert ("VLAN" + "00012")[..8] == ("VLAN" + "00013")[..8];
  }

  // ---- First matches -----------------------------------------------------------------------

  lemma {:induction false} FirstVlan(vlans: seq<VlanRec>, vid: int, i: nat)
    requires i < |vlans| && vlans[i].config.id == vid
    requires forall j :: 0 <= j < i ==> vlans[j].config.id != vid
    ensures FindVlan(vlans, vid) == Some(i)
  {
    if i > 0 {
      assert vlans[0].config.id != vid;
      forall j | 0 <= j < i - 1 ensures vlans[1..][j].config.id != vid {
        assert vlans[1..][j] == vlans[j + 1];
      }
      FirstVlan(vlans[1..], vid, i - 1);
    }
  }

  lemma {:induction false} FoundFirst(vlans: seq<VlanRec>, vid: int)
    requires FindVlan(vlans, vid).Some?
    ensures forall j :: 0 <= j < FindVlan(vlans, vid).value ==> vlans[j].config.id != vid
  {
    if vlans[0].config.id != vid {
      FoundFirst(vlans[1..], vid);
      forall j | 0 <= j < FindVlan(vlans, vid).value ensures vlans[j].config.id != vid {
        if j > 0 { assert vlans[1..][j - 1] == vlans[j]; }
      }
    }
  }

  lemma {:induction false} FirstBridge(bridges: seq<Bridge>, i: nat)
    requires i <= |bridges| && (i < |bridges| ==> bridges[i].name == DEFAULT_BRIDGE_NAME)
    requires forall j :: 0 <= j < i ==> bridges[j].name != DEFAULT_BRIDGE_NAME
    ensures NamedBridge(bridges) == if i < |bridges| then Some(i) else None
  {
    if i > 0 {
      assert bridges[0].name != DEFAULT_BRIDGE_NAME;
      forall j | 0 <= j < i - 1 ensures bridges[1..][j].name != DEFAULT_BRIDGE_NAME {
        assert bridges[1..][j] == bridges[j + 1];
      }
      FirstBridge(bridges[1..], i - 1);
    }
  }

  // ---- Bridges -----------------------------------------------------------------------------

  lemma {:induction false} NamedBridgeStays(bs: seq<Bridge>, i: nat, vlans: seq<nat>)
    requires i < |bs|
    ensures NamedBridge(bs[i := bs[i].(vlans := vlans)]) == NamedBridge(bs)
  {
    var cs := bs[i := bs[i].(vlans := vlans)];
    if i == 0 {
      assert cs[1..] == bs[1..];
    } else {
      assert cs[1..] == bs[1..][i - 1 := bs[1..][i - 1].(vlans := vlans)];
      NamedBridgeStays(bs[1..], i - 1, vlans);
    }
  }

  // ---- Lists ---------------------------------------------------------------------------------

  lemma {:induction false} WithoutKeepsOrder<T(!new)>(s: seq<T>, v: T)
    requires NoRepeats(s)
    ensures NoRepeats(Without(s, v))
    ensures |Without(s, v)| == if v in s then |s| - 1 else |s|
    ensures v !in s ==> Without(s, v) == s
  {
    if s != [] {
      var most, last := s[..|s| - 1], s[|s| - 1];
      assert s == most + [last];
      WithoutKeepsOrder(most, v);
      assert last !in most;
    }
  }

  /** A rebuild sized one less than the list is filled exactly if and only if the value occurs once. */
  lemma {:induction false} RebuildFits<T(!new)>(s: seq<T>, v: T)
    ensures |Without(s, v)| == |s| - multiset(s)[v]
    ensures |Without(s, v)| == |s| - 1 <==> multiset(s)[v] == 1
  {
    if s != [] {
      assert s == s[..|s| - 1] + [s[|s| - 1]];
      RebuildFits(s[..|s| - 1], v);
    }
  }

  /** Nothing else is lost or gained by leaving v out. */
  lemma {:induction false} WithoutConserves<T(!new)>(s: seq<T>, v: T)
    ensures multiset(Without(s, v)) == multiset(s)[v := 0]
  {
    if s != [] {
      assert s == s[..|s| - 1] + [s[|s| - 1]];
      WithoutConserves(s[..|s| - 1], v);
    }
  }

  // ---- VLAN commands keep the invariant ----------------------------------------------------

  lemma InsertKeepsVlans(db: Db, b: nat, config: VlanConfig)
    requires VlansInv(db) && b < |db.bridges|
    requires ValidVid(config.id) && !HasVlan(db, config.id)
    ensures VlansInv(Insert(db, b, config))
  {
    var d := Insert(db, b, config);
    forall i | 0 <= i < |db.vlans| ensures d.vlans[i] == db.vlans[i] && db.vlans[i].config.id != config.id {}
  }

  lemma InsertKeepsBridge(db: Db, b: nat, config: VlanConfig)
    requires VlansInv(db) && BridgeInv(db) && NamedBridge(db.bridges) == Some(b)
    ensures BridgeInv(Insert(db, b, config))
  {
    var d := Insert(db, b, config);
    var list := db.bridges[b].vlans;
    NamedBridgeStays(db.bridges, b, list + [db.nextUuid]);
    assert d.bridges[b].vlans == list + [db.nextUuid];
    assert db.nextUuid !in list;
    forall u ensures IsVlanRow(d, u) <==> IsVlanRow(db, u) || u == db.nextUuid {
      assert d.vlans[|db.vlans|].uuid == db.nextUuid;
      if IsVlanRow(db, u) {
        var i :| 0 <= i < |db.vlans| && db.vlans[i].uuid == u;
        assert d.vlans[i].uuid == u;
      }
    }
  }

  lemma AdoptKeepsPorts(db: Db, d: Db, arg: string, vid: int)
    requires PortsInv(db) && d.ports == Adopt(db.ports, VlanIfName(arg), vid) && d.interfaces == db.interfaces
    ensures PortsInv(d)
  {
    assert IsVlanIf(VlanIfName(arg));
    forall p | p in d.ports ensures RowInv(p, IsSystem(d, p), d.ports[p].config) {
      assert RowInv(p, IsSystem(db, p), db.ports[p].config);
    }
  }

  lemma CreateKeepsInv(db: Db, arg: string)
    requires DbInv(db) && InVidRange(arg, 1)
    ensures DbInv(After(db, DoCreateVlan(db, arg)))
  {
    if !HasVlan(db, Atoi(arg)) {
      var b := PickBridge(db.bridges).value;
      var config := TypedConfig(arg);
      InsertKeepsVlans(db, b, config);
      InsertKeepsBridge(db, b, config);
      AdoptKeepsPorts(db, After(db, DoCreateVlan(db, arg)), arg, Atoi(arg));
    }
  }

  lemma CreateDefaultKeepsInv(db: Db)
    requires DbInv(db)
    ensures DbInv(After(db, DoCreateDefault(db)))
  {
    if !HasVlan(db, DEFAULT_VID) {
      var config := DEFAULT_CONFIG;
      InsertKeepsVlans(db, NamedBridge(db.bridges).value, config);
      InsertKeepsBridge(db, NamedBridge(db.bridges).value, config);
    }
  }

  lemma SetAdminKeepsInv(db: Db, i: nat, a: Admin)
    requires DbInv(db) && i < |db.vlans|
    ensures DbInv(SetAdmin(db, i, a))
  {
    var d := SetAdmin(db, i, a);
    forall j | 0 <= j < |db.vlans| ensures d.vlans[j].uuid == db.vlans[j].uuid
      && d.vlans[j].config.id == db.vlans[j].config.id && d.vlans[j].config.name == db.vlans[j].config.name {}
    forall u ensures IsVlanRow(d, u) <==> IsVlanRow(db, u) {
      if IsVlanRow(db, u) {
        var j :| 0 <= j < |db.vlans| && db.vlans[j].uuid == u;
        assert d.vlans[j].uuid == u;
      }
    }
  }

  lemma SweepRowKeepsInv(p: string, system: bool, k: PortConfig, v: int)
    requires RowInv(p, system, k)
    ensures RowInv(p, system, SweepRow(k, system, v))
  {
    WithoutKeepsOrder(k.trunks, v);
  }

  lemma KeptRow(before: seq<VlanRec>, after: seq<VlanRec>, i: nat, j: nat)
    requires i < |before| && after == before[..i] + before[i + 1..] && j < |before| && j != i
    ensures |after| == |before| - 1 && after[if j < i then j else j - 1] == before[j]
  {
  }

  lemma DeleteKeepsVlans(db: Db, d: Db, i: nat)
    requires VlansInv(db) && i < |db.vlans| && d.vlans == db.vlans[..i] + db.vlans[i + 1..] && d.nextUuid == db.nextUuid
    ensures VlansInv(d)
  {
    forall j | 0 <= j < |d.vlans| ensures d.vlans[j] == db.vlans[if j < i then j else j + 1] {
      KeptRow(db.vlans, d.vlans, i, if j < i then j else j + 1);
    }
  }

  lemma DeleteKeepsRow(db: Db, d: Db, i: nat, u: nat)
    requires VlansInv(db) && i < |db.vlans| && d.vlans == db.vlans[..i] + db.vlans[i + 1..]
    ensures IsVlanRow(d, u) <==> IsVlanRow(db, u) && u != db.vlans[i].uuid
  {
    if IsVlanRow(d, u) {
      var j :| 0 <= j < |d.vlans| && d.vlans[j].uuid == u;
      KeptRow(db.vlans, d.vlans, i, if j < i then j else j + 1);
    }
    if IsVlanRow(db, u) && u != db.vlans[i].uuid {
      var j :| 0 <= j < |db.vlans| && db.vlans[j].uuid == u;
      KeptRow(db.vlans, d.vlans, i, j);
    }
  }

  lemma DeleteKeepsRows(db: Db, d: Db, i: nat)
    requires VlansInv(db) && i < |db.vlans| && d.vlans == db.vlans[..i] + db.vlans[i + 1..]
    ensures forall u :: IsVlanRow(d, u) <==> IsVlanRow(db, u) && u != db.vlans[i].uuid
  {
    forall u ensures IsVlanRow(d, u) <==> IsVlanRow(db, u) && u != db.vlans[i].uuid {
      DeleteKeepsRow(db, d, i, u);
    }
  }

  lemma DeleteKeepsBridge(db: Db, d: Db, i: nat, b: nat)
    requires BridgeInv(db) && i < |db.vlans| && NamedBridge(db.bridges) == Some(b)
    requires d.bridges == db.bridges[b := db.bridges[b].(vlans := Without(db.bridges[b].vlans, db.vlans[i].uuid))]
    requires forall u :: IsVlanRow(d, u) <==> IsVlanRow(db, u) && u != db.vlans[i].uuid
    ensures BridgeInv(d)
    ensures |d.bridges[b].vlans| == |db.bridges[b].vlans| - 1
  {
    NamedBridgeStays(db.bridges, b, Without(db.bridges[b].vlans, db.vlans[i].uuid));
    WithoutKeepsOrder(db.bridges[b].vlans, db.vlans[i].uuid);
    assert IsVlanRow(db, db.vlans[i].uuid);
  }

  lemma DeleteKeepsInv(db: Db, arg: string)
    requires DbInv(db) && Digits(arg)
    ensures DbInv(After(db, DoDeleteVlan(db, arg)))
  {
    var o := DoDeleteVlan(db, arg);
    if o.Committed? {
      var i, b := FindVlan(db.vlans, Atoi(arg)).value, PickBridge(db.bridges).value;
      DeleteKeepsVlans(db, o.db, i);
      DeleteKeepsRows(db, o.db, i);
      DeleteKeepsBridge(db, o.db, i, b);
      forall p | p in o.db.ports ensures RowInv(p, IsSystem(o.db, p), o.db.ports[p].config) {
        SweepRowKeepsInv(p, IsSystem(db, p), db.ports[p].config, Atoi(arg));
      }
    }
  }

  // ---- Port commands keep the invariant ------------------------------------------------------

  /** The outcome leaves everything alone but the row of port p, which keeps its invariant. */
  ghost predicate OnlyRow(db: Db, o: Outcome, p: string) {
    o.Committed? ==>
      && p in db.ports && p in o.db.ports
      && o.db == db.(ports := db.ports[p := db.ports[p].(config := o.db.ports[p].config)])
      && RowInv(p, IsSystem(db, p), o.db.ports[p].config)
  }

  lemma OnlyRowKeepsInv(db: Db, o: Outcome, p: string)
    requires DbInv(db) && OnlyRow(db, o, p)
    ensures DbInv(After(db, o))
  {
  }

  lemma AppendKeepsNoRepeats(s: seq<int>, v: int)
    requires NoRepeats(s) && v !in s
    ensures NoRepeats(s + [v])
  {
  }

  lemma {:induction false} AllowFromOnlyRow(env: Env, db: Db, p: string, k: PortConfig, vids: seq<int>)
    requires PortsInv(db) && !IsVlanIf(p) && (p in db.ports ==> RowInv(p, IsSystem(db, p), k))
    ensures OnlyRow(db, AllowFrom(env, db, p, k, vids), p)
    decreases |vids|
  {
    if vids == [] {
    } else if vids[0] in env.internalVids {
      AllowFromOnlyRow(env, db, p, k, vids[1..]);
    } else if IntfUsable(db, p) && k.mode != None {
      var k1 := k.(mode := if IsNative(k.mode) then k.mode else Some(NativeUntagged));
      if vids[0] !in k1.trunks {
        AppendKeepsNoRepeats(k1.trunks, vids[0]);
        AllowFromOnlyRow(env, db, p, k1.(trunks := k1.trunks + [vids[0]]), vids[1..]);
      }
    }
  }

  lemma IntfOnlyRow(env: Env, db: Db, c: Command)
    requires PortsInv(db) && Admitted(c)
    requires c.IntfAccess? || c.IntfNoAccess? || c.IntfAllow? || c.IntfNoAllow? || c.IntfNative? || c.IntfNoNative?
             || c.IntfTag? || c.IntfNoTag?
    ensures OnlyRow(db, Exec(env, db, c), c.port)
  {
    match c
    case IntfAllow(p, vids) =>
      AllowFromOnlyRow(env, db, p, if p in db.ports then db.ports[p].config else PortConfig(None, None, []), vids);
    case IntfNoAllow(p, v) =>
      if p in db.ports { WithoutKeepsOrder(db.ports[p].config.trunks, v); }
    case _ =>
  }

  lemma LagOnlyRow(env: Env, db: Db, c: Command)
    requires PortsInv(db) && Admitted(c)
    requires c.LagAccess? || c.LagNoAccess? || c.LagAllow? || c.LagNoAllow? || c.LagNative? || c.LagNoNative?
             || c.LagTag? || c.LagNoTag?
    ensures OnlyRow(db, Exec(env, db, c), c.port)
  {
    match c
    case LagNoAllow(p, v) =>
      if p in db.ports { WithoutKeepsOrder(db.ports[p].config.trunks, v); }
    case LagAllow(p, v) =>
      if p in db.ports && v !in db.ports[p].config.trunks { AppendKeepsNoRepeats(db.ports[p].config.trunks, v); }
    case _ =>
  }

  /** Every command, whatever its outcome, keeps the invariant of the database. */
  lemma ExecKeepsInv(env: Env, db: Db, c: Command)
    requires DbInv(db) && Admitted(c)
    ensures DbInv(After(db, Exec(env, db, c)))
  {
    match c
    case CreateVlan(arg) => CreateKeepsInv(db, arg);
    case DeleteVlan(arg) => DeleteKeepsInv(db, arg);
    case Shutdown(vid) =>
      if FindVlan(db.vlans, vid).Some? { SetAdminKeepsInv(db, FindVlan(db.vlans, vid).value, AdminDown); }
    case NoShutdown(vid) =>
      if FindVlan(db.vlans, vid).Some? { SetAdminKeepsInv(db, FindVlan(db.vlans, vid).value, AdminUp); }
    case CreateDefault => CreateDefaultKeepsInv(db);
    case IntfAccess(_, _) => IntfOnlyRow(env, db, c); OnlyRowKeepsInv(db, Exec(env, db, c), c.port);
    case IntfNoAccess(_, _) => IntfOnlyRow(env, db, c); OnlyRowKeepsInv(db, Exec(env, db, c), c.port);
    case IntfAllow(_, _) => IntfOnlyRow(env, db, c); OnlyRowKeepsInv(db, Exec(env, db, c), c.port);
    case IntfNoAllow(_, _) => IntfOnlyRow(env, db, c); OnlyRowKeepsInv(db, Exec(env, db, c), c.port);
    case IntfNative(_, _) => IntfOnlyRow(env, db, c); OnlyRowKeepsInv(db, Exec(env, db, c), c.port);
    case IntfNoNative(_, _) => IntfOnlyRow(env, db, c); OnlyRowKeepsInv(db, Exec(env, db, c), c.port);
    case IntfTag(_) => IntfOnlyRow(env, db, c); OnlyRowKeepsInv(db, Exec(env, db, c), c.port);
    case IntfNoTag(_) => IntfOnlyRow(env, db, c); OnlyRowKeepsInv(db, Exec(env, db, c), c.port);
    case _ => LagOnlyRow(env, db, c); OnlyRowKeepsInv(db, Exec(env, db, c), c.port);
  }

  // ---- One row replaced ------------------------------------------------------------------------

  ghost function WithRow(db: Db, p: string, k: PortConfig): Db
    requires p in db.ports
  {
    Put(db, p, k).db
  }

  lemma WithRowTwice(db: Db, p: string, k: PortConfig, m: PortConfig)
    requires p in db.ports
    ensures Put(WithRow(db, p, k), p, m) == Put(db, p, m)
  {
    var d := WithRow(db, p, k);
    assert d.ports[p := d.ports[p].(config := m)] == db.ports[p := db.ports[p].(config := m)];
  }

  lemma WithOwnRow(db: Db, p: string)
    requires p in db.ports
    ensures WithRow(db, p, db.ports[p].config) == db
  {
    assert db.ports[p := db.ports[p].(config := db.ports[p].config)] == db.ports;
  }

  lemma UsableWithRow(db: Db, p: string, k: PortConfig)
    requires p in db.ports
    ensures IntfUsable(WithRow(db, p, k), p) <==> IntfUsable(db, p)
  {
    var d := WithRow(db, p, k);
    assert forall q :: q in d.ports <==> q in db.ports;
    assert forall q :: q in d.ports ==> d.ports[q].interfaces == db.ports[q].interfaces;
  }

  // ---- Runs ------------------------------------------------------------------------------------

  datatype Typed = Typed(env: Env, command: Command)

  predicate AdmittedRun(run: seq<Typed>) {
    forall i :: 0 <= i < |run| ==> Admitted(run[i].command)
  }

  predicate PlainRun(run: seq<Typed>) {
    forall i :: 0 <= i < |run| ==> Plain(run[i].command)
  }

  ghost function RunCommands(db: Db, run: seq<Typed>): Db
    requires AdmittedRun(run)
    decreases |run|
  {
    if run == [] then db else
      var d := RunCommands(db, run[..|run| - 1]);
      After(d, Exec(run[|run| - 1].env, d, run[|run| - 1].command))
  }

  /** Over any run of commands, the daemon's creation of the default VLAN among them. */
  lemma {:induction false} RunsKeepInv(db: Db, run: seq<Typed>)
    requires DbInv(db) && AdmittedRun(run)
    ensures DbInv(RunCommands(db, run))
    decreases |run|
  {
    if run == [] {
    } else {
      RunsKeepInv(db, run[..|run| - 1]);
      var d := RunCommands(db, run[..|run| - 1]);
      ExecKeepsInv(run[|run| - 1].env, d, run[|run| - 1].command);
    }
  }

  /** A committed creation keeps names meaning ids exactly when at most four digits were typed. */
  lemma CreateKeepsNames(db: Db, arg: string)
    requires NamesInv(db) && InVidRange(arg, 1) && DoCreateVlan(db, arg).Committed?
    ensures NamesInv(DoCreateVlan(db, arg).db) <==> |arg| <= 4
  {
    var d := DoCreateVlan(db, arg).db;
    NameStandsForId(arg);
    assert d.vlans[|db.vlans|].config.name == VlanName(arg);
    forall i | 0 <= i < |db.vlans| ensures d.vlans[i] == db.vlans[i] {}
  }

  lemma DeleteKeepsNames(db: Db, arg: string)
    requires NamesInv(db) && Digits(arg) && DoDeleteVlan(db, arg).Committed?
    ensures NamesInv(DoDeleteVlan(db, arg).db)
  {
    var d, at := DoDeleteVlan(db, arg).db, FindVlan(db.vlans, Atoi(arg)).value;
    forall i | 0 <= i < |d.vlans| ensures d.vlans[i] == db.vlans[if i < at then i else i + 1] {
      KeptRow(db.vlans, d.vlans, at, if i < at then i else i + 1);
    }
  }

  /** Commands on a port leave the VLAN table and the bridges alone. */
  lemma PortCommandsKeepVlans(env: Env, db: Db, c: Command)
    requires PortsInv(db) && Admitted(c)
    requires !c.CreateVlan? && !c.DeleteVlan? && !c.Shutdown? && !c.NoShutdown? && !c.CreateDefault?
    ensures var d := After(db, Exec(env, db, c)); d == db.(ports := d.ports) && d.ports.Keys == db.ports.Keys
  {
    if c.IntfAccess? || c.IntfNoAccess? || c.IntfAllow? || c.IntfNoAllow? || c.IntfNative? || c.IntfNoNative?
       || c.IntfTag? || c.IntfNoTag? {
      IntfOnlyRow(env, db, c);
    } else {
      LagOnlyRow(env, db, c);
    }
  }

  lemma ExecKeepsNames(env: Env, db: Db, c: Command)
    requires DbInv(db) && NamesInv(db) && Plain(c)
    ensures NamesInv(After(db, Exec(env, db, c)))
  {
    if !Exec(env, db, c).Committed? {
    } else if c.CreateVlan? {
      CreateKeepsNames(db, c.arg);
    } else if c.DeleteVlan? {
      DeleteKeepsNames(db, c.arg);
    } else if !c.Shutdown? && !c.NoShutdown? && !c.CreateDefault? {
      PortCommandsKeepVlans(env, db, c);
    }
  }

  /** Over any run in which VLANs are created with at most four digits. */
  lemma {:induction false} RunsKeepNames(db: Db, run: seq<Typed>)
    requires DbInv(db) && NamesInv(db) && PlainRun(run)
    ensures NamesInv(RunCommands(db, run))
    decreases |run|
  {
    if run == [] {
    } else {
      var most := run[..|run| - 1];
      RunsKeepInv(db, most);
      RunsKeepNames(db, most);
      ExecKeepsNames(run[|run| - 1].env, RunCommands(db, most), run[|run| - 1].command);
    }
  }

  /** From a database nobody has configured, every run of commands ends in the invariant. */
  lemma FreshRunsHaveInv(db: Db, run: seq<Typed>)
    requires Fresh(db) && AdmittedRun(run)
    ensures DbInv(RunCommands(db, run))
    ensures PlainRun(run) ==> NamesInv(RunCommands(db, run))
  {
    FreshHasInv(db);
    RunsKeepInv(db, run);
    if PlainRun(run) { RunsKeepNames(db, run); }
  }

  /** VLAN 1 is there and administratively up. */
  ghost predicate DefaultUp(db: Db) {
    exists i :: 0 <= i < |db.vlans| && db.vlans[i].config.id == DEFAULT_VID && AdminIsUp(db.vlans[i].config)
  }

  lemma InsertKeepsDefaultUp(db: Db, b: nat, config: VlanConfig)
    requires DefaultUp(db) && b < |db.bridges|
    ensures DefaultUp(Insert(db, b, config))
  {
    var i :| 0 <= i < |db.vlans| && db.vlans[i].config.id == DEFAULT_VID && AdminIsUp(db.vlans[i].config);
    assert Insert(db, b, config).vlans[i] == db.vlans[i];
  }

  lemma DeleteKeepsDefaultUp(db: Db, arg: string)
    requires DefaultUp(db) && InVidRange(arg, 2) && DoDeleteVlan(db, arg).Committed?
    ensures DefaultUp(DoDeleteVlan(db, arg).db)
  {
    var i :| 0 <= i < |db.vlans| && db.vlans[i].config.id == DEFAULT_VID && AdminIsUp(db.vlans[i].config);
    var j := FindVlan(db.vlans, Atoi(arg)).value;
    assert DoDeleteVlan(db, arg).db.vlans[if i < j then i else i - 1] == db.vlans[i];
  }

  lemma SetAdminKeepsDefaultUp(db: Db, i: nat, a: Admin)
    requires DefaultUp(db) && i < |db.vlans| && (a == AdminUp || db.vlans[i].config.id != DEFAULT_VID)
    ensures DefaultUp(SetAdmin(db, i, a))
  {
    var j :| 0 <= j < |db.vlans| && db.vlans[j].config.id == DEFAULT_VID && AdminIsUp(db.vlans[j].config);
    assert SetAdmin(db, i, a).vlans[j].config.id == DEFAULT_VID;
  }

  lemma ExecKeepsDefaultUp(env: Env, db: Db, c: Command)
    requires DbInv(db) && DefaultUp(db) && Admitted(c)
    ensures DefaultUp(After(db, Exec(env, db, c)))
  {
    match c
    case CreateVlan(arg) =>
      if DoCreateVlan(db, arg).Committed? {
        var config := TypedConfig(arg);
        InsertKeepsDefaultUp(db, PickBridge(db.bridges).value, config);
        assert DoCreateVlan(db, arg).db.vlans == Insert(db, PickBridge(db.bridges).value, config).vlans;
      }
    case DeleteVlan(arg) =>
      if DoDeleteVlan(db, arg).Committed? { DeleteKeepsDefaultUp(db, arg); }
    case Shutdown(vid) =>
      if DoShutdown(db, vid).Committed? { SetAdminKeepsDefaultUp(db, FindVlan(db.vlans, vid).value, AdminDown); }
    case NoShutdown(vid) =>
      if DoNoShutdown(db, vid).Committed? { SetAdminKeepsDefaultUp(db, FindVlan(db.vlans, vid).value, AdminUp); }
    case CreateDefault =>
      if DoCreateDefault(db).Committed? {
        InsertKeepsDefaultUp(db, NamedBridge(db.bridges).value, DEFAULT_CONFIG);
      }
    case _ => PortCommandsKeepVlans(env, db, c);
  }

  /** Once VLAN 1 exists and is up, no run of commands removes it or shuts it down. */
  lemma {:induction false} DefaultVlanStaysUp(db: Db, run: seq<Typed>)
    requires DbInv(db) && DefaultUp(db) && AdmittedRun(run)
    ensures DefaultUp(RunCommands(db, run))
    decreases |run|
  {
    if run == [] {
    } else {
      DefaultVlanStaysUp(db, run[..|run| - 1]);
      RunsKeepInv(db, run[..|run| - 1]);
      ExecKeepsDefaultUp(run[|run| - 1].env, RunCommands(db, run[..|run| - 1]), run[|run| - 1].command);
    }
  }

  lemma CreateDefaultMakesItUp(db: Db)
    requires DbInv(db) && !HasVlan(db, DEFAULT_VID)
    ensures DefaultUp(After(db, DoCreateDefault(db)))
  {
    var d := After(db, DoCreateDefault(db));
    assert d.vlans[|db.vlans|].config.id == DEFAULT_VID;
  }

  // ---- Deleting a VLAN -----------------------------------------------------------------------

  lemma SweptRow(k: PortConfig, system: bool, v: int)
    requires NoRepeats(k.trunks) && v > 1
    ensures var m := SweepRow(k, system, v);
      && v !in m.trunks && multiset(m.trunks) == multiset(k.trunks)[v := 0]
      && (v !in k.trunks && k.tag != Some(v) ==> m == k)
      && (m.tag == Some(v) ==> m.trunks == [] && !system)
  {
    WithoutConserves(k.trunks, v);
    WithoutKeepsOrder(k.trunks, v);
  }

  lemma DeletedVlanIsGone(db: Db, arg: string)
    requires VlansInv(db) && Digits(arg) && DoDeleteVlan(db, arg).Committed?
    ensures !HasVlan(DoDeleteVlan(db, arg).db, Atoi(arg))
  {
    var v, d := Atoi(arg), DoDeleteVlan(db, arg).db;
    var i := FindVlan(db.vlans, v).value;
    forall j | 0 <= j < |d.vlans| ensures d.vlans[j].config.id != v {
      KeptRow(db.vlans, d.vlans, i, if j < i then j else j + 1);
    }
  }

  /**
   * After VLAN v was deleted: no trunk list has it and no other entry is lost; a port that did not
   * carry it is untouched; and a port still tagged with it has no trunks and no system interface.
   */
  lemma DeletionSweeps(db: Db, arg: string, p: string)
    requires DbInv(db) && InVidRange(arg, 2) && DoDeleteVlan(db, arg).Committed? && p in db.ports
    ensures var v, d := Atoi(arg), DoDeleteVlan(db, arg).db;
      && !HasVlan(d, v) && d.ports.Keys == db.ports.Keys
      && var k, m := db.ports[p].config, d.ports[p].config;
         && v !in m.trunks && multiset(m.trunks) == multiset(k.trunks)[v := 0]
         && (v !in k.trunks && k.tag != Some(v) ==> m == k)
         && (m.tag == Some(v) ==> m.trunks == [] && !IsSystem(db, p))
  {
    SweptRow(db.ports[p].config, IsSystem(db, p), Atoi(arg));
    DeletedVlanIsGone(db, arg);
  }

  /** In the bridge and in every swept trunk list, exactly one entry goes. */
  lemma DeletionRebuildsFit(db: Db, arg: string, p: string)
    requires DbInv(db) && Digits(arg) && DoDeleteVlan(db, arg).Committed? && p in db.ports
    ensures var v, d, b := Atoi(arg), DoDeleteVlan(db, arg).db, PickBridge(db.bridges).value;
      && |d.bridges[b].vlans| == |db.bridges[b].vlans| - 1
      && (v in db.ports[p].config.trunks ==> |d.ports[p].config.trunks| == |db.ports[p].config.trunks| - 1)
  {
    var v, d, b := Atoi(arg), DoDeleteVlan(db, arg).db, PickBridge(db.bridges).value;
    var i := FindVlan(db.vlans, v).value;
    WithoutKeepsOrder(db.ports[p].config.trunks, v);
    DeleteKeepsRows(db, d, i);
    DeleteKeepsBridge(db, d, i, b);
  }

  // ---- "vlan trunk allowed" with a list --------------------------------------------------------

  /** The VLANs of the list that are not in internal use: the others are skipped. */
  function NotInternal(env: Env, vids: seq<int>): (r: seq<int>)
    ensures forall v :: v in r <==> v in vids && v !in env.internalVids
  {
    if vids == [] then [] else
      assert vids == [vids[0]] + vids[1..];
      (if vids[0] in env.internalVids then [] else [vids[0]]) + NotInternal(env, vids[1..])
  }

  /** Place n is the first whose VLAN is already allowed by then, or the end. */
  ghost predicate StopsAt(trunks: seq<int>, work: seq<int>, n: nat) {
    && n <= |work|
    && (forall i :: 0 <= i < n ==> work[i] !in trunks + work[..i])
    && (n < |work| ==> work[n] in trunks + work[..n])
  }

  ghost predicate MayAllow(env: Env, db: Db, p: string, vid: int) {
    !(env.minInternal <= vid <= env.maxInternal) && IntfUsable(db, p) && HasVlan(db, vid)
  }

  /** Every element looked at, up to and including the one that stops the loop, may be allowed. */
  ghost predicate AllMayBeAllowed(env: Env, db: Db, p: string, work: seq<int>, n: nat) {
    forall i :: 0 <= i <= n && i < |work| ==> MayAllow(env, db, p, work[i])
  }

  /** The row after the first n elements were added. */
  function AllowedRow(k: PortConfig, work: seq<int>, n: nat): PortConfig
    requires n <= |work|
  {
    k.(mode := if work == [] || IsNative(k.mode) then k.mode else Some(NativeUntagged), trunks := k.trunks + work[..n])
  }

  lemma {:induction false} AllowFromSkips(env: Env, db: Db, p: string, k: PortConfig, vids: seq<int>)
    requires p in db.ports
    ensures AllowFrom(env, db, p, k, vids) == AllowFrom(env, db, p, k, NotInternal(env, vids))
    decreases |vids|
  {
    if vids == [] {
    } else if vids[0] in env.internalVids {
      AllowFromSkips(env, db, p, k, vids[1..]);
      assert NotInternal(env, vids) == NotInternal(env, vids[1..]);
    } else {
      var k1 := k.(mode := if IsNative(k.mode) then k.mode else Some(NativeUntagged));
      assert NotInternal(env, vids)[1..] == NotInternal(env, vids[1..]);
      AllowFromSkips(env, db, p, k1.(trunks := k1.trunks + [vids[0]]), vids[1..]);
    }
  }

  function NativeMode(k: PortConfig): PortConfig {
    k.(mode := if IsNative(k.mode) then k.mode else Some(NativeUntagged))
  }

  lemma AllowOne(env: Env, db: Db, p: string, k: PortConfig, work: seq<int>)
    requires p in db.ports && work != [] && work[0] !in env.internalVids && k.mode != None
    ensures AllowFrom(env, db, p, k, work) ==
      if !MayAllow(env, db, p, work[0]) then Unchanged
      else if work[0] in k.trunks then Put(db, p, NativeMode(k))
      else AllowFrom(env, db, p, NativeMode(k).(trunks := k.trunks + [work[0]]), work[1..])
  {
  }

  lemma RowAfterOne(k: PortConfig, work: seq<int>, n: nat)
    requires 0 < n <= |work|
    ensures AllowedRow(NativeMode(k).(trunks := k.trunks + [work[0]]), work[1..], n - 1) == AllowedRow(k, work, n)
  {
    assert k.trunks + [work[0]] + work[1..][..n - 1] == k.trunks + work[..n];
  }

  lemma AllowShift(trunks: seq<int>, work: seq<int>, n: nat)
    requires StopsAt(trunks, work, n) && n > 0
    ensures StopsAt(trunks + [work[0]], work[1..], n - 1) && work[0] !in trunks
  {
    assert trunks + work[..0] == trunks;
    forall i | 0 <= i < |work| ensures trunks + [work[0]] + work[1..][..i] == trunks + work[..i + 1] {}
  }

  lemma AllowedShift(env: Env, db: Db, p: string, work: seq<int>, n: nat)
    requires n > 0 && work != [] && MayAllow(env, db, p, work[0])
    ensures AllMayBeAllowed(env, db, p, work, n) <==> AllMayBeAllowed(env, db, p, work[1..], n - 1)
  {
    if AllMayBeAllowed(env, db, p, work[1..], n - 1) {
      forall i | 0 <= i <= n && i < |work| ensures MayAllow(env, db, p, work[i]) {
        if i > 0 { assert work[1..][i - 1] == work[i]; }
      }
    }
    if AllMayBeAllowed(env, db, p, work, n) {
      forall i | 0 <= i <= n - 1 && i < |work[1..]| ensures MayAllow(env, db, p, work[1..][i]) {
        assert work[1..][i] == work[i + 1];
      }
    }
  }

  lemma {:induction false} AllowWork(env: Env, db: Db, p: string, k: PortConfig, work: seq<int>, n: nat)
    requires p in db.ports && StopsAt(k.trunks, work, n) && forall v :: v in work ==> v !in env.internalVids
    requires work != [] ==> k.mode != None
    ensures AllowFrom(env, db, p, k, work) ==
      if AllMayBeAllowed(env, db, p, work, n) then Put(db, p, AllowedRow(k, work, n)) else Unchanged
    decreases |work|
  {
    if work == [] {
      assert k.trunks + work[..n] == k.trunks;
    } else {
      var first := work[0];
      assert first in work;
      AllowOne(env, db, p, k, work);
      if !MayAllow(env, db, p, work[0]) {
      } else if n > 0 {
        var k2 := NativeMode(k).(trunks := k.trunks + [work[0]]);
        AllowShift(k.trunks, work, n);
        AllowWork(env, db, p, k2, work[1..], n - 1);
        AllowedShift(env, db, p, work, n);
        RowAfterOne(k, work, n);
      } else {
        assert k.trunks + work[..0] == k.trunks;
      }
    }
  }

  lemma AllowWorkWithoutMode(env: Env, db: Db, p: string, k: PortConfig, work: seq<int>)
    requires p in db.ports && work != [] && k.mode == None && forall v :: v in work ==> v !in env.internalVids
    ensures AllowFrom(env, db, p, k, work) == if MayAllow(env, db, p, work[0]) then Faulted else Unchanged
  {
    var first := work[0];
    assert first in work;
  }

  /**
   * The list command on an existing port: it commits the old trunks followed by the elements not in
   * internal use, up to the first one already allowed; or, when an element looked at may not be
   * allowed, changes nothing. A missing mode is read when the first element may be allowed.
   */
  lemma AllowListOutcome(env: Env, db: Db, p: string, vids: seq<int>, n: nat)
    requires p in db.ports && vids != [] && env.hasSystem
    requires StopsAt(db.ports[p].config.trunks, NotInternal(env, vids), n)
    ensures var k, work := db.ports[p].config, NotInternal(env, vids);
      DoIntfAllow(env, db, p, vids) ==
        if k.mode == None && work != [] && MayAllow(env, db, p, work[0]) then Faulted
        else if AllMayBeAllowed(env, db, p, work, n) then Put(db, p, AllowedRow(k, work, n))
        else Unchanged
  {
    var k, work := db.ports[p].config, NotInternal(env, vids);
    AllowFromSkips(env, db, p, k, vids);
    if k.mode == None && work != [] {
      AllowWorkWithoutMode(env, db, p, k, work);
      assert AllMayBeAllowed(env, db, p, work, n) ==> MayAllow(env, db, p, work[0]);
    } else {
      AllowWork(env, db, p, k, work, n);
    }
  }

  /** Without a port row the list command changes nothing. */
  lemma {:induction false} AllowListWithoutPort(env: Env, db: Db, p: string, k: PortConfig, vids: seq<int>)
    requires p !in db.ports
    ensures AllowFrom(env, db, p, k, vids) == Unchanged
    decreases |vids|
  {
    if vids != [] && vids[0] in env.internalVids {
      AllowListWithoutPort(env, db, p, k, vids[1..]);
    }
  }

  /** There is exactly one place to stop. */
  lemma {:induction false} StopPlace(trunks: seq<int>, work: seq<int>) returns (n: nat)
    ensures StopsAt(trunks, work, n)
    ensures forall m: nat :: StopsAt(trunks, work, m) ==> m == n
    decreases |work|
  {
    n := 0;
    while n < |work| && work[n] !in trunks + work[..n]
      invariant n <= |work| && forall i :: 0 <= i < n ==> work[i] !in trunks + work[..i]
    {
      n := n + 1;
    }
  }

  /** The list command reads a missing mode column exactly when its first working element may be allowed. */
  lemma AllowListFaults(env: Env, db: Db, p: string, vids: seq<int>)
    requires p in db.ports && vids != [] && env.hasSystem
    ensures var work := NotInternal(env, vids);
      DoIntfAllow(env, db, p, vids).Faulted? <==>
        db.ports[p].config.mode == None && work != [] && MayAllow(env, db, p, work[0])
  {
    var n := StopPlace(db.ports[p].config.trunks, NotInternal(env, vids));
    AllowListOutcome(env, db, p, vids, n);
  }
}
