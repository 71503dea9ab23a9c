/**
 * VLANs that share a name. The daemon's tables are keyed by name, so of rows with one name only the first is
 * ever looked at; the others are never written, over any history.
 */
module NameCollisions {
  import opened VlanTypes
  import opened CliCommands
  import opened CliInvariants
  import opened VlanCache
  import opened PassInvariant
  import opened Reconciliation
  import opened PassProperties
  import opened DaemonRuns
  import opened EndToEnd
  import RestValidator
  import VlandDaemon

  // ---- Shadowed rows ---------------------------------------------------------------------------

  /** Another row of the table comes before row j and has its name. */
  ghost predicate Shadowed(db: Db, j: nat)
    requires j < |db.vlans|
  {
    !Leading(db, j)
  }

  lemma {:induction false} FirstOfName(rows: seq<VlanRow>, k: nat) returns (f: nat)
    requires k < |rows|
    ensures f <= k && rows[f].config.name == rows[k].config.name && rows[k].config.name in VlanIndex(rows)
    ensures VlanIndex(rows)[rows[k].config.name] == rows[f]
    decreases |rows|
  {
    var most, last := rows[..|rows| - 1], rows[|rows| - 1];
    assert rows == most + [last];
    if k < |most| {
      f := FirstOfName(most, k);
    } else if last.config.name in VlanIndex(most) {
      var i :| 0 <= i < |most| && most[i] == VlanIndex(most)[last.config.name];
      f := FirstOfName(most, i);
    } else {
      f := k;
    }
  }

  lemma OtherNameOtherRow(s: Snapshot, db: Db, j: nat, n: string)
    requires VlansInv(db) && Mirrors(s, db) && j < |db.vlans| && n in VlanIndex(s.vlans) && n != db.vlans[j].config.name
    ensures VlanIndex(s.vlans)[n].uuid != db.vlans[j].uuid
  {
    var i :| 0 <= i < |s.vlans| && s.vlans[i] == VlanIndex(s.vlans)[n];
    assert i != j && s.vlans[i].uuid == db.vlans[i].uuid;
  }

  lemma ShadowedIsUnindexed(s: Snapshot, db: Db, j: nat)
    requires VlansInv(db) && Mirrors(s, db) && j < |db.vlans| && Shadowed(db, j)
    ensures Unindexed(s, db.vlans[j].uuid)
  {
    var k :| 0 <= k < j && db.vlans[k].config.name == db.vlans[j].config.name;
    var f := FirstOfName(s.vlans, k);
    assert db.vlans[f].uuid != db.vlans[j].uuid;
    forall n | n in VlanIndex(s.vlans) ensures VlanIndex(s.vlans)[n].uuid != db.vlans[j].uuid {
      if n != db.vlans[j].config.name { OtherNameOtherRow(s, db, j, n); }
    }
  }

  lemma UnusedIsUnindexed(s: Snapshot, db: Db, uuid: nat)
    requires VlansInv(db) && Mirrors(s, db) && uuid >= db.nextUuid
    ensures Unindexed(s, uuid)
  {
    forall n | n in VlanIndex(s.vlans) ensures VlanIndex(s.vlans)[n].uuid != uuid {
      var i :| 0 <= i < |s.vlans| && s.vlans[i] == VlanIndex(s.vlans)[n];
    }
  }

  ghost predicate ShadowedIn(db: Db, uuid: nat) {
    exists j :: 0 <= j < |db.vlans| && Shadowed(db, j) && db.vlans[j].uuid == uuid
  }

  /**
   * From db to d no row that led its name comes to be shadowed: rows are only added at the end, and keep
   * their names.
   */
  ghost predicate NoNewShadows(db: Db, d: Db) {
    && db.nextUuid <= d.nextUuid
    && forall j :: 0 <= j < |d.vlans| && Shadowed(d, j) ==>
         d.vlans[j].uuid >= db.nextUuid || ShadowedIn(db, d.vlans[j].uuid)
  }

  lemma SameRowsSameShadows(db: Db, d: Db)
    requires db.nextUuid <= d.nextUuid && |d.vlans| == |db.vlans|
    requires forall i :: 0 <= i < |db.vlans| ==>
      d.vlans[i].uuid == db.vlans[i].uuid && d.vlans[i].config.name == db.vlans[i].config.name
    ensures NoNewShadows(db, d)
  {
    forall j | 0 <= j < |d.vlans| && Shadowed(d, j) ensures ShadowedIn(db, d.vlans[j].uuid) {
      var k :| 0 <= k < j && d.vlans[k].config.name == d.vlans[j].config.name;
      assert db.vlans[k].config.name == db.vlans[j].config.name;
      assert Shadowed(db, j);
    }
  }

  lemma InsertShadows(db: Db, b: nat, config: VlanConfig, d: Db)
    requires b < |db.bridges| && d.vlans == Insert(db, b, config).vlans && db.nextUuid <= d.nextUuid
    ensures NoNewShadows(db, d)
  {
    forall j | 0 <= j < |db.vlans| && Shadowed(d, j) ensures ShadowedIn(db, d.vlans[j].uuid) {
      var k :| 0 <= k < j && d.vlans[k].config.name == d.vlans[j].config.name;
      assert db.vlans[k] == d.vlans[k] && db.vlans[j] == d.vlans[j];
      assert Shadowed(db, j);
    }
  }

  lemma RemovalShadows(db: Db, d: Db, at: nat)
    requires at < |db.vlans| && d.vlans == db.vlans[..at] + db.vlans[at + 1..] && db.nextUuid <= d.nextUuid
    ensures NoNewShadows(db, d)
  {
    forall j | 0 <= j < |d.vlans| && Shadowed(d, j) ensures ShadowedIn(db, d.vlans[j].uuid) {
      var k :| 0 <= k < j && d.vlans[k].config.name == d.vlans[j].config.name;
      var i, h := if j < at then j else j + 1, if k < at then k else k + 1;
      KeptRow(db.vlans, d.vlans, at, i);
      KeptRow(db.vlans, d.vlans, at, h);
      assert h < i && db.vlans[h].config.name == db.vlans[i].config.name;
      assert Shadowed(db, i);
    }
  }

  lemma VlanCommandShadows(db: Db, c: Command)
    requires DbInv(db) && Admitted(c) && (c.CreateVlan? || c.DeleteVlan? || c.CreateDefault?)
    ensures NoNewShadows(db, After(db, VlanOutcome(db, c)))
  {
    var d := After(db, VlanOutcome(db, c));
    if !VlanOutcome(db, c).Committed? {
      SameRowsSameShadows(db, db);
    } else {
      match c
      case CreateVlan(arg) => InsertShadows(db, PickBridge(db.bridges).value, TypedConfig(arg), d);
      case DeleteVlan(arg) => RemovalShadows(db, d, FindVlan(db.vlans, Atoi(arg)).value);
      case CreateDefault => InsertShadows(db, NamedBridge(db.bridges).value, DEFAULT_CONFIG, d);
    }
  }

  lemma ExecShadows(env: Env, db: Db, c: Command)
    requires DbInv(db) && Admitted(c)
    ensures NoNewShadows(db, After(db, Exec(env, db, c)))
  {
    if c.CreateVlan? || c.DeleteVlan? || c.CreateDefault? {
      VlanCommandShadows(db, c);
    } else {
      if !c.Shutdown? && !c.NoShutdown? { PortCommandsKeepVlans(env, db, c); }
      SameRowsSameShadows(db, After(db, Exec(env, db, c)));
    }
  }

  lemma TurnShadows(w: World, e: Event)
    requires DbInv(w.db) && e.Turn? && WellPosed(w, e)
    ensures NoNewShadows(w.db, TurnDb(w, e))
  {
    if TurnCreates(w, e) {
      ExecShadows(Env({}, false, 0, 0), w.db, CreateDefault);
    } else {
      SameRowsSameShadows(w.db, w.db);
    }
  }

  lemma HappenShadows(w: World, e: Event)
    requires DbInv(w.db) && WellPosed(w, e)
    ensures NoNewShadows(w.db, Happen(w, e).db)
  {
    match e
    case Enter(t) => ExecShadows(t.env, w.db, t.command);
    case Post(config) => InsertShadows(w.db, NamedBridge(w.db.bridges).value, config, Happen(w, e).db);
    case Retract(at) => RemovalShadows(w.db, Happen(w, e).db, at);
    case MarkL3(at, l3port) => SameRowsSameShadows(w.db, Happen(w, e).db);
    case Rewire(_, _) => SameRowsSameShadows(w.db, Happen(w, e).db);
    case Turn(_, _, _, _, _, _) => TurnShadows(w, e);
  }

  // ---- Over histories ----------------------------------------------------------------------------

  /** The daemon knows no shadowed row and none to come. */
  ghost predicate OnlyLeadingKnown(c: Cache, db: Db) {
    && (forall u: nat :: Knows(c, u) ==> u < db.nextUuid)
    && (forall j :: 0 <= j < |db.vlans| && Shadowed(db, j) ==> !Knows(c, db.vlans[j].uuid))
  }

  lemma ShadowsStayUnknown(c: Cache, db: Db, d: Db)
    requires OnlyLeadingKnown(c, db) && NoNewShadows(db, d)
    ensures OnlyLeadingKnown(c, d)
  {
    forall j | 0 <= j < |d.vlans| && Shadowed(d, j) ensures !Knows(c, d.vlans[j].uuid) {
      if ShadowedIn(db, d.vlans[j].uuid) {
        var i :| 0 <= i < |db.vlans| && Shadowed(db, i) && db.vlans[i].uuid == d.vlans[j].uuid;
      }
    }
  }

  lemma PassLeavesShadows(s: Snapshot, db: Db, c: Cache, steps: seq<Step>)
    requires VlansInv(db) && Mirrors(s, db) && OnlyLeadingKnown(c, db)
    ensures OnlyLeadingKnown(Run(s, c, steps), db)
  {
    forall u: nat | u >= db.nextUuid ensures !Knows(Run(s, c, steps), u) {
      UnusedIsUnindexed(s, db, u);
      RunSkips(s, c, steps, u);
    }
    forall j | 0 <= j < |db.vlans| && Shadowed(db, j) ensures !Knows(Run(s, c, steps), db.vlans[j].uuid) {
      ShadowedIsUnindexed(s, db, j);
      RunSkips(s, c, steps, db.vlans[j].uuid);
    }
  }

  lemma HappenLeavesShadows(w: World, e: Event)
    requires DbInv(w.db) && OnlyLeadingKnown(w.daemon.cache, w.db) && WellPosed(w, e)
    ensures OnlyLeadingKnown(Happen(w, e).daemon.cache, Happen(w, e).db)
  {
    HappenShadows(w, e);
    ShadowsStayUnknown(w.daemon.cache, w.db, Happen(w, e).db);
    if e.Turn? && Passes(w.daemon, CallOf(w, e)) {
      HappenKeepsDb(w, e);
      TurnMirrors(w, e);
      PassLeavesShadows(CallOf(w, e).snap, TurnDb(w, e), w.daemon.cache, e.steps);
    }
  }

  lemma {:induction false} HistoryLeavesShadows(w: World, events: seq<Event>)
    requires DbInv(w.db) && OnlyLeadingKnown(w.daemon.cache, w.db) && History(w, events)
    ensures DbInv(Outlive(w, events).db) && OnlyLeadingKnown(Outlive(w, events).daemon.cache, Outlive(w, events).db)
    decreases |events|
  {
    if events == [] {
    } else {
      HappenKeepsDb(w, events[0]);
      HappenLeavesShadows(w, events[0]);
      HistoryLeavesShadows(Happen(w, events[0]), events[1..]);
    }
  }

  /**
   * Over any history at all, fair or not: a VLAN whose row comes after another of its name is never given
   * its columns, so its hardware does not follow, whatever its configuration.
   */
  lemma ShadowedNeverFollows(db: Db, events: seq<Event>, j: nat)
    requires DbInv(db) && History(Booted(db), events)
    requires j < |Outlive(Booted(db), events).db.vlans| && Shadowed(Outlive(Booted(db), events).db, j)
    ensures var w := Outlive(Booted(db), events);
      && w.db.vlans[j].uuid !in w.daemon.cache.db
      && !HardwareFollows(w.db, w.daemon.cache.db, w.db.vlans[j])
  {
    HistoryLeavesShadows(Booted(db), events);
    assert !Knows(Outlive(Booted(db), events).daemon.cache, Outlive(Booted(db), events).db.vlans[j].uuid);
  }

  ghost predicate AllFollow(w: World) {
    forall i :: 0 <= i < |w.db.vlans| && !w.db.vlans[i].config.l3port ==>
      HardwareFollows(w.db, w.daemon.cache.db, w.db.vlans[i])
  }

  ghost predicate NoneMarked(db: Db) {
    forall i :: 0 <= i < |db.vlans| ==> !db.vlans[i].config.l3port
  }

  lemma FollowingNamesDiffer(w: World)
    requires OnlyLeadingKnown(w.daemon.cache, w.db) && AllFollow(w) && NoneMarked(w.db)
    ensures NamesDiffer(w.db)
  {
    forall i, j | 0 <= i < j < |w.db.vlans| ensures w.db.vlans[i].config.name != w.db.vlans[j].config.name {
      assert HardwareFollows(w.db, w.daemon.cache.db, w.db.vlans[j]);
      assert Knows(w.daemon.cache, w.db.vlans[j].uuid);
      assert Leading(w.db, j);
    }
  }

  /**
   * After any fair history, with no VLAN marked L3PORT: a turn that reconfigures, in which nothing was reused or
   * went together, leaves the hardware of every VLAN following its configuration exactly if no two VLANs
   * have one name.
   */
  lemma HardwareFollowsExactly(db: Db, events: seq<Event>, e: Event)
    requires DbInv(db) && History(Booted(db), events) && FairHistory(Booted(db), events) && e.Turn?
    requires var w := Outlive(Booted(db), events);
      WellPosed(w, e) && FairButNames(w, e) && Reconfigures(w.daemon, CallOf(w, e)) && NoneMarked(Happen(w, e).db)
    ensures var x := Happen(Outlive(Booted(db), events), e); AllFollow(x) <==> NamesDiffer(x.db)
  {
    var w := Outlive(Booted(db), events);
    HistoryLeavesShadows(Booted(db), events);
    HappenLeavesShadows(w, e);
    if AllFollow(Happen(w, e)) {
      FollowingNamesDiffer(Happen(w, e));
    }
    if NamesDiffer(TurnDb(w, e)) {
      HardwareFollowsConfiguration(db, events, e);
    }
  }

  // ---- A run ---------------------------------------------------------------------------------------

  /** One switched port in an unconfigured database. */
  function OnePort(): Db {
    Db(map["1" := PortRec(PortConfig(None, None, []), {"1"})], [], [Bridge(DEFAULT_BRIDGE_NAME, ["1"], [])],
       map["1" := true], 0)
  }

  function Quietly(c: Command): Event {
    Enter(Typed(Env({}, true, -1, -1), c))
  }

  function TypedVlan(uuid: nat, vid: int, a: Admin): VlanRec {
    VlanRec(uuid, VlanConfig("VLAN0001", vid, Some(a), false))
  }

  /** What "vlan 00012", "vlan 00013", "no shutdown" in VLAN 13 and "vlan access 13" on the port make of it. */
  function Collided(): Db {
    Db(map["1" := PortRec(AccessRow(13), {"1"})], [TypedVlan(0, 12, AdminDown), TypedVlan(1, 13, AdminUp)],
       [Bridge(DEFAULT_BRIDGE_NAME, ["1"], [0, 1])], map["1" := true], 2)
  }

  function TypingEnd(): seq<Event> {
    [Quietly(NoShutdown(13))] + [Quietly(IntfAccess("1", 13))]
  }

  function TypingRest(): seq<Event> {
    [Quietly(CreateVlan("00013"))] + TypingEnd()
  }

  function Typing(): seq<Event> {
    [Quietly(CreateVlan("00012"))] + TypingRest()
  }

  function AfterFirst(): Db {
    OnePort().(vlans := [TypedVlan(0, 12, AdminDown)],
               bridges := [Bridge(DEFAULT_BRIDGE_NAME, ["1"], [0])], nextUuid := 1)
  }

  function AfterSecond(a: Admin): Db {
    OnePort().(vlans := [TypedVlan(0, 12, AdminDown), TypedVlan(1, 13, a)],
               bridges := [Bridge(DEFAULT_BRIDGE_NAME, ["1"], [0, 1])], nextUuid := 2)
  }

  lemma CollidingNames()
    ensures InVidRange("00012", 1) && Atoi("00012") == 12 && VlanName("00012") == "VLAN0001"
    ensures InVidRange("00013", 1) && Atoi("00013") == 13 && VlanName("00013") == "VLAN0001"
    ensures VlanIfName("00012") != "1" && VlanIfName("00013") != "1"
  {
    LongArgumentsCollide();
    assert ("VLAN" + "00012")[..8] == "VLAN0001";
    assert |VlanIfName("00012")| == 9 && |VlanIfName("00013")| == 9;
  }

  lemma TypingFirst(env: Env)
    requires InVidRange("00012", 1)
    ensures Exec(env, OnePort(), CreateVlan("00012")) == Committed(AfterFirst())
  {
    CollidingNames();
    var db := OnePort();
    assert NamedBridge(db.bridges) == Some(0) && FindVlan(db.vlans, 12).None?;
    var list: seq<nat> := [];
    assert list + [0] == [0];
    assert db.bridges[0 := Bridge(DEFAULT_BRIDGE_NAME, ["1"], [0])] == AfterFirst().bridges;
    assert DoCreateVlan(db, "00012").db.vlans == AfterFirst().vlans;
  }

  lemma TypingSecond(env: Env)
    requires InVidRange("00013", 1)
    ensures Exec(env, AfterFirst(), CreateVlan("00013")) == Committed(AfterSecond(AdminDown))
  {
    CollidingNames();
    var db := AfterFirst();
    assert NamedBridge(db.bridges) == Some(0) && FindVlan(db.vlans, 13).None?;
    var list: seq<nat> := [0];
    assert list + [1] == [0, 1];
    assert db.bridges[0 := Bridge(DEFAULT_BRIDGE_NAME, ["1"], [0, 1])] == AfterSecond(AdminDown).bridges;
    assert DoCreateVlan(db, "00013").db.vlans == AfterSecond(AdminDown).vlans;
  }

  lemma TypingThird(env: Env)
    ensures Exec(env, AfterSecond(AdminDown), NoShutdown(13)) == Committed(AfterSecond(AdminUp))
  {
    FirstVlan(AfterSecond(AdminDown).vlans, 13, 1);
  }

  lemma TypingFourth(env: Env)
    requires env.internalVids == {}
    ensures Exec(env, AfterSecond(AdminUp), IntfAccess("1", 13)) == Committed(Collided())
  {
    var db := AfterSecond(AdminUp);
    FirstVlan(db.vlans, 13, 1);
    assert "1" in db.bridges[0].ports;
    assert IntfUsable(db, "1");
  }

  /** Entering a command needs nothing but that it is admitted. */
  lemma OneMoreEvent(w: World, events: seq<Event>)
    requires events != [] && events[0].Enter? && WellPosed(w, events[0])
    requires History(Happen(w, events[0]), events[1..]) && FairHistory(Happen(w, events[0]), events[1..])
    ensures History(w, events) && FairHistory(w, events)
    ensures Outlive(w, events) == Outlive(Happen(w, events[0]), events[1..])
  {
  }

  /** The typing from its i-th command on leads from one database to the next. */
  lemma OneCommand(before: Db, after: Db, c: Command, rest: seq<Event>)
    requires Admitted(c) && Exec(Env({}, true, -1, -1), before, c) == Committed(after)
    requires History(Booted(OnePort()).(db := after), rest) && FairHistory(Booted(OnePort()).(db := after), rest)
    ensures var w := Booted(OnePort()).(db := before);
      && History(w, [Quietly(c)] + rest) && FairHistory(w, [Quietly(c)] + rest)
      && Outlive(w, [Quietly(c)] + rest) == Outlive(Booted(OnePort()).(db := after), rest)
  {
    var w := Booted(OnePort()).(db := before);
    assert Happen(w, Quietly(c)) == w.(db := after);
    assert ([Quietly(c)] + rest)[1..] == rest;
    OneMoreEvent(w, [Quietly(c)] + rest);
  }

  lemma TypingEnds()
    ensures var w := Booted(OnePort()).(db := AfterSecond(AdminDown));
      && History(w, TypingEnd()) && FairHistory(w, TypingEnd())
      && Outlive(w, TypingEnd()) == Booted(OnePort()).(db := Collided())
  {
    var env, last := Env({}, true, -1, -1), [Quietly(IntfAccess("1", 13))];
    TypingThird(env);
    TypingFourth(env);
    OneCommand(AfterSecond(AdminUp), Collided(), IntfAccess("1", 13), []);
    assert last + [] == last;
    OneCommand(AfterSecond(AdminDown), AfterSecond(AdminUp), NoShutdown(13), last);
  }

  lemma TypingCollides()
    ensures Fresh(OnePort()) && History(Booted(OnePort()), Typing()) && FairHistory(Booted(OnePort()), Typing())
    ensures Outlive(Booted(OnePort()), Typing()) == Booted(OnePort()).(db := Collided())
  {
    CollidingNames();
    TypingFirst(Env({}, true, -1, -1));
    TypingSecond(Env({}, true, -1, -1));
    TypingEnds();
    OneCommand(AfterFirst(), AfterSecond(AdminDown), CreateVlan("00013"), TypingEnd());
    OneCommand(OnePort(), AfterFirst(), CreateVlan("00012"), TypingRest());
  }

  lemma CollidedIsUp(w: World, e: Event)
    requires w == Booted(OnePort()).(db := Collided()) && e.Turn? && WellPosed(w, e)
    ensures var x := Happen(w, e);
      |x.db.vlans| > 1 && x.db.vlans[1] == TypedVlan(1, 13, AdminUp) && x.db.ports == Collided().ports
    ensures InBridges(Happen(w, e).db.bridges, "1")
  {
    assert "1" in Happen(w, e).db.bridges[0].ports;
  }

  lemma SecondIsShadowed(w: World, e: Event)
    requires w == Booted(OnePort()).(db := Collided()) && e.Turn? && WellPosed(w, e)
    ensures |Happen(w, e).db.vlans| > 1 && Shadowed(Happen(w, e).db, 1)
  {
    assert Happen(w, e).db.vlans[0].config.name == "VLAN0001";
  }

  /**
   * A run typed from an unconfigured database, after which VLAN 13 is administratively up and carried by a
   * switched port, and no turn of the daemon gives it its columns.
   */
  lemma CollidingVlanIsNeverEnabled(e: Event)
    requires e.Turn? && WellPosed(Booted(OnePort()).(db := Collided()), e)
    ensures Fresh(OnePort()) && History(Booted(OnePort()), Typing()) && FairHistory(Booted(OnePort()), Typing())
    ensures Outlive(Booted(OnePort()), Typing()) == Booted(OnePort()).(db := Collided())
    ensures var x := Happen(Booted(OnePort()).(db := Collided()), e);
      && |x.db.vlans| > 1 && x.db.vlans[1] == TypedVlan(1, 13, AdminUp) && HasMember(x.db, 13)
      && x.db.vlans[1].uuid !in x.daemon.cache.db
  {
    var w := Booted(OnePort()).(db := Collided());
    TypingCollides();
    CollidedIsUp(w, e);
    var x := Happen(w, e);
    assert Carries(x.db.ports["1"].config, 13);
    FreshHasInv(OnePort());
    HistoryLeavesShadows(Booted(OnePort()), Typing());
    HappenLeavesShadows(w, e);
    SecondIsShadowed(w, e);
    assert !Knows(x.daemon.cache, x.db.vlans[1].uuid);
  }
}
