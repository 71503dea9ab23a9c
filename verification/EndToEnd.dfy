/** The commands, the database replica and the daemon together. */
module EndToEnd {
  import opened VlanTypes
  import opened CliCommands
  import opened CliInvariants
  import opened VlanCache
  import opened PassInvariant
  import opened Reconciliation
  import opened ColumnMeanings
  import opened DaemonRuns
  import RestValidator
  import VlandDaemon

  // ---- The replica catches up --------------------------------------------------------------

  /** The order in which rows come, and rows that are reported changed without being so. */
  datatype News = News(order: seq<string>, ports: set<string>, vlans: set<nat>)

  /** The port is new to the replica, or reported, or its row or its place in the bridges changed. */
  ghost predicate PortChanged(before: Snapshot, db: Db, news: News, p: string)
    requires p in db.ports
  {
    || p in news.ports
    || p !in PortIndex(before.ports)
    || PortIndex(before.ports)[p].config != db.ports[p].config
    || !(InBridge(before, p) <==> InBridges(db.bridges, p))
  }

  ghost function StampPort(before: Snapshot, db: Db, news: News, p: string): PortRow
    requires p in db.ports
  {
    var k, now := db.ports[p].config, before.seqno + 1;
    if p !in PortIndex(before.ports) then PortRow(p, k, now, 0)
    else if PortChanged(before, db, news, p) then PortRow(p, k, PortIndex(before.ports)[p].inserted, now)
    else PortIndex(before.ports)[p]
  }

  function StampVlan(before: Snapshot, r: VlanRec, touched: bool): VlanRow {
    var now := before.seqno + 1;
    var rows := VlanIndex(before.vlans);
    if r.config.name !in rows || rows[r.config.name].uuid != r.uuid then VlanRow(r.uuid, r.config, now, 0)
    else if rows[r.config.name].config == r.config && !touched then rows[r.config.name]
    else VlanRow(r.uuid, r.config, rows[r.config.name].inserted, now)
  }

  ghost function Replicated(before: Snapshot, db: Db, news: News): Snapshot
    requires forall i :: 0 <= i < |news.order| ==> news.order[i] in db.ports
  {
    Snapshot(before.seqno + 1,
             seq(|news.order|, i requires 0 <= i < |news.order| => StampPort(before, db, news, news.order[i])),
             seq(|db.vlans|, i requires 0 <= i < |db.vlans| =>
               StampVlan(before, db.vlans[i], db.vlans[i].uuid in news.vlans)),
             db.bridges)
  }

  predicate Complete(db: Db, news: News) {
    (forall i :: 0 <= i < |news.order| ==> news.order[i] in db.ports) && forall p :: p in db.ports ==> p in news.order
  }

  /** One run of the IDL: the sequence number moves if anything is reported. */
  ghost function IdlRun(before: Snapshot, db: Db, news: News): Snapshot
    requires Complete(db, news)
  {
    var s := Replicated(before, db, news);
    if s.(seqno := before.seqno) == before then before else s
  }

  /** The rows of the replica are those of the database. */
  ghost predicate Mirrors(s: Snapshot, db: Db) {
    && s.bridges == db.bridges
    && PortIndex(s.ports).Keys == db.ports.Keys
    && (forall p :: p in PortIndex(s.ports) && p in db.ports ==> PortIndex(s.ports)[p].config == db.ports[p].config)
    && |s.vlans| == |db.vlans|
    && (forall i :: 0 <= i < |s.vlans| && i < |db.vlans| ==>
          s.vlans[i].uuid == db.vlans[i].uuid && s.vlans[i].config == db.vlans[i].config)
  }

  lemma ReplicatedPort(before: Snapshot, db: Db, news: News, i: nat)
    requires Complete(db, news) && i < |news.order|
    ensures var r := Replicated(before, db, news).ports[i];
      r.name == news.order[i] && r == StampPort(before, db, news, r.name)
  {
  }

  lemma ReplicatedRow(before: Snapshot, db: Db, news: News, p: string)
    requires Complete(db, news) && p in PortIndex(Replicated(before, db, news).ports)
    ensures p in db.ports
    ensures PortIndex(Replicated(before, db, news).ports)[p] == StampPort(before, db, news, p)
  {
    var rows := Replicated(before, db, news).ports;
    var i :| 0 <= i < |rows| && rows[i] == PortIndex(rows)[p];
    ReplicatedPort(before, db, news, i);
  }

  lemma ReplicatedPorts(before: Snapshot, db: Db, news: News)
    requires Complete(db, news)
    ensures var rows := PortIndex(Replicated(before, db, news).ports);
      && rows.Keys == db.ports.Keys
      && forall p :: p in rows ==> p in db.ports && rows[p] == StampPort(before, db, news, p)
  {
    var ports := Replicated(before, db, news).ports;
    forall p | p in PortIndex(ports) ensures p in db.ports && PortIndex(ports)[p] == StampPort(before, db, news, p) {
      ReplicatedRow(before, db, news, p);
    }
    forall p | p in db.ports ensures p in PortIndex(ports) {
      var i :| 0 <= i < |news.order| && news.order[i] == p;
      ReplicatedPort(before, db, news, i);
      assert ports[i] in ports;
    }
  }

  lemma ReplicatedMirrors(before: Snapshot, db: Db, news: News)
    requires Complete(db, news)
    ensures Mirrors(Replicated(before, db, news), db)
  {
    ReplicatedPorts(before, db, news);
  }

  lemma IdlRunMirrors(before: Snapshot, db: Db, news: News)
    requires Complete(db, news)
    ensures Mirrors(IdlRun(before, db, news), db)
  {
    ReplicatedMirrors(before, db, news);
    var s := Replicated(before, db, news);
    assert IdlRun(before, db, news).(seqno := s.seqno) == s;
  }

  lemma ReplicatedVlan(before: Snapshot, db: Db, news: News, n: string)
    requires Complete(db, news) && n in VlanIndex(Replicated(before, db, news).vlans)
    ensures var r := VlanIndex(Replicated(before, db, news).vlans)[n];
      VlanFlagged(r, before.seqno) || (n in VlanIndex(before.vlans) && VlanIndex(before.vlans)[n] == r)
  {
    var rows := Replicated(before, db, news).vlans;
    var i :| 0 <= i < |rows| && rows[i] == VlanIndex(rows)[n];
    assert rows[i] == StampVlan(before, db.vlans[i], db.vlans[i].uuid in news.vlans);
  }

  lemma ReplicatedPortFlag(before: Snapshot, db: Db, news: News, p: string)
    requires Complete(db, news) && p in PortIndex(Replicated(before, db, news).ports)
    ensures var s := Replicated(before, db, news);
      var r := PortIndex(s.ports)[p];
      PortFlagged(r, before.seqno)
      || (p in PortIndex(before.ports) && PortIndex(before.ports)[p] == r && (InBridge(before, p) <==> InBridge(s, p)))
  {
    ReplicatedRow(before, db, news, p);
  }

  /** The change marks the daemon relies on are sound. */
  lemma IdlRunEvolves(before: Snapshot, db: Db, news: News)
    requires Complete(db, news)
    ensures Evolves(before, IdlRun(before, db, news))
  {
    var s := Replicated(before, db, news);
    forall p | p in PortIndex(s.ports)
      ensures PortFlagged(PortIndex(s.ports)[p], before.seqno)
        || (p in PortIndex(before.ports) && PortIndex(before.ports)[p] == PortIndex(s.ports)[p]
            && (InBridge(before, p) <==> InBridge(s, p)))
    {
      ReplicatedPortFlag(before, db, news, p);
    }
    forall n | n in VlanIndex(s.vlans)
      ensures VlanFlagged(VlanIndex(s.vlans)[n], before.seqno)
        || (n in VlanIndex(before.vlans) && VlanIndex(before.vlans)[n] == VlanIndex(s.vlans)[n])
    {
      ReplicatedVlan(before, db, news, n);
    }
  }

  // ---- Events ----------------------------------------------------------------------------------

  /**
   * A command; a VLAN created or deleted over REST; another program's L3PORT mark; another program rewriting
   * port rows and the port lists of bridges, which may create, change, remove and move any number of
   * ports; or one turn of the daemon's main loop, with what the replica reports at first and, if the
   * default VLAN had to be committed, again.
   */
  datatype Event =
    | Enter(typed: Typed)
    | Post(config: VlanConfig)
    | Retract(at: nat)
    | MarkL3(at: nat, l3port: bool)
    | Rewire(ports: map<string, PortRec>, bridges: seq<Bridge>)
    | Turn(news: News, again: News, contended: bool, locked: bool, curCfg: Option<int>, steps: seq<Step>)

  datatype World = World(db: Db, replica: Snapshot, daemon: Daemon)

  function Booted(db: Db): World {
    World(db, START.last, START)
  }

  function Marked(db: Db, at: nat, l3port: bool): Db {
    if at < |db.vlans|
    then db.(vlans := db.vlans[at := db.vlans[at].(config := db.vlans[at].config.(l3port := l3port))])
    else db
  }

  /** A VLAN created over REST is a new row, also at the end of the default bridge's list. */
  function Posted(db: Db, config: VlanConfig): Db {
    match NamedBridge(db.bridges)
    case Some(b) => Insert(db, b, config)
    case None => db
  }

  /** A VLAN deleted over REST leaves the table and the default bridge's list; port rows stay as they are. */
  function Retracted(db: Db, at: nat): Db
    requires at < |db.vlans|
  {
    match NamedBridge(db.bridges)
    case Some(b) =>
      var kept := Without(db.bridges[b].vlans, db.vlans[at].uuid);
      db.(bridges := db.bridges[b := db.bridges[b].(vlans := kept)], vlans := db.vlans[..at] + db.vlans[at + 1..])
    case None => db
  }

  /** The same bridges, listing the same VLANs. */
  ghost predicate SameListing(a: seq<Bridge>, b: seq<Bridge>) {
    |a| == |b| && forall i :: 0 <= i < |a| ==> a[i].name == b[i].name && a[i].vlans == b[i].vlans
  }

  /** The replica as the turn finds it. */
  ghost function FirstSight(w: World, e: Event): Snapshot
    requires e.Turn? && Complete(w.db, e.news)
  {
    IdlRun(w.replica, w.db, e.news)
  }

  /** The turn inserts the default VLAN. */
  ghost predicate TurnCreates(w: World, e: Event)
    requires e.Turn? && Complete(w.db, e.news)
  {
    var first := FirstSight(w, e);
    Creates(w.daemon, Call(first, first, e.contended, e.locked, e.curCfg, e.steps))
  }

  /** The database when the turn reconfigures. */
  ghost function TurnDb(w: World, e: Event): (db: Db)
    requires e.Turn? && Complete(w.db, e.news)
    ensures db.ports == w.db.ports
  {
    if TurnCreates(w, e) then After(w.db, DoCreateDefault(w.db)) else w.db
  }

  ghost function CallOf(w: World, e: Event): Call
    requires e.Turn? && Complete(w.db, e.news) && Complete(w.db, e.again)
  {
    var first := FirstSight(w, e);
    var snap := if TurnCreates(w, e) then IdlRun(first, TurnDb(w, e), e.again) else first;
    Call(first, snap, e.contended, e.locked, e.curCfg, e.steps)
  }

  ghost predicate WellPosed(w: World, e: Event) {
    match e
    case Enter(t) => Admitted(t.command)
    case Post(config) => ValidVid(config.id) && NoRepeats(RestValidator.Ids(Posted(w.db, config).vlans))
    case Retract(at) => at < |w.db.vlans| && RestValidator.Deletable(w.db.vlans[at])
    case MarkL3(_, _) => true
    case Rewire(ports, bridges) => SameListing(w.db.bridges, bridges) && PortsInv(w.db.(ports := ports))
    case Turn(_, _, _, _, _, _) => Complete(w.db, e.news) && Complete(w.db, e.again)
  }

  ghost function Happen(w: World, e: Event): World
    requires WellPosed(w, e)
  {
    match e
    case Enter(t) => w.(db := After(w.db, Exec(t.env, w.db, t.command)))
    case Post(config) => w.(db := Posted(w.db, config))
    case Retract(at) => w.(db := Retracted(w.db, at))
    case MarkL3(at, l3port) => w.(db := Marked(w.db, at, l3port))
    case Rewire(ports, bridges) => w.(db := w.db.(ports := ports, bridges := bridges))
    case Turn(_, _, _, _, _, _) =>
      var call := CallOf(w, e);
      World(TurnDb(w, e), call.snap, AfterCall(w.daemon, call))
  }

  /** No two VLANs have one name. */
  ghost predicate NamesDiffer(db: Db) {
    forall i, j :: 0 <= i < j < |db.vlans| ==> db.vlans[i].config.name != db.vlans[j].config.name
  }

  predicate SharesIdOrName(a: VlanConfig, b: VlanConfig) {
    a.id == b.id || a.name == b.name
  }

  /** Row i is the first of its name: the only one of that name the daemon looks at. */
  ghost predicate Leading(db: Db, i: nat)
    requires i < |db.vlans|
  {
    forall k :: 0 <= k < i ==> db.vlans[k].config.name != db.vlans[i].config.name
  }

  /** Of the rows the daemon looks at, none has the id or name that another had when it last processed the database. */
  ghost predicate NoneReused(last: Snapshot, db: Db) {
    forall r, i :: r in last.vlans && 0 <= i < |db.vlans| && Leading(db, i) ==>
      SharesIdOrName(r.config, db.vlans[i].config) ==> r.uuid == db.vlans[i].uuid
  }

  ghost predicate HasName(db: Db, n: string) {
    exists i :: 0 <= i < |db.vlans| && db.vlans[i].config.name == n
  }

  /** No port went away since then together with a VLAN that its row made it a member of. */
  ghost predicate NoneGoneTogether(last: Snapshot, db: Db) {
    var rows, vlans := PortIndex(last.ports), VlanIndex(last.vlans);
    forall p, n :: p in rows && p !in db.ports && n in vlans && Carries(rows[p].config, vlans[n].config.id) ==>
      HasName(db, n)
  }

  /** When the daemon makes a pass: its steps are a pass in some order, and nothing was reused or went together. */
  ghost predicate FairButNames(w: World, e: Event)
    requires WellPosed(w, e)
  {
    e.Turn? && Passes(w.daemon, CallOf(w, e)) ==>
      && IsPass(CallOf(w, e).snap, w.daemon.last.seqno, w.daemon.cache, e.steps)
      && NoneReused(w.daemon.last, TurnDb(w, e))
      && NoneGoneTogether(w.daemon.last, TurnDb(w, e))
  }

  ghost predicate Fair(w: World, e: Event)
    requires WellPosed(w, e)
  {
    FairButNames(w, e) && (e.Turn? && Passes(w.daemon, CallOf(w, e)) ==> NamesDiffer(TurnDb(w, e)))
  }

  // ---- The invariant of the whole ---------------------------------------------------------------

  /** A row the daemon saw: its identity is not used for another VLAN. */
  ghost predicate RowsRemembered(last: Snapshot, db: Db) {
    forall r :: r in last.vlans ==>
      && r.uuid < db.nextUuid
      && forall i :: 0 <= i < |db.vlans| && db.vlans[i].uuid == r.uuid ==>
           db.vlans[i].config.name == r.config.name && db.vlans[i].config.id == r.config.id
  }

  ghost predicate WorldInv(w: World) {
    && DbInv(w.db)
    && RowsRemembered(w.daemon.last, w.db)
    && Tracking(w.daemon, w.replica)
  }

  lemma BootedHasInv(db: Db)
    requires DbInv(db)
    ensures WorldInv(Booted(db))
  {
    StartTracks(START.last);
  }

  ghost predicate SameRowIn(db: Db, r: VlanRec) {
    exists j :: 0 <= j < |db.vlans| && db.vlans[j].uuid == r.uuid
      && db.vlans[j].config.name == r.config.name && db.vlans[j].config.id == r.config.id
  }

  /** d comes after db: VLAN rows keep identity, name and id. */
  ghost predicate RowsKept(db: Db, d: Db) {
    && db.nextUuid <= d.nextUuid
    && forall i :: 0 <= i < |d.vlans| ==> d.vlans[i].uuid >= db.nextUuid || SameRowIn(db, d.vlans[i])
  }

  /** And VLAN 1, once there, stays. */
  ghost predicate Later(db: Db, d: Db) {
    RowsKept(db, d) && (HasVlan(db, DEFAULT_VID) ==> HasVlan(d, DEFAULT_VID))
  }

  lemma HasVlanOf(db: Db, i: nat)
    requires i < |db.vlans|
    ensures HasVlan(db, db.vlans[i].config.id)
  {
  }

  lemma LaterByRows(db: Db, d: Db)
    requires db.nextUuid <= d.nextUuid && |d.vlans| == |db.vlans|
    requires forall i :: 0 <= i < |db.vlans| ==>
      d.vlans[i].uuid == db.vlans[i].uuid
      && d.vlans[i].config.name == db.vlans[i].config.name && d.vlans[i].config.id == db.vlans[i].config.id
    ensures Later(db, d)
  {
    forall i | 0 <= i < |d.vlans| ensures SameRowIn(db, d.vlans[i]) {
      assert db.vlans[i].uuid == d.vlans[i].uuid;
    }
    if HasVlan(db, DEFAULT_VID) {
      HasVlanOf(d, FindVlan(db.vlans, DEFAULT_VID).value);
    }
  }

  lemma InsertIsLater(db: Db, b: nat, config: VlanConfig, d: Db)
    requires b < |db.bridges| && d == Insert(db, b, config).(ports := d.ports)
    ensures Later(db, d)
  {
    forall i | 0 <= i < |db.vlans| ensures SameRowIn(db, d.vlans[i]) {
      assert d.vlans[i] == db.vlans[i];
    }
    if HasVlan(db, DEFAULT_VID) {
      HasVlanOf(d, FindVlan(db.vlans, DEFAULT_VID).value);
    }
  }

  lemma DeleteIsLater(db: Db, arg: string)
    requires InVidRange(arg, 2) && DoDeleteVlan(db, arg).Committed?
    ensures Later(db, DoDeleteVlan(db, arg).db)
  {
    var d, at := DoDeleteVlan(db, arg).db, FindVlan(db.vlans, Atoi(arg)).value;
    forall i | 0 <= i < |d.vlans| ensures SameRowIn(db, d.vlans[i]) {
      assert d.vlans[i] == db.vlans[if i < at then i else i + 1];
    }
    if HasVlan(db, DEFAULT_VID) {
      var i := FindVlan(db.vlans, DEFAULT_VID).value;
      KeptRow(db.vlans, d.vlans, at, i);
      HasVlanOf(d, if i < at then i else i - 1);
    }
  }

  function VlanOutcome(db: Db, c: Command): Outcome
    requires Admitted(c) && (c.CreateVlan? || c.DeleteVlan? || c.CreateDefault?)
  {
    match c
    case CreateVlan(arg) => DoCreateVlan(db, arg)
    case DeleteVlan(arg) => DoDeleteVlan(db, arg)
    case CreateDefault => DoCreateDefault(db)
  }

  lemma VlanCommandIsLater(db: Db, c: Command)
    requires DbInv(db) && Admitted(c) && (c.CreateVlan? || c.DeleteVlan? || c.CreateDefault?)
    ensures Later(db, After(db, VlanOutcome(db, c)))
  {
    var d := After(db, VlanOutcome(db, c));
    if !VlanOutcome(db, c).Committed? {
      LaterByRows(db, db);
    } else {
      match c
      case CreateVlan(arg) =>
        InsertIsLater(db, PickBridge(db.bridges).value, TypedConfig(arg), d);
      case DeleteVlan(arg) => DeleteIsLater(db, arg);
      case CreateDefault =>
        InsertIsLater(db, NamedBridge(db.bridges).value, DEFAULT_CONFIG, d);
    }
  }

  lemma ExecIsLater(env: Env, db: Db, c: Command)
    requires DbInv(db) && Admitted(c)
    ensures Later(db, After(db, Exec(env, db, c)))
  {
    if c.CreateVlan? || c.DeleteVlan? || c.CreateDefault? {
      VlanCommandIsLater(db, c);
    } else {
      if !c.Shutdown? && !c.NoShutdown? { PortCommandsKeepVlans(env, db, c); }
      LaterByRows(db, After(db, Exec(env, db, c)));
    }
  }

  lemma LaterKeepsRows(last: Snapshot, db: Db, d: Db)
    requires RowsRemembered(last, db) && RowsKept(db, d)
    ensures RowsRemembered(last, d)
  {
    forall r, i | r in last.vlans && 0 <= i < |d.vlans| && d.vlans[i].uuid == r.uuid
      ensures d.vlans[i].config.name == r.config.name && d.vlans[i].config.id == r.config.id
    {
      assert SameRowIn(db, d.vlans[i]);
    }
  }

  lemma MarkingIsLater(db: Db, at: nat, l3port: bool)
    requires DbInv(db)
    ensures DbInv(Marked(db, at, l3port)) && Later(db, Marked(db, at, l3port))
  {
    var d := Marked(db, at, l3port);
    LaterByRows(db, d);
    forall u ensures IsVlanRow(d, u) <==> IsVlanRow(db, u) {
      if IsVlanRow(db, u) {
        var i :| 0 <= i < |db.vlans| && db.vlans[i].uuid == u;
        assert d.vlans[i].uuid == u;
      }
    }
  }

  lemma {:induction false} SameNamesSameBridge(a: seq<Bridge>, b: seq<Bridge>)
    requires |a| == |b| && forall i :: 0 <= i < |a| ==> a[i].name == b[i].name
    ensures NamedBridge(a) == NamedBridge(b)
  {
    if a != [] {
      SameNamesSameBridge(a[1..], b[1..]);
    }
  }

  lemma RewiringKeepsInv(db: Db, ports: map<string, PortRec>, bridges: seq<Bridge>)
    requires DbInv(db) && SameListing(db.bridges, bridges) && PortsInv(db.(ports := ports))
    ensures var d := db.(ports := ports, bridges := bridges); DbInv(d) && Later(db, d)
  {
    var d := db.(ports := ports, bridges := bridges);
    SameNamesSameBridge(db.bridges, bridges);
    LaterByRows(db, d);
    assert forall u :: IsVlanRow(d, u) <==> IsVlanRow(db, u);
    assert forall p :: p in ports ==> RowInv(p, IsSystem(db.(ports := ports), p), ports[p].config);
  }

  lemma PostKeepsInv(db: Db, config: VlanConfig)
    requires DbInv(db) && ValidVid(config.id) && NoRepeats(RestValidator.Ids(Posted(db, config).vlans))
    ensures DbInv(Posted(db, config)) && Later(db, Posted(db, config))
  {
    var b, d := NamedBridge(db.bridges).value, Posted(db, config);
    var ids := RestValidator.Ids(d.vlans);
    forall i | 0 <= i < |db.vlans| ensures db.vlans[i].config.id != config.id {
      assert d.vlans[i] == db.vlans[i] && ids[i] != ids[|db.vlans|];
    }
    InsertKeepsVlans(db, b, config);
    InsertKeepsBridge(db, b, config);
    InsertIsLater(db, b, config, d);
  }

  lemma RetractKeepsInv(db: Db, at: nat)
    requires DbInv(db) && at < |db.vlans|
    ensures DbInv(Retracted(db, at)) && RowsKept(db, Retracted(db, at))
  {
    var b, d := NamedBridge(db.bridges).value, Retracted(db, at);
    DeleteKeepsVlans(db, d, at);
    DeleteKeepsRows(db, d, at);
    DeleteKeepsBridge(db, d, at, b);
    forall i | 0 <= i < |d.vlans| ensures SameRowIn(db, d.vlans[i]) {
      assert d.vlans[i] == db.vlans[if i < at then i else i + 1];
    }
  }

  lemma RetractKeepsDefault(db: Db, at: nat)
    requires at < |db.vlans| && db.vlans[at].config.id != DEFAULT_VID && HasVlan(db, DEFAULT_VID)
    ensures HasVlan(Retracted(db, at), DEFAULT_VID)
  {
    if NamedBridge(db.bridges).Some? {
      var d, i := Retracted(db, at), FindVlan(db.vlans, DEFAULT_VID).value;
      KeptRow(db.vlans, d.vlans, at, i);
      HasVlanOf(d, if i < at then i else i - 1);
    }
  }

  // ---- A turn of the daemon -----------------------------------------------------------------------

  /** The hypotheses on ids and names follow from the invariant of the commands, names from their differing. */
  lemma MirroredVlansAreWellFormed(s: Snapshot, db: Db)
    requires DbInv(db) && Mirrors(s, db) && NamesDiffer(db)
    ensures WellFormedVlans(s.vlans)
  {
    forall i | 0 <= i < |s.vlans| ensures ValidVid(s.vlans[i].config.id) {
      assert s.vlans[i].config == db.vlans[i].config;
    }
    forall i, j | 0 <= i < j < |s.vlans| ensures s.vlans[i].config.name != s.vlans[j].config.name
      && s.vlans[i].config.id != s.vlans[j].config.id && s.vlans[i].uuid != s.vlans[j].uuid {
      assert db.vlans[i].config.id != db.vlans[j].config.id;
    }
  }

  lemma MirroredRowsAreRemembered(s: Snapshot, db: Db)
    requires DbInv(db) && Mirrors(s, db)
    ensures RowsRemembered(s, db)
  {
    forall r | r in s.vlans
      ensures r.uuid < db.nextUuid
      ensures forall i :: 0 <= i < |db.vlans| && db.vlans[i].uuid == r.uuid ==>
        db.vlans[i].config.name == r.config.name && db.vlans[i].config.id == r.config.id
    {
      var k :| 0 <= k < |s.vlans| && s.vlans[k] == r;
      assert db.vlans[k].uuid == r.uuid;
    }
  }

  lemma RowNotReplaced(last: Snapshot, db: Db, x: VlanRow, i: nat)
    requires RowsRemembered(last, db) && NoneReused(last, db) && NamesDiffer(db) && x in last.vlans && i < |db.vlans|
    requires SharesIdOrName(x.config, db.vlans[i].config) || x.uuid == db.vlans[i].uuid
    ensures x.config.name == db.vlans[i].config.name && x.config.id == db.vlans[i].config.id
    ensures x.uuid == db.vlans[i].uuid
  {
    assert Leading(db, i);
    assert SharesIdOrName(x.config, db.vlans[i].config) ==> x.uuid == db.vlans[i].uuid;
  }

  /** Unless an id or a name was reused, no row was replaced in any way. */
  lemma NoReplacement(last: Snapshot, s: Snapshot, db: Db)
    requires RowsRemembered(last, db) && Mirrors(s, db) && NoneReused(last, db) && NamesDiffer(db)
    ensures NoneReplaced(last, s)
  {
    forall n, m | n in VlanIndex(last.vlans) && m in VlanIndex(s.vlans)
      ensures var x, y := VlanIndex(last.vlans)[n], VlanIndex(s.vlans)[m];
        n == m || x.config.id == y.config.id || x.uuid == y.uuid ==>
          n == m && x.config.id == y.config.id && x.uuid == y.uuid
    {
      var x, y := VlanIndex(last.vlans)[n], VlanIndex(s.vlans)[m];
      var i :| 0 <= i < |s.vlans| && s.vlans[i] == y;
      assert db.vlans[i].uuid == y.uuid && db.vlans[i].config == y.config;
      if n == m || x.config.id == y.config.id || x.uuid == y.uuid { RowNotReplaced(last, db, x, i); }
    }
  }

  /** The replica and the database when the turn reconfigures. */
  lemma TurnMirrors(w: World, e: Event)
    requires e.Turn? && WellPosed(w, e)
    ensures Mirrors(FirstSight(w, e), w.db) && Mirrors(CallOf(w, e).snap, TurnDb(w, e))
    ensures Evolves(w.replica, FirstSight(w, e)) && Evolves(FirstSight(w, e), CallOf(w, e).snap)
  {
    IdlRunMirrors(w.replica, w.db, e.news);
    IdlRunEvolves(w.replica, w.db, e.news);
    if TurnCreates(w, e) {
      IdlRunMirrors(FirstSight(w, e), TurnDb(w, e), e.again);
      IdlRunEvolves(FirstSight(w, e), TurnDb(w, e), e.again);
    }
  }

  lemma MirroredDefault(s: Snapshot, db: Db)
    requires Mirrors(s, db)
    ensures HasDefault(s) <==> HasVlan(db, DEFAULT_VID)
  {
    if HasDefault(s) {
      var i :| 0 <= i < |s.vlans| && s.vlans[i].config.id == DEFAULT_VID;
      assert db.vlans[i].config.id == DEFAULT_VID;
    }
    if HasVlan(db, DEFAULT_VID) {
      assert s.vlans[FindVlan(db.vlans, DEFAULT_VID).value].config.id == DEFAULT_VID;
    }
  }

  /** A turn that reconfigures inserts the default VLAN exactly if it is not there and was never seen before. */
  lemma TurnMakesDefault(w: World, e: Event)
    requires DbInv(w.db) && e.Turn? && WellPosed(w, e)
    ensures DbInv(TurnDb(w, e)) && Later(w.db, TurnDb(w, e))
    ensures Reconfigures(w.daemon, CallOf(w, e)) ==>
      (HasVlan(TurnDb(w, e), DEFAULT_VID) <==> HasVlan(w.db, DEFAULT_VID) || !w.daemon.defaultSeen)
    ensures AfterCall(w.daemon, CallOf(w, e)).defaultSeen ==> w.daemon.defaultSeen || HasVlan(TurnDb(w, e), DEFAULT_VID)
  {
    TurnMirrors(w, e);
    MirroredDefault(FirstSight(w, e), w.db);
    var b := NamedBridge(w.db.bridges).value;
    assert FirstSight(w, e).bridges[b].name == DEFAULT_BRIDGE_NAME;
    if TurnCreates(w, e) {
      CreateDefaultKeepsInv(w.db);
      VlanCommandIsLater(w.db, CreateDefault);
      HasVlanOf(TurnDb(w, e), |w.db.vlans|);
    } else {
      LaterByRows(w.db, w.db);
    }
  }

  lemma TurnIsLegal(w: World, e: Event)
    requires WorldInv(w) && e.Turn? && WellPosed(w, e) && Fair(w, e)
    ensures Legal(w.daemon, w.replica, CallOf(w, e))
  {
    var s := CallOf(w, e).snap;
    TurnMirrors(w, e);
    TurnMakesDefault(w, e);
    if Passes(w.daemon, CallOf(w, e)) {
      LaterKeepsRows(w.daemon.last, w.db, TurnDb(w, e));
      MirroredVlansAreWellFormed(s, TurnDb(w, e));
      NoReplacement(w.daemon.last, s, TurnDb(w, e));
    }
  }

  lemma TurnKeepsInv(w: World, e: Event)
    requires WorldInv(w) && e.Turn? && WellPosed(w, e) && Fair(w, e)
    ensures WorldInv(Happen(w, e))
  {
    TurnIsLegal(w, e);
    TurnMirrors(w, e);
    TurnMakesDefault(w, e);
    CallKeepsTracking(w.daemon, w.replica, CallOf(w, e));
    if Passes(w.daemon, CallOf(w, e)) {
      MirroredRowsAreRemembered(CallOf(w, e).snap, TurnDb(w, e));
    } else {
      LaterKeepsRows(w.daemon.last, w.db, TurnDb(w, e));
    }
  }

  /** The commands' invariant and the identity of rows do not depend on the turns being fair. */
  lemma HappenKeepsDb(w: World, e: Event)
    requires DbInv(w.db) && WellPosed(w, e)
    ensures DbInv(Happen(w, e).db) && RowsKept(w.db, Happen(w, e).db)
  {
    match e
    case Enter(t) =>
      ExecKeepsInv(t.env, w.db, t.command);
      ExecIsLater(t.env, w.db, t.command);
    case Post(config) => PostKeepsInv(w.db, config);
    case Retract(at) => RetractKeepsInv(w.db, at);
    case MarkL3(at, l3port) => MarkingIsLater(w.db, at, l3port);
    case Rewire(ports, bridges) => RewiringKeepsInv(w.db, ports, bridges);
    case Turn(_, _, _, _, _, _) => TurnMakesDefault(w, e);
  }

  lemma HappenKeepsInv(w: World, e: Event)
    requires WorldInv(w) && WellPosed(w, e) && Fair(w, e)
    ensures WorldInv(Happen(w, e))
  {
    if e.Turn? {
      TurnKeepsInv(w, e);
    } else {
      HappenKeepsDb(w, e);
      LaterKeepsRows(w.daemon.last, w.db, Happen(w, e).db);
    }
  }

  lemma BitsAreCarried(s: Snapshot, c: Cache, p: string, vid: int)
    requires Synced(s, c) && p in c.ports && vid in c.ports[p].bits
    ensures p in PortIndex(s.ports) && (ValidVid(vid) ==> Carries(PortIndex(s.ports)[p].config, vid))
  {
    SyncedMeansBitmaps(s, c, p);
  }

  /**
   * While it drops ports the daemon follows row handles of the VLANs in their bitmaps: all of them are
   * live, as no port went away together with a VLAN that its row made it a member of.
   */
  lemma TurnDropsAreLive(w: World, e: Event)
    requires WorldInv(w) && e.Turn? && WellPosed(w, e) && Fair(w, e) && Passes(w.daemon, CallOf(w, e))
    ensures VlandDaemon.DropsAreLive(CallOf(w, e).snap, w.daemon.cache)
  {
    var last, c, s, db := w.daemon.last, w.daemon.cache, CallOf(w, e).snap, TurnDb(w, e);
    TurnMirrors(w, e);
    SyncedMeansExactTables(last, c);
    forall p, n | p in c.ports && p !in PortIndex(s.ports) && n in c.vlans && c.vlans[n].vid in c.ports[p].bits
      ensures n in VlanIndex(s.vlans)
    {
      BitsAreCarried(last, c, p, c.vlans[n].vid);
      assert n in VlanIndex(last.vlans) && VlanIndex(last.vlans)[n].config.id == c.vlans[n].vid;
      assert HasName(db, n);
      var i :| 0 <= i < |db.vlans| && db.vlans[i].config.name == n;
      assert s.vlans[i] in s.vlans && s.vlans[i].config.name == n;
    }
  }

  // ---- Whole runs ------------------------------------------------------------------------------------

  ghost predicate History(w: World, events: seq<Event>)
    decreases |events|
  {
    events == [] || (WellPosed(w, events[0]) && History(Happen(w, events[0]), events[1..]))
  }

  ghost function Outlive(w: World, events: seq<Event>): World
    requires History(w, events)
    decreases |events|
  {
    if events == [] then w else Outlive(Happen(w, events[0]), events[1..])
  }

  ghost predicate FairHistory(w: World, events: seq<Event>)
    requires History(w, events)
    decreases |events|
  {
    events == [] || (Fair(w, events[0]) && FairHistory(Happen(w, events[0]), events[1..]))
  }

  lemma {:induction false} HistoryKeepsInv(w: World, events: seq<Event>)
    requires WorldInv(w) && History(w, events) && FairHistory(w, events)
    ensures WorldInv(Outlive(w, events))
    decreases |events|
  {
    if events == [] {
    } else {
      HappenKeepsInv(w, events[0]);
      HistoryKeepsInv(Happen(w, events[0]), events[1..]);
    }
  }

  // ---- VLAN 1 ----------------------------------------------------------------------------------------

  ghost predicate DefaultThere(w: World) {
    w.daemon.defaultSeen ==> HasVlan(w.db, DEFAULT_VID)
  }

  /** No event deletes VLAN 1 over REST. */
  ghost predicate KeepsDefault(w: World, events: seq<Event>)
    requires History(w, events)
    decreases |events|
  {
    events == [] ||
    (&& (events[0].Retract? ==> w.db.vlans[events[0].at].config.id != DEFAULT_VID)
     && KeepsDefault(Happen(w, events[0]), events[1..]))
  }

  lemma HappenKeepsDefault(w: World, e: Event)
    requires DbInv(w.db) && DefaultThere(w) && WellPosed(w, e)
    requires e.Retract? ==> w.db.vlans[e.at].config.id != DEFAULT_VID
    ensures DefaultThere(Happen(w, e))
  {
    match e
    case Enter(t) => ExecIsLater(t.env, w.db, t.command);
    case Post(config) => PostKeepsInv(w.db, config);
    case Retract(at) => if HasVlan(w.db, DEFAULT_VID) { RetractKeepsDefault(w.db, at); }
    case MarkL3(at, l3port) => MarkingIsLater(w.db, at, l3port);
    case Rewire(ports, bridges) => RewiringKeepsInv(w.db, ports, bridges);
    case Turn(_, _, _, _, _, _) => TurnMakesDefault(w, e);
  }

  /** Unless VLAN 1 is deleted over REST, it is there from the moment the daemon saw or made it. */
  lemma {:induction false} HistoryKeepsDefault(w: World, events: seq<Event>)
    requires DbInv(w.db) && DefaultThere(w) && History(w, events) && KeepsDefault(w, events)
    ensures DefaultThere(Outlive(w, events))
    decreases |events|
  {
    if events == [] {
    } else {
      HappenKeepsDb(w, events[0]);
      HappenKeepsDefault(w, events[0]);
      HistoryKeepsDefault(Happen(w, events[0]), events[1..]);
    }
  }

  // ---- Hardware --------------------------------------------------------------------------------------

  /** From the database alone: a switched port whose row makes it a member of VLAN v. */
  ghost predicate HasMember(db: Db, v: int) {
    exists p :: p in db.ports && p != DEFAULT_BRIDGE_NAME && InBridges(db.bridges, p) && Carries(db.ports[p].config, v)
  }

  lemma CarriedIffHasMember(s: Snapshot, db: Db, v: int)
    requires Mirrors(s, db)
    ensures Carried(s, v) <==> HasMember(db, v)
  {
    if Carried(s, v) {
      var p :| CarriedBy(s, p, v);
      assert p in db.ports;
    }
    if HasMember(db, v) {
      var p :| p in db.ports && p != DEFAULT_BRIDGE_NAME && InBridges(db.bridges, p) && Carries(db.ports[p].config, v);
      assert CarriedBy(s, p, v);
    }
  }

  lemma MirroredRow(s: Snapshot, db: Db, i: nat)
    requires WellFormedVlans(s.vlans) && Mirrors(s, db) && i < |db.vlans|
    ensures db.vlans[i].config.name in VlanIndex(s.vlans)
    ensures var r := VlanIndex(s.vlans)[db.vlans[i].config.name];
      r.uuid == db.vlans[i].uuid && r.config == db.vlans[i].config
  {
    assert s.vlans[i] in s.vlans && s.vlans[i].config.name == db.vlans[i].config.name;
    var r := VlanIndex(s.vlans)[db.vlans[i].config.name];
    var k :| 0 <= k < |s.vlans| && s.vlans[k] == r;
  }

  /** The hardware enable of VLAN row r is what the database calls for. */
  ghost predicate HardwareFollows(db: Db, columns: map<nat, Columns>, r: VlanRec) {
    && r.uuid in columns
    && (r.config.id != DEFAULT_VID ==>
          (columns[r.uuid].hwEnable <==> AdminIsUp(r.config) && HasMember(db, r.config.id)))
    && (r.config.id == DEFAULT_VID ==> columns[r.uuid].hwEnable)
  }

  lemma ColumnsFollowRows(s: Snapshot, c: Cache, db: Db, i: nat)
    requires Synced(s, c) && Mirrors(s, db) && i < |db.vlans| && !db.vlans[i].config.l3port
    ensures HardwareFollows(db, c.db, db.vlans[i])
  {
    var r := db.vlans[i];
    MirroredRow(s, db, i);
    if r.config.id == DEFAULT_VID {
      SyncedMeansDefaultUp(s, c, r.config.name);
    } else {
      SyncedMeansExpected(s, c, r.config.name);
      CarriedIffHasMember(s, db, r.config.id);
    }
  }

  lemma TurnMakesHardwareFollow(w: World, e: Event, i: nat)
    requires WorldInv(w) && e.Turn? && WellPosed(w, e) && Fair(w, e) && Reconfigures(w.daemon, CallOf(w, e))
    requires i < |Happen(w, e).db.vlans| && !Happen(w, e).db.vlans[i].config.l3port
    ensures var x := Happen(w, e); HardwareFollows(x.db, x.daemon.cache.db, x.db.vlans[i])
  {
    TurnIsLegal(w, e);
    TurnMirrors(w, e);
    CallKeepsTracking(w.daemon, w.replica, CallOf(w, e));
    ColumnsFollowRows(CallOf(w, e).snap, Happen(w, e).daemon.cache, TurnDb(w, e), i);
  }

  /**
   * After any history of commands, VLANs created and deleted over REST, L3PORT marks, ports created, changed,
   * removed or moved by others, and turns of the daemon, some of them skipped: one more turn that
   * reconfigures leaves every VLAN but VLAN 1 and the L3PORT ones enabled in hardware exactly when it is
   * administratively up and a switched port carries it; VLAN 1 it leaves enabled, and in the table
   * exactly if it was there or had never been seen.
   */
  lemma HardwareFollowsConfiguration(db: Db, events: seq<Event>, e: Event)
    requires DbInv(db) && History(Booted(db), events) && FairHistory(Booted(db), events) && e.Turn?
    requires var w := Outlive(Booted(db), events);
      WellPosed(w, e) && Fair(w, e) && Reconfigures(w.daemon, CallOf(w, e))
    ensures var w := Outlive(Booted(db), events); var x := Happen(w, e);
      && (HasVlan(x.db, DEFAULT_VID) <==> HasVlan(w.db, DEFAULT_VID) || !w.daemon.defaultSeen)
      && forall i :: 0 <= i < |x.db.vlans| && !x.db.vlans[i].config.l3port ==>
           HardwareFollows(x.db, x.daemon.cache.db, x.db.vlans[i])
  {
    var w := Outlive(Booted(db), events);
    var x := Happen(w, e);
    BootedHasInv(db);
    HistoryKeepsInv(Booted(db), events);
    TurnMakesDefault(w, e);
    forall i | 0 <= i < |x.db.vlans| && !x.db.vlans[i].config.l3port
      ensures HardwareFollows(x.db, x.daemon.cache.db, x.db.vlans[i])
    {
      TurnMakesHardwareFollow(w, e, i);
    }
  }

  /** A port that some bridge lists, not the bridge's own, has a row whose columns make it a member of the VLAN. */
  ghost predicate SwitchedMember(db: Db, v: int) {
    exists p, b ::
      && p in db.ports && p != "bridge_normal" && 0 <= b < |db.bridges| && p in db.bridges[b].ports
      && MemberByColumns(db.ports[p].config, v)
  }

  lemma HasMemberByColumns(db: Db, v: int)
    requires 0 < v < 4095
    ensures HasMember(db, v) <==> SwitchedMember(db, v)
  {
    forall p | p in db.ports ensures Carries(db.ports[p].config, v) <==> MemberByColumns(db.ports[p].config, v) {
      CarriesByColumns(db.ports[p].config, v);
    }
    if HasMember(db, v) {
      var p :| p in db.ports && p != DEFAULT_BRIDGE_NAME && InBridges(db.bridges, p) && Carries(db.ports[p].config, v);
      var b :| 0 <= b < |db.bridges| && p in db.bridges[b].ports;
      assert MemberByColumns(db.ports[p].config, v);
    }
    if p, b :| p in db.ports && p != "bridge_normal" && 0 <= b < |db.bridges| && p in db.bridges[b].ports
               && MemberByColumns(db.ports[p].config, v) {
      assert InBridges(db.bridges, p) && Carries(db.ports[p].config, v);
    }
  }

  /**
   * The same from column to column: with the lock, no contender, and System's "cur_cfg" above 0 now or once before, the
   * turn leaves a VLAN but VLAN 1, not marked L3PORT, enabled in hardware exactly if its admin column says up
   * and the columns of a switched port make that a member.
   */
  lemma HardwareByColumns(db: Db, events: seq<Event>, e: Event, i: nat)
    requires DbInv(db) && History(Booted(db), events) && FairHistory(Booted(db), events) && e.Turn?
    requires var w := Outlive(Booted(db), events);
      && WellPosed(w, e) && Fair(w, e)
      && !e.contended && e.locked && (w.daemon.configured || (e.curCfg.Some? && e.curCfg.value > 0))
      && i < |Happen(w, e).db.vlans|
      && !Happen(w, e).db.vlans[i].config.l3port && Happen(w, e).db.vlans[i].config.id != 1
    ensures var x := Happen(Outlive(Booted(db), events), e);
      var r, columns := x.db.vlans[i], x.daemon.cache.db;
      && r.uuid in columns
      && (columns[r.uuid].hwEnable <==> r.config.admin == Some(AdminUp) && SwitchedMember(x.db, r.config.id))
  {
    var w := Outlive(Booted(db), events);
    HardwareFollowsConfiguration(db, events, e);
    BootedHasInv(db);
    HistoryKeepsInv(Booted(db), events);
    HappenKeepsDb(w, e);
    var x := Happen(w, e);
    assert HardwareFollows(x.db, x.daemon.cache.db, x.db.vlans[i]);
    HasMemberByColumns(x.db, x.db.vlans[i].config.id);
  }

  /** Whatever the replica and the cache, a turn that may be made can be made: some order of visiting is a pass. */
  lemma TurnIsPossible(w: World, draft: Event) returns (e: Event)
    requires draft.Turn? && WellPosed(w, draft)
    requires NamesDiffer(TurnDb(w, draft)) && NoneReused(w.daemon.last, TurnDb(w, draft))
    requires NoneGoneTogether(w.daemon.last, TurnDb(w, draft))
    ensures e.Turn? && e == draft.(steps := e.steps) && WellPosed(w, e) && Fair(w, e)
  {
    var steps := VlandDaemon.PassExists(CallOf(w, draft).snap, w.daemon.last.seqno, w.daemon.cache);
    e := draft.(steps := steps);
    assert CallOf(w, e) == CallOf(w, draft).(steps := steps);
  }

  // ---- Histories in which VLANs are typed with at most four digits -------------------------------------

  ghost predicate NamesMean(last: Snapshot) {
    forall r :: r in last.vlans ==> IdOfName(r.config.name) == Some(r.config.id)
  }

  lemma PlainNamesDiffer(db: Db)
    requires VlansInv(db) && NamesInv(db)
    ensures NamesDiffer(db)
  {
    forall i, j | 0 <= i < j < |db.vlans| ensures db.vlans[i].config.name != db.vlans[j].config.name {
      assert Some(db.vlans[i].config.id) != Some(db.vlans[j].config.id);
    }
  }

  /** VLANs are typed with at most four digits, and over REST get names that mean their ids. */
  ghost predicate PlainEvent(e: Event) {
    && (e.Enter? ==> Plain(e.typed.command))
    && (e.Post? ==> IdOfName(e.config.name) == Some(e.config.id))
  }

  ghost predicate PlainEvents(events: seq<Event>) {
    forall i :: 0 <= i < |events| ==> PlainEvent(events[i])
  }

  lemma MirroredNamesMean(s: Snapshot, db: Db)
    requires Mirrors(s, db) && NamesInv(db)
    ensures NamesMean(s)
  {
    forall r | r in s.vlans ensures IdOfName(r.config.name) == Some(r.config.id) {
      var k :| 0 <= k < |s.vlans| && s.vlans[k] == r;
      assert db.vlans[k].config == r.config;
    }
  }

  lemma CreateDefaultKeepsNames(db: Db)
    requires NamesInv(db)
    ensures NamesInv(After(db, DoCreateDefault(db)))
  {
  }

  lemma TurnKeepsNames(w: World, e: Event)
    requires DbInv(w.db) && NamesInv(w.db) && e.Turn? && WellPosed(w, e)
    ensures NamesInv(TurnDb(w, e)) && NamesMean(CallOf(w, e).snap)
  {
    if TurnCreates(w, e) {
      CreateDefaultKeepsNames(w.db);
    }
    TurnMirrors(w, e);
    MirroredNamesMean(CallOf(w, e).snap, TurnDb(w, e));
  }

  lemma PostKeepsNames(db: Db, config: VlanConfig)
    requires NamesInv(db) && IdOfName(config.name) == Some(config.id)
    ensures NamesInv(Posted(db, config))
  {
  }

  lemma RetractKeepsNames(db: Db, at: nat)
    requires NamesInv(db) && at < |db.vlans|
    ensures NamesInv(Retracted(db, at))
  {
    var d := Retracted(db, at);
    if NamedBridge(db.bridges).Some? {
      forall i | 0 <= i < |d.vlans| ensures d.vlans[i] == db.vlans[if i < at then i else i + 1] {
        KeptRow(db.vlans, d.vlans, at, if i < at then i else i + 1);
      }
    }
  }

  lemma HappenKeepsNames(w: World, e: Event)
    requires DbInv(w.db) && NamesInv(w.db) && NamesMean(w.daemon.last) && WellPosed(w, e) && PlainEvent(e)
    ensures NamesInv(Happen(w, e).db) && NamesMean(Happen(w, e).daemon.last)
  {
    match e
    case Enter(t) => ExecKeepsNames(t.env, w.db, t.command);
    case Post(config) => PostKeepsNames(w.db, config);
    case Retract(at) => RetractKeepsNames(w.db, at);
    case MarkL3(_, _) =>
    case Rewire(_, _) =>
    case Turn(_, _, _, _, _, _) => TurnKeepsNames(w, e);
  }

  lemma {:induction false} PlainHistoryKeepsNames(w: World, events: seq<Event>)
    requires DbInv(w.db) && NamesInv(w.db) && NamesMean(w.daemon.last) && History(w, events) && PlainEvents(events)
    ensures DbInv(Outlive(w, events).db) && NamesInv(Outlive(w, events).db) && NamesMean(Outlive(w, events).daemon.last)
    decreases |events|
  {
    if events == [] {
    } else {
      HappenKeepsNames(w, events[0]);
      HappenKeepsDb(w, events[0]);
      PlainHistoryKeepsNames(Happen(w, events[0]), events[1..]);
    }
  }

  /** No VLAN id was deleted and created again since the daemon last processed the database. */
  ghost predicate NoneRecreated(last: Snapshot, db: Db) {
    forall r, i :: r in last.vlans && 0 <= i < |db.vlans| && r.config.id == db.vlans[i].config.id ==>
      r.uuid == db.vlans[i].uuid
  }

  lemma SameNameSameId(last: Snapshot, db: Db)
    requires NamesMean(last) && NamesInv(db)
    ensures forall r, i :: r in last.vlans && 0 <= i < |db.vlans| && r.config.name == db.vlans[i].config.name ==>
      r.config.id == db.vlans[i].config.id
  {
    forall r, i | r in last.vlans && 0 <= i < |db.vlans| && r.config.name == db.vlans[i].config.name
      ensures r.config.id == db.vlans[i].config.id
    {
      assert Some(r.config.id) == Some(db.vlans[i].config.id);
    }
  }

  /**
   * Where VLANs are created with at most four digits, what a turn needs of names is always so, and of
   * reuse it is enough that no id was deleted and created again.
   */
  lemma PlainHistoryIsFair(db: Db, events: seq<Event>, e: Event)
    requires DbInv(db) && NamesInv(db) && History(Booted(db), events) && PlainEvents(events)
    requires e.Turn? && WellPosed(Outlive(Booted(db), events), e)
    ensures var w := Outlive(Booted(db), events);
      && NamesDiffer(TurnDb(w, e))
      && (NoneRecreated(w.daemon.last, TurnDb(w, e)) <==> NoneReused(w.daemon.last, TurnDb(w, e)))
  {
    var w := Outlive(Booted(db), events);
    PlainHistoryKeepsNames(Booted(db), events);
    TurnKeepsNames(w, e);
    TurnMakesDefault(w, e);
    PlainNamesDiffer(TurnDb(w, e));
    SameNameSameId(w.daemon.last, TurnDb(w, e));
  }
}
