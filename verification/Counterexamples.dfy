/**
 * Reachable inputs on which what one would expect of the daemon fails; the exact conditions are in PassProperties,
 * MemberFlags and RecreatedVlans.
 */
module Counterexamples {
  import opened VlanTypes
  import opened VlanCache
  import opened PassInvariant
  import opened Reconciliation
  import opened MemberFlags
  import opened PassProperties
  import opened RecreatedVlans
  import opened DaemonRuns
  import VlandDaemon

  /** VLAN 5, administratively up, inserted at sequence number at. */
  function Vlan5(at: nat): VlanRow {
    VlanRow(0, VlanConfig("VLAN5", 5, Some(AdminUp), false), at, at)
  }

  function AccessPort(): PortRow {
    PortRow("1", PortConfig(Some(Access), Some(5), []), 1, 1)
  }

  function TrunkPort(modified: nat): PortRow {
    PortRow("1", PortConfig(Some(Trunk), None, []), 1, modified)
  }

  lemma OneRow(p: PortRow, v: VlanRow)
    ensures PortIndex([p]) == map[p.name := p] && VlanIndex([v]) == map[v.config.name := v]
    ensures WellFormedVlans([v]) <==> ValidVid(v.config.id)
  {
    assert [p][..0] == [] && [v][..0] == [];
  }

  /** From its start the daemon can be in sync with any snapshot that is new to it. */
  lemma FirstPass(a: Snapshot) returns (steps: seq<Step>, c: Cache)
    requires Evolves(START.last, a) && WellFormedVlans(a.vlans)
    ensures IsPass(a, 0, EMPTY_CACHE, steps) && c == Run(a, EMPTY_CACHE, steps) && Synced(a, c)
  {
    StartTracks(a);
    steps := VlandDaemon.PassExists(a, 0, EMPTY_CACHE);
    c := Run(a, EMPTY_CACHE, steps);
    PassRefines(START.last, a, EMPTY_CACHE, steps);
  }

  // ---- A bridge change that flags no row ---------------------------------------------------------

  /** A bridge change that flags no row: only the bridges differ, and the pass has nothing to do. */
  ghost predicate UnflaggedMove(a: Snapshot, b: Snapshot) {
    && b == a.(seqno := b.seqno, bridges := b.bridges)
    && (forall p :: p in PortIndex(b.ports) ==> !PortFlagged(PortIndex(b.ports)[p], a.seqno))
    && (forall n :: n in VlanIndex(b.vlans) ==> !VlanFlagged(VlanIndex(b.vlans)[n], a.seqno))
  }

  lemma UnflaggedPassIsEmpty(a: Snapshot, b: Snapshot, c: Cache, steps: seq<Step>)
    requires Synced(a, c) && UnflaggedMove(a, b) && IsPass(b, a.seqno, c, steps)
    ensures steps == [] && Run(b, c, steps) == c
  {
    SyncedMeansExactTables(a, c);
    if steps != [] {
      var x := steps[0];
      assert x in steps;
      match x
      case DropPort(p) =>
      case AddPort(p) =>
      case ReadPort(p) =>
      case DropVlan(m) =>
      case AddVlan(m) =>
      case ReadVlan(m) =>
    }
  }

  /** Port "1" carries VLAN 5 but is in no bridge; then it is put into the bridge, and no row is flagged. */
  function Unbridged(): Snapshot {
    Snapshot(1, [AccessPort()], [Vlan5(1)], [Bridge(DEFAULT_BRIDGE_NAME, [], [0])])
  }

  function Bridged(): Snapshot {
    Snapshot(2, [AccessPort()], [Vlan5(1)], [Bridge(DEFAULT_BRIDGE_NAME, ["1"], [0])])
  }

  lemma UnbridgedCarriesNothing()
    ensures !Carried(Unbridged(), 5)
  {
    forall p ensures !CarriedBy(Unbridged(), p, 5) {
      assert !InBridge(Unbridged(), p);
    }
  }

  lemma BridgedCarries()
    ensures Carried(Bridged(), 5)
  {
    OneRow(AccessPort(), Vlan5(1));
    assert "1" in Bridged().bridges[0].ports;
    assert CarriedBy(Bridged(), "1", 5);
  }

  lemma NothingFlagged()
    ensures UnflaggedMove(Unbridged(), Bridged()) && Evolves(START.last, Unbridged())
    ensures WellFormedVlans(Unbridged().vlans)
    ensures VlanIndex(Bridged().vlans) == map["VLAN5" := Vlan5(1)]
  {
    OneRow(AccessPort(), Vlan5(1));
  }

  lemma MoveIsMissed(c: Cache, second: seq<Step>)
    requires Synced(Unbridged(), c) && IsPass(Bridged(), 1, c, second)
    ensures var d := Run(Bridged(), c, second); 0 in d.db && !d.db[0].hwEnable && !Synced(Bridged(), d)
  {
    NothingFlagged();
    UnbridgedCarriesNothing();
    BridgedCarries();
    UnflaggedPassIsEmpty(Unbridged(), Bridged(), c, second);
    UnflaggedBridgeMoves(Unbridged(), Bridged(), c, second, Vlan5(1));
    SyncedMeansExpected(Unbridged(), c, "VLAN5");
    if Synced(Bridged(), c) {
      SyncedMeansExpected(Bridged(), c, "VLAN5");
    }
  }

  /** After both passes VLAN 5 is up and carried by a switched port, and not enabled in hardware. */
  lemma MissedBridgeMove() returns (first: seq<Step>, second: seq<Step>)
    ensures IsPass(Unbridged(), 0, EMPTY_CACHE, first)
    ensures var c := Run(Unbridged(), EMPTY_CACHE, first);
      var d := Run(Bridged(), c, second);
      && Synced(Unbridged(), c) && UnflaggedMove(Unbridged(), Bridged()) && IsPass(Bridged(), 1, c, second)
      && Vlan5(1) in Bridged().vlans && AdminIsUp(Vlan5(1).config) && Carried(Bridged(), 5)
      && 0 in d.db && !d.db[0].hwEnable && !Synced(Bridged(), d)
  {
    NothingFlagged();
    BridgedCarries();
    var c;
    first, c := FirstPass(Unbridged());
    second := VlandDaemon.PassExists(Bridged(), 1, c);
    MoveIsMissed(c, second);
  }

  // ---- A stale copy of the VLAN set ------------------------------------------------------------------

  /** Port "1" trunks implicitly in no bridge; then VLAN 5 is created; then the port is flagged without a change. */
  function NoVlans(): Snapshot {
    Snapshot(1, [TrunkPort(1)], [], [Bridge(DEFAULT_BRIDGE_NAME, [], [])])
  }

  function WithVlan5(seqno: nat, modified: nat): Snapshot {
    Snapshot(seqno, [TrunkPort(modified)], [Vlan5(2)], [Bridge(DEFAULT_BRIDGE_NAME, [], [0])])
  }

  lemma ReadsFirstPort(s: Snapshot, steps: seq<Step>)
    requires steps == [AddPort("1"), ReadPort("1")] && s == NoVlans()
    ensures IsPass(s, 0, EMPTY_CACHE, steps)
  {
    OneRow(TrunkPort(1), Vlan5(2));
    assert VlanIndex(s.vlans) == map[];
  }

  /** The copy made before VLAN 5 existed lacks it: no bitmap has an id that no VLAN of its time had. */
  lemma CopyLacks(c: Cache, steps: seq<Step>)
    requires steps == [AddPort("1"), ReadPort("1")] && c == Run(NoVlans(), EMPTY_CACHE, steps)
    ensures "1" in c.ports && 5 !in c.ports["1"].bits && c.vlans == map[]
  {
    var s := NoVlans();
    OneRow(TrunkPort(1), Vlan5(2));
    var c1 := Apply(s, EMPTY_CACHE, AddPort("1"));
    assert steps[1..] == [ReadPort("1")] && [ReadPort("1")][1..] == [];
    assert c == Apply(s, c1, ReadPort("1"));
    var e := ParsePort(TrunkPort(1).config, {}, InBridge(s, "1"));
    ScanBitsEffect(s, c1.(ports := c1.ports["1" := e]), c1.ports["1"].bits + e.bits, VLAN_BITMAP_SIZE);
  }

  lemma AddsOnly(s: Snapshot, since: nat, c: Cache, p: PortRow, v: VlanRow, steps: seq<Step>)
    requires PortIndex(s.ports) == map[p.name := p] && VlanIndex(s.vlans) == map[v.config.name := v]
    requires c.ports.Keys == {p.name} && c.vlans == map[] && !PortFlagged(p, since) && VlanFlagged(v, since)
    requires steps == [AddVlan(v.config.name), ReadVlan(v.config.name)]
    ensures IsPass(s, since, c, steps)
  {
  }

  lemma AddsVlan5(c: Cache, steps: seq<Step>)
    requires steps == [AddVlan("VLAN5"), ReadVlan("VLAN5")] && Synced(NoVlans(), c) && c.vlans == map[]
    ensures IsPass(WithVlan5(2, 1), 1, c, steps)
  {
    OneRow(TrunkPort(1), Vlan5(2));
    SyncedMeansExactTables(NoVlans(), c);
    AddsOnly(WithVlan5(2, 1), 1, c, TrunkPort(1), Vlan5(2), steps);
  }

  lemma CopyStays(c: Cache, steps: seq<Step>)
    requires steps == [AddVlan("VLAN5"), ReadVlan("VLAN5")] && "1" in c.ports && 5 !in c.ports["1"].bits
    requires c.vlans == map[]
    ensures var d := Run(WithVlan5(2, 1), c, steps); "1" in d.ports && 5 !in d.ports["1"].bits
  {
    var s := WithVlan5(2, 1);
    OneRow(TrunkPort(1), Vlan5(2));
    var c1 := Apply(s, c, AddVlan("VLAN5"));
    assert steps[1..] == [ReadVlan("VLAN5")] && [ReadVlan("VLAN5")][1..] == [];
    assert Run(s, c, steps) == Apply(s, c1, ReadVlan("VLAN5"));
    assert !InBridge(s, "1");
    assert c1.ports["1"] == c.ports["1"];
  }

  lemma FirstCache(first: seq<Step>) returns (c: Cache)
    requires first == [AddPort("1"), ReadPort("1")]
    ensures c == Run(NoVlans(), EMPTY_CACHE, first) && IsPass(NoVlans(), 0, EMPTY_CACHE, first)
    ensures Synced(NoVlans(), c) && "1" in c.ports && 5 !in c.ports["1"].bits && c.vlans == map[]
  {
    c := Run(NoVlans(), EMPTY_CACHE, first);
    OneRow(TrunkPort(1), Vlan5(2));
    ReadsFirstPort(NoVlans(), first);
    StartTracks(NoVlans());
    PassRefines(START.last, NoVlans(), EMPTY_CACHE, first);
    CopyLacks(c, first);
  }

  lemma SecondNews()
    ensures Evolves(NoVlans(), WithVlan5(2, 1)) && NoneReplaced(NoVlans(), WithVlan5(2, 1))
    ensures WellFormedVlans(WithVlan5(2, 1).vlans)
  {
    OneRow(TrunkPort(1), Vlan5(2));
  }

  lemma SecondCache(c: Cache, second: seq<Step>) returns (d: Cache)
    requires second == [AddVlan("VLAN5"), ReadVlan("VLAN5")]
    requires Synced(NoVlans(), c) && "1" in c.ports && 5 !in c.ports["1"].bits && c.vlans == map[]
    ensures d == Run(WithVlan5(2, 1), c, second) && IsPass(WithVlan5(2, 1), 1, c, second)
    ensures Synced(WithVlan5(2, 1), d) && "1" in d.ports && 5 !in d.ports["1"].bits && 5 in d.allVids
  {
    var b := WithVlan5(2, 1);
    d := Run(b, c, second);
    SecondNews();
    AddsVlan5(c, second);
    PassRefines(NoVlans(), b, c, second);
    CopyStays(c, second);
    SyncedMeansExactTables(b, d);
    assert Vlan5(2) in b.vlans;
  }

  lemma ThirdNews()
    ensures SameContents(WithVlan5(2, 1), WithVlan5(3, 3)) && WellFormedVlans(WithVlan5(3, 3).vlans)
    ensures "1" in PortIndex(WithVlan5(3, 3).ports) && PortIndex(WithVlan5(3, 3).ports)["1"] == TrunkPort(3)
  {
    OneRow(TrunkPort(1), Vlan5(2));
    OneRow(TrunkPort(3), Vlan5(2));
    assert !InBridge(WithVlan5(3, 3), "1") && !InBridge(WithVlan5(2, 1), "1");
  }

  lemma ThirdPass(d: Cache, third: seq<Step>)
    requires Synced(WithVlan5(2, 1), d) && IsPass(WithVlan5(3, 3), 2, d, third) && "1" in d.ports && 5 in d.allVids
    ensures SameContents(WithVlan5(2, 1), WithVlan5(3, 3))
    ensures var e := Run(WithVlan5(3, 3), d, third); "1" in e.ports && 5 in e.ports["1"].bits
  {
    var b, s := WithVlan5(2, 1), WithVlan5(3, 3);
    ThirdNews();
    ReprocessedBitmaps(b, s, d, third, "1");
    assert Reread(s, d, "1").bits >= d.allVids;
  }

  /**
   * A run from the start after which reprocessing an unchanged snapshot changes a bitmap at VLAN 5, which is
   * defined: reprocessing is not quiet for every bitmap.
   */
  lemma StaleTrunkCopy() returns (third: seq<Step>)
    ensures var first, second := [AddPort("1"), ReadPort("1")], [AddVlan("VLAN5"), ReadVlan("VLAN5")];
      var c := Run(NoVlans(), EMPTY_CACHE, first);
      var d := Run(WithVlan5(2, 1), c, second);
      var e := Run(WithVlan5(3, 3), d, third);
      && IsPass(NoVlans(), 0, EMPTY_CACHE, first) && Synced(NoVlans(), c)
      && IsPass(WithVlan5(2, 1), 1, c, second) && Synced(WithVlan5(2, 1), d)
      && IsPass(WithVlan5(3, 3), 2, d, third) && SameContents(WithVlan5(2, 1), WithVlan5(3, 3))
      && "1" in d.ports && "1" in e.ports && 5 in d.allVids && 5 !in d.ports["1"].bits && 5 in e.ports["1"].bits
  {
    var c := FirstCache([AddPort("1"), ReadPort("1")]);
    var d := SecondCache(c, [AddVlan("VLAN5"), ReadVlan("VLAN5")]);
    third := VlandDaemon.PassExists(WithVlan5(3, 3), 2, d);
    ThirdPass(d, third);
  }

  // ---- A VLAN deleted and created again ----------------------------------------------------------------

  /** Switched port "1" trunks implicitly; VLAN 5, up, is row 0, and then, deleted and created again, row 1. */
  function Before(): Snapshot {
    Snapshot(1, [TrunkPort(1)], [Vlan5(1)], [Bridge(DEFAULT_BRIDGE_NAME, ["1"], [0])])
  }

  function Again(): VlanRow {
    Vlan5(2).(uuid := 1)
  }

  function After(): Snapshot {
    Snapshot(2, [TrunkPort(1)], [Again()], [Bridge(DEFAULT_BRIDGE_NAME, ["1"], [0])])
  }

  lemma RecreationFacts()
    ensures Evolves(START.last, Before()) && Evolves(Before(), After()) && WellFormedVlans(Before().vlans)
    ensures OnlyRecreated(Before(), After()) && WellFormedVlans(After().vlans)
    ensures VlanIndex(After().vlans) == map["VLAN5" := Again()] && VlanIndex(Before().vlans) == map["VLAN5" := Vlan5(1)]
  {
    OneRow(TrunkPort(1), Vlan5(1));
    OneRow(TrunkPort(1), Again());
  }

  lemma RecreationCarried()
    ensures Carried(After(), 5)
  {
    OneRow(TrunkPort(1), Again());
    assert "1" in After().bridges[0].ports;
    assert CarriedBy(After(), "1", 5);
  }

  /** From its start the daemon has written nothing but the rows of what it processed. */
  lemma FirstPassWrites(a: Snapshot, steps: seq<Step>, uuid: nat)
    requires forall n :: n in VlanIndex(a.vlans) ==> VlanIndex(a.vlans)[n].uuid != uuid
    ensures uuid !in Run(a, EMPTY_CACHE, steps).db
  {
    RunSkips(a, EMPTY_CACHE, steps, uuid);
  }

  lemma RecreationIsMissed(c: Cache, second: seq<Step>)
    requires Synced(Before(), c) && IsPass(After(), 1, c, second) && 1 !in c.db
    ensures 1 !in Run(After(), c, second).db
  {
    RecreationFacts();
    RecreatedRowWritten(Before(), After(), c, second, Again());
  }

  /** After both passes VLAN 5 is up and carried by a switched port, and its row has no columns. */
  lemma MissedRecreation() returns (first: seq<Step>, second: seq<Step>)
    ensures IsPass(Before(), 0, EMPTY_CACHE, first)
    ensures var c := Run(Before(), EMPTY_CACHE, first);
      && Synced(Before(), c) && Evolves(Before(), After()) && IsPass(After(), 1, c, second)
      && Again() in After().vlans && AdminIsUp(Again().config) && Carried(After(), 5)
      && Again().uuid !in Run(After(), c, second).db
  {
    RecreationFacts();
    RecreationCarried();
    var c;
    first, c := FirstPass(Before());
    FirstPassWrites(Before(), first, 1);
    second := VlandDaemon.PassExists(After(), 1, c);
    RecreationIsMissed(c, second);
  }
}
