/** Consequences of the reconciliation theorem for single passes and for runs of the daemon. */
module PassProperties {
  import opened VlanTypes
  import opened VlanCache
  import opened PassInvariant
  import opened StepLemmas
  import opened Reconciliation

  // ---- VLANs marked L3PORT are frozen ------------------------------------------------

  /** From c to d, VLAN row r keeps its state (unknown when new) and its columns. */
  ghost predicate Frozen(c: Cache, d: Cache, r: VlanRow) {
    var n := r.config.name;
    && (n in d.vlans ==>
          if n in c.vlans then d.vlans[n].op == c.vlans[n].op && d.vlans[n].reason == c.vlans[n].reason
          else d.vlans[n].op == OperUnknown && d.vlans[n].reason == ReasonUnknown)
    && (n in c.vlans ==> n in d.vlans)
    && SameEntry(c.db, d.db, r.uuid)
  }

  lemma ReevaluationFreezes(s: Snapshot, c: Cache, d: Cache, e: Cache, vids: iset<int>, r: VlanRow, rest: seq<Step>)
    requires WellFormedVlans(s.vlans) && r in s.vlans && r.config.l3port
    requires VlansKnown(s, c, rest) && d == c.(ports := d.ports) && Reevaluated(s, d, e, vids) && c.db == d.db
    requires VidsDistinct(c) && r.config.name in c.vlans
    ensures Frozen(c, e, r)
  {
    var n := r.config.name;
    IndexOfRow(s.vlans, r);
    MarkOfRow(s, r);
    assert ReevaluatedVlan(s, d, d.vlans[n], e, e.vlans[n], vids);
  }

  /** A row whose VLAN is not cached yet is not written by any re-evaluation. */
  ghost predicate Unhandled(c: Cache, uuid: nat) {
    forall n :: n in c.vlans ==> c.vlans[n].row != uuid
  }

  lemma RefreshSkips(s: Snapshot, c: Cache, n: string, uuid: nat)
    requires n in c.vlans && c.vlans[n].row != uuid
    ensures SameEntry(c.db, Refresh(s, c, n).db, uuid) && Refresh(s, c, n).vlans.Keys == c.vlans.Keys
    ensures forall m :: m in c.vlans ==> Refresh(s, c, n).vlans[m].row == c.vlans[m].row
  {
  }

  lemma {:induction false} RefreshBitsSkips(s: Snapshot, c: Cache, bits: set<int>, k: nat, uuid: nat)
    requires Unhandled(c, uuid)
    ensures var d := RefreshBits(s, c, bits, k);
      SameEntry(c.db, d.db, uuid) && Unhandled(d, uuid) && d.vlans.Keys == c.vlans.Keys
  {
    if k > 0 {
      RefreshBitsSkips(s, c, bits, k - 1, uuid);
      var d := RefreshBits(s, c, bits, k - 1);
      if k - 1 in bits && LookupVid(d.vlans, k - 1).Some? {
        RefreshSkips(s, d, LookupVid(d.vlans, k - 1).value, uuid);
      }
    }
  }

  lemma {:induction false} ScanRowsSkips(s: Snapshot, c: Cache, vid: int, k: nat, uuid: nat)
    requires k <= |s.vlans| && Unhandled(c, uuid)
    ensures var d := ScanRows(s, c, vid, k);
      SameEntry(c.db, d.db, uuid) && Unhandled(d, uuid) && d.vlans.Keys == c.vlans.Keys
  {
    if k > 0 {
      ScanRowsSkips(s, c, vid, k - 1, uuid);
      var d := ScanRows(s, c, vid, k - 1);
      if s.vlans[k - 1].config.id == vid && LookupVid(d.vlans, vid).Some? {
        RefreshSkips(s, d, LookupVid(d.vlans, vid).value, uuid);
      }
    }
  }

  lemma {:induction false} ScanBitsSkips(s: Snapshot, c: Cache, bits: set<int>, k: nat, uuid: nat)
    requires Unhandled(c, uuid)
    ensures var d := ScanBits(s, c, bits, k);
      SameEntry(c.db, d.db, uuid) && Unhandled(d, uuid) && d.vlans.Keys == c.vlans.Keys
  {
    if k > 0 {
      ScanBitsSkips(s, c, bits, k - 1, uuid);
      if k - 1 in bits {
        ScanRowsSkips(s, ScanBits(s, c, bits, k - 1), k - 1, |s.vlans|, uuid);
      }
    }
  }

  lemma NotCachedIsUnhandled(s: Snapshot, c: Cache, r: VlanRow)
    requires WellFormedVlans(s.vlans) && r in s.vlans && r.config.name !in c.vlans && VlanHandles(s, c)
    ensures Unhandled(c, r.uuid)
  {
    IndexOfRow(s.vlans, r);
    forall m | m in c.vlans ensures c.vlans[m].row != r.uuid {
      if m in VlanIndex(s.vlans) {
        assert VlanIndex(s.vlans)[m] in s.vlans && VlanIndex(s.vlans)[m].config.name == m;
      }
    }
  }

  lemma FrozenPort(s: Snapshot, c: Cache, steps: seq<Step>, r: VlanRow)
    requires WellFormedVlans(s.vlans) && r in s.vlans && r.config.l3port
    requires MidPass(s, c, steps) && steps != [] && Scheduled(steps)
    requires steps[0].DropPort? || steps[0].ReadPort?
    ensures Frozen(c, Apply(s, c, steps[0]), r)
  {
    var p := steps[0].port;
    if r.config.name !in c.vlans {
      NotCachedIsUnhandled(s, c, r);
    }
    if steps[0].DropPort? {
      DropPortKeeps(s, c, steps, p);
      var d := c.(ports := c.ports - {p});
      if r.config.name in c.vlans {
        ReevaluationFreezes(s, c, d, DoDropPort(s, c, p), Below(c.ports[p].bits, VLAN_BITMAP_SIZE), r, steps);
      } else {
        RefreshBitsSkips(s, d, c.ports[p].bits, VLAN_BITMAP_SIZE, r.uuid);
      }
    } else {
      ReadPortKeeps(s, c, steps, p);
      var k := PortIndex(s.ports)[p].config;
      var e := ParsePort(k, c.allVids, InBridge(s, p));
      var d := c.(ports := c.ports[p := e]);
      var bits := c.ports[p].bits + e.bits;
      if r.config.name in c.vlans {
        ReevaluationFreezes(s, c, d, DoReadPort(s, c, p, k), Below(Defined(s, bits), VLAN_BITMAP_SIZE), r, steps);
      } else {
        ScanBitsSkips(s, d, bits, VLAN_BITMAP_SIZE, r.uuid);
      }
    }
  }

  lemma FrozenAdd(s: Snapshot, c: Cache, n: string, r: VlanRow)
    requires n in VlanIndex(s.vlans) && n !in c.vlans
    ensures Frozen(c, DoAddVlan(s, c, n, VlanIndex(s.vlans)[n]), r)
  {
    AddVlanEntries(s, c, DoAddVlan(s, c, n, VlanIndex(s.vlans)[n]), n, VlanIndex(s.vlans)[n]);
  }

  lemma FrozenRead(s: Snapshot, c: Cache, n: string, q: VlanRow, r: VlanRow)
    requires WellFormedVlans(s.vlans) && r in s.vlans && r.config.l3port
    requires n in c.vlans && q in s.vlans && q.config.name == n
    ensures Frozen(c, DoReadVlan(s, c, n, q), r)
  {
    if q == r {
    } else {
      assert q.config.name != r.config.name && q.uuid != r.uuid;
    }
  }

  lemma FrozenDrop(c: Cache, m: string, r: VlanRow)
    requires m != r.config.name && m in c.vlans
    ensures Frozen(c, DoDropVlan(c, m), r)
  {
  }

  lemma FrozenSame(c: Cache, d: Cache, r: VlanRow)
    requires d.vlans == c.vlans && d.db == c.db
    ensures Frozen(c, d, r)
  {
  }

  lemma DroppedIsUnlisted(s: Snapshot, c: Cache, steps: seq<Step>, m: string, r: VlanRow)
    requires WellFormedVlans(s.vlans) && r in s.vlans && VlanNames(s, c, steps) && steps != []
    requires steps[0] == DropVlan(m)
    ensures m != r.config.name && m in c.vlans
  {
    IndexOfRow(s.vlans, r);
    assert DropVlan(m) in steps;
  }

  lemma FrozenAddPortStep(s: Snapshot, c: Cache, p: string, r: VlanRow)
    ensures Frozen(c, Apply(s, c, AddPort(p)), r)
  {
    FrozenSame(c, Apply(s, c, AddPort(p)), r);
  }

  lemma FrozenAddVlanStep(s: Snapshot, c: Cache, m: string, r: VlanRow)
    ensures Frozen(c, Apply(s, c, AddVlan(m)), r)
  {
    FrozenSame(c, c, r);
    if m in VlanIndex(s.vlans) && m !in c.vlans { FrozenAdd(s, c, m, r); }
  }

  lemma FrozenReadVlanStep(s: Snapshot, c: Cache, m: string, r: VlanRow)
    requires WellFormedVlans(s.vlans) && r in s.vlans && r.config.l3port
    ensures Frozen(c, Apply(s, c, ReadVlan(m)), r)
  {
    FrozenSame(c, c, r);
    if m in c.vlans && m in VlanIndex(s.vlans) { FrozenRead(s, c, m, VlanIndex(s.vlans)[m], r); }
  }

  lemma FrozenVlan(s: Snapshot, c: Cache, steps: seq<Step>, r: VlanRow)
    requires WellFormedVlans(s.vlans) && r in s.vlans && r.config.l3port
    requires VlanNames(s, c, steps) && steps != []
    requires !steps[0].DropPort? && !steps[0].ReadPort?
    ensures Frozen(c, Apply(s, c, steps[0]), r)
  {
    match steps[0]
    case AddPort(p) => FrozenAddPortStep(s, c, p, r);
    case DropVlan(m) =>
      DroppedIsUnlisted(s, c, steps, m, r);
      FrozenDrop(c, m, r);
    case AddVlan(m) => FrozenAddVlanStep(s, c, m, r);
    case ReadVlan(m) => FrozenReadVlanStep(s, c, m, r);
  }

  lemma {:induction false} FrozenToEnd(s: Snapshot, c: Cache, steps: seq<Step>, r: VlanRow)
    requires WellFormedVlans(s.vlans) && r in s.vlans && r.config.l3port
    requires Scheduled(steps) && MidPass(s, c, steps)
    ensures Frozen(c, Run(s, c, steps), r)
    decreases |steps|
  {
    if steps == [] {
    } else {
      var d := Apply(s, c, steps[0]);
      if steps[0].DropPort? || steps[0].ReadPort? {
        FrozenPort(s, c, steps, r);
      } else {
        FrozenVlan(s, c, steps, r);
      }
      StepKeepsMidPass(s, c, steps);
      FrozenToEnd(s, d, steps[1..], r);
    }
  }

  /** A pass neither changes the state nor writes the row of a VLAN that is marked L3PORT. */
  lemma PassFreezesL3(a: Snapshot, b: Snapshot, c: Cache, steps: seq<Step>, r: VlanRow)
    requires Synced(a, c) && WellFormedVlans(b.vlans)
    requires Evolves(a, b) && NoneReplaced(a, b) && IsPass(b, a.seqno, c, steps)
    requires r in b.vlans && r.config.l3port
    ensures Frozen(c, Run(b, c, steps), r)
  {
    PassBegins(a, b, c, steps);
    FrozenToEnd(b, c, steps, r);
  }

  // ---- The order of visiting does not matter -------------------------------------------

  /** Two caches agree on a VLAN: same entry, same columns. */
  ghost predicate Agree(d: Cache, e: Cache, n: string, uuid: nat) {
    n in d.vlans && n in e.vlans && d.vlans[n] == e.vlans[n] && SameEntry(d.db, e.db, uuid)
  }

  lemma SyncedAgree(s: Snapshot, d: Cache, e: Cache, n: string)
    requires Synced(s, d) && Synced(s, e) && n in VlanIndex(s.vlans) && VlanIndex(s.vlans)[n].config.id != DEFAULT_VID
    requires n in d.vlans && n in e.vlans
    requires VlanIndex(s.vlans)[n].config.l3port ==>
      d.vlans[n].op == e.vlans[n].op && d.vlans[n].reason == e.vlans[n].reason
      && SameEntry(d.db, e.db, VlanIndex(s.vlans)[n].uuid)
    ensures Agree(d, e, n, VlanIndex(s.vlans)[n].uuid)
  {
    SyncedMeansExpected(s, d, n);
    SyncedMeansExpected(s, e, n);
    var r := VlanIndex(s.vlans)[n];
    MarkOfRow(s, r);
    assert Settled(s, d.vlans[n]) && Settled(s, e.vlans[n]);
  }

  /** Whatever order the hash tables are visited in, a pass leaves the same VLANs and the same columns. */
  lemma OrderDoesNotMatter(a: Snapshot, b: Snapshot, c: Cache, steps: seq<Step>, others: seq<Step>, n: string)
    requires Synced(a, c) && WellFormedVlans(b.vlans) && Evolves(a, b) && NoneReplaced(a, b)
    requires IsPass(b, a.seqno, c, steps) && IsPass(b, a.seqno, c, others)
    requires n in VlanIndex(b.vlans) && VlanIndex(b.vlans)[n].config.id != DEFAULT_VID
    ensures Agree(Run(b, c, steps), Run(b, c, others), n, VlanIndex(b.vlans)[n].uuid)
  {
    PassRefines(a, b, c, steps);
    PassRefines(a, b, c, others);
    var d, e, r := Run(b, c, steps), Run(b, c, others), VlanIndex(b.vlans)[n];
    SyncedMeansExpected(b, d, n);
    SyncedMeansExpected(b, e, n);
    if r.config.l3port {
      PassFreezesL3(a, b, c, steps, r);
      PassFreezesL3(a, b, c, others, r);
    }
    SyncedAgree(b, d, e, n);
  }

  // ---- Reprocessing an unchanged snapshot ------------------------------------------------

  /** b shows the rows and bridge ports of a; the sequence numbers may have moved. */
  ghost predicate SameContents(a: Snapshot, b: Snapshot) {
    && PortIndex(a.ports).Keys == PortIndex(b.ports).Keys
    && (forall p :: p in PortIndex(a.ports) ==>
          PortIndex(a.ports)[p].config == PortIndex(b.ports)[p].config && (InBridge(a, p) <==> InBridge(b, p)))
    && VlanIndex(a.vlans).Keys == VlanIndex(b.vlans).Keys
    && (forall n :: n in VlanIndex(a.vlans) ==>
          VlanIndex(a.vlans)[n].config == VlanIndex(b.vlans)[n].config
          && VlanIndex(a.vlans)[n].uuid == VlanIndex(b.vlans)[n].uuid)
  }

  /** The port's bitmap is not a stale copy: the port is in a bridge or does not trunk implicitly. */
  ghost predicate Tracked(s: Snapshot, p: string)
    requires p in PortIndex(s.ports)
  {
    InBridge(s, p) || !TrunksAll(PortIndex(s.ports)[p].config)
  }

  /** From c to d nothing changed but VID 1 and bits of VIDs that no VLAN has. */
  ghost predicate Quiet(s: Snapshot, c: Cache, d: Cache) {
    && (forall r :: r in s.vlans && r.config.id != DEFAULT_VID ==> Agree(c, d, r.config.name, r.uuid))
    && c.allVids == d.allVids && c.ports.Keys == d.ports.Keys
    && (forall p :: p in c.ports && p in PortIndex(s.ports) ==>
          && c.ports[p].(bits := {}) == d.ports[p].(bits := {})
          && (Tracked(s, p) ==> c.ports[p].bits * c.allVids == d.ports[p].bits * c.allVids))
  }

  lemma SyncedQuietPort(s: Snapshot, c: Cache, d: Cache, p: string)
    requires Synced(s, c) && Synced(s, d) && p in c.ports && p in d.ports
    requires c.allVids == d.allVids && p in PortIndex(s.ports)
    ensures c.ports[p].(bits := {}) == d.ports[p].(bits := {})
    ensures Tracked(s, p) ==> c.ports[p].bits * c.allVids == d.ports[p].bits * c.allVids
  {
    SyncedMeansBitmaps(s, c, p);
    SyncedMeansBitmaps(s, d, p);
    var k := PortIndex(s.ports)[p].config;
    assert Parsed(k, InBridge(s, p), c.allVids, c.ports[p]) && Parsed(k, InBridge(s, p), d.allVids, d.ports[p]);
  }

  lemma SyncedQuietVlan(s: Snapshot, c: Cache, d: Cache, r: VlanRow)
    requires Synced(s, c) && Synced(s, d) && r in s.vlans && r.config.id != DEFAULT_VID
    requires r.config.l3port ==> Frozen(c, d, r)
    ensures Agree(c, d, r.config.name, r.uuid)
  {
    IndexOfRow(s.vlans, r);
    SyncedMeansExactTables(s, c);
    SyncedMeansExactTables(s, d);
    SyncedAgree(s, c, d, r.config.name);
  }

  lemma SyncedSameTables(s: Snapshot, c: Cache, d: Cache)
    requires Synced(s, c) && Synced(s, d)
    ensures c.allVids == d.allVids && c.ports.Keys == d.ports.Keys
  {
    SyncedMeansExactTables(s, c);
    SyncedMeansExactTables(s, d);
  }

  lemma SyncedQuiet(s: Snapshot, c: Cache, d: Cache)
    requires Synced(s, c) && Synced(s, d)
    requires forall r :: r in s.vlans && r.config.l3port ==> Frozen(c, d, r)
    ensures Quiet(s, c, d)
  {
    SyncedSameTables(s, c, d);
    forall r | r in s.vlans && r.config.id != DEFAULT_VID ensures Agree(c, d, r.config.name, r.uuid) {
      SyncedQuietVlan(s, c, d, r);
    }
    forall p | p in c.ports && p in PortIndex(s.ports)
      ensures c.ports[p].(bits := {}) == d.ports[p].(bits := {})
      ensures Tracked(s, p) ==> c.ports[p].bits * c.allVids == d.ports[p].bits * c.allVids
    {
      SyncedQuietPort(s, c, d, p);
    }
  }

  lemma SyncedSameContents(a: Snapshot, b: Snapshot, c: Cache)
    requires Synced(a, c) && SameContents(a, b) && WellFormedVlans(b.vlans)
    ensures Synced(b, c)
  {
    forall p | p in c.ports ensures InBridge(a, p) <==> InBridge(b, p) {
      assert PortsKnown(a, c, []);
    }
    assert PortsKnown(b, c, []) && PortsParsed(b, c, []) && VlansKnown(b, c, []);
    PassBeginsMembers(a, b, c, []);
    forall n | n in c.vlans && n in VlanIndex(b.vlans)
      ensures (c.vlans[n].admin == AdminUp <==> AdminIsUp(VlanIndex(b.vlans)[n].config)) && Settled(b, c.vlans[n])
    {
      MarkOfRow(a, VlanIndex(a.vlans)[n]);
      MarkOfRow(b, VlanIndex(b.vlans)[n]);
    }
  }

  ghost predicate IsReading(s: Snapshot, x: Step) {
    match x
    case ReadPort(p) => p in PortIndex(s.ports) && p != DEFAULT_BRIDGE_NAME
    case ReadVlan(n) => n in VlanIndex(s.vlans)
    case _ => false
  }

  /** A cache in sync may be handed any reading work and stays in sync step by step. */
  lemma ReadingStart(s: Snapshot, c: Cache, steps: seq<Step>)
    requires Synced(s, c) && forall x :: x in steps ==> IsReading(s, x)
    ensures MidPass(s, c, steps)
  {
    forall n | n in c.vlans && n in VlanIndex(s.vlans)
      ensures FreshMember(s, c.ports, c.vlans[n]) || AwaitsPort(c, steps, c.vlans[n].vid)
    {
      assert FreshMember(s, c.ports, c.vlans[n]) || AwaitsPort(c, [], c.vlans[n].vid);
    }
    forall p ensures DropPort(p) !in steps && AddPort(p) !in steps && DropVlan(p) !in steps && AddVlan(p) !in steps {
      assert DropPort(p) in steps ==> IsReading(s, DropPort(p));
      assert AddPort(p) in steps ==> IsReading(s, AddPort(p));
      assert DropVlan(p) in steps ==> IsReading(s, DropVlan(p));
      assert AddVlan(p) in steps ==> IsReading(s, AddVlan(p));
    }
    forall p | ReadPort(p) in steps ensures IsReading(s, ReadPort(p)) {}
    forall n | ReadVlan(n) in steps ensures IsReading(s, ReadVlan(n)) {}
    assert PortsKnown(s, c, steps) && VlansKnown(s, c, steps);
  }

  lemma OneReadingIsQuiet(s: Snapshot, c: Cache, x: Step)
    requires Synced(s, c) && IsReading(s, x)
    ensures Synced(s, Apply(s, c, x)) && Quiet(s, c, Apply(s, c, x))
  {
    ReadingStart(s, c, [x]);
    StepKeepsMidPass(s, c, [x]);
    forall r | r in s.vlans && r.config.l3port ensures Frozen(c, Apply(s, c, x), r) {
      if x.ReadPort? { FrozenPort(s, c, [x], r); } else { FrozenVlan(s, c, [x], r); }
    }
    assert [x][1..] == [];
    SyncedQuiet(s, c, Apply(s, c, x));
  }

  /** Every state on the way through steps is quiet with respect to the start. */
  ghost predicate QuietThroughout(s: Snapshot, c: Cache, steps: seq<Step>)
    decreases |steps|
  {
    Quiet(s, c, Run(s, c, steps)) && (steps != [] ==> QuietThroughout(s, c, steps[..|steps| - 1]))
  }

  lemma QuietTransitive(s: Snapshot, c: Cache, d: Cache, e: Cache)
    requires Quiet(s, c, d) && Quiet(s, d, e)
    ensures Quiet(s, c, e)
  {
    forall r | r in s.vlans && r.config.id != DEFAULT_VID ensures Agree(c, e, r.config.name, r.uuid) {
      assert Agree(c, d, r.config.name, r.uuid) && Agree(d, e, r.config.name, r.uuid);
    }
  }

  lemma {:induction false} ReadingStaysSynced(s: Snapshot, c: Cache, steps: seq<Step>)
    requires Synced(s, c) && forall x :: x in steps ==> IsReading(s, x)
    ensures Synced(s, Run(s, c, steps)) && QuietThroughout(s, c, steps)
    decreases |steps|
  {
    if steps == [] {
      SyncedQuiet(s, c, c);
    } else {
      var most, last := steps[..|steps| - 1], steps[|steps| - 1];
      assert steps == most + [last];
      ReadingStaysSynced(s, c, most);
      RunAppend(s, c, most, [last]);
      var d := Run(s, c, most);
      assert Run(s, d, [last]) == Apply(s, d, last);
      OneReadingIsQuiet(s, d, last);
      QuietTransitive(s, c, d, Apply(s, d, last));
    }
  }

  /** A pass over unchanged rows has only reading to do. */
  lemma PassOnlyReads(a: Snapshot, b: Snapshot, c: Cache, steps: seq<Step>)
    requires Synced(a, c) && SameContents(a, b) && WellFormedVlans(b.vlans) && IsPass(b, a.seqno, c, steps)
    ensures Synced(b, c) && forall x :: x in steps ==> IsReading(b, x)
  {
    SyncedSameContents(a, b, c);
    SyncedMeansExactTables(b, c);
    assert forall p :: DropPort(p) !in steps && AddPort(p) !in steps;
    assert forall n :: DropVlan(n) !in steps && AddVlan(n) !in steps;
    forall x | x in steps ensures IsReading(b, x) {
      match x
      case DropPort(_) =>
      case AddPort(_) =>
      case DropVlan(_) =>
      case AddVlan(_) =>
      case ReadPort(p) => assert ReadPort(p) in steps;
      case ReadVlan(n) => assert ReadVlan(n) in steps;
    }
  }

  /** Reprocessing unchanged rows, however many are flagged, never disturbs a VLAN other than VID 1. */
  lemma Quiescence(a: Snapshot, b: Snapshot, c: Cache, steps: seq<Step>)
    requires Synced(a, c) && SameContents(a, b) && WellFormedVlans(b.vlans) && IsPass(b, a.seqno, c, steps)
    ensures Synced(b, Run(b, c, steps)) && QuietThroughout(b, c, steps)
  {
    PassOnlyReads(a, b, c, steps);
    ReadingStaysSynced(b, c, steps);
  }

  /** The entry a port gets when it is read. */
  ghost function Reread(s: Snapshot, c: Cache, p: string): PortEntry
    requires p in PortIndex(s.ports)
  {
    ParsePort(PortIndex(s.ports)[p].config, c.allVids, InBridge(s, p))
  }

  lemma ReadingOnePort(s: Snapshot, c: Cache, p: string)
    requires Synced(s, c) && IsReading(s, ReadPort(p))
    ensures p in c.ports
    ensures var d := DoReadPort(s, c, p, PortIndex(s.ports)[p].config);
      d.allVids == c.allVids && d.ports == c.ports[p := Reread(s, c, p)]
  {
    ReadingStart(s, c, [ReadPort(p)]);
    ReadPortKeeps(s, c, [ReadPort(p)], p);
  }

  lemma ReadingOneVlan(s: Snapshot, c: Cache, n: string)
    requires n in c.vlans && n in VlanIndex(s.vlans)
    ensures var d := DoReadVlan(s, c, n, VlanIndex(s.vlans)[n]); d.ports == c.ports && d.allVids == c.allVids
  {
  }

  lemma OneReadingPorts(s: Snapshot, c: Cache, x: Step)
    requires Synced(s, c) && IsReading(s, x)
    ensures x.ReadPort? ==> x.port in c.ports
    ensures Apply(s, c, x).allVids == c.allVids
    ensures Apply(s, c, x).ports == if x.ReadPort? then c.ports[x.port := Reread(s, c, x.port)] else c.ports
  {
    match x
    case ReadPort(p) => ReadingOnePort(s, c, p);
    case ReadVlan(n) => if n in c.vlans { ReadingOneVlan(s, c, n); }
  }

  lemma OneMoreReading(s: Snapshot, c: Cache, d: Cache, e: Cache, most: seq<Step>, last: Step, p: string)
    requires p in c.ports && p in PortIndex(s.ports) && p in d.ports && IsReading(s, last)
    requires d.allVids == c.allVids && d.ports[p] == if ReadPort(p) in most then Reread(s, c, p) else c.ports[p]
    requires e.allVids == d.allVids
    requires e.ports == if last.ReadPort? then d.ports[last.port := Reread(s, d, last.port)] else d.ports
    ensures p in e.ports && e.ports[p] == if ReadPort(p) in most + [last] then Reread(s, c, p) else c.ports[p]
  {
    assert Reread(s, d, p) == Reread(s, c, p);
  }

  lemma {:induction false} ReadingPorts(s: Snapshot, c: Cache, steps: seq<Step>, p: string)
    requires Synced(s, c) && (forall x :: x in steps ==> IsReading(s, x)) && p in c.ports && p in PortIndex(s.ports)
    ensures var d := Run(s, c, steps);
      && d.allVids == c.allVids && p in d.ports
      && d.ports[p] == if ReadPort(p) in steps then Reread(s, c, p) else c.ports[p]
    decreases |steps|
  {
    if steps == [] {
    } else {
      var most, last := steps[..|steps| - 1], steps[|steps| - 1];
      assert steps == most + [last];
      ReadingPorts(s, c, most, p);
      ReadingStaysSynced(s, c, most);
      RunOneMore(s, c, most, last);
      var d := Run(s, c, most);
      OneReadingPorts(s, d, last);
      OneMoreReading(s, c, d, Run(s, c, steps), most, last, p);
    }
  }

  lemma SyncedPortIsListed(s: Snapshot, c: Cache, p: string)
    requires Synced(s, c) && p in c.ports
    ensures p in PortIndex(s.ports) && p != DEFAULT_BRIDGE_NAME
  {
    assert PortsKnown(s, c, []);
  }

  lemma RereadCopiesAll(s: Snapshot, c: Cache, p: string)
    requires p in PortIndex(s.ports) && !Tracked(s, p) && p in c.ports
    ensures Reread(s, c, p).bits * c.allVids == c.allVids
    ensures c.ports[p].bits * c.allVids == c.allVids <==> c.allVids <= c.ports[p].bits
  {
    assert c.allVids <= Reread(s, c, p).bits;
  }

  /**
   * What reprocessing unchanged rows does to bitmaps, in any order: flagged ports get the entry a fresh
   * reading gives, the others keep theirs. A port that trunks implicitly outside every bridge, whose
   * bitmap is a copy of the VLAN set of its last reading, keeps its defined VLANs exactly if it is not
   * flagged or the copy had every VLAN; so reprocessing is not quiet for such a port otherwise.
   */
  lemma ReprocessedBitmaps(a: Snapshot, b: Snapshot, c: Cache, steps: seq<Step>, p: string)
    requires Synced(a, c) && SameContents(a, b) && WellFormedVlans(b.vlans) && IsPass(b, a.seqno, c, steps)
    requires p in c.ports
    ensures p in PortIndex(b.ports) && p in Run(b, c, steps).ports
    ensures var flagged, d := PortFlagged(PortIndex(b.ports)[p], a.seqno), Run(b, c, steps);
      && d.ports[p] == (if flagged then Reread(b, c, p) else c.ports[p])
      && (!Tracked(b, p) ==>
            (d.ports[p].bits * c.allVids == c.ports[p].bits * c.allVids <==> !flagged || c.allVids <= c.ports[p].bits))
  {
    Quiescence(a, b, c, steps);
    SyncedSameContents(a, b, c);
    SyncedPortIsListed(b, c, p);
    PassOnlyReads(a, b, c, steps);
    ReadingPorts(b, c, steps, p);
    if !Tracked(b, p) { RereadCopiesAll(b, c, p); }
  }

  // ---- Every write is counted --------------------------------------------------------------

  /** From c to d the write count grew, or no column changed. */
  ghost predicate Counted(c: Cache, d: Cache) {
    d.writes >= c.writes && (d.writes == c.writes ==> d.db == c.db)
  }

  lemma RefreshCounts(s: Snapshot, c: Cache, n: string)
    requires n in c.vlans
    ensures Counted(c, Refresh(s, c, n))
  {
  }

  lemma {:induction false} RefreshBitsCounts(s: Snapshot, c: Cache, bits: set<int>, k: nat)
    ensures Counted(c, RefreshBits(s, c, bits, k))
  {
    if k > 0 {
      RefreshBitsCounts(s, c, bits, k - 1);
      var d := RefreshBits(s, c, bits, k - 1);
      if k - 1 in bits && LookupVid(d.vlans, k - 1).Some? {
        RefreshCounts(s, d, LookupVid(d.vlans, k - 1).value);
      }
    }
  }

  lemma {:induction false} ScanRowsCounts(s: Snapshot, c: Cache, vid: int, k: nat)
    requires k <= |s.vlans|
    ensures Counted(c, ScanRows(s, c, vid, k))
  {
    if k > 0 {
      ScanRowsCounts(s, c, vid, k - 1);
      var d := ScanRows(s, c, vid, k - 1);
      if s.vlans[k - 1].config.id == vid && LookupVid(d.vlans, vid).Some? {
        RefreshCounts(s, d, LookupVid(d.vlans, vid).value);
      }
    }
  }

  lemma {:induction false} ScanBitsCounts(s: Snapshot, c: Cache, bits: set<int>, k: nat)
    ensures Counted(c, ScanBits(s, c, bits, k))
  {
    if k > 0 {
      ScanBitsCounts(s, c, bits, k - 1);
      if k - 1 in bits {
        ScanRowsCounts(s, ScanBits(s, c, bits, k - 1), k - 1, |s.vlans|);
      }
    }
  }

  lemma StepCounts(s: Snapshot, c: Cache, x: Step)
    ensures Counted(c, Apply(s, c, x))
  {
    match x
    case DropPort(p) =>
      if p in c.ports {
        RefreshBitsCounts(s, c.(ports := c.ports - {p}), c.ports[p].bits, VLAN_BITMAP_SIZE);
      }
    case ReadPort(p) =>
      if p in c.ports && p in PortIndex(s.ports) {
        var e := ParsePort(PortIndex(s.ports)[p].config, c.allVids, InBridge(s, p));
        ScanBitsCounts(s, c.(ports := c.ports[p := e]), c.ports[p].bits + e.bits, VLAN_BITMAP_SIZE);
      }
    case _ =>
  }

  /** Over any steps: when the write count stood still, no column of any row was changed. */
  lemma {:induction false} NoUncountedWrite(s: Snapshot, c: Cache, steps: seq<Step>)
    ensures Counted(c, Run(s, c, steps))
    decreases |steps|
  {
    if steps == [] {
    } else {
      StepCounts(s, c, steps[0]);
      NoUncountedWrite(s, Apply(s, c, steps[0]), steps[1..]);
    }
  }

  // ---- What a pass can write -----------------------------------------------------------------

  /** The daemon wrote the row or holds a handle to it. */
  ghost predicate Knows(c: Cache, uuid: nat) {
    uuid in c.db || !Unhandled(c, uuid)
  }

  /** The row is not the one its name leads to. */
  ghost predicate Unindexed(s: Snapshot, uuid: nat) {
    forall n :: n in VlanIndex(s.vlans) ==> VlanIndex(s.vlans)[n].uuid != uuid
  }

  lemma AddVlanSkips(s: Snapshot, c: Cache, n: string, uuid: nat)
    requires !Knows(c, uuid) && n in VlanIndex(s.vlans) && VlanIndex(s.vlans)[n].uuid != uuid
    ensures !Knows(DoAddVlan(s, c, n, VlanIndex(s.vlans)[n]), uuid)
  {
  }

  lemma ReadVlanSkips(s: Snapshot, c: Cache, n: string, uuid: nat)
    requires !Knows(c, uuid) && n in VlanIndex(s.vlans) && VlanIndex(s.vlans)[n].uuid != uuid && n in c.vlans
    ensures !Knows(DoReadVlan(s, c, n, VlanIndex(s.vlans)[n]), uuid)
  {
    var r := VlanIndex(s.vlans)[n];
    var v := c.vlans[n].(admin := if AdminIsUp(r.config) then AdminUp else AdminDown);
    HandleEffect(s, c.(vlans := c.vlans[n := v]), n, r.uuid, r.config.l3port);
  }

  /** The step adds or reads no VLAN whose row is this one. */
  ghost predicate Avoids(s: Snapshot, x: Step, uuid: nat) {
    x.AddVlan? || x.ReadVlan? ==> x.vlan !in VlanIndex(s.vlans) || VlanIndex(s.vlans)[x.vlan].uuid != uuid
  }

  lemma StepSkips(s: Snapshot, c: Cache, x: Step, uuid: nat)
    requires !Knows(c, uuid) && Avoids(s, x, uuid)
    ensures !Knows(Apply(s, c, x), uuid)
  {
    match x
    case DropPort(p) =>
      if p in c.ports { RefreshBitsSkips(s, c.(ports := c.ports - {p}), c.ports[p].bits, VLAN_BITMAP_SIZE, uuid); }
    case AddPort(p) =>
    case ReadPort(p) =>
      if p in c.ports && p in PortIndex(s.ports) {
        var e := ParsePort(PortIndex(s.ports)[p].config, c.allVids, InBridge(s, p));
        ScanBitsSkips(s, c.(ports := c.ports[p := e]), c.ports[p].bits + e.bits, VLAN_BITMAP_SIZE, uuid);
      }
    case DropVlan(n) =>
    case AddVlan(n) =>
      if n !in c.vlans && n in VlanIndex(s.vlans) { AddVlanSkips(s, c, n, uuid); }
    case ReadVlan(n) =>
      if n in c.vlans && n in VlanIndex(s.vlans) { ReadVlanSkips(s, c, n, uuid); }
  }

  lemma {:induction false} RunAvoids(s: Snapshot, c: Cache, steps: seq<Step>, uuid: nat)
    requires !Knows(c, uuid) && forall x :: x in steps ==> Avoids(s, x, uuid)
    ensures !Knows(Run(s, c, steps), uuid)
    decreases |steps|
  {
    if steps == [] {
    } else {
      StepSkips(s, c, steps[0], uuid);
      RunAvoids(s, Apply(s, c, steps[0]), steps[1..], uuid);
    }
  }

  /** Whatever steps are taken, a row that is neither known nor the first of its name stays unknown. */
  lemma {:induction false} RunSkips(s: Snapshot, c: Cache, steps: seq<Step>, uuid: nat)
    requires !Knows(c, uuid) && Unindexed(s, uuid)
    ensures !Knows(Run(s, c, steps), uuid)
  {
    RunAvoids(s, c, steps, uuid);
  }
}
