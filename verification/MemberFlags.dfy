/**
 * The member flag of every VLAN after a pass, also when bridges changed and no row was flagged for it: the
 * flag is recomputed exactly if the pass touches the VLAN, from ports as they were last read.
 */
module MemberFlags {
  import opened VlanTypes
  import opened VlanCache
  import opened PassInvariant
  import opened StepLemmas
  import opened Reconciliation

  // ---- What a pass keeps whatever the bridges do ---------------------------------------------------

  ghost predicate BitsInRange(c: Cache) {
    forall p :: p in c.ports ==> InRange(c.ports[p].bits)
  }

  ghost predicate PortWorkLeft(rest: seq<Step>) {
    exists x :: x in rest && Phase(x) <= 2
  }

  /**
   * The invariant of a pass without what it says about ports already read and about member flags: those may
   * be out of date when a bridge changed and no row was flagged.
   */
  ghost predicate Coherent(s: Snapshot, c: Cache, rest: seq<Step>) {
    && PortsKnown(s, c, rest)
    && BitsInRange(c)
    && (PortWorkLeft(rest) ==> Spreadless(c))
    && VidsDistinct(c)
    && VidsKnown(c)
    && VlansKnown(s, c, rest)
    && StatesKnown(s, c, rest)
    && DbAgrees(c)
  }

  lemma MidPassIsCoherent(s: Snapshot, c: Cache, rest: seq<Step>)
    requires MidPass(s, c, rest)
    ensures Coherent(s, c, rest)
  {
  }

  /** The names of ports known after the first step, by what it does to the set of cached ports. */
  lemma PortNamesAfter(s: Snapshot, c: Cache, d: Cache, steps: seq<Step>)
    requires steps != [] && Scheduled(steps) && PortsKnown(s, c, steps)
    requires match steps[0]
      case DropPort(p) => d.ports.Keys == c.ports.Keys - {p}
      case AddPort(p) => d.ports.Keys == c.ports.Keys + {p}
      case _ => d.ports.Keys == c.ports.Keys
    ensures PortsKnown(s, d, steps[1..])
  {
    PortTail(steps);
    assert forall p :: p in d.ports <==> p in d.ports.Keys;
    assert forall p :: p in c.ports <==> p in c.ports.Keys;
    if steps[0].AddPort? {
      assert ReadPort(steps[0].port) in steps;
      assert DropPort(steps[0].port) !in steps;
    }
  }

  /** One port step: d has the ports of the step done, e is d with some VLANs re-evaluated. */
  lemma PortStepCoherent(s: Snapshot, c: Cache, d: Cache, e: Cache, vids: iset<int>, steps: seq<Step>)
    requires steps != [] && Scheduled(steps) && Phase(steps[0]) <= 2 && Coherent(s, c, steps)
    requires d == c.(ports := d.ports) && PortsKnown(s, d, steps[1..]) && BitsInRange(d)
    requires Ready(e) && Reevaluated(s, d, e, vids)
    ensures Coherent(s, e, steps[1..])
  {
    PortStepVlans(s, c, d, steps);
    KeepsVlansKnown(s, d, e, vids, steps[1..]);
    KeepsStatesKnown(s, d, e, vids, steps[1..]);
  }

  /** What dropping a port does. */
  lemma DropPortEffect(s: Snapshot, c: Cache, steps: seq<Step>, p: string)
    requires steps != [] && Scheduled(steps) && steps[0] == DropPort(p) && Coherent(s, c, steps)
    ensures p in c.ports && Spreadless(c) && Apply(s, c, steps[0]) == DoDropPort(s, c, p)
    ensures Ready(DoDropPort(s, c, p))
    ensures Reevaluated(s, c.(ports := c.ports - {p}), DoDropPort(s, c, p), Below(c.ports[p].bits, VLAN_BITMAP_SIZE))
  {
    assert DropPort(p) in steps;
    RefreshBitsEffect(s, c.(ports := c.ports - {p}), c.ports[p].bits, VLAN_BITMAP_SIZE);
  }

  lemma DropPortCoherent(s: Snapshot, c: Cache, steps: seq<Step>, p: string)
    requires steps != [] && Scheduled(steps) && steps[0] == DropPort(p) && Coherent(s, c, steps)
    ensures Coherent(s, Apply(s, c, steps[0]), steps[1..])
  {
    DropPortEffect(s, c, steps, p);
    var d := c.(ports := c.ports - {p});
    PortNamesAfter(s, c, d, steps);
    PortStepCoherent(s, c, d, DoDropPort(s, c, p), Below(c.ports[p].bits, VLAN_BITMAP_SIZE), steps);
  }

  lemma AddPortCoherent(s: Snapshot, c: Cache, steps: seq<Step>, p: string)
    requires steps != [] && Scheduled(steps) && steps[0] == AddPort(p) && Coherent(s, c, steps)
    ensures p !in c.ports && Apply(s, c, steps[0]) == c.(ports := c.ports[p := NewPortEntry()])
    ensures Coherent(s, Apply(s, c, steps[0]), steps[1..])
  {
    assert AddPort(p) in steps;
    var d := c.(ports := c.ports[p := NewPortEntry()]);
    PortNamesAfter(s, c, d, steps);
    ReevaluatedNone(s, d);
    PortStepCoherent(s, c, d, d, iset{}, steps);
  }

  /** The entry the port's row gives it when it is read. */
  ghost function NewEntry(s: Snapshot, c: Cache, p: string): PortEntry
    requires p in PortIndex(s.ports)
  {
    ParsePort(PortIndex(s.ports)[p].config, c.allVids, InBridge(s, p))
  }

  lemma NewEntryFits(s: Snapshot, c: Cache, p: string)
    requires VidsKnown(c) && p in PortIndex(s.ports)
    ensures InRange(NewEntry(s, c, p).bits)
    ensures NewEntry(s, c, p).trunkAll ==> c.allVids <= NewEntry(s, c, p).bits
  {
    assert InRange(c.allVids);
    ParsePortParses(PortIndex(s.ports)[p].config, c.allVids, InBridge(s, p));
  }

  /** What rereading a port does. */
  lemma ReadPortEffect(s: Snapshot, c: Cache, steps: seq<Step>, p: string)
    requires WellFormedVlans(s.vlans)
    requires steps != [] && Scheduled(steps) && steps[0] == ReadPort(p) && Coherent(s, c, steps)
    ensures p in c.ports && p in PortIndex(s.ports) && Spreadless(c)
    ensures var d := DoReadPort(s, c, p, PortIndex(s.ports)[p].config);
      && Apply(s, c, steps[0]) == d && Ready(d)
      && Reevaluated(s, c.(ports := c.ports[p := NewEntry(s, c, p)]), d,
                     Below(Defined(s, c.ports[p].bits + NewEntry(s, c, p).bits), VLAN_BITMAP_SIZE))
  {
    assert ReadPort(p) in steps;
    assert AddPort(p) !in steps by { HeadAndTail(steps); }
    var d := c.(ports := c.ports[p := NewEntry(s, c, p)]);
    NewEntryFits(s, c, p);
    HandlesAgree(s, c);
    ScanBitsEffect(s, d, c.ports[p].bits + NewEntry(s, c, p).bits, VLAN_BITMAP_SIZE);
  }

  lemma ReadPortCoherent(s: Snapshot, c: Cache, steps: seq<Step>, p: string)
    requires WellFormedVlans(s.vlans)
    requires steps != [] && Scheduled(steps) && steps[0] == ReadPort(p) && Coherent(s, c, steps)
    ensures Coherent(s, Apply(s, c, steps[0]), steps[1..])
  {
    ReadPortEffect(s, c, steps, p);
    NewEntryFits(s, c, p);
    var d := c.(ports := c.ports[p := NewEntry(s, c, p)]);
    PortNamesAfter(s, c, d, steps);
    PortStepCoherent(s, c, d, Apply(s, c, steps[0]),
                     Below(Defined(s, c.ports[p].bits + NewEntry(s, c, p).bits), VLAN_BITMAP_SIZE), steps);
  }

  lemma NoPortWork(steps: seq<Step>)
    requires steps != [] && Scheduled(steps) && Phase(steps[0]) >= 3
    ensures !PortWorkLeft(steps[1..])
  {
    HeadAndTail(steps);
  }

  lemma DropVlanCoherent(s: Snapshot, c: Cache, steps: seq<Step>, n: string)
    requires steps != [] && Scheduled(steps) && steps[0] == DropVlan(n) && Coherent(s, c, steps)
    ensures n in c.vlans && Apply(s, c, steps[0]) == DoDropVlan(c, n)
    ensures Coherent(s, Apply(s, c, steps[0]), steps[1..])
  {
    assert DropVlan(n) in steps;
    var d := DoDropVlan(c, n);
    assert d.ports.Keys == c.ports.Keys;
    PortNamesAfter(s, c, d, steps);
    NoPortWork(steps);
    DropVlanVids(c, d, n);
    DropVlanVlans(s, c, d, steps, n);
    DropVlanStates(s, c, d, steps, n);
    forall m | m in d.vlans ensures Written(d, d.vlans[m]) {
      assert Written(c, c.vlans[m]);
    }
  }

  lemma SpreadInRange(s: Snapshot, c: Cache, vid: int)
    requires BitsInRange(c) && ValidVid(vid)
    ensures BitsInRange(c.(ports := Spread(s, c.ports, vid))) && Spread(s, c.ports, vid).Keys == c.ports.Keys
  {
  }

  lemma AddVlanCoherent(s: Snapshot, c: Cache, steps: seq<Step>, n: string)
    requires WellFormedVlans(s.vlans)
    requires steps != [] && Scheduled(steps) && steps[0] == AddVlan(n) && Coherent(s, c, steps)
    ensures n !in c.vlans && n in VlanIndex(s.vlans)
    ensures Apply(s, c, steps[0]) == DoAddVlan(s, c, n, VlanIndex(s.vlans)[n])
    ensures Coherent(s, Apply(s, c, steps[0]), steps[1..])
  {
    assert AddVlan(n) in steps;
    var r := VlanIndex(s.vlans)[n];
    var d := DoAddVlan(s, c, n, r);
    var v := NewVlanEntry(r).(any := AnyMember(s, c.ports, r.config.id));
    AddVlanEntries(s, c, d, n, r);
    SpreadInRange(s, c, r.config.id);
    PortNamesAfter(s, c, d, steps);
    NoPortWork(steps);
    AddVlanIsNew(s, c, steps, n);
    AddVlanVids(c, d, n, v);
    AddVlanVlans(s, c, d, steps, n, v);
    AddVlanStates(s, c, d, steps, n, v);
    forall m | m in d.vlans ensures Written(d, d.vlans[m]) {
      if m != n {
        assert Written(c, c.vlans[m]);
      }
    }
  }

  lemma ReadVlanCoherent(s: Snapshot, c: Cache, steps: seq<Step>, n: string)
    requires WellFormedVlans(s.vlans)
    requires steps != [] && Scheduled(steps) && steps[0] == ReadVlan(n) && Coherent(s, c, steps)
    ensures n in c.vlans && n in VlanIndex(s.vlans)
    ensures Apply(s, c, steps[0]) == DoReadVlan(s, c, n, VlanIndex(s.vlans)[n])
    ensures Coherent(s, Apply(s, c, steps[0]), steps[1..])
  {
    assert ReadVlan(n) in steps;
    NoAddsLeft(steps, n);
    var d := DoReadVlan(s, c, n, VlanIndex(s.vlans)[n]);
    assert Written(c, c.vlans[n]);
    ReadVlanEntry(s, c, d, n, VlanIndex(s.vlans)[n]);
    ReadVlanVlanParts(s, c, d, steps, n);
    PortNamesAfter(s, c, d, steps);
    NoPortWork(steps);
  }

  lemma StepKeepsCoherent(s: Snapshot, c: Cache, steps: seq<Step>)
    requires WellFormedVlans(s.vlans) && steps != [] && Scheduled(steps) && Coherent(s, c, steps)
    ensures Coherent(s, Apply(s, c, steps[0]), steps[1..]) && Scheduled(steps[1..])
  {
    TailScheduled(steps);
    match steps[0]
    case DropPort(p) => DropPortCoherent(s, c, steps, p);
    case AddPort(p) => AddPortCoherent(s, c, steps, p);
    case ReadPort(p) => ReadPortCoherent(s, c, steps, p);
    case DropVlan(n) => DropVlanCoherent(s, c, steps, n);
    case AddVlan(n) => AddVlanCoherent(s, c, steps, n);
    case ReadVlan(n) => ReadVlanCoherent(s, c, steps, n);
  }

  // ---- When a pass touches a VLAN ------------------------------------------------------------------

  /** VLAN r is VID 1, not marked L3PORT, and the rule on port rows holds. */
  ghost predicate Promotes(s: Snapshot, r: VlanRow) {
    r.config.id == DEFAULT_VID && !r.config.l3port && DefaultVlanMember(s)
  }

  ghost predicate HasCachedMember(s: Snapshot, c: Cache, r: VlanRow) {
    AnyMember(s, c.ports, r.config.id)
  }

  /** The flag of VLAN r says that a cached port in a bridge carries it or that the rule promotes it. */
  ghost predicate FlagExact(s: Snapshot, c: Cache, r: VlanRow)
    requires r.config.name in c.vlans
  {
    c.vlans[r.config.name].any <==> HasCachedMember(s, c, r) || Promotes(s, r)
  }

  /** The bitmap of a cached port, blank for a port not cached yet. */
  function OldBits(c: Cache, p: string): set<int> {
    if p in c.ports then c.ports[p].bits else {}
  }

  ghost predicate DropTouches(c: Cache, steps: seq<Step>, p: string, vid: int) {
    DropPort(p) in steps && vid in OldBits(c, p)
  }

  ghost predicate ReadTouches(s: Snapshot, c: Cache, steps: seq<Step>, p: string, vid: int) {
    && ReadPort(p) in steps && p in PortIndex(s.ports)
    && vid in OldBits(c, p) + NewEntry(s, c, p).bits
  }

  /** The work to come re-evaluates VLAN r: it drops or rereads a port whose old or new bitmap has it, or adds it. */
  ghost predicate Touched(s: Snapshot, c: Cache, steps: seq<Step>, r: VlanRow) {
    || (exists p :: DropTouches(c, steps, p, r.config.id))
    || (exists p :: ReadTouches(s, c, steps, p, r.config.id))
    || AddVlan(r.config.name) in steps
  }

  // ---- One step --------------------------------------------------------------------------------

  /**
   * From c to e by one step that does not touch VLAN r: membership stays, the flag is raised only by reading
   * its row.
   */
  ghost predicate Untouching(s: Snapshot, c: Cache, e: Cache, r: VlanRow, x: Step) {
    var n := r.config.name;
    && (HasCachedMember(s, e, r) <==> HasCachedMember(s, c, r))
    && (n in c.vlans ==>
          && n in e.vlans
          && (e.vlans[n].any <==> c.vlans[n].any || (x == ReadVlan(n) && Promotes(s, r))))
  }

  /** Row r is in the table; if it is cached, its entry and the global bitmap know it. */
  ghost predicate Known(s: Snapshot, c: Cache, r: VlanRow) {
    var n := r.config.name;
    && r in s.vlans && n in VlanIndex(s.vlans) && VlanIndex(s.vlans)[n] == r
    && (L3Marked(s, r.uuid) <==> r.config.l3port)
    && (n in c.vlans ==> c.vlans[n].vid == r.config.id && c.vlans[n].row == r.uuid && r.config.id in c.allVids)
  }

  lemma RowKnown(s: Snapshot, c: Cache, steps: seq<Step>, r: VlanRow)
    requires WellFormedVlans(s.vlans) && r in s.vlans && VlansKnown(s, c, steps) && VidsKnown(c)
    ensures Known(s, c, r)
    ensures r.config.name in c.vlans <==> AddVlan(r.config.name) !in steps
    ensures AddVlan(r.config.name) in steps ==> ReadVlan(r.config.name) in steps
  {
    IndexOfRow(s.vlans, r);
    MarkOfRow(s, r);
  }

  lemma ReevaluatedFlag(s: Snapshot, c: Cache, d: Cache, vids: iset<int>, r: VlanRow)
    requires Reevaluated(s, c, d, vids) && r.config.name in c.vlans && Known(s, c, r)
    ensures r.config.name in d.vlans && d.ports == c.ports
    ensures r.config.id in vids ==> FlagExact(s, d, r)
    ensures r.config.id !in vids ==> d.vlans[r.config.name] == c.vlans[r.config.name]
  {
    assert ReevaluatedVlan(s, c, c.vlans[r.config.name], d, d.vlans[r.config.name], vids);
  }

  /** A port whose bitmap lacks a VLAN known to the cache is no member of it. */
  lemma NoBitNoMember(s: Snapshot, c: Cache, p: string, vid: int)
    requires Spreadless(c) && vid in c.allVids && p in c.ports && vid !in c.ports[p].bits
    ensures !IsMember(s, c.ports, p, vid)
  {
  }

  lemma RowIsDefined(s: Snapshot, bits: set<int>, r: VlanRow)
    requires r in s.vlans && ValidVid(r.config.id)
    ensures r.config.id in Below(Defined(s, bits), VLAN_BITMAP_SIZE) <==> r.config.id in bits
  {
    var i :| 0 <= i < |s.vlans| && s.vlans[i] == r;
    assert RowHas(s, r.config.id, |s.vlans|);
  }

  /** c with port p's entry changed is d, and e is d with VLANs re-evaluated; bits has p's old and new bitmap. */
  lemma PortStepFlag(s: Snapshot, c: Cache, d: Cache, e: Cache, vids: iset<int>, bits: set<int>, p: string, r: VlanRow)
    requires r.config.name in c.vlans && Known(s, c, r)
    requires Spreadless(c) && d == c.(ports := d.ports) && c.ports - {p} == d.ports - {p}
    requires p in c.ports && c.ports[p].bits <= bits
    requires p in d.ports ==> d.ports[p].bits <= bits && (d.ports[p].trunkAll ==> c.allVids <= bits)
    requires Reevaluated(s, d, e, vids) && (r.config.id in vids <==> r.config.id in bits)
    ensures r.config.name in e.vlans
    ensures r.config.id in bits ==> FlagExact(s, e, r)
    ensures r.config.id !in bits ==>
      e.vlans[r.config.name] == c.vlans[r.config.name] && (HasCachedMember(s, e, r) <==> HasCachedMember(s, c, r))
  {
    ReevaluatedFlag(s, d, e, vids, r);
    if r.config.id !in bits {
      NoBitNoMember(s, c, p, r.config.id);
      MembershipWithout(s, c.ports, d.ports, p, r.config.id);
    }
  }

  lemma DropPortFlag(s: Snapshot, c: Cache, p: string, r: VlanRow)
    requires r.config.name in c.vlans && Known(s, c, r) && p in c.ports && Spreadless(c) && ValidVid(r.config.id)
    requires Reevaluated(s, c.(ports := c.ports - {p}), DoDropPort(s, c, p), Below(c.ports[p].bits, VLAN_BITMAP_SIZE))
    ensures var e := DoDropPort(s, c, p);
      && r.config.name in e.vlans
      && (r.config.id in c.ports[p].bits ==> FlagExact(s, e, r))
      && (r.config.id !in c.ports[p].bits ==>
            && e.vlans[r.config.name] == c.vlans[r.config.name]
            && (HasCachedMember(s, e, r) <==> HasCachedMember(s, c, r)))
  {
    var d, bits := c.(ports := c.ports - {p}), c.ports[p].bits;
    PortStepFlag(s, c, d, DoDropPort(s, c, p), Below(bits, VLAN_BITMAP_SIZE), bits, p, r);
  }

  lemma OthersUntouched(ports: map<string, PortEntry>, p: string, e: PortEntry)
    ensures ports - {p} == ports[p := e] - {p}
  {
  }

  lemma ReadPortFlag(s: Snapshot, c: Cache, e: Cache, p: string, r: VlanRow)
    requires r.config.name in c.vlans && Known(s, c, r) && p in c.ports && Spreadless(c) && ValidVid(r.config.id)
    requires p in PortIndex(s.ports) && (NewEntry(s, c, p).trunkAll ==> c.allVids <= NewEntry(s, c, p).bits)
    requires Reevaluated(s, c.(ports := c.ports[p := NewEntry(s, c, p)]), e,
                         Below(Defined(s, c.ports[p].bits + NewEntry(s, c, p).bits), VLAN_BITMAP_SIZE))
    ensures r.config.name in e.vlans
    ensures var bits := c.ports[p].bits + NewEntry(s, c, p).bits;
      && (r.config.id in bits ==> FlagExact(s, e, r))
      && (r.config.id !in bits ==>
            && e.vlans[r.config.name] == c.vlans[r.config.name]
            && (HasCachedMember(s, e, r) <==> HasCachedMember(s, c, r)))
  {
    var d, bits := c.(ports := c.ports[p := NewEntry(s, c, p)]), c.ports[p].bits + NewEntry(s, c, p).bits;
    RowIsDefined(s, bits, r);
    OthersUntouched(c.ports, p, NewEntry(s, c, p));
    PortStepFlag(s, c, d, e, Below(Defined(s, bits), VLAN_BITMAP_SIZE), bits, p, r);
  }

  lemma AddPortFlag(s: Snapshot, c: Cache, p: string, r: VlanRow)
    requires p !in c.ports
    ensures Untouching(s, c, c.(ports := c.ports[p := NewPortEntry()]), r, AddPort(p))
  {
    var d := c.(ports := c.ports[p := NewPortEntry()]);
    assert c.ports - {p} == d.ports - {p};
    MembershipWithout(s, c.ports, d.ports, p, r.config.id);
  }

  lemma DropVlanFlag(s: Snapshot, c: Cache, m: string, r: VlanRow)
    requires m in c.vlans && m != r.config.name && c.vlans[m].vid != r.config.id
    ensures Untouching(s, c, DoDropVlan(c, m), r, DropVlan(m))
  {
    var d := DoDropVlan(c, m);
    assert d.ports.Keys == c.ports.Keys;
    SameMembership(s, c.ports, d.ports, r.config.id);
  }

  lemma AddVlanFlag(s: Snapshot, c: Cache, m: string, q: VlanRow, r: VlanRow)
    requires m !in c.vlans
    ensures var d, n := DoAddVlan(s, c, m, q), r.config.name;
      && (m != n && q.config.id != r.config.id ==> Untouching(s, c, d, r, AddVlan(m)))
      && (m == n && q.config.id == r.config.id ==>
            n in d.vlans && (d.vlans[n].any <==> HasCachedMember(s, d, r)))
  {
    var d := DoAddVlan(s, c, m, q);
    AddVlanEntries(s, c, d, m, q);
    if q.config.id != r.config.id {
      assert d.ports.Keys == c.ports.Keys;
      SameMembership(s, c.ports, d.ports, r.config.id);
    } else {
      SpreadKeepsMembership(s, c, r.config.id);
    }
  }

  lemma ReadVlanFlag(s: Snapshot, c: Cache, m: string, q: VlanRow, r: VlanRow)
    requires m in c.vlans
    requires m == r.config.name ==> c.vlans[m].vid == r.config.id && q == r
    ensures Untouching(s, c, DoReadVlan(s, c, m, q), r, ReadVlan(m))
  {
  }

  // ---- The work to come ----------------------------------------------------------------------------

  /** A port is dropped or reread, not both; and neither twice. */
  lemma PortStepOnce(s: Snapshot, c: Cache, steps: seq<Step>, p: string)
    requires steps != [] && Scheduled(steps) && PortsKnown(s, c, steps)
    ensures steps[0] == DropPort(p) ==> ReadPort(p) !in steps && DropPort(p) !in steps[1..]
    ensures steps[0] == ReadPort(p) ==> DropPort(p) !in steps && ReadPort(p) !in steps[1..]
  {
    HeadAndTail(steps);
  }

  /** A port step hands the rest of the work the same ports otherwise, so what remains touches as before. */
  lemma TouchedAfterPortStep(s: Snapshot, c: Cache, e: Cache, steps: seq<Step>, p: string, r: VlanRow)
    requires steps != [] && Scheduled(steps) && PortsKnown(s, c, steps)
    requires steps[0] == DropPort(p) || steps[0] == AddPort(p) || steps[0] == ReadPort(p)
    requires e.allVids == c.allVids && e.ports - {p} == c.ports - {p}
    requires steps[0] == AddPort(p) ==> p !in c.ports && p in e.ports && e.ports[p].bits == {}
    ensures Touched(s, c, steps, r) <==>
      || (steps[0] == DropPort(p) && DropTouches(c, steps, p, r.config.id))
      || (steps[0] == ReadPort(p) && ReadTouches(s, c, steps, p, r.config.id))
      || Touched(s, e, steps[1..], r)
  {
    var n, vid := r.config.name, r.config.id;
    PortTail(steps);
    assert AddVlan(n) in steps[1..] <==> AddVlan(n) in steps by { PortStepLeavesVlanSteps(steps); }
    forall q | q != p ensures OldBits(c, q) == OldBits(e, q) {
      assert q in c.ports <==> q in c.ports - {p};
      assert q in e.ports <==> q in e.ports - {p};
      if q in c.ports { assert (c.ports - {p})[q] == c.ports[q] && (e.ports - {p})[q] == e.ports[q]; }
    }
    PortStepOnce(s, c, steps, p);
    forall q ensures DropTouches(e, steps[1..], q, vid) <==> DropTouches(c, steps, q, vid) && steps[0] != DropPort(q) {
      if q == p { assert steps[0] == AddPort(p) ==> OldBits(c, p) == OldBits(e, p); }
    }
    forall q ensures ReadTouches(s, e, steps[1..], q, vid) <==>
      ReadTouches(s, c, steps, q, vid) && steps[0] != ReadPort(q)
    {
      if q == p { assert steps[0] == AddPort(p) ==> OldBits(c, p) == OldBits(e, p); }
    }
  }

  /** Once ports are done, only adding the VLAN touches it. */
  lemma TouchedAfterPorts(s: Snapshot, c: Cache, steps: seq<Step>, r: VlanRow)
    requires steps != [] && Scheduled(steps) && Phase(steps[0]) >= 3
    ensures Touched(s, c, steps, r) <==> AddVlan(r.config.name) in steps
    ensures Touched(s, c, steps[1..], r) <==> AddVlan(r.config.name) in steps[1..]
    ensures forall e: Cache :: Touched(s, e, steps[1..], r) <==> AddVlan(r.config.name) in steps[1..]
  {
    NoPortWorkLeft(steps);
  }

  /** What the rest of a pass makes of the flag, from the middle of the pass. */
  ghost predicate FlagEnds(s: Snapshot, c: Cache, d: Cache, steps: seq<Step>, r: VlanRow) {
    var n := r.config.name;
    && n in d.vlans
    && (Touched(s, c, steps, r) ==> FlagExact(s, d, r))
    && (!Touched(s, c, steps, r) ==>
          && n in c.vlans
          && (HasCachedMember(s, d, r) <==> HasCachedMember(s, c, r))
          && (d.vlans[n].any <==> c.vlans[n].any || (ReadVlan(n) in steps && Promotes(s, r))))
    && (n in c.vlans && FlagExact(s, c, r) ==> FlagExact(s, d, r))
  }

  // ---- From one step to the whole pass ---------------------------------------------------------------

  /**
   * What one step does to the flag: it touches the VLAN and leaves the flag exact if the VLAN is cached; or
   * leaves flag and membership alone; or adds the VLAN, whose row is then still to be read.
   */
  ghost predicate StepMarks(s: Snapshot, c: Cache, e: Cache, steps: seq<Step>, r: VlanRow)
    requires steps != []
  {
    var n, before, after := r.config.name, Touched(s, c, steps, r), Touched(s, e, steps[1..], r);
    || (before && if n in c.vlans then n in e.vlans && FlagExact(s, e, r) else after)
    || ((before <==> after) && Untouching(s, c, e, r, steps[0]))
    || (before && !after && n !in c.vlans && n in e.vlans && ReadVlan(n) in steps[1..]
        && (e.vlans[n].any <==> HasCachedMember(s, e, r)))
  }

  lemma EndsCompose(s: Snapshot, c: Cache, e: Cache, d: Cache, steps: seq<Step>, r: VlanRow)
    requires steps != [] && StepMarks(s, c, e, steps, r) && FlagEnds(s, e, d, steps[1..], r)
    requires r.config.name in c.vlans || AddVlan(r.config.name) in steps
    ensures FlagEnds(s, c, d, steps, r)
  {
    assert ReadVlan(r.config.name) in steps <==>
      steps[0] == ReadVlan(r.config.name) || ReadVlan(r.config.name) in steps[1..];
  }

  /** While the VLAN is still to be added, any port step leaves that to come. */
  lemma StillToAdd(s: Snapshot, c: Cache, e: Cache, steps: seq<Step>, r: VlanRow)
    requires steps != [] && Scheduled(steps) && AddVlan(r.config.name) in steps && Phase(steps[0]) <= 2
    ensures Touched(s, c, steps, r) && Touched(s, e, steps[1..], r)
  {
    PortStepLeavesVlanSteps(steps);
  }

  lemma DropPortMarks(s: Snapshot, c: Cache, steps: seq<Step>, p: string, r: VlanRow)
    requires steps != [] && Scheduled(steps) && steps[0] == DropPort(p) && PortsKnown(s, c, steps)
    requires Known(s, c, r) && ValidVid(r.config.id) && (r.config.name in c.vlans <==> AddVlan(r.config.name) !in steps)
    requires p in c.ports && Spreadless(c)
    requires Reevaluated(s, c.(ports := c.ports - {p}), DoDropPort(s, c, p), Below(c.ports[p].bits, VLAN_BITMAP_SIZE))
    ensures StepMarks(s, c, DoDropPort(s, c, p), steps, r)
  {
    TouchedAfterPortStep(s, c, DoDropPort(s, c, p), steps, p, r);
    if r.config.name in c.vlans {
      DropPortFlag(s, c, p, r);
    } else {
      StillToAdd(s, c, DoDropPort(s, c, p), steps, r);
    }
  }

  lemma FlagDropPort(s: Snapshot, c: Cache, steps: seq<Step>, p: string, r: VlanRow)
    requires WellFormedVlans(s.vlans) && r in s.vlans
    requires steps != [] && Scheduled(steps) && Coherent(s, c, steps) && steps[0] == DropPort(p)
    ensures StepMarks(s, c, Apply(s, c, steps[0]), steps, r)
  {
    RowKnown(s, c, steps, r);
    DropPortEffect(s, c, steps, p);
    DropPortMarks(s, c, steps, p, r);
  }

  lemma AddPortMarks(s: Snapshot, c: Cache, steps: seq<Step>, p: string, r: VlanRow)
    requires steps != [] && Scheduled(steps) && steps[0] == AddPort(p) && PortsKnown(s, c, steps) && p !in c.ports
    ensures StepMarks(s, c, c.(ports := c.ports[p := NewPortEntry()]), steps, r)
  {
    var e := c.(ports := c.ports[p := NewPortEntry()]);
    assert e.ports - {p} == c.ports - {p};
    TouchedAfterPortStep(s, c, e, steps, p, r);
    AddPortFlag(s, c, p, r);
  }

  lemma FlagAddPort(s: Snapshot, c: Cache, steps: seq<Step>, p: string, r: VlanRow)
    requires steps != [] && Scheduled(steps) && Coherent(s, c, steps) && steps[0] == AddPort(p)
    ensures StepMarks(s, c, Apply(s, c, steps[0]), steps, r)
  {
    AddPortCoherent(s, c, steps, p);
    AddPortMarks(s, c, steps, p, r);
  }

  lemma ReadPortMarks(s: Snapshot, c: Cache, e: Cache, steps: seq<Step>, p: string, r: VlanRow)
    requires steps != [] && Scheduled(steps) && steps[0] == ReadPort(p) && PortsKnown(s, c, steps)
    requires Known(s, c, r) && ValidVid(r.config.id) && (r.config.name in c.vlans <==> AddVlan(r.config.name) !in steps)
    requires p in c.ports && p in PortIndex(s.ports) && Spreadless(c)
    requires NewEntry(s, c, p).trunkAll ==> c.allVids <= NewEntry(s, c, p).bits
    requires Reevaluated(s, c.(ports := c.ports[p := NewEntry(s, c, p)]), e,
                         Below(Defined(s, c.ports[p].bits + NewEntry(s, c, p).bits), VLAN_BITMAP_SIZE))
    ensures StepMarks(s, c, e, steps, r)
  {
    assert e.ports - {p} == c.ports - {p};
    TouchedAfterPortStep(s, c, e, steps, p, r);
    if r.config.name in c.vlans { ReadPortFlag(s, c, e, p, r); } else { StillToAdd(s, c, e, steps, r); }
  }

  lemma FlagReadPort(s: Snapshot, c: Cache, steps: seq<Step>, p: string, r: VlanRow)
    requires WellFormedVlans(s.vlans) && r in s.vlans
    requires steps != [] && Scheduled(steps) && Coherent(s, c, steps) && steps[0] == ReadPort(p)
    ensures StepMarks(s, c, Apply(s, c, steps[0]), steps, r)
  {
    RowKnown(s, c, steps, r);
    ReadPortEffect(s, c, steps, p);
    NewEntryFits(s, c, p);
    ReadPortMarks(s, c, Apply(s, c, steps[0]), steps, p, r);
  }

  lemma DroppedIsOther(s: Snapshot, c: Cache, steps: seq<Step>, m: string, r: VlanRow)
    requires steps != [] && steps[0] == DropVlan(m) && VlansKnown(s, c, steps)
    requires r.config.name in VlanIndex(s.vlans) && VlanIndex(s.vlans)[r.config.name] == r
    ensures m in c.vlans && m != r.config.name && c.vlans[m].vid != r.config.id
  {
  }

  lemma FlagDropVlan(s: Snapshot, c: Cache, steps: seq<Step>, m: string, r: VlanRow)
    requires WellFormedVlans(s.vlans) && r in s.vlans
    requires steps != [] && Scheduled(steps) && Coherent(s, c, steps) && steps[0] == DropVlan(m)
    ensures StepMarks(s, c, Apply(s, c, steps[0]), steps, r)
  {
    RowKnown(s, c, steps, r);
    DroppedIsOther(s, c, steps, m, r);
    TouchedAfterPorts(s, c, steps, r);
    VlanTail(steps);
    DropVlanFlag(s, c, m, r);
  }

  lemma AddedRow(s: Snapshot, c: Cache, steps: seq<Step>, m: string, r: VlanRow)
    requires WellFormedVlans(s.vlans) && r in s.vlans
    requires steps != [] && steps[0] == AddVlan(m) && VlansKnown(s, c, steps)
    ensures m !in c.vlans && m in VlanIndex(s.vlans)
    ensures VlanIndex(s.vlans)[m].config.id == r.config.id <==> m == r.config.name
  {
    IndexOfRow(s.vlans, r);
    SameIdSameRow(s.vlans, r, r);
    if VlanIndex(s.vlans)[m].config.id == r.config.id {
      SameIdSameRow(s.vlans, VlanIndex(s.vlans)[m], r);
    }
  }

  lemma AddVlanMarks(s: Snapshot, c: Cache, steps: seq<Step>, m: string, q: VlanRow, r: VlanRow)
    requires steps != [] && Scheduled(steps) && steps[0] == AddVlan(m) && m !in c.vlans
    requires q.config.id == r.config.id <==> m == r.config.name
    requires r.config.name in c.vlans <==> AddVlan(r.config.name) !in steps
    requires AddVlan(r.config.name) in steps ==> ReadVlan(r.config.name) in steps
    ensures StepMarks(s, c, DoAddVlan(s, c, m, q), steps, r)
  {
    TouchedAfterPorts(s, c, steps, r);
    VlanTail(steps);
    AddVlanFlag(s, c, m, q, r);
  }

  lemma FlagAddVlan(s: Snapshot, c: Cache, steps: seq<Step>, m: string, r: VlanRow)
    requires WellFormedVlans(s.vlans) && r in s.vlans
    requires steps != [] && Scheduled(steps) && Coherent(s, c, steps) && steps[0] == AddVlan(m)
    ensures StepMarks(s, c, Apply(s, c, steps[0]), steps, r)
  {
    RowKnown(s, c, steps, r);
    AddedRow(s, c, steps, m, r);
    AddVlanMarks(s, c, steps, m, VlanIndex(s.vlans)[m], r);
  }

  lemma ReadIsCached(s: Snapshot, c: Cache, steps: seq<Step>, m: string)
    requires steps != [] && steps[0] == ReadVlan(m) && VlansKnown(s, c, steps) && AddVlan(m) !in steps
    ensures m in c.vlans && m in VlanIndex(s.vlans)
  {
  }

  lemma FlagReadVlan(s: Snapshot, c: Cache, steps: seq<Step>, m: string, r: VlanRow)
    requires WellFormedVlans(s.vlans) && r in s.vlans
    requires steps != [] && Scheduled(steps) && Coherent(s, c, steps) && steps[0] == ReadVlan(m)
    ensures StepMarks(s, c, Apply(s, c, steps[0]), steps, r)
  {
    RowKnown(s, c, steps, r);
    TouchedAfterPorts(s, c, steps, r);
    VlanTail(steps);
    NoAddsLeft(steps, m);
    ReadIsCached(s, c, steps, m);
    ReadVlanFlag(s, c, m, VlanIndex(s.vlans)[m], r);
  }

  lemma FlagStep(s: Snapshot, c: Cache, steps: seq<Step>, r: VlanRow)
    requires WellFormedVlans(s.vlans) && r in s.vlans
    requires steps != [] && Scheduled(steps) && Coherent(s, c, steps)
    ensures StepMarks(s, c, Apply(s, c, steps[0]), steps, r)
  {
    match steps[0]
    case DropPort(p) => FlagDropPort(s, c, steps, p, r);
    case AddPort(p) => FlagAddPort(s, c, steps, p, r);
    case ReadPort(p) => FlagReadPort(s, c, steps, p, r);
    case DropVlan(m) => FlagDropVlan(s, c, steps, m, r);
    case AddVlan(m) => FlagAddVlan(s, c, steps, m, r);
    case ReadVlan(m) => FlagReadVlan(s, c, steps, m, r);
  }

  lemma {:induction false} CoherentToEnd(s: Snapshot, c: Cache, steps: seq<Step>)
    requires WellFormedVlans(s.vlans) && Scheduled(steps) && Coherent(s, c, steps)
    ensures Coherent(s, Run(s, c, steps), [])
    decreases |steps|
  {
    if steps == [] {
    } else {
      StepKeepsCoherent(s, c, steps);
      CoherentToEnd(s, Apply(s, c, steps[0]), steps[1..]);
    }
  }

  lemma NothingLeft(s: Snapshot, c: Cache, r: VlanRow)
    requires r.config.name in c.vlans
    ensures FlagEnds(s, c, c, [], r)
  {
  }

  /**
   * After the rest of a pass the flag of VLAN r is recomputed, from the cached ports and the live bridges, if that
   * rest touches the VLAN; otherwise it stays, but for VID 1 being promoted when its row is read.
   */
  lemma {:induction false} FlagToEnd(s: Snapshot, c: Cache, steps: seq<Step>, r: VlanRow)
    requires WellFormedVlans(s.vlans) && r in s.vlans && Scheduled(steps) && Coherent(s, c, steps)
    ensures FlagEnds(s, c, Run(s, c, steps), steps, r)
    decreases |steps|
  {
    RowKnown(s, c, steps, r);
    if steps == [] {
      NothingLeft(s, c, r);
    } else {
      StepKeepsCoherent(s, c, steps);
      FlagToEnd(s, Apply(s, c, steps[0]), steps[1..], r);
      FlagStep(s, c, steps, r);
      EndsCompose(s, c, Apply(s, c, steps[0]), Run(s, c, steps), steps, r);
    }
  }

  // ---- Ports as they were last read ------------------------------------------------------------------

  /** Whether port p will count as a member of a VLAN when the steps are done. */
  ghost predicate CountsAfter(s: Snapshot, c: Cache, steps: seq<Step>, p: string, vid: int) {
    if ReadPort(p) in steps then CarriedBy(s, p, vid)
    else p in c.ports && DropPort(p) !in steps && IsMember(s, c.ports, p, vid)
  }

  lemma ReadCounts(s: Snapshot, c: Cache, p: string, vid: int)
    requires p in PortIndex(s.ports) && p != DEFAULT_BRIDGE_NAME && ValidVid(vid)
    ensures InBridge(s, p) && (NewEntry(s, c, p).trunkAll || vid in NewEntry(s, c, p).bits) <==> CarriedBy(s, p, vid)
  {
  }

  /** A port step decides how its own port counts as was to be expected, and leaves the others. */
  lemma CountsAfterPortStep(s: Snapshot, c: Cache, e: Cache, steps: seq<Step>, p: string, vid: int)
    requires steps != [] && Scheduled(steps) && PortsKnown(s, c, steps) && ValidVid(vid)
    requires match steps[0]
      case DropPort(q) => e.ports == c.ports - {q}
      case AddPort(q) => e.ports == c.ports[q := NewPortEntry()]
      case ReadPort(q) => q in PortIndex(s.ports) && e.ports == c.ports[q := NewEntry(s, c, q)]
      case _ => false
    ensures CountsAfter(s, c, steps, p, vid) <==> CountsAfter(s, e, steps[1..], p, vid)
  {
    PortTail(steps);
    PortStepOnce(s, c, steps, p);
    if steps[0] == ReadPort(p) {
      assert ReadPort(p) in steps;
      ReadCounts(s, c, p, vid);
    }
    if steps[0] == AddPort(p) {
      assert AddPort(p) in steps;
    }
  }

  /** A VLAN step leaves every port counting as before. */
  lemma CountsAfterVlanStep(s: Snapshot, c: Cache, e: Cache, steps: seq<Step>, p: string, vid: int)
    requires steps != [] && Scheduled(steps) && Phase(steps[0]) >= 3 && e.ports.Keys == c.ports.Keys
    requires p in c.ports ==>
      e.ports[p].trunkAll == c.ports[p].trunkAll
      && (e.ports[p].trunkAll || (vid in e.ports[p].bits <==> vid in c.ports[p].bits))
    ensures CountsAfter(s, c, steps, p, vid) <==> CountsAfter(s, e, steps[1..], p, vid)
  {
    NoPortWorkLeft(steps);
    assert p in c.ports <==> p in c.ports.Keys;
    assert p in e.ports <==> p in e.ports.Keys;
  }

  lemma CountsDropPort(s: Snapshot, c: Cache, steps: seq<Step>, q: string, p: string, vid: int)
    requires steps != [] && Scheduled(steps) && Coherent(s, c, steps) && ValidVid(vid) && steps[0] == DropPort(q)
    ensures CountsAfter(s, c, steps, p, vid) <==> CountsAfter(s, Apply(s, c, steps[0]), steps[1..], p, vid)
  {
    DropPortEffect(s, c, steps, q);
    CountsAfterPortStep(s, c, Apply(s, c, steps[0]), steps, p, vid);
  }

  lemma CountsAddPort(s: Snapshot, c: Cache, steps: seq<Step>, q: string, p: string, vid: int)
    requires steps != [] && Scheduled(steps) && Coherent(s, c, steps) && ValidVid(vid) && steps[0] == AddPort(q)
    ensures CountsAfter(s, c, steps, p, vid) <==> CountsAfter(s, Apply(s, c, steps[0]), steps[1..], p, vid)
  {
    AddPortCoherent(s, c, steps, q);
    CountsAfterPortStep(s, c, Apply(s, c, steps[0]), steps, p, vid);
  }

  lemma CountsReadPort(s: Snapshot, c: Cache, steps: seq<Step>, q: string, p: string, vid: int)
    requires WellFormedVlans(s.vlans) && ValidVid(vid)
    requires steps != [] && Scheduled(steps) && Coherent(s, c, steps) && steps[0] == ReadPort(q)
    ensures CountsAfter(s, c, steps, p, vid) <==> CountsAfter(s, Apply(s, c, steps[0]), steps[1..], p, vid)
  {
    ReadPortEffect(s, c, steps, q);
    CountsAfterPortStep(s, c, Apply(s, c, steps[0]), steps, p, vid);
  }

  lemma CountsDropVlan(s: Snapshot, c: Cache, steps: seq<Step>, m: string, p: string, vid: int)
    requires steps != [] && Scheduled(steps) && m in c.vlans && c.vlans[m].vid != vid && steps[0] == DropVlan(m)
    ensures CountsAfter(s, c, steps, p, vid) <==> CountsAfter(s, DoDropVlan(c, m), steps[1..], p, vid)
  {
    assert DoDropVlan(c, m).ports.Keys == c.ports.Keys;
    CountsAfterVlanStep(s, c, DoDropVlan(c, m), steps, p, vid);
  }

  lemma CountsAddVlan(s: Snapshot, c: Cache, steps: seq<Step>, m: string, q: VlanRow, p: string, vid: int)
    requires steps != [] && Scheduled(steps) && steps[0] == AddVlan(m)
    ensures CountsAfter(s, c, steps, p, vid) <==> CountsAfter(s, DoAddVlan(s, c, m, q), steps[1..], p, vid)
  {
    AddVlanEntries(s, c, DoAddVlan(s, c, m, q), m, q);
    CountsAfterVlanStep(s, c, DoAddVlan(s, c, m, q), steps, p, vid);
  }

  lemma CountsReadVlan(s: Snapshot, c: Cache, steps: seq<Step>, m: string, q: VlanRow, p: string, vid: int)
    requires steps != [] && Scheduled(steps) && m in c.vlans && steps[0] == ReadVlan(m)
    ensures CountsAfter(s, c, steps, p, vid) <==> CountsAfter(s, DoReadVlan(s, c, m, q), steps[1..], p, vid)
  {
    CountsAfterVlanStep(s, c, DoReadVlan(s, c, m, q), steps, p, vid);
  }

  lemma CountsVlanStep(s: Snapshot, c: Cache, steps: seq<Step>, p: string, r: VlanRow)
    requires WellFormedVlans(s.vlans) && r in s.vlans
    requires steps != [] && Scheduled(steps) && Coherent(s, c, steps) && Phase(steps[0]) >= 3
    ensures CountsAfter(s, c, steps, p, r.config.id) <==>
      CountsAfter(s, Apply(s, c, steps[0]), steps[1..], p, r.config.id)
  {
    var m := steps[0].vlan;
    if steps[0].DropVlan? {
      IndexOfRow(s.vlans, r);
      DroppedIsOther(s, c, steps, m, r);
      CountsDropVlan(s, c, steps, m, p, r.config.id);
    } else if steps[0].AddVlan? {
      AddVlanCoherent(s, c, steps, m);
      CountsAddVlan(s, c, steps, m, VlanIndex(s.vlans)[m], p, r.config.id);
    } else {
      ReadVlanCoherent(s, c, steps, m);
      CountsReadVlan(s, c, steps, m, VlanIndex(s.vlans)[m], p, r.config.id);
    }
  }

  lemma CountsStep(s: Snapshot, c: Cache, steps: seq<Step>, p: string, r: VlanRow)
    requires WellFormedVlans(s.vlans) && r in s.vlans
    requires steps != [] && Scheduled(steps) && Coherent(s, c, steps)
    ensures CountsAfter(s, c, steps, p, r.config.id) <==>
      CountsAfter(s, Apply(s, c, steps[0]), steps[1..], p, r.config.id)
  {
    if steps[0].DropPort? {
      CountsDropPort(s, c, steps, steps[0].port, p, r.config.id);
    } else if steps[0].AddPort? {
      CountsAddPort(s, c, steps, steps[0].port, p, r.config.id);
    } else if steps[0].ReadPort? {
      CountsReadPort(s, c, steps, steps[0].port, p, r.config.id);
    } else {
      CountsVlanStep(s, c, steps, p, r);
    }
  }

  lemma {:induction false} CountsToEnd(s: Snapshot, c: Cache, steps: seq<Step>, p: string, r: VlanRow)
    requires WellFormedVlans(s.vlans) && Scheduled(steps) && Coherent(s, c, steps) && r in s.vlans
    ensures var d := Run(s, c, steps);
      CountsAfter(s, c, steps, p, r.config.id) <==> p in d.ports && IsMember(s, d.ports, p, r.config.id)
    decreases |steps|
  {
    if steps == [] {
    } else {
      StepKeepsCoherent(s, c, steps);
      CountsStep(s, c, steps, p, r);
      CountsToEnd(s, Apply(s, c, steps[0]), steps[1..], p, r);
    }
  }

  // ---- Bridge changes that flag no row -----------------------------------------------------------------

  /**
   * Port p carries the VLAN and the daemon sees it: its row is flagged, or lists its VLANs, or the port was in a
   * bridge when it was last read, or its copy of the VLAN set has the VLAN.
   */
  ghost predicate SeenBy(a: Snapshot, b: Snapshot, c: Cache, p: string, vid: int) {
    && CarriedBy(b, p, vid)
    && var r := PortIndex(b.ports)[p];
    || PortFlagged(r, a.seqno) || !TrunksAll(r.config) || InBridge(a, p) || vid in OldBits(c, p)
  }

  ghost predicate Seen(a: Snapshot, b: Snapshot, c: Cache, vid: int) {
    exists p :: SeenBy(a, b, c, p, vid)
  }

  /** What the daemon takes for the VLAN having a member after a pass from a to b. */
  ghost predicate Noticed(a: Snapshot, b: Snapshot, c: Cache, steps: seq<Step>, r: VlanRow) {
    if Touched(b, c, steps, r) then Seen(a, b, c, r.config.id) else Carried(a, r.config.id)
  }

  lemma PassBeginsCoherent(a: Snapshot, b: Snapshot, c: Cache, steps: seq<Step>)
    requires Synced(a, c) && WellFormedVlans(b.vlans)
    requires RowsEvolve(a, b) && NoneReplaced(a, b) && IsPass(b, a.seqno, c, steps)
    ensures Coherent(b, c, steps)
  {
    MidPassIsCoherent(a, c, []);
    assert Spreadless(c);
    PassBeginsPortNames(a, b, c, steps);
    PassBeginsVlans(a, b, c, steps);
    PassBeginsStates(a, b, c, steps);
  }

  lemma UnflaggedCounts(a: Snapshot, b: Snapshot, c: Cache, p: string, vid: int)
    requires PortsKnown(a, c, []) && PortsParsed(a, c, []) && ValidVid(vid)
    requires p in PortIndex(b.ports) && p in PortIndex(a.ports) && PortIndex(a.ports)[p] == PortIndex(b.ports)[p]
    requires p != DEFAULT_BRIDGE_NAME && !PortFlagged(PortIndex(b.ports)[p], a.seqno)
    ensures p in c.ports
    ensures IsMember(b, c.ports, p, vid) <==> SeenBy(a, b, c, p, vid)
  {
    assert p in c.ports;
    assert Parsed(PortIndex(a.ports)[p].config, InBridge(a, p), c.allVids, c.ports[p]);
  }

  lemma CountsMeansSeen(a: Snapshot, b: Snapshot, c: Cache, steps: seq<Step>, p: string, vid: int)
    requires PortsKnown(a, c, []) && PortsParsed(a, c, []) && ValidVid(vid)
    requires RowsEvolve(a, b) && IsPass(b, a.seqno, c, steps)
    ensures CountsAfter(b, c, steps, p, vid) <==> SeenBy(a, b, c, p, vid)
  {
    if p in PortIndex(b.ports) && p != DEFAULT_BRIDGE_NAME {
      if !PortFlagged(PortIndex(b.ports)[p], a.seqno) {
        UnflaggedCounts(a, b, c, p, vid);
      }
    } else {
      assert p in c.ports ==> p != DEFAULT_BRIDGE_NAME;
    }
  }

  lemma MembersAreSeen(a: Snapshot, b: Snapshot, c: Cache, steps: seq<Step>, r: VlanRow)
    requires Synced(a, c) && WellFormedVlans(b.vlans) && r in b.vlans
    requires RowsEvolve(a, b) && NoneReplaced(a, b) && IsPass(b, a.seqno, c, steps)
    ensures AnyMember(b, Run(b, c, steps).ports, r.config.id) <==> Seen(a, b, c, r.config.id)
  {
    var d, vid := Run(b, c, steps), r.config.id;
    PassBeginsCoherent(a, b, c, steps);
    forall p ensures p in d.ports && IsMember(b, d.ports, p, vid) <==> SeenBy(a, b, c, p, vid) {
      CountsToEnd(b, c, steps, p, r);
      CountsMeansSeen(a, b, c, steps, p, vid);
    }
  }

  /** In a cache with no work left, the columns of an ordinary VLAN follow its admin state and its flag. */
  lemma ColumnsFollowFlag(s: Snapshot, d: Cache, r: VlanRow)
    requires WellFormedVlans(s.vlans) && Coherent(s, d, []) && r in s.vlans && r.config.name in d.vlans
    requires r.config.id != DEFAULT_VID && !r.config.l3port
    ensures r.uuid in d.db
    ensures var carried := Carried(s, r.config.id);
      d.db[r.uuid] == ExpectedStatus(s, r.config) <==>
        !AdminIsUp(r.config) || (d.vlans[r.config.name].any <==> carried)
  {
    RowKnown(s, d, [], r);
    assert Written(d, d.vlans[r.config.name]);
  }

  lemma SameIdSameCarried(a: Snapshot, b: Snapshot, c: Cache, r: VlanRow)
    requires Synced(a, c) && NoneReplaced(a, b) && WellFormedVlans(b.vlans) && r in b.vlans
    requires r.config.id != DEFAULT_VID && r.config.name in c.vlans
    ensures c.vlans[r.config.name].any <==> Carried(a, r.config.id)
  {
    IndexOfRow(b.vlans, r);
    assert VlansKnown(a, c, []);
    SyncedMeansExpected(a, c, r.config.name);
  }

  lemma FlagOfOrdinary(s: Snapshot, c: Cache, d: Cache, steps: seq<Step>, r: VlanRow)
    requires FlagEnds(s, c, d, steps, r) && r.config.id != DEFAULT_VID
    ensures r.config.name in d.vlans && (!Touched(s, c, steps, r) ==> r.config.name in c.vlans)
    ensures d.vlans[r.config.name].any <==>
      if Touched(s, c, steps, r) then HasCachedMember(s, d, r) else c.vlans[r.config.name].any
  {
  }

  lemma FlagIsNoticed(a: Snapshot, b: Snapshot, c: Cache, steps: seq<Step>, r: VlanRow)
    requires Synced(a, c) && WellFormedVlans(b.vlans)
    requires RowsEvolve(a, b) && NoneReplaced(a, b) && IsPass(b, a.seqno, c, steps)
    requires r in b.vlans && r.config.id != DEFAULT_VID
    ensures var n, d := r.config.name, Run(b, c, steps);
      n in d.vlans && (d.vlans[n].any <==> Noticed(a, b, c, steps, r))
  {
    PassBeginsCoherent(a, b, c, steps);
    FlagToEnd(b, c, steps, r);
    FlagOfOrdinary(b, c, Run(b, c, steps), steps, r);
    if Touched(b, c, steps, r) {
      MembersAreSeen(a, b, c, steps, r);
    } else {
      SameIdSameCarried(a, b, c, r);
    }
  }

  /**
   * What a pass makes of bridge changes that flagged no row, beside any rows that are flagged: the member flag
   * of a VLAN other than VID 1 is right exactly if what the daemon noticed is what is so; and, unless the
   * VLAN is marked L3PORT, its columns are the expected ones exactly if so or if it is administratively down.
   */
  lemma UnflaggedBridgeMoves(a: Snapshot, b: Snapshot, c: Cache, steps: seq<Step>, r: VlanRow)
    requires Synced(a, c) && WellFormedVlans(b.vlans)
    requires RowsEvolve(a, b) && NoneReplaced(a, b) && IsPass(b, a.seqno, c, steps)
    requires r in b.vlans && r.config.id != DEFAULT_VID
    ensures var n, d := r.config.name, Run(b, c, steps);
      var noticed := Noticed(a, b, c, steps, r);
      && n in d.vlans && (d.vlans[n].any <==> noticed)
      && (!r.config.l3port ==>
            && r.uuid in d.db
            && (d.db[r.uuid] == ExpectedStatus(b, r.config) <==>
                  !AdminIsUp(r.config) || (noticed <==> Carried(b, r.config.id))))
  {
    FlagIsNoticed(a, b, c, steps, r);
    PassBeginsCoherent(a, b, c, steps);
    CoherentToEnd(b, c, steps);
    if !r.config.l3port {
      ColumnsFollowFlag(b, Run(b, c, steps), r);
    }
  }
}
