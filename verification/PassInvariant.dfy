/**
 * The invariant of a pass. MidPass(s, c, rest) describes the cache c while the steps rest
 * are still to be done for snapshot s; with nothing left to do it is Synced.
 */
module PassInvariant {
  import opened VlanTypes
  import opened VlanCache

  // ---- The parts of the invariant ----------------------------------------------

  /** A step still to come will re-evaluate every VLAN in this port's bitmap. */
  ghost predicate Pending(rest: seq<Step>, p: string) {
    DropPort(p) in rest || ReadPort(p) in rest
  }

  ghost predicate PortsKnown(s: Snapshot, c: Cache, rest: seq<Step>) {
    var rows := PortIndex(s.ports);
    && (forall p :: p in c.ports ==>
          p != DEFAULT_BRIDGE_NAME && (p in rows <==> DropPort(p) !in rest) && AddPort(p) !in rest)
    && (forall p :: p in rows && p != DEFAULT_BRIDGE_NAME ==>
          (p in c.ports <==> AddPort(p) !in rest))
    && (forall p :: DropPort(p) in rest ==> p in c.ports)
    && (forall p :: AddPort(p) in rest ==> p in rows && p != DEFAULT_BRIDGE_NAME && ReadPort(p) in rest)
    && (forall p :: ReadPort(p) in rest ==> p in rows && p != DEFAULT_BRIDGE_NAME)
  }

  ghost predicate InRange(bits: set<int>) {
    forall b :: b in bits ==> 0 <= b < VLAN_BITMAP_SIZE
  }

  /**
   * Entry e is what configuration k says. An access or explicit-trunk bitmap is exact; an implicit
   * trunk in a bridge has every known VLAN and at most its native VLAN besides.
   */
  ghost predicate Parsed(k: PortConfig, inBridge: bool, allVids: set<int>, e: PortEntry) {
    && e.mode == EffectiveMode(k)
    && e.native == NativeVid(k)
    && e.trunkAll == (TrunksAll(k) && inBridge)
    && (!TrunksAll(k) ==> e.bits == TrunkBits(k) + NativeBits(k))
    && (e.trunkAll ==> allVids <= e.bits <= allVids + NativeBits(k))
  }

  ghost predicate PortsParsed(s: Snapshot, c: Cache, rest: seq<Step>) {
    var rows := PortIndex(s.ports);
    && (forall p :: p in c.ports ==> InRange(c.ports[p].bits))
    && (forall p :: p in c.ports && c.ports[p].trunkAll ==> c.allVids <= c.ports[p].bits)
    && (forall p :: p in c.ports && p in rows && !Pending(rest, p) ==>
          Parsed(rows[p].config, InBridge(s, p), c.allVids, c.ports[p]))
  }

  ghost predicate VidsDistinct(c: Cache) {
    forall n, m :: n in c.vlans && m in c.vlans && n != m ==>
      c.vlans[n].vid != c.vlans[m].vid && c.vlans[n].row != c.vlans[m].row
  }

  ghost predicate VidsKnown(c: Cache) {
    && (forall n :: n in c.vlans ==> ValidVid(c.vlans[n].vid) && c.vlans[n].vid in c.allVids)
    && (forall x :: x in c.allVids ==> exists n :: n in c.vlans && c.vlans[n].vid == x)
  }

  ghost predicate VlanNames(s: Snapshot, c: Cache, rest: seq<Step>) {
    var rows := VlanIndex(s.vlans);
    && (forall n :: n in c.vlans ==> (n in rows <==> DropVlan(n) !in rest) && AddVlan(n) !in rest)
    && (forall n :: n in rows ==> (n in c.vlans <==> AddVlan(n) !in rest))
    && (forall n :: DropVlan(n) in rest ==> n in c.vlans)
    && (forall n :: AddVlan(n) in rest ==> n in rows && ReadVlan(n) in rest)
    && (forall n :: ReadVlan(n) in rest ==> n in rows)
  }

  /** A cached VLAN of the table has its row's id and identity; another cached VLAN has no row's. */
  ghost predicate VlanHandles(s: Snapshot, c: Cache) {
    var rows := VlanIndex(s.vlans);
    && (forall n :: n in c.vlans && n in rows ==>
          c.vlans[n].row == rows[n].uuid && c.vlans[n].vid == rows[n].config.id)
    && (forall n, m :: n in c.vlans && n !in rows && m in rows ==>
          c.vlans[n].vid != rows[m].config.id && c.vlans[n].row != rows[m].uuid)
  }

  ghost predicate VlansKnown(s: Snapshot, c: Cache, rest: seq<Step>) {
    VlanNames(s, c, rest) && VlanHandles(s, c)
  }

  /** The member flag agrees with the bitmaps; for VID 1 it may also be set when no port carries it. */
  ghost predicate FreshMember(s: Snapshot, ports: map<string, PortEntry>, v: VlanEntry) {
    && (v.vid != DEFAULT_VID ==> (v.any <==> AnyMember(s, ports, v.vid)))
    && (AnyMember(s, ports, v.vid) ==> v.any)
  }

  /** For VID 1, just re-evaluated: the flag is set by membership or, unless marked, by the rule on port rows. */
  ghost predicate DefaultExact(s: Snapshot, ports: map<string, PortEntry>, v: VlanEntry) {
    v.any <==> AnyMember(s, ports, DEFAULT_VID) || (!L3Marked(s, v.row) && DefaultVlanMember(s))
  }

  ghost predicate AwaitsPort(c: Cache, rest: seq<Step>, vid: int) {
    exists p :: p in c.ports && Pending(rest, p) && vid in c.ports[p].bits
  }

  ghost predicate MembersKnown(s: Snapshot, c: Cache, rest: seq<Step>) {
    var rows := VlanIndex(s.vlans);
    forall n :: n in c.vlans && n in rows ==>
      FreshMember(s, c.ports, c.vlans[n]) || AwaitsPort(c, rest, c.vlans[n].vid)
  }

  ghost predicate Settled(s: Snapshot, v: VlanEntry) {
    !L3Marked(s, v.row) ==> (v.op, v.reason) == StateOf(v.vid, v.admin, v.any)
  }

  ghost predicate StatesKnown(s: Snapshot, c: Cache, rest: seq<Step>) {
    var rows := VlanIndex(s.vlans);
    forall n :: n in c.vlans && n in rows && ReadVlan(n) !in rest ==>
      (c.vlans[n].admin == AdminUp <==> AdminIsUp(rows[n].config)) && Settled(s, c.vlans[n])
  }

  /** What the daemon wrote to a row is what it has cached for it. */
  ghost predicate Written(c: Cache, v: VlanEntry) {
    v.op != OperUnknown ==> v.row in c.db && c.db[v.row] == Columns(v.op == OperUp, v.op, v.reason)
  }

  ghost predicate DbAgrees(c: Cache) {
    forall n :: n in c.vlans ==> Written(c, c.vlans[n])
  }

  ghost predicate MidPass(s: Snapshot, c: Cache, rest: seq<Step>) {
    && PortsKnown(s, c, rest)
    && PortsParsed(s, c, rest)
    && VidsDistinct(c)
    && VidsKnown(c)
    && VlansKnown(s, c, rest)
    && MembersKnown(s, c, rest)
    && StatesKnown(s, c, rest)
    && DbAgrees(c)
  }

  ghost predicate Synced(s: Snapshot, c: Cache) {
    WellFormedVlans(s.vlans) && MidPass(s, c, [])
  }

  // ---- Re-evaluating VLANs -------------------------------------------------------

  ghost predicate SameEntry<K, V>(a: map<K, V>, b: map<K, V>, k: K) {
    (k in a <==> k in b) && (k in a ==> a[k] == b[k])
  }

  ghost predicate ReevaluatedVlan(s: Snapshot, c: Cache, v: VlanEntry, d: Cache, w: VlanEntry, vids: iset<int>) {
    && w.row == v.row && w.vid == v.vid && w.admin == v.admin
    && (v.vid !in vids ==> w == v)
    && (v.vid in vids ==> FreshMember(s, c.ports, w) && Settled(s, w))
    && (v.vid in vids && v.vid == DEFAULT_VID ==> DefaultExact(s, c.ports, w))
    && (L3Marked(s, v.row) ==> w.op == v.op && w.reason == v.reason)
    && (L3Marked(s, v.row) || v.vid !in vids ==> SameEntry(c.db, d.db, v.row))
  }

  ghost predicate SameStates(c: Cache, d: Cache)
    requires d.vlans.Keys == c.vlans.Keys
  {
    forall n :: n in c.vlans ==> c.vlans[n].op == d.vlans[n].op && c.vlans[n].reason == d.vlans[n].reason
  }

  /**
   * d is c with the VLANs in vids re-evaluated and nothing else changed: their member flags match
   * the bitmaps, their states match their flags, and a VLAN marked L3PORT keeps state and row.
   */
  ghost predicate Reevaluated(s: Snapshot, c: Cache, d: Cache, vids: iset<int>) {
    && d.ports == c.ports && d.allVids == c.allVids && d.vlans.Keys == c.vlans.Keys
    && (forall n :: n in c.vlans ==> ReevaluatedVlan(s, c, c.vlans[n], d, d.vlans[n], vids))
    && d.writes >= c.writes
    && (d.writes == c.writes ==> d.db == c.db && SameStates(c, d))
  }

  ghost predicate Spreadless(c: Cache) {
    forall p :: p in c.ports && c.ports[p].trunkAll ==> c.allVids <= c.ports[p].bits
  }

  lemma SpreadChangesNothing(s: Snapshot, c: Cache, vid: int)
    requires Spreadless(c) && vid in c.allVids
    ensures Spread(s, c.ports, vid) == c.ports
  {
    forall p | p in c.ports ensures SpreadOne(s, p, c.ports[p], vid) == c.ports[p] {
      assert c.ports[p].trunkAll ==> c.ports[p].bits + {vid} == c.ports[p].bits;
    }
  }

  /** What the two re-evaluation lemmas need of a cache; re-evaluation keeps it. */
  ghost predicate Ready(c: Cache) {
    VidsDistinct(c) && VidsKnown(c) && Spreadless(c) && DbAgrees(c)
  }

  lemma ReevaluationKeepsReady(s: Snapshot, c: Cache, d: Cache, vids: iset<int>)
    requires Ready(c) && Reevaluated(s, c, d, vids) && DbAgrees(d)
    ensures Ready(d)
  {
    forall x | x in d.allVids ensures exists n :: n in d.vlans && d.vlans[n].vid == x {
      var n :| n in c.vlans && c.vlans[n].vid == x;
      assert n in d.vlans && d.vlans[n].vid == x;
    }
  }

  lemma UpdateMembershipEffect(s: Snapshot, c: Cache, n: string)
    requires Ready(c) && n in c.vlans
    ensures var v := c.vlans[n]; var w := v.(any := AnyMember(s, c.ports, v.vid));
      UpdateMembership(s, c, n) == c.(vlans := c.vlans[n := w])
  {
    SpreadChangesNothing(s, c, c.vlans[n].vid);
  }

  /** A configuration step settles its VLAN and writes its row, or finds it settled. */
  lemma HandleEffect(s: Snapshot, c: Cache, n: string, uuid: nat, l3port: bool)
    requires n in c.vlans
    ensures var v, d := c.vlans[n], HandleConfig(s, c, n, uuid, l3port);
      && d == c.(vlans := c.vlans[n := d.vlans[n]], db := d.db, writes := d.writes)
      && var w := d.vlans[n];
      && w == v.(any := w.any, op := w.op, reason := w.reason)
      && (w.any <==> v.any || (!l3port && v.vid == DEFAULT_VID && DefaultVlanMember(s)))
      && (l3port ==> d == c)
      && (!l3port ==> (w.op, w.reason) == StateOf(w.vid, w.admin, w.any))
      && (if w.op == v.op && w.reason == v.reason then d.db == c.db && d.writes == c.writes
          else d.db == c.db[uuid := Columns(w.op == OperUp, w.op, w.reason)] && d.writes == c.writes + 1)
  {
  }

  lemma OthersStay(c: Cache, d: Cache, n: string, m: string)
    requires VidsDistinct(c) && n in c.vlans && m in c.vlans && m != n
    requires n in d.vlans && d.vlans == c.vlans[n := d.vlans[n]]
    requires d.db == c.db || (c.vlans[n].row in d.db && d.db == c.db[c.vlans[n].row := d.db[c.vlans[n].row]])
    ensures d.vlans[m] == c.vlans[m] && SameEntry(c.db, d.db, c.vlans[m].row)
    ensures c.vlans[m].vid != c.vlans[n].vid
  {
  }

  lemma RefreshEffect(s: Snapshot, c: Cache, n: string)
    requires Ready(c) && n in c.vlans
    ensures Reevaluated(s, c, Refresh(s, c, n), iset{c.vlans[n].vid}) && DbAgrees(Refresh(s, c, n))
  {
    UpdateMembershipEffect(s, c, n);
    var u := UpdateMembership(s, c, n);
    var v := c.vlans[n];
    HandleEffect(s, u, n, v.row, L3Marked(s, v.row));
    var d := Refresh(s, c, n);
    assert d.vlans == c.vlans[n := d.vlans[n]];
    forall m | m in c.vlans
      ensures ReevaluatedVlan(s, c, c.vlans[m], d, d.vlans[m], iset{v.vid}) && Written(d, d.vlans[m])
    {
      assert Written(c, c.vlans[m]);
      if m != n {
        OthersStay(c, d, n, m);
      }
    }
  }

  lemma MarkedEffect(s: Snapshot, c: Cache, n: string)
    requires Ready(c) && n in c.vlans && L3Marked(s, c.vlans[n].row)
    ensures Reevaluated(s, c, UpdateMembership(s, c, n), iset{c.vlans[n].vid})
    ensures DbAgrees(UpdateMembership(s, c, n))
  {
    SpreadChangesNothing(s, c, c.vlans[n].vid);
  }

  /** Re-evaluations compose; a VLAN seen twice is as if seen the second time. */
  lemma ReevaluatedTwice(s: Snapshot, c: Cache, d: Cache, e: Cache, x: iset<int>, y: iset<int>)
    requires Reevaluated(s, c, d, x) && Reevaluated(s, d, e, y)
    ensures Reevaluated(s, c, e, x + y)
  {
    forall n | n in c.vlans ensures ReevaluatedVlan(s, c, c.vlans[n], e, e.vlans[n], x + y) {
      assert ReevaluatedVlan(s, c, c.vlans[n], d, d.vlans[n], x);
      assert ReevaluatedVlan(s, d, d.vlans[n], e, e.vlans[n], y);
    }
  }

  lemma ReevaluatedNone(s: Snapshot, c: Cache)
    ensures Reevaluated(s, c, c, iset{})
  {
  }

  lemma ReevaluatedIn(s: Snapshot, c: Cache, d: Cache, x: iset<int>, y: iset<int>)
    requires Reevaluated(s, c, d, x)
    requires forall n :: n in c.vlans ==> (c.vlans[n].vid in x <==> c.vlans[n].vid in y)
    ensures Reevaluated(s, c, d, y)
  {
    forall n | n in c.vlans ensures ReevaluatedVlan(s, c, c.vlans[n], d, d.vlans[n], y) {
      assert ReevaluatedVlan(s, c, c.vlans[n], d, d.vlans[n], x);
    }
  }

  ghost function Below(bits: set<int>, k: nat): iset<int> {
    iset b | b in bits && 0 <= b < k
  }

  /** One more bit: what is re-evaluated below k joins what was below k - 1. */
  lemma OneMoreBit(s: Snapshot, c: Cache, d: Cache, e: Cache, bits: set<int>, k: nat)
    requires k > 0 && Ready(d) && DbAgrees(e)
    requires Reevaluated(s, c, d, Below(bits, k - 1))
    requires if k - 1 in bits then Reevaluated(s, d, e, iset{k - 1}) else e == d
    ensures Ready(e) && Reevaluated(s, c, e, Below(bits, k))
  {
    var y := if k - 1 in bits then iset{k - 1} else iset{};
    if k - 1 !in bits {
      ReevaluatedNone(s, d);
    }
    ReevaluationKeepsReady(s, d, e, y);
    ReevaluatedTwice(s, c, d, e, Below(bits, k - 1), y);
    assert Below(bits, k - 1) + y == Below(bits, k);
  }

  lemma RefreshVidEffect(s: Snapshot, c: Cache, vid: int)
    requires Ready(c)
    ensures Reevaluated(s, c, RefreshVid(s, c, vid), iset{vid}) && DbAgrees(RefreshVid(s, c, vid))
  {
    match LookupVid(c.vlans, vid)
    case None =>
      ReevaluatedNone(s, c);
      ReevaluatedIn(s, c, c, iset{}, iset{vid});
    case Some(n) => RefreshEffect(s, c, n);
  }

  lemma {:induction false} RefreshBitsEffect(s: Snapshot, c: Cache, bits: set<int>, k: nat)
    requires Ready(c)
    ensures var d := RefreshBits(s, c, bits, k);
      Ready(d) && Reevaluated(s, c, d, Below(bits, k))
  {
    if k == 0 {
      ReevaluatedNone(s, c);
      assert Below(bits, 0) == iset{};
    } else {
      RefreshBitsEffect(s, c, bits, k - 1);
      var d := RefreshBits(s, c, bits, k - 1);
      if k - 1 in bits {
        RefreshVidEffect(s, d, k - 1);
      }
      OneMoreBit(s, c, d, RefreshBits(s, c, bits, k), bits, k);
    }
  }

  // The inner loop over the VLAN table.

  ghost predicate RowHas(s: Snapshot, vid: int, k: nat)
    requires k <= |s.vlans|
  {
    exists i :: 0 <= i < k && s.vlans[i].config.id == vid
  }

  /** Every cached VLAN with the id of a table row was created from that row. */
  ghost predicate HandlesMatch(s: Snapshot, c: Cache) {
    forall n, r :: n in c.vlans && r in s.vlans && r.config.id == c.vlans[n].vid ==> r.uuid == c.vlans[n].row
  }

  lemma MarkOfRow(s: Snapshot, r: VlanRow)
    requires WellFormedVlans(s.vlans) && r in s.vlans
    ensures L3Marked(s, r.uuid) <==> r.config.l3port
  {
  }

  lemma ScanRowEffect(s: Snapshot, c: Cache, vid: int, r: VlanRow)
    requires WellFormedVlans(s.vlans) && r in s.vlans && r.config.id == vid
    requires Ready(c) && HandlesMatch(s, c)
    ensures Reevaluated(s, c, ScanRow(s, c, vid, r), iset{vid}) && DbAgrees(ScanRow(s, c, vid, r))
  {
    match LookupVid(c.vlans, vid)
    case None =>
      ReevaluatedNone(s, c);
      ReevaluatedIn(s, c, c, iset{}, iset{vid});
    case Some(n) =>
      MarkOfRow(s, r);
      assert r.uuid == c.vlans[n].row;
      if r.config.l3port { MarkedEffect(s, c, n); } else { RefreshEffect(s, c, n); }
  }

  lemma {:induction false} ScanRowsEffect(s: Snapshot, c: Cache, vid: int, k: nat)
    requires WellFormedVlans(s.vlans) && k <= |s.vlans|
    requires Ready(c) && HandlesMatch(s, c)
    ensures var d := ScanRows(s, c, vid, k);
      if RowHas(s, vid, k) then Reevaluated(s, c, d, iset{vid}) && DbAgrees(d) else d == c
  {
    if k > 0 {
      ScanRowsEffect(s, c, vid, k - 1);
      var r := s.vlans[k - 1];
      if r.config.id == vid {
        assert !RowHas(s, vid, k - 1);
        ScanRowEffect(s, c, vid, r);
      } else {
        assert RowHas(s, vid, k) ==> RowHas(s, vid, k - 1);
      }
    }
  }

  ghost function Defined(s: Snapshot, bits: set<int>): set<int> {
    set b | b in bits && RowHas(s, b, |s.vlans|)
  }

  lemma {:induction false} ScanBitsEffect(s: Snapshot, c: Cache, bits: set<int>, k: nat)
    requires WellFormedVlans(s.vlans) && Ready(c) && HandlesMatch(s, c)
    ensures var d := ScanBits(s, c, bits, k);
      Ready(d) && Reevaluated(s, c, d, Below(Defined(s, bits), k))
  {
    if k == 0 {
      ReevaluatedNone(s, c);
      assert Below(Defined(s, bits), 0) == iset{};
    } else {
      ScanBitsEffect(s, c, bits, k - 1);
      var d := ScanBits(s, c, bits, k - 1);
      if k - 1 in bits {
        forall n, r | n in d.vlans && r in s.vlans && r.config.id == d.vlans[n].vid ensures r.uuid == d.vlans[n].row {
          assert ReevaluatedVlan(s, c, c.vlans[n], d, d.vlans[n], Below(Defined(s, bits), k - 1));
        }
        ScanRowsEffect(s, d, k - 1, |s.vlans|);
      }
      OneMoreBit(s, c, d, ScanBits(s, c, bits, k), Defined(s, bits), k);
    }
  }
}
