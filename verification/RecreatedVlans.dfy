/**
 * VLANs deleted and created again between two passes: which of the new rows the daemon writes. The proof compares
 * the pass with one over the same snapshot in which such rows kept their identity.
 */
module RecreatedVlans {
  import opened VlanTypes
  import opened VlanCache
  import opened PassInvariant
  import opened StepLemmas
  import opened Reconciliation
  import opened PassProperties

  // ---- The snapshot with identities kept -----------------------------------------------------------

  /** The row with the identity its name had in a. */
  function Kept(a: Snapshot, r: VlanRow): VlanRow {
    if r.config.name in VlanIndex(a.vlans) then r.(uuid := VlanIndex(a.vlans)[r.config.name].uuid) else r
  }

  function KeptRows(a: Snapshot, rows: seq<VlanRow>): seq<VlanRow> {
    seq(|rows|, i requires 0 <= i < |rows| => Kept(a, rows[i]))
  }

  function AsKept(a: Snapshot, b: Snapshot): Snapshot {
    b.(vlans := KeptRows(a, b.vlans))
  }

  /**
   * Between a and b names and ids went together, and no identity went to another name; a row of b may be another
   * row than that of its name in a, being deleted and created again, but is then not marked L3PORT.
   */
  ghost predicate OnlyRecreated(a: Snapshot, b: Snapshot) {
    && (forall n, m :: n in VlanIndex(a.vlans) && m in VlanIndex(b.vlans) ==>
          var x, y := VlanIndex(a.vlans)[n], VlanIndex(b.vlans)[m];
          && (n == m <==> x.config.id == y.config.id)
          && (x.uuid == y.uuid ==> n == m))
    && (forall n :: n in VlanIndex(a.vlans) && n in VlanIndex(b.vlans) && VlanIndex(b.vlans)[n].config.l3port ==>
          VlanIndex(b.vlans)[n].uuid == VlanIndex(a.vlans)[n].uuid)
  }

  lemma OtherRow(rows: seq<VlanRow>, q: VlanRow, r: VlanRow)
    requires WellFormedVlans(rows) && q in rows && r in rows && q != r
    ensures q.config.name != r.config.name && q.config.id != r.config.id && q.uuid != r.uuid
  {
  }

  lemma KeptApart(a: Snapshot, b: Snapshot, x: VlanRow, y: VlanRow)
    requires WellFormedVlans(a.vlans) && OnlyRecreated(a, b)
    requires x.config.name in VlanIndex(b.vlans) && VlanIndex(b.vlans)[x.config.name] == x
    requires y.config.name in VlanIndex(b.vlans) && VlanIndex(b.vlans)[y.config.name] == y
    requires x.config.name != y.config.name && x.uuid != y.uuid
    ensures Kept(a, x).uuid != Kept(a, y).uuid
  {
    var before := VlanIndex(a.vlans);
    if x.config.name in before && y.config.name in before {
      OtherRow(a.vlans, before[x.config.name], before[y.config.name]);
    }
  }

  lemma KeptIdentities(a: Snapshot, b: Snapshot, x: VlanRow, y: VlanRow)
    requires WellFormedVlans(a.vlans) && WellFormedVlans(b.vlans) && OnlyRecreated(a, b)
    requires x in b.vlans && y in b.vlans && x != y
    ensures Kept(a, x).uuid != Kept(a, y).uuid
  {
    IndexOfRow(b.vlans, x);
    IndexOfRow(b.vlans, y);
    OtherRow(b.vlans, x, y);
    KeptApart(a, b, x, y);
  }

  lemma KeptWellFormed(a: Snapshot, b: Snapshot)
    requires WellFormedVlans(a.vlans) && WellFormedVlans(b.vlans) && OnlyRecreated(a, b)
    ensures WellFormedVlans(AsKept(a, b).vlans)
  {
    var rows := AsKept(a, b).vlans;
    forall i, j | 0 <= i < j < |rows| ensures rows[i].uuid != rows[j].uuid {
      assert b.vlans[i] in b.vlans && b.vlans[j] in b.vlans;
      KeptIdentities(a, b, b.vlans[i], b.vlans[j]);
    }
  }

  lemma KeptRowIn(a: Snapshot, rows: seq<VlanRow>, r: VlanRow)
    requires r in rows
    ensures Kept(a, r) in KeptRows(a, rows)
  {
    var i :| 0 <= i < |rows| && rows[i] == r;
    assert KeptRows(a, rows)[i] == Kept(a, r);
  }

  lemma KeptRowOf(a: Snapshot, rows: seq<VlanRow>, q: VlanRow) returns (r: VlanRow)
    requires q in KeptRows(a, rows)
    ensures r in rows && q == Kept(a, r)
  {
    var i :| 0 <= i < |KeptRows(a, rows)| && KeptRows(a, rows)[i] == q;
    r := rows[i];
  }

  lemma KeptIndex(a: Snapshot, b: Snapshot, n: string)
    requires WellFormedVlans(AsKept(a, b).vlans)
    ensures n in VlanIndex(AsKept(a, b).vlans) <==> n in VlanIndex(b.vlans)
    ensures n in VlanIndex(b.vlans) ==> VlanIndex(AsKept(a, b).vlans)[n] == Kept(a, VlanIndex(b.vlans)[n])
  {
    if n in VlanIndex(AsKept(a, b).vlans) {
      var r := KeptRowOf(a, b.vlans, VlanIndex(AsKept(a, b).vlans)[n]);
      assert r.config.name == n;
    }
    if n in VlanIndex(b.vlans) {
      KeptRowIn(a, b.vlans, VlanIndex(b.vlans)[n]);
      IndexOfRow(AsKept(a, b).vlans, Kept(a, VlanIndex(b.vlans)[n]));
    }
  }

  lemma KeptUnflagged(a: Snapshot, b: Snapshot, n: string)
    requires WellFormedVlans(AsKept(a, b).vlans) && n in VlanIndex(AsKept(a, b).vlans)
    requires n in VlanIndex(b.vlans) && !VlanFlagged(VlanIndex(b.vlans)[n], a.seqno) ==>
      n in VlanIndex(a.vlans) && VlanIndex(a.vlans)[n] == VlanIndex(b.vlans)[n]
    ensures VlanFlagged(VlanIndex(AsKept(a, b).vlans)[n], a.seqno)
         || (n in VlanIndex(a.vlans) && VlanIndex(a.vlans)[n] == VlanIndex(AsKept(a, b).vlans)[n])
  {
    KeptIndex(a, b, n);
  }

  lemma KeptRowsEvolve(a: Snapshot, b: Snapshot)
    requires WellFormedVlans(AsKept(a, b).vlans) && RowsEvolve(a, b)
    ensures RowsEvolve(a, AsKept(a, b))
  {
    forall n | n in VlanIndex(AsKept(a, b).vlans)
      ensures VlanFlagged(VlanIndex(AsKept(a, b).vlans)[n], a.seqno)
           || (n in VlanIndex(a.vlans) && VlanIndex(a.vlans)[n] == VlanIndex(AsKept(a, b).vlans)[n])
    {
      KeptUnflagged(a, b, n);
    }
  }

  lemma KeptHandle(a: Snapshot, b: Snapshot, n: string, m: string)
    requires WellFormedVlans(a.vlans) && OnlyRecreated(a, b) && n in VlanIndex(a.vlans) && m in VlanIndex(b.vlans)
    ensures var x, y := VlanIndex(a.vlans)[n], Kept(a, VlanIndex(b.vlans)[m]);
      n == m || x.config.id == y.config.id || x.uuid == y.uuid ==>
        n == m && x.config.id == y.config.id && x.uuid == y.uuid
  {
    if m in VlanIndex(a.vlans) && m != n {
      OtherRow(a.vlans, VlanIndex(a.vlans)[m], VlanIndex(a.vlans)[n]);
    }
  }

  lemma KeptNotReplaced(a: Snapshot, b: Snapshot)
    requires WellFormedVlans(a.vlans) && OnlyRecreated(a, b) && WellFormedVlans(AsKept(a, b).vlans)
    ensures NoneReplaced(a, AsKept(a, b))
  {
    forall n, m | n in VlanIndex(a.vlans) && m in VlanIndex(AsKept(a, b).vlans)
      ensures var x, y := VlanIndex(a.vlans)[n], VlanIndex(AsKept(a, b).vlans)[m];
        n == m || x.config.id == y.config.id || x.uuid == y.uuid ==>
          n == m && x.config.id == y.config.id && x.uuid == y.uuid
    {
      KeptIndex(a, b, m);
      KeptHandle(a, b, n, m);
    }
  }

  lemma KeptEvolves(a: Snapshot, b: Snapshot)
    requires WellFormedVlans(AsKept(a, b).vlans) && Evolves(a, b) && a.seqno < b.seqno
    ensures Evolves(a, AsKept(a, b))
  {
    KeptRowsEvolve(a, b);
    forall p ensures InBridge(AsKept(a, b), p) <==> InBridge(b, p) {}
  }

  lemma SamePass(a: Snapshot, b: Snapshot, c: Cache, steps: seq<Step>)
    requires WellFormedVlans(AsKept(a, b).vlans) && IsPass(b, a.seqno, c, steps)
    ensures IsPass(AsKept(a, b), a.seqno, c, steps)
  {
    forall n ensures n in VlanIndex(AsKept(a, b).vlans) <==> n in VlanIndex(b.vlans)
      ensures n in VlanIndex(b.vlans) ==>
        VlanFlagged(VlanIndex(AsKept(a, b).vlans)[n], a.seqno) == VlanFlagged(VlanIndex(b.vlans)[n], a.seqno)
    {
      KeptIndex(a, b, n);
    }
  }

  lemma SameCarried(a: Snapshot, b: Snapshot, vid: int)
    ensures Carried(AsKept(a, b), vid) <==> Carried(b, vid)
  {
    forall p ensures CarriedBy(AsKept(a, b), p, vid) <==> CarriedBy(b, p, vid) {}
  }

  // ---- The two passes side by side -------------------------------------------------------------------

  /** The same cache, but for the columns written. */
  ghost predicate Alike(c: Cache, e: Cache) {
    e == c.(db := e.db)
  }

  /** Snapshots that differ in row identities only, and give cached VLANs the same mark. */
  ghost predicate SameSight(s: Snapshot, t: Snapshot, c: Cache) {
    && s.ports == t.ports && s.bridges == t.bridges && |s.vlans| == |t.vlans|
    && (forall i :: 0 <= i < |s.vlans| ==> s.vlans[i].config == t.vlans[i].config)
    && (forall n :: n in c.vlans ==> (L3Marked(s, c.vlans[n].row) <==> L3Marked(t, c.vlans[n].row)))
  }

  lemma SameRule(s: Snapshot, t: Snapshot, c: Cache)
    requires SameSight(s, t, c)
    ensures DefaultVlanMember(s) <==> DefaultVlanMember(t)
  {
    if r :| r in s.vlans && r.config.id == DEFAULT_VID {
      var i :| 0 <= i < |s.vlans| && s.vlans[i] == r;
      assert t.vlans[i] in t.vlans && t.vlans[i].config.id == DEFAULT_VID;
    }
    if r :| r in t.vlans && r.config.id == DEFAULT_VID {
      var i :| 0 <= i < |t.vlans| && t.vlans[i] == r;
      assert s.vlans[i] in s.vlans && s.vlans[i].config.id == DEFAULT_VID;
    }
  }

  lemma SpreadAlike(s: Snapshot, t: Snapshot, ports: map<string, PortEntry>, vid: int)
    requires s.bridges == t.bridges
    ensures Spread(s, ports, vid) == Spread(t, ports, vid)
    ensures AnyMember(s, ports, vid) <==> AnyMember(t, ports, vid)
  {
    forall p ensures InBridge(s, p) == InBridge(t, p) {}
    forall p | p in ports ensures IsMember(s, ports, p, vid) == IsMember(t, ports, p, vid) {}
  }

  lemma MembershipAlike(s: Snapshot, t: Snapshot, c: Cache, e: Cache, n: string)
    requires SameSight(s, t, c) && Alike(c, e) && n in c.vlans
    ensures Alike(UpdateMembership(s, c, n), UpdateMembership(t, e, n))
    ensures SameSight(s, t, UpdateMembership(s, c, n))
  {
    SpreadAlike(s, t, c.ports, c.vlans[n].vid);
  }

  lemma HandleAlike(s: Snapshot, t: Snapshot, c: Cache, e: Cache, n: string, u: nat, v: nat, l3port: bool)
    requires SameSight(s, t, c) && Alike(c, e) && n in c.vlans
    ensures Alike(HandleConfig(s, c, n, u, l3port), HandleConfig(t, e, n, v, l3port))
    ensures SameSight(s, t, HandleConfig(s, c, n, u, l3port))
  {
    SameRule(s, t, c);
  }

  lemma RefreshAlike(s: Snapshot, t: Snapshot, c: Cache, e: Cache, n: string)
    requires SameSight(s, t, c) && Alike(c, e) && n in c.vlans
    ensures Alike(Refresh(s, c, n), Refresh(t, e, n)) && SameSight(s, t, Refresh(s, c, n))
  {
    MembershipAlike(s, t, c, e, n);
    var row := c.vlans[n].row;
    HandleAlike(s, t, UpdateMembership(s, c, n), UpdateMembership(t, e, n), n, row, row, L3Marked(s, row));
  }

  lemma {:induction false} RefreshBitsAlike(s: Snapshot, t: Snapshot, c: Cache, e: Cache, bits: set<int>, k: nat)
    requires SameSight(s, t, c) && Alike(c, e)
    ensures Alike(RefreshBits(s, c, bits, k), RefreshBits(t, e, bits, k)) && SameSight(s, t, RefreshBits(s, c, bits, k))
  {
    if k > 0 {
      RefreshBitsAlike(s, t, c, e, bits, k - 1);
      var d := RefreshBits(s, c, bits, k - 1);
      if k - 1 in bits && LookupVid(d.vlans, k - 1).Some? {
        RefreshAlike(s, t, d, RefreshBits(t, e, bits, k - 1), LookupVid(d.vlans, k - 1).value);
      }
    }
  }

  lemma ScanRowAlike(s: Snapshot, t: Snapshot, c: Cache, e: Cache, vid: int, q: VlanRow, r: VlanRow)
    requires SameSight(s, t, c) && Alike(c, e) && q.config == r.config
    ensures Alike(ScanRow(s, c, vid, q), ScanRow(t, e, vid, r)) && SameSight(s, t, ScanRow(s, c, vid, q))
  {
    if q.config.id == vid && LookupVid(c.vlans, vid).Some? {
      MembershipAlike(s, t, c, e, LookupVid(c.vlans, vid).value);
      RefreshAlike(s, t, c, e, LookupVid(c.vlans, vid).value);
    }
  }

  lemma {:induction false} ScanRowsAlike(s: Snapshot, t: Snapshot, c: Cache, e: Cache, vid: int, k: nat)
    requires SameSight(s, t, c) && Alike(c, e) && k <= |s.vlans|
    ensures Alike(ScanRows(s, c, vid, k), ScanRows(t, e, vid, k)) && SameSight(s, t, ScanRows(s, c, vid, k))
  {
    if k > 0 {
      ScanRowsAlike(s, t, c, e, vid, k - 1);
      ScanRowAlike(s, t, ScanRows(s, c, vid, k - 1), ScanRows(t, e, vid, k - 1), vid, s.vlans[k - 1], t.vlans[k - 1]);
    }
  }

  lemma {:induction false} ScanBitsAlike(s: Snapshot, t: Snapshot, c: Cache, e: Cache, bits: set<int>, k: nat)
    requires SameSight(s, t, c) && Alike(c, e)
    ensures Alike(ScanBits(s, c, bits, k), ScanBits(t, e, bits, k)) && SameSight(s, t, ScanBits(s, c, bits, k))
  {
    if k > 0 {
      ScanBitsAlike(s, t, c, e, bits, k - 1);
      if k - 1 in bits {
        ScanRowsAlike(s, t, ScanBits(s, c, bits, k - 1), ScanBits(t, e, bits, k - 1), k - 1, |s.vlans|);
      }
    }
  }

  lemma DropPortAlike(s: Snapshot, t: Snapshot, c: Cache, e: Cache, p: string)
    requires SameSight(s, t, c) && Alike(c, e) && p in c.ports
    ensures Alike(DoDropPort(s, c, p), DoDropPort(t, e, p))
  {
    RefreshBitsAlike(s, t, c.(ports := c.ports - {p}), e.(ports := e.ports - {p}), c.ports[p].bits, VLAN_BITMAP_SIZE);
  }

  lemma ReadPortAlike(s: Snapshot, t: Snapshot, c: Cache, e: Cache, p: string, k: PortConfig)
    requires SameSight(s, t, c) && Alike(c, e) && p in c.ports
    ensures Alike(DoReadPort(s, c, p, k), DoReadPort(t, e, p, k))
  {
    assert InBridge(s, p) == InBridge(t, p);
    var x := ParsePort(k, c.allVids, InBridge(s, p));
    ScanBitsAlike(s, t, c.(ports := c.ports[p := x]), e.(ports := e.ports[p := x]), c.ports[p].bits + x.bits,
                  VLAN_BITMAP_SIZE);
  }

  lemma AddVlanAlike(s: Snapshot, t: Snapshot, c: Cache, e: Cache, n: string, r: VlanRow)
    requires SameSight(s, t, c) && Alike(c, e)
    ensures Alike(DoAddVlan(s, c, n, r), DoAddVlan(t, e, n, r))
  {
    SpreadAlike(s, t, c.ports, r.config.id);
  }

  lemma ReadVlanAlike(s: Snapshot, t: Snapshot, c: Cache, e: Cache, n: string, q: VlanRow, r: VlanRow)
    requires SameSight(s, t, c) && Alike(c, e) && n in c.vlans && q.config == r.config
    ensures Alike(DoReadVlan(s, c, n, q), DoReadVlan(t, e, n, r))
  {
    SameRule(s, t, c);
  }

  /** A step over b and the same step over b with identities kept. */
  lemma StepAlike(a: Snapshot, b: Snapshot, c: Cache, e: Cache, x: Step)
    requires WellFormedVlans(AsKept(a, b).vlans)
    requires SameSight(b, AsKept(a, b), c) && Alike(c, e)
    requires x.AddVlan? ==> x.vlan !in VlanIndex(a.vlans)
    ensures Alike(Apply(b, c, x), Apply(AsKept(a, b), e, x))
  {
    var t := AsKept(a, b);
    match x
    case DropPort(p) => if p in c.ports { DropPortAlike(b, t, c, e, p); }
    case AddPort(p) =>
    case ReadPort(p) =>
      if p in c.ports && p in PortIndex(b.ports) { ReadPortAlike(b, t, c, e, p, PortIndex(b.ports)[p].config); }
    case DropVlan(n) =>
    case AddVlan(n) =>
      KeptIndex(a, b, n);
      if n !in c.vlans && n in VlanIndex(b.vlans) { AddVlanAlike(b, t, c, e, n, VlanIndex(b.vlans)[n]); }
    case ReadVlan(n) =>
      KeptIndex(a, b, n);
      if n in c.vlans && n in VlanIndex(b.vlans) {
        ReadVlanAlike(b, t, c, e, n, VlanIndex(b.vlans)[n], VlanIndex(t.vlans)[n]);
      }
  }

  lemma SameMarks(a: Snapshot, b: Snapshot, uuid: nat)
    requires WellFormedVlans(b.vlans) && OnlyRecreated(a, b)
    ensures L3Marked(b, uuid) <==> L3Marked(AsKept(a, b), uuid)
  {
    if r :| r in b.vlans && r.uuid == uuid && r.config.l3port {
      IndexOfRow(b.vlans, r);
      KeptRowIn(a, b.vlans, r);
    }
    if q :| q in AsKept(a, b).vlans && q.uuid == uuid && q.config.l3port {
      var r := KeptRowOf(a, b.vlans, q);
      IndexOfRow(b.vlans, r);
    }
  }

  lemma KeptSight(a: Snapshot, b: Snapshot, c: Cache)
    requires WellFormedVlans(b.vlans) && OnlyRecreated(a, b)
    ensures SameSight(b, AsKept(a, b), c)
  {
    forall n | n in c.vlans ensures L3Marked(b, c.vlans[n].row) <==> L3Marked(AsKept(a, b), c.vlans[n].row) {
      SameMarks(a, b, c.vlans[n].row);
    }
  }

  lemma {:induction false} RunAlike(a: Snapshot, b: Snapshot, c: Cache, e: Cache, steps: seq<Step>)
    requires WellFormedVlans(b.vlans) && WellFormedVlans(AsKept(a, b).vlans) && OnlyRecreated(a, b) && Alike(c, e)
    requires forall n :: AddVlan(n) in steps ==> n !in VlanIndex(a.vlans)
    ensures Alike(Run(b, c, steps), Run(AsKept(a, b), e, steps))
    decreases |steps|
  {
    if steps == [] {
    } else {
      KeptSight(a, b, c);
      assert steps[0] in steps;
      StepAlike(a, b, c, e, steps[0]);
      RunAlike(a, b, Apply(b, c, steps[0]), Apply(AsKept(a, b), e, steps[0]), steps[1..]);
    }
  }

  // ---- Until the row is read ---------------------------------------------------------------------------

  /** Cached VLAN n has the admin state it had and is settled for it. */
  ghost predicate StillSettled(s: Snapshot, c: Cache, n: string, admin: Admin) {
    n in c.vlans && c.vlans[n].admin == admin && Settled(s, c.vlans[n])
  }

  lemma ReevaluatedSettled(s: Snapshot, c: Cache, d: Cache, vids: iset<int>, n: string, admin: Admin)
    requires Reevaluated(s, c, d, vids) && StillSettled(s, c, n, admin)
    ensures StillSettled(s, d, n, admin)
  {
    assert ReevaluatedVlan(s, c, c.vlans[n], d, d.vlans[n], vids);
  }

  lemma DropPortSettled(s: Snapshot, c: Cache, steps: seq<Step>, p: string, n: string, admin: Admin)
    requires WellFormedVlans(s.vlans) && steps != [] && Scheduled(steps) && MidPass(s, c, steps)
    requires steps[0] == DropPort(p) && StillSettled(s, c, n, admin)
    ensures StillSettled(s, Apply(s, c, steps[0]), n, admin)
  {
    DropPortKeeps(s, c, steps, p);
    ReevaluatedSettled(s, c.(ports := c.ports - {p}), DoDropPort(s, c, p), Below(c.ports[p].bits, VLAN_BITMAP_SIZE),
                       n, admin);
  }

  lemma ReadPortSettled(s: Snapshot, c: Cache, steps: seq<Step>, p: string, n: string, admin: Admin)
    requires WellFormedVlans(s.vlans) && steps != [] && Scheduled(steps) && MidPass(s, c, steps)
    requires steps[0] == ReadPort(p) && StillSettled(s, c, n, admin)
    ensures StillSettled(s, Apply(s, c, steps[0]), n, admin)
  {
    ReadPortKeeps(s, c, steps, p);
    var e := ParsePort(PortIndex(s.ports)[p].config, c.allVids, InBridge(s, p));
    ReevaluatedSettled(s, c.(ports := c.ports[p := e]), DoReadPort(s, c, p, PortIndex(s.ports)[p].config),
                       Below(Defined(s, c.ports[p].bits + e.bits), VLAN_BITMAP_SIZE), n, admin);
  }

  /** Adding a port, and any work on another VLAN, leaves the entry of VLAN n alone. */
  lemma OtherWorkSettled(s: Snapshot, c: Cache, x: Step, n: string, admin: Admin)
    requires x.AddPort? || ((x.DropVlan? || x.AddVlan? || x.ReadVlan?) && x.vlan != n)
    requires StillSettled(s, c, n, admin)
    ensures StillSettled(s, Apply(s, c, x), n, admin)
  {
  }

  lemma StepSettled(s: Snapshot, c: Cache, steps: seq<Step>, n: string, admin: Admin)
    requires WellFormedVlans(s.vlans) && steps != [] && Scheduled(steps) && MidPass(s, c, steps)
    requires steps[0] != ReadVlan(n) && n in VlanIndex(s.vlans) && StillSettled(s, c, n, admin)
    ensures StillSettled(s, Apply(s, c, steps[0]), n, admin)
  {
    assert steps[0] in steps;
    match steps[0]
    case DropPort(p) => DropPortSettled(s, c, steps, p, n, admin);
    case ReadPort(p) => ReadPortSettled(s, c, steps, p, n, admin);
    case x => OtherWorkSettled(s, c, x, n, admin);
  }

  lemma StepInPart(s: Snapshot, c: Cache, steps: seq<Step>, n: string, admin: Admin)
    requires WellFormedVlans(s.vlans) && steps != [] && Scheduled(steps) && MidPass(s, c, steps)
    requires steps[0] != ReadVlan(n) && n in VlanIndex(s.vlans) && StillSettled(s, c, n, admin)
    ensures Scheduled(steps[1..]) && MidPass(s, Apply(s, c, steps[0]), steps[1..])
    ensures StillSettled(s, Apply(s, c, steps[0]), n, admin)
  {
    StepSettled(s, c, steps, n, admin);
    StepKeepsMidPass(s, c, steps);
  }

  lemma HeadOfParts(most: seq<Step>, rest: seq<Step>)
    requires most != []
    ensures most + rest != [] && (most + rest)[0] == most[0] && (most + rest)[1..] == most[1..] + rest
  {
  }

  /** After the first part of a pass the invariant holds of the rest, and an unread VLAN is as settled as before. */
  lemma {:induction false} PartOfPass(s: Snapshot, c: Cache, most: seq<Step>, rest: seq<Step>, n: string, admin: Admin)
    requires WellFormedVlans(s.vlans) && Scheduled(most + rest) && MidPass(s, c, most + rest)
    requires ReadVlan(n) !in most && n in VlanIndex(s.vlans) && StillSettled(s, c, n, admin)
    ensures MidPass(s, Run(s, c, most), rest) && StillSettled(s, Run(s, c, most), n, admin)
    decreases |most|
  {
    if most == [] {
      assert most + rest == rest;
    } else {
      HeadOfParts(most, rest);
      StepInPart(s, c, most + rest, n, admin);
      PartOfPass(s, Apply(s, c, most[0]), most[1..], rest, n, admin);
    }
  }

  /** When a VLAN row is about to be read, ports and VLANs are all known and the member flag is right. */
  lemma FlagWhenRead(s: Snapshot, c: Cache, rest: seq<Step>, n: string)
    requires WellFormedVlans(s.vlans) && rest != [] && Scheduled(rest) && MidPass(s, c, rest) && rest[0] == ReadVlan(n)
    ensures n in VlanIndex(s.vlans) && n in c.vlans && c.vlans[n].vid == VlanIndex(s.vlans)[n].config.id
    ensures c.vlans[n].vid != DEFAULT_VID ==> (c.vlans[n].any <==> Carried(s, c.vlans[n].vid))
  {
    assert ReadVlan(n) in rest;
    NoAddsLeft(rest, n);
    NoPortWorkLeft(rest);
    assert PortsKnown(s, c, []) && PortsParsed(s, c, []);
    AnyMemberIffCarried(s, c, c.vlans[n].vid);
    assert FreshMember(s, c.ports, c.vlans[n]);
  }

  // ---- What is written -----------------------------------------------------------------------------------

  /** After a VLAN row was read only other VLAN rows are. */
  lemma {:induction false} LaterReads(s: Snapshot, c: Cache, rest: seq<Step>, uuid: nat)
    requires forall x :: x in rest ==> x.ReadVlan? && Avoids(s, x, uuid)
    ensures SameEntry(c.db, Run(s, c, rest).db, uuid)
    decreases |rest|
  {
    if rest == [] {
    } else {
      assert rest[0] in rest;
      LaterReads(s, Apply(s, c, rest[0]), rest[1..], uuid);
    }
  }

  /** Reading row r of a cached VLAN that is settled for the admin state it had, never having written r. */
  lemma ReadingWrites(s: Snapshot, c: Cache, n: string, r: VlanRow, admin: Admin)
    requires n in c.vlans && c.vlans[n].vid == r.config.id != DEFAULT_VID && !r.config.l3port && r.uuid !in c.db
    requires c.vlans[n].admin == admin && (c.vlans[n].any <==> Carried(s, r.config.id))
    requires (c.vlans[n].op, c.vlans[n].reason) == StateOf(r.config.id, admin, c.vlans[n].any)
    ensures var d := DoReadVlan(s, c, n, r);
      && (r.uuid in d.db <==> (AdminIsUp(r.config) <==> admin == AdminDown))
      && (r.uuid in d.db ==> d.db[r.uuid] == ExpectedStatus(s, r.config))
  {
  }

  lemma RestScheduled(most: seq<Step>, rest: seq<Step>)
    requires Scheduled(most + rest)
    ensures Scheduled(rest)
  {
    forall i, j | 0 <= i < j < |rest| ensures Phase(rest[i]) <= Phase(rest[j]) && rest[i] != rest[j] {
      assert rest[i] == (most + rest)[|most| + i] && rest[j] == (most + rest)[|most| + j];
    }
  }

  /** The kept handle of a recreated VLAN is not marked. */
  lemma KeptUnmarked(a: Snapshot, b: Snapshot, k: Cache, r: VlanRow)
    requires WellFormedVlans(AsKept(a, b).vlans) && OnlyRecreated(a, b) && VlanHandles(AsKept(a, b), k)
    requires r.config.name in VlanIndex(b.vlans) && VlanIndex(b.vlans)[r.config.name] == r
    requires r.config.name in VlanIndex(a.vlans) && VlanIndex(a.vlans)[r.config.name].uuid != r.uuid
    requires r.config.name in k.vlans
    ensures !L3Marked(AsKept(a, b), k.vlans[r.config.name].row)
  {
    KeptIndex(a, b, r.config.name);
    MarkOfRow(AsKept(a, b), VlanIndex(AsKept(a, b).vlans)[r.config.name]);
  }

  lemma SplitPass(steps: seq<Step>, n: string) returns (most: seq<Step>, rest: seq<Step>)
    requires Scheduled(steps) && ReadVlan(n) in steps
    ensures steps == most + ([ReadVlan(n)] + rest) && ReadVlan(n) !in most
    ensures forall y :: y in rest ==> y.ReadVlan? && y != ReadVlan(n)
  {
    var i :| 0 <= i < |steps| && steps[i] == ReadVlan(n);
    most, rest := steps[..i], steps[i + 1..];
    forall y | y in rest ensures y.ReadVlan? && y != ReadVlan(n) {
      var j :| 0 <= j < |rest| && rest[j] == y;
      assert steps[i + 1 + j] == y;
    }
  }

  /** Row r is new, its VLAN was another row in a, of which the daemon knows, and no other row has its identity. */
  ghost predicate RecreatedRow(a: Snapshot, b: Snapshot, c: Cache, r: VlanRow) {
    && r in b.vlans && r.config.id != DEFAULT_VID && r.uuid !in c.db
    && r.config.name in VlanIndex(a.vlans)
    && VlanIndex(a.vlans)[r.config.name].uuid != r.uuid && !VlanIndex(a.vlans)[r.config.name].config.l3port
  }

  /** The row has columns exactly if its admin state is not that of the deleted row, and then the expected ones. */
  ghost predicate WrittenIfChanged(a: Snapshot, b: Snapshot, d: Cache, r: VlanRow)
    requires r.config.name in VlanIndex(a.vlans)
  {
    && (r.uuid in d.db <==> (AdminIsUp(r.config) <==> !AdminIsUp(VlanIndex(a.vlans)[r.config.name].config)))
    && (r.uuid in d.db ==> d.db[r.uuid] == ExpectedStatus(b, r.config))
  }

  lemma RecreatedIsRead(a: Snapshot, b: Snapshot, c: Cache, steps: seq<Step>, r: VlanRow)
    requires WellFormedVlans(b.vlans) && Evolves(a, b) && IsPass(b, a.seqno, c, steps) && RecreatedRow(a, b, c, r)
    ensures r.config.name in VlanIndex(b.vlans) && VlanIndex(b.vlans)[r.config.name] == r
    ensures a.seqno < b.seqno && ReadVlan(r.config.name) in steps
  {
    IndexOfRow(b.vlans, r);
  }

  lemma RecreatedUnknown(a: Snapshot, b: Snapshot, c: Cache, r: VlanRow)
    requires Synced(a, c) && WellFormedVlans(b.vlans) && OnlyRecreated(a, b) && RecreatedRow(a, b, c, r)
    ensures !Knows(c, r.uuid)
  {
    IndexOfRow(b.vlans, r);
    forall m | m in c.vlans ensures c.vlans[m].row != r.uuid {
      assert m in VlanIndex(a.vlans) && c.vlans[m].row == VlanIndex(a.vlans)[m].uuid;
    }
  }

  lemma OthersAvoid(b: Snapshot, r: VlanRow, x: Step)
    requires WellFormedVlans(b.vlans) && r in b.vlans && x != ReadVlan(r.config.name) && x != AddVlan(r.config.name)
    ensures Avoids(b, x, r.uuid)
  {
    if (x.AddVlan? || x.ReadVlan?) && x.vlan in VlanIndex(b.vlans) {
      OtherRow(b.vlans, VlanIndex(b.vlans)[x.vlan], r);
    }
  }

  lemma AllAvoid(b: Snapshot, steps: seq<Step>, r: VlanRow)
    requires WellFormedVlans(b.vlans) && r in b.vlans
    requires ReadVlan(r.config.name) !in steps && AddVlan(r.config.name) !in steps
    ensures forall x :: x in steps ==> Avoids(b, x, r.uuid)
  {
    forall x | x in steps ensures Avoids(b, x, r.uuid) {
      OthersAvoid(b, r, x);
    }
  }

  lemma SettledBefore(a: Snapshot, b: Snapshot, c: Cache, r: VlanRow)
    requires Synced(a, c) && WellFormedVlans(b.vlans) && OnlyRecreated(a, b) && RecreatedRow(a, b, c, r)
    requires WellFormedVlans(AsKept(a, b).vlans)
    ensures var n := r.config.name;
      && n in c.vlans && (c.vlans[n].admin == AdminUp <==> AdminIsUp(VlanIndex(a.vlans)[n].config))
      && StillSettled(AsKept(a, b), c, n, c.vlans[n].admin)
  {
    IndexOfRow(b.vlans, r);
    MarkOfRow(a, VlanIndex(a.vlans)[r.config.name]);
  }

  /** The pass over b with identities kept is one from a, and leaves the cache of the pass over b but for columns. */
  lemma KeptPass(a: Snapshot, b: Snapshot, c: Cache, steps: seq<Step>)
    requires Synced(a, c) && WellFormedVlans(b.vlans) && Evolves(a, b) && OnlyRecreated(a, b) && a.seqno < b.seqno
    requires IsPass(b, a.seqno, c, steps)
    ensures WellFormedVlans(AsKept(a, b).vlans) && MidPass(AsKept(a, b), c, steps)
    ensures Synced(AsKept(a, b), Run(AsKept(a, b), c, steps))
    ensures forall n :: AddVlan(n) in steps ==> n !in VlanIndex(a.vlans)
  {
    KeptWellFormed(a, b);
    KeptEvolves(a, b);
    KeptNotReplaced(a, b);
    SamePass(a, b, c, steps);
    PassBegins(a, AsKept(a, b), c, steps);
    PassRefines(a, AsKept(a, b), c, steps);
    SyncedMeansExactTables(a, c);
    forall n | AddVlan(n) in steps ensures n !in VlanIndex(a.vlans) {
      assert n in c.vlans.Keys <==> n in VlanIndex(a.vlans).Keys;
    }
  }

  /** In the cache the VLAN has the expected status. */
  lemma CacheStaysRight(a: Snapshot, b: Snapshot, c: Cache, steps: seq<Step>, r: VlanRow)
    requires Synced(a, c) && WellFormedVlans(b.vlans) && Evolves(a, b) && OnlyRecreated(a, b)
    requires IsPass(b, a.seqno, c, steps) && RecreatedRow(a, b, c, r)
    ensures var d := Run(b, c, steps);
      && r.config.name in d.vlans
      && var v := d.vlans[r.config.name]; Columns(v.op == OperUp, v.op, v.reason) == ExpectedStatus(b, r.config)
  {
    RecreatedIsRead(a, b, c, steps, r);
    KeptPass(a, b, c, steps);
    RunAlike(a, b, c, c, steps);
    KeptIndex(a, b, r.config.name);
    SyncedMeansExpected(AsKept(a, b), Run(AsKept(a, b), c, steps), r.config.name);
    SameCarried(a, b, r.config.id);
  }

  /** The VLAN when its row is about to be read. */
  lemma BeforeReading(a: Snapshot, b: Snapshot, c: Cache, most: seq<Step>, rest: seq<Step>, r: VlanRow)
    requires Synced(a, c) && WellFormedVlans(b.vlans) && WellFormedVlans(AsKept(a, b).vlans) && OnlyRecreated(a, b)
    requires RecreatedRow(a, b, c, r) && rest != [] && rest[0] == ReadVlan(r.config.name)
    requires Scheduled(most + rest) && MidPass(AsKept(a, b), c, most + rest) && ReadVlan(r.config.name) !in most
    requires forall n :: AddVlan(n) in most ==> n !in VlanIndex(a.vlans)
    ensures var k, n := Run(b, c, most), r.config.name;
      && n in c.vlans && n in k.vlans && k.vlans[n].vid == r.config.id && k.vlans[n].admin == c.vlans[n].admin
      && (k.vlans[n].any <==> Carried(b, r.config.id))
      && (k.vlans[n].op, k.vlans[n].reason) == StateOf(r.config.id, c.vlans[n].admin, k.vlans[n].any)
  {
    var t, n := AsKept(a, b), r.config.name;
    IndexOfRow(b.vlans, r);
    KeptIndex(a, b, n);
    SettledBefore(a, b, c, r);
    PartOfPass(t, c, most, rest, n, c.vlans[n].admin);
    RestScheduled(most, rest);
    FlagWhenRead(t, Run(t, c, most), rest, n);
    SameCarried(a, b, r.config.id);
    RunAlike(a, b, c, c, most);
    KeptUnmarked(a, b, Run(t, c, most), r);
  }

  lemma UnwrittenBefore(a: Snapshot, b: Snapshot, c: Cache, most: seq<Step>, r: VlanRow)
    requires Synced(a, c) && WellFormedVlans(b.vlans) && OnlyRecreated(a, b) && RecreatedRow(a, b, c, r)
    requires ReadVlan(r.config.name) !in most && forall n :: AddVlan(n) in most ==> n !in VlanIndex(a.vlans)
    ensures r.uuid !in Run(b, c, most).db
  {
    RecreatedUnknown(a, b, c, r);
    AllAvoid(b, most, r);
    RunAvoids(b, c, most, r.uuid);
  }

  lemma AdminBefore(a: Snapshot, c: Cache, n: string)
    requires Synced(a, c) && n in VlanIndex(a.vlans)
    ensures n in c.vlans && (c.vlans[n].admin == AdminUp <==> AdminIsUp(VlanIndex(a.vlans)[n].config))
  {
    SyncedMeansExpected(a, c, n);
  }

  lemma Unmarked(b: Snapshot, r: VlanRow, a: Snapshot)
    requires WellFormedVlans(b.vlans) && OnlyRecreated(a, b) && r in b.vlans && r.config.name in VlanIndex(a.vlans)
    requires VlanIndex(a.vlans)[r.config.name].uuid != r.uuid
    ensures !r.config.l3port
  {
    IndexOfRow(b.vlans, r);
  }

  /** What is written when the row is read. */
  lemma WrittenWhenRead(a: Snapshot, b: Snapshot, c: Cache, most: seq<Step>, rest: seq<Step>, r: VlanRow)
    requires Synced(a, c) && WellFormedVlans(b.vlans) && WellFormedVlans(AsKept(a, b).vlans) && OnlyRecreated(a, b)
    requires RecreatedRow(a, b, c, r) && rest != [] && rest[0] == ReadVlan(r.config.name)
    requires Scheduled(most + rest) && MidPass(AsKept(a, b), c, most + rest) && ReadVlan(r.config.name) !in most
    requires forall n :: AddVlan(n) in most ==> n !in VlanIndex(a.vlans)
    ensures r.config.name in Run(b, c, most).vlans
    ensures WrittenIfChanged(a, b, DoReadVlan(b, Run(b, c, most), r.config.name, r), r)
  {
    BeforeReading(a, b, c, most, rest, r);
    UnwrittenBefore(a, b, c, most, r);
    AdminBefore(a, c, r.config.name);
    Unmarked(b, r, a);
    ReadingWrites(b, Run(b, c, most), r.config.name, r, c.vlans[r.config.name].admin);
  }

  lemma RunCons(s: Snapshot, k: Cache, x: Step, rest: seq<Step>)
    ensures Run(s, k, [x] + rest) == Run(s, Apply(s, k, x), rest)
  {
    assert ([x] + rest)[1..] == rest;
  }

  /** Once the row was read, its columns stay for the rest of the pass. */
  lemma WrittenStays(s: Snapshot, k: Cache, x: Step, rest: seq<Step>, uuid: nat)
    requires forall y :: y in rest ==> y.ReadVlan? && Avoids(s, y, uuid)
    ensures SameEntry(Apply(s, k, x).db, Run(s, k, [x] + rest).db, uuid)
  {
    RunCons(s, k, x, rest);
    LaterReads(s, Apply(s, k, x), rest, uuid);
  }

  /** From the reading to the end of the pass. */
  lemma WrittenAtEnd(s: Snapshot, c: Cache, most: seq<Step>, rest: seq<Step>, n: string, uuid: nat)
    requires n in Run(s, c, most).vlans && n in VlanIndex(s.vlans)
    requires forall y :: y in rest ==> y.ReadVlan? && Avoids(s, y, uuid)
    ensures SameEntry(DoReadVlan(s, Run(s, c, most), n, VlanIndex(s.vlans)[n]).db,
                      Run(s, c, most + ([ReadVlan(n)] + rest)).db, uuid)
  {
    var k := Run(s, c, most);
    RunAppend(s, c, most, [ReadVlan(n)] + rest);
    WrittenStays(s, k, ReadVlan(n), rest, uuid);
    assert Apply(s, k, ReadVlan(n)) == DoReadVlan(s, k, n, VlanIndex(s.vlans)[n]);
  }

  lemma RecreatedColumns(a: Snapshot, b: Snapshot, c: Cache, steps: seq<Step>, r: VlanRow)
    requires Synced(a, c) && WellFormedVlans(b.vlans) && Evolves(a, b) && OnlyRecreated(a, b)
    requires IsPass(b, a.seqno, c, steps) && RecreatedRow(a, b, c, r)
    ensures WrittenIfChanged(a, b, Run(b, c, steps), r)
  {
    var n := r.config.name;
    RecreatedIsRead(a, b, c, steps, r);
    var most, rest := SplitPass(steps, n);
    AllAvoid(b, rest, r);
    KeptPass(a, b, c, steps);
    WrittenWhenRead(a, b, c, most, [ReadVlan(n)] + rest, r);
    WrittenAtEnd(b, c, most, rest, n, r.uuid);
  }

  /**
   * VLANs deleted and created again between two passes keep their cache entries, whatever else is in the batch. The
   * new row of one other than VID 1 is given columns, and then the expected ones, exactly if its admin state is not
   * that of the deleted row; otherwise it is not written, though the cache has the expected status. (A port step
   * that comes across such a VLAN follows the handle of the deleted row; here that writes to its identity.)
   */
  lemma RecreatedRowWritten(a: Snapshot, b: Snapshot, c: Cache, steps: seq<Step>, r: VlanRow)
    requires Synced(a, c) && WellFormedVlans(b.vlans) && Evolves(a, b) && OnlyRecreated(a, b)
    requires IsPass(b, a.seqno, c, steps) && RecreatedRow(a, b, c, r)
    ensures WrittenIfChanged(a, b, Run(b, c, steps), r)
    ensures var d, n := Run(b, c, steps), r.config.name;
      n in d.vlans && Columns(d.vlans[n].op == OperUp, d.vlans[n].op, d.vlans[n].reason) == ExpectedStatus(b, r.config)
  {
    RecreatedColumns(a, b, c, steps, r);
    CacheStaysRight(a, b, c, steps, r);
  }
}
