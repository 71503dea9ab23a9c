/**
 * What the daemon's cache and its database columns mean after a pass, whatever the order in
 * which the hash tables were visited, and over any run of passes.
 */
module Reconciliation {
  import opened VlanTypes
  import opened VlanCache
  import opened PassInvariant
  import opened StepLemmas

  // ---- The IDL between two snapshots -----------------------------------------------

  /** Since a, a row that is new or different carries a sequence number above a's; other rows may carry one too. */
  ghost predicate RowsEvolve(a: Snapshot, b: Snapshot) {
    && (forall p :: p in PortIndex(b.ports) ==>
          || PortFlagged(PortIndex(b.ports)[p], a.seqno)
          || (p in PortIndex(a.ports) && PortIndex(a.ports)[p] == PortIndex(b.ports)[p]))
    && (forall n :: n in VlanIndex(b.vlans) ==>
          || VlanFlagged(VlanIndex(b.vlans)[n], a.seqno)
          || (n in VlanIndex(a.vlans) && VlanIndex(a.vlans)[n] == VlanIndex(b.vlans)[n]))
  }

  /** b is a later state of the replica than a, and a port that entered or left a bridge is flagged as well. */
  ghost predicate Evolves(a: Snapshot, b: Snapshot) {
    && a.seqno <= b.seqno
    && (a.seqno == b.seqno ==> a == b)
    && RowsEvolve(a, b)
    && (forall p :: p in PortIndex(b.ports) && !PortFlagged(PortIndex(b.ports)[p], a.seqno) ==>
          (InBridge(a, p) <==> InBridge(b, p)))
  }

  /** Rows of a and b that share name, id or identity are the same VLAN: none was replaced. */
  ghost predicate NoneReplaced(a: Snapshot, b: Snapshot) {
    forall n, m :: n in VlanIndex(a.vlans) && m in VlanIndex(b.vlans) ==>
      var x, y := VlanIndex(a.vlans)[n], VlanIndex(b.vlans)[m];
      n == m || x.config.id == y.config.id || x.uuid == y.uuid ==>
        n == m && x.config.id == y.config.id && x.uuid == y.uuid
  }

  lemma RowsEvolveTransitive(a: Snapshot, b: Snapshot, c: Snapshot)
    requires RowsEvolve(a, b) && RowsEvolve(b, c) && a.seqno <= b.seqno
    ensures RowsEvolve(a, c)
  {
    forall p | p in PortIndex(c.ports) && !PortFlagged(PortIndex(c.ports)[p], a.seqno)
      ensures p in PortIndex(a.ports) && PortIndex(a.ports)[p] == PortIndex(c.ports)[p]
    {
      assert !PortFlagged(PortIndex(c.ports)[p], b.seqno);
    }
    forall n | n in VlanIndex(c.vlans) && !VlanFlagged(VlanIndex(c.vlans)[n], a.seqno)
      ensures n in VlanIndex(a.vlans) && VlanIndex(a.vlans)[n] == VlanIndex(c.vlans)[n]
    {
      assert !VlanFlagged(VlanIndex(c.vlans)[n], b.seqno);
    }
  }

  lemma EvolvesTransitive(a: Snapshot, b: Snapshot, c: Snapshot)
    requires Evolves(a, b) && Evolves(b, c)
    ensures Evolves(a, c)
  {
    RowsEvolveTransitive(a, b, c);
    forall p | p in PortIndex(c.ports) && !PortFlagged(PortIndex(c.ports)[p], a.seqno)
      ensures InBridge(a, p) <==> InBridge(c, p)
    {
      assert !PortFlagged(PortIndex(c.ports)[p], b.seqno);
      assert PortIndex(b.ports)[p] == PortIndex(c.ports)[p];
    }
  }

  // ---- The start of a pass -----------------------------------------------------------

  lemma PassBeginsPortNames(a: Snapshot, b: Snapshot, c: Cache, steps: seq<Step>)
    requires PortsKnown(a, c, []) && RowsEvolve(a, b) && IsPass(b, a.seqno, c, steps)
    ensures PortsKnown(b, c, steps)
  {
  }

  lemma PassBeginsPorts(a: Snapshot, b: Snapshot, c: Cache, steps: seq<Step>)
    requires PortsKnown(a, c, []) && PortsParsed(a, c, []) && Evolves(a, b) && IsPass(b, a.seqno, c, steps)
    ensures PortsKnown(b, c, steps) && PortsParsed(b, c, steps)
  {
    PassBeginsPortNames(a, b, c, steps);
  }

  lemma PassBeginsVlans(a: Snapshot, b: Snapshot, c: Cache, steps: seq<Step>)
    requires VlansKnown(a, c, []) && RowsEvolve(a, b) && NoneReplaced(a, b) && IsPass(b, a.seqno, c, steps)
    ensures VlansKnown(b, c, steps)
  {
    forall n | n in c.vlans ensures n in VlanIndex(a.vlans) {}
  }

  lemma MemberEither(a: Snapshot, b: Snapshot, c: Cache, vid: int)
    requires forall p :: p in c.ports ==> (IsMember(a, c.ports, p, vid) <==> IsMember(b, c.ports, p, vid))
    ensures AnyMember(a, c.ports, vid) ==> AnyMember(b, c.ports, vid)
  {
    if AnyMember(a, c.ports, vid) {
      var p :| p in c.ports && IsMember(a, c.ports, p, vid);
      assert IsMember(b, c.ports, p, vid);
    }
  }

  lemma PassBeginsMembers(a: Snapshot, b: Snapshot, c: Cache, steps: seq<Step>)
    requires VlansKnown(a, c, []) && MembersKnown(a, c, []) && VidsKnown(c) && Spreadless(c)
    requires forall p :: p in c.ports && !Pending(steps, p) ==> (InBridge(a, p) <==> InBridge(b, p))
    ensures MembersKnown(b, c, steps)
  {
    forall n | n in c.vlans && n in VlanIndex(b.vlans)
      ensures FreshMember(b, c.ports, c.vlans[n]) || AwaitsPort(c, steps, c.vlans[n].vid)
    {
      var vid := c.vlans[n].vid;
      assert FreshMember(a, c.ports, c.vlans[n]);
      if !AwaitsPort(c, steps, vid) {
        forall p | p in c.ports ensures IsMember(a, c.ports, p, vid) <==> IsMember(b, c.ports, p, vid) {
          if c.ports[p].trunkAll || vid in c.ports[p].bits {
            assert vid in c.ports[p].bits && !Pending(steps, p);
          }
        }
        assert AnyMember(a, c.ports, vid) <==> AnyMember(b, c.ports, vid) by {
          MemberEither(a, b, c, vid);
          MemberEither(b, a, c, vid);
        }
      }
    }
  }

  lemma PassBeginsStates(a: Snapshot, b: Snapshot, c: Cache, steps: seq<Step>)
    requires WellFormedVlans(a.vlans) && WellFormedVlans(b.vlans)
    requires VlansKnown(a, c, []) && StatesKnown(a, c, []) && RowsEvolve(a, b) && IsPass(b, a.seqno, c, steps)
    ensures StatesKnown(b, c, steps)
  {
    forall n | n in c.vlans && n in VlanIndex(b.vlans) && ReadVlan(n) !in steps
      ensures (c.vlans[n].admin == AdminUp <==> AdminIsUp(VlanIndex(b.vlans)[n].config)) && Settled(b, c.vlans[n])
    {
      var r := VlanIndex(b.vlans)[n];
      assert n in VlanIndex(a.vlans) && VlanIndex(a.vlans)[n] == r;
      MarkOfRow(a, r);
      MarkOfRow(b, r);
    }
  }

  lemma PassBegins(a: Snapshot, b: Snapshot, c: Cache, steps: seq<Step>)
    requires Synced(a, c) && WellFormedVlans(b.vlans)
    requires Evolves(a, b) && NoneReplaced(a, b) && IsPass(b, a.seqno, c, steps)
    ensures MidPass(b, c, steps)
  {
    PassBeginsPorts(a, b, c, steps);
    PassBeginsVlans(a, b, c, steps);
    assert forall p :: p in c.ports && !Pending(steps, p) ==> (InBridge(a, p) <==> InBridge(b, p)) by {
      assert PortsKnown(a, c, []);
    }
    PassBeginsMembers(a, b, c, steps);
    PassBeginsStates(a, b, c, steps);
  }

  lemma {:induction false} MidPassToEnd(s: Snapshot, c: Cache, steps: seq<Step>)
    requires WellFormedVlans(s.vlans) && Scheduled(steps) && MidPass(s, c, steps)
    ensures Synced(s, Run(s, c, steps))
    decreases |steps|
  {
    if steps == [] {
    } else {
      StepKeepsMidPass(s, c, steps);
      MidPassToEnd(s, Apply(s, c, steps[0]), steps[1..]);
    }
  }

  /** One pass, in any order of visiting, brings the cache from one snapshot to the next. */
  lemma PassRefines(a: Snapshot, b: Snapshot, c: Cache, steps: seq<Step>)
    requires Synced(a, c) && WellFormedVlans(b.vlans)
    requires Evolves(a, b) && NoneReplaced(a, b) && IsPass(b, a.seqno, c, steps)
    ensures Synced(b, Run(b, c, steps))
  {
    PassBegins(a, b, c, steps);
    MidPassToEnd(b, c, steps);
  }

  // ---- What being in sync means --------------------------------------------------------

  ghost predicate CarriedBy(s: Snapshot, p: string, vid: int) {
    && p in PortIndex(s.ports) && p != DEFAULT_BRIDGE_NAME && InBridge(s, p)
    && Carries(PortIndex(s.ports)[p].config, vid)
  }

  /** From the rows alone: some port in a bridge is a member of the VLAN. */
  ghost predicate Carried(s: Snapshot, vid: int) {
    exists p :: CarriedBy(s, p, vid)
  }

  /** From the rows alone: the status the design document gives a VLAN. */
  ghost function ExpectedStatus(s: Snapshot, k: VlanConfig): Columns {
    if !AdminIsUp(k) then Columns(false, OperDown, ReasonAdminDown)
    else if !Carried(s, k.id) then Columns(false, OperDown, ReasonNoMemberPort)
    else Columns(true, OperUp, ReasonOk)
  }

  lemma MemberIffCarries(s: Snapshot, c: Cache, p: string, vid: int)
    requires PortsKnown(s, c, []) && PortsParsed(s, c, []) && vid in c.allVids && ValidVid(vid) && p in c.ports
    ensures IsMember(s, c.ports, p, vid) <==> CarriedBy(s, p, vid)
  {
    var k := PortIndex(s.ports)[p].config;
    assert Parsed(k, InBridge(s, p), c.allVids, c.ports[p]);
  }

  lemma AnyMemberIffCarried(s: Snapshot, c: Cache, vid: int)
    requires PortsKnown(s, c, []) && PortsParsed(s, c, []) && vid in c.allVids && ValidVid(vid)
    ensures AnyMember(s, c.ports, vid) <==> Carried(s, vid)
  {
    if AnyMember(s, c.ports, vid) {
      var p :| p in c.ports && IsMember(s, c.ports, p, vid);
      MemberIffCarries(s, c, p, vid);
    }
    if Carried(s, vid) {
      var p :| CarriedBy(s, p, vid);
      MemberIffCarries(s, c, p, vid);
    }
  }

  /**
   * In sync, every VLAN of the table is cached with its admin state; other than VID 1, its member
   * flag is right; and unless marked L3PORT, its state and its three columns are the expected ones.
   */
  lemma SyncedMeansExpected(s: Snapshot, c: Cache, n: string)
    requires Synced(s, c) && n in VlanIndex(s.vlans)
    ensures n in c.vlans
    ensures var r, v := VlanIndex(s.vlans)[n], c.vlans[n];
      && v.row == r.uuid && v.vid == r.config.id
      && (v.vid != DEFAULT_VID ==> (v.any <==> Carried(s, v.vid)))
      && (v.admin == AdminUp <==> AdminIsUp(r.config))
      && (v.vid != DEFAULT_VID && !r.config.l3port ==>
            && Columns(v.op == OperUp, v.op, v.reason) == ExpectedStatus(s, r.config)
            && v.row in c.db && c.db[v.row] == ExpectedStatus(s, r.config))
  {
    var r := VlanIndex(s.vlans)[n];
    MarkOfRow(s, r);
    AnyMemberIffCarried(s, c, c.vlans[n].vid);
    assert Written(c, c.vlans[n]);
  }

  /** VID 1 is always up and enabled, and its member flag is never missing a port. */
  lemma SyncedMeansDefaultUp(s: Snapshot, c: Cache, n: string)
    requires Synced(s, c) && n in VlanIndex(s.vlans) && VlanIndex(s.vlans)[n].config.id == DEFAULT_VID
    ensures n in c.vlans
    ensures Carried(s, DEFAULT_VID) ==> c.vlans[n].any
    ensures var r, v := VlanIndex(s.vlans)[n], c.vlans[n];
      !r.config.l3port ==>
        && v.op == OperUp && v.row in c.db && c.db[v.row] == Columns(true, OperUp, v.reason)
        && v.reason == (if !AdminIsUp(r.config) then ReasonAdminDown
                        else if !v.any then ReasonNoMemberPort else ReasonOk)
  {
    var r := VlanIndex(s.vlans)[n];
    MarkOfRow(s, r);
    AnyMemberIffCarried(s, c, c.vlans[n].vid);
    assert Written(c, c.vlans[n]);
  }

  lemma ExactVlanNames(s: Snapshot, c: Cache)
    requires VlanNames(s, c, [])
    ensures c.vlans.Keys == VlanIndex(s.vlans).Keys
  {
  }

  lemma ExactPortNames(s: Snapshot, c: Cache)
    requires PortsKnown(s, c, [])
    ensures c.ports.Keys == PortIndex(s.ports).Keys - {DEFAULT_BRIDGE_NAME}
  {
  }

  lemma BitHasRow(s: Snapshot, c: Cache, x: int)
    requires VlanNames(s, c, []) && VlanHandles(s, c) && VidsKnown(c) && x in c.allVids
    ensures exists r :: r in s.vlans && r.config.id == x
  {
    var n :| n in c.vlans && c.vlans[n].vid == x;
    assert VlanIndex(s.vlans)[n] in s.vlans;
  }

  lemma TableRowHasBit(s: Snapshot, c: Cache, r: VlanRow)
    requires WellFormedVlans(s.vlans) && VlanNames(s, c, []) && VlanHandles(s, c) && VidsKnown(c) && r in s.vlans
    ensures r.config.id in c.allVids
  {
    IndexOfRow(s.vlans, r);
    assert r.config.name in c.vlans;
  }

  lemma ExactBits(s: Snapshot, c: Cache)
    requires WellFormedVlans(s.vlans) && VlanNames(s, c, []) && VlanHandles(s, c) && VidsKnown(c)
    ensures c.allVids == set r | r in s.vlans :: r.config.id
  {
    forall x | x in c.allVids ensures exists r :: r in s.vlans && r.config.id == x {
      BitHasRow(s, c, x);
    }
    forall r | r in s.vlans ensures r.config.id in c.allVids {
      TableRowHasBit(s, c, r);
    }
  }

  /** The global bitmap is exactly the ids of the table; the cache holds no other VLAN and no other port. */
  lemma SyncedMeansExactTables(s: Snapshot, c: Cache)
    requires Synced(s, c)
    ensures c.allVids == set r | r in s.vlans :: r.config.id
    ensures c.vlans.Keys == VlanIndex(s.vlans).Keys
    ensures c.ports.Keys == PortIndex(s.ports).Keys - {DEFAULT_BRIDGE_NAME}
  {
    ExactBits(s, c);
    ExactVlanNames(s, c);
    ExactPortNames(s, c);
  }

  /** Bitmaps after a pass: exact, or between the VLAN table and the VLAN table plus the native VLAN. */
  lemma SyncedMeansBitmaps(s: Snapshot, c: Cache, p: string)
    requires Synced(s, c) && p in c.ports
    ensures p in PortIndex(s.ports)
    ensures var k, e := PortIndex(s.ports)[p].config, c.ports[p];
      && (!TrunksAll(k) ==> e.bits == TrunkBits(k) + NativeBits(k))
      && (TrunksAll(k) && InBridge(s, p) ==> c.allVids <= e.bits <= c.allVids + NativeBits(k))
  {
    assert PortsKnown(s, c, []);
    assert Parsed(PortIndex(s.ports)[p].config, InBridge(s, p), c.allVids, c.ports[p]);
  }
}
