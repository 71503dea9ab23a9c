/** Every step of a pass keeps the invariant of the pass. */
module StepLemmas {
  import opened VlanTypes
  import opened VlanCache
  import opened PassInvariant

  lemma HeadAndTail(steps: seq<Step>)
    requires steps != [] && Scheduled(steps)
    ensures forall b :: b in steps <==> b == steps[0] || b in steps[1..]
    ensures steps[0] !in steps[1..] && Scheduled(steps[1..])
    ensures forall b :: b in steps[1..] ==> Phase(b) >= Phase(steps[0])
  {
    assert steps == [steps[0]] + steps[1..];
    forall b | b in steps[1..] ensures Phase(b) >= Phase(steps[0]) {
      var i :| 0 <= i < |steps[1..]| && steps[1..][i] == b;
      assert steps[i + 1] == b;
    }
  }

  lemma IndexOfRow(rows: seq<VlanRow>, r: VlanRow)
    requires WellFormedVlans(rows) && r in rows
    ensures r.config.name in VlanIndex(rows) && VlanIndex(rows)[r.config.name] == r
  {
  }

  lemma SameIdSameRow(rows: seq<VlanRow>, q: VlanRow, r: VlanRow)
    requires WellFormedVlans(rows) && q in rows && r in rows
    requires q.config.id == r.config.id || q.uuid == r.uuid || q.config.name == r.config.name
    ensures q == r
  {
  }

  lemma HandleAgrees(s: Snapshot, c: Cache, n: string, r: VlanRow)
    requires WellFormedVlans(s.vlans) && VlanHandles(s, c)
    requires n in c.vlans && r in s.vlans && r.config.id == c.vlans[n].vid
    ensures r.uuid == c.vlans[n].row
  {
    IndexOfRow(s.vlans, r);
    if n in VlanIndex(s.vlans) {
      SameIdSameRow(s.vlans, VlanIndex(s.vlans)[n], r);
    }
  }

  lemma HandlesAgree(s: Snapshot, c: Cache)
    requires WellFormedVlans(s.vlans) && VlanHandles(s, c)
    ensures HandlesMatch(s, c)
  {
    forall n, r | n in c.vlans && r in s.vlans && r.config.id == c.vlans[n].vid ensures r.uuid == c.vlans[n].row {
      HandleAgrees(s, c, n, r);
    }
  }

  // ---- What re-evaluation keeps ----------------------------------------------------

  lemma KeepsVlansKnown(s: Snapshot, c: Cache, d: Cache, vids: iset<int>, rest: seq<Step>)
    requires Reevaluated(s, c, d, vids) && VlansKnown(s, c, rest)
    ensures VlansKnown(s, d, rest)
  {
    forall n | n in c.vlans ensures d.vlans[n].row == c.vlans[n].row && d.vlans[n].vid == c.vlans[n].vid {
      assert ReevaluatedVlan(s, c, c.vlans[n], d, d.vlans[n], vids);
    }
  }

  lemma KeepsStatesKnown(s: Snapshot, c: Cache, d: Cache, vids: iset<int>, rest: seq<Step>)
    requires Reevaluated(s, c, d, vids) && StatesKnown(s, c, rest)
    ensures StatesKnown(s, d, rest)
  {
    forall n | n in c.vlans ensures ReevaluatedVlan(s, c, c.vlans[n], d, d.vlans[n], vids) {}
  }

  lemma MakesMembersKnown(s: Snapshot, c: Cache, d: Cache, vids: iset<int>, rest: seq<Step>)
    requires Reevaluated(s, c, d, vids)
    requires forall n :: n in c.vlans && n in VlanIndex(s.vlans) ==>
      c.vlans[n].vid in vids || FreshMember(s, c.ports, c.vlans[n]) || AwaitsPort(c, rest, c.vlans[n].vid)
    ensures MembersKnown(s, d, rest)
  {
    forall n | n in d.vlans && n in VlanIndex(s.vlans)
      ensures FreshMember(s, d.ports, d.vlans[n]) || AwaitsPort(d, rest, d.vlans[n].vid)
    {
      assert ReevaluatedVlan(s, c, c.vlans[n], d, d.vlans[n], vids);
      if !FreshMember(s, d.ports, d.vlans[n]) {
        var p :| p in c.ports && Pending(rest, p) && c.vlans[n].vid in c.ports[p].bits;
        assert p in d.ports && d.vlans[n].vid in d.ports[p].bits;
      }
    }
  }

  // ---- Ports -------------------------------------------------------------------------

  /** Ports other than p decide whether v has a member, when p does not carry v. */
  lemma MembershipWithout(s: Snapshot, a: map<string, PortEntry>, b: map<string, PortEntry>, p: string, vid: int)
    requires a - {p} == b - {p}
    requires p in a ==> !IsMember(s, a, p, vid)
    requires p in b ==> !IsMember(s, b, p, vid)
    ensures AnyMember(s, a, vid) <==> AnyMember(s, b, vid)
  {
    forall q | q != p ensures q in a <==> q in b {
      assert q in a - {p} <==> q in a;
      assert q in b - {p} <==> q in b;
    }
    forall q | q != p && q in a ensures a[q] == b[q] {
      assert (a - {p})[q] == (b - {p})[q];
    }
    if AnyMember(s, a, vid) {
      var q :| q in a && IsMember(s, a, q, vid);
      assert q in b && IsMember(s, b, q, vid);
    }
    if AnyMember(s, b, vid) {
      var q :| q in b && IsMember(s, b, q, vid);
      assert q in a && IsMember(s, a, q, vid);
    }
  }

  /** After p's bitmap changed from a to b, a VLAN in neither keeps its standing. */
  lemma StandingWithout(s: Snapshot, c: Cache, d: Cache, p: string, steps: seq<Step>, rest: seq<Step>, n: string)
    requires n in c.vlans && c.vlans == d.vlans && c.vlans[n].vid in c.allVids
    requires c.ports - {p} == d.ports - {p}
    requires p in c.ports && Spreadless(c) && c.vlans[n].vid !in c.ports[p].bits
    requires p in d.ports ==> !IsMember(s, d.ports, p, c.vlans[n].vid)
    requires forall q :: q != p && Pending(steps, q) ==> Pending(rest, q)
    requires FreshMember(s, c.ports, c.vlans[n]) || AwaitsPort(c, steps, c.vlans[n].vid)
    ensures FreshMember(s, d.ports, d.vlans[n]) || AwaitsPort(d, rest, d.vlans[n].vid)
  {
    var vid := c.vlans[n].vid;
    MembershipWithout(s, c.ports, d.ports, p, vid);
    if !FreshMember(s, c.ports, c.vlans[n]) {
      var q :| q in c.ports && Pending(steps, q) && vid in c.ports[q].bits;
      assert q in c.ports - {p} && (c.ports - {p})[q] == (d.ports - {p})[q];
      assert q in d.ports && Pending(rest, q) && vid in d.ports[q].bits;
    }
  }

  lemma PortStepPending(steps: seq<Step>, p: string)
    requires steps != [] && Scheduled(steps) && (steps[0] == DropPort(p) || steps[0] == ReadPort(p))
    ensures forall q :: q != p && Pending(steps, q) ==> Pending(steps[1..], q)
    ensures forall q :: Pending(steps[1..], q) ==> Pending(steps, q)
    ensures steps[0] == ReadPort(p) ==> !Pending(steps[1..], p)
  {
    HeadAndTail(steps);
  }

  lemma PortTail(steps: seq<Step>)
    requires steps != [] && Scheduled(steps)
    ensures forall p :: DropPort(p) in steps[1..] <==> DropPort(p) in steps && steps[0] != DropPort(p)
    ensures forall p :: AddPort(p) in steps[1..] <==> AddPort(p) in steps && steps[0] != AddPort(p)
    ensures forall p :: ReadPort(p) in steps[1..] <==> ReadPort(p) in steps && steps[0] != ReadPort(p)
  {
    HeadAndTail(steps);
  }

  lemma VlanTail(steps: seq<Step>)
    requires steps != [] && Scheduled(steps)
    ensures forall n :: DropVlan(n) in steps[1..] <==> DropVlan(n) in steps && steps[0] != DropVlan(n)
    ensures forall n :: AddVlan(n) in steps[1..] <==> AddVlan(n) in steps && steps[0] != AddVlan(n)
    ensures forall n :: ReadVlan(n) in steps[1..] <==> ReadVlan(n) in steps && steps[0] != ReadVlan(n)
  {
    HeadAndTail(steps);
  }

  lemma PortStepLeavesVlanSteps(steps: seq<Step>)
    requires steps != [] && Scheduled(steps) && Phase(steps[0]) <= 2
    ensures forall n :: DropVlan(n) in steps[1..] <==> DropVlan(n) in steps
    ensures forall n :: AddVlan(n) in steps[1..] <==> AddVlan(n) in steps
    ensures forall n :: ReadVlan(n) in steps[1..] <==> ReadVlan(n) in steps
  {
    VlanTail(steps);
  }

  lemma PortStepNames(s: Snapshot, c: Cache, d: Cache, steps: seq<Step>)
    requires steps != [] && Scheduled(steps) && Phase(steps[0]) <= 2
    requires VlanNames(s, c, steps) && c.vlans == d.vlans
    ensures VlanNames(s, d, steps[1..])
  {
    PortStepLeavesVlanSteps(steps);
  }

  lemma PortStepStates(s: Snapshot, c: Cache, d: Cache, steps: seq<Step>)
    requires steps != [] && Scheduled(steps) && Phase(steps[0]) <= 2
    requires StatesKnown(s, c, steps) && c.vlans == d.vlans
    ensures StatesKnown(s, d, steps[1..])
  {
    PortStepLeavesVlanSteps(steps);
  }

  lemma PortStepVlans(s: Snapshot, c: Cache, d: Cache, steps: seq<Step>)
    requires steps != [] && Scheduled(steps) && Phase(steps[0]) <= 2
    requires VlansKnown(s, c, steps) && StatesKnown(s, c, steps) && c.vlans == d.vlans
    ensures VlansKnown(s, d, steps[1..]) && StatesKnown(s, d, steps[1..])
  {
    PortStepNames(s, c, d, steps);
    PortStepStates(s, c, d, steps);
  }

  /** One port step: d has the ports of the step done, e is d with some VLANs re-evaluated. */
  lemma PortStepKeeps(s: Snapshot, c: Cache, d: Cache, e: Cache, vids: iset<int>, steps: seq<Step>)
    requires steps != [] && Scheduled(steps) && Phase(steps[0]) <= 2
    requires MidPass(s, c, steps) && d == c.(ports := d.ports)
    requires PortsKnown(s, d, steps[1..]) && PortsParsed(s, d, steps[1..])
    requires Ready(e) && Reevaluated(s, d, e, vids)
    requires forall n :: n in d.vlans && n in VlanIndex(s.vlans) ==>
      d.vlans[n].vid in vids || FreshMember(s, d.ports, d.vlans[n]) || AwaitsPort(d, steps[1..], d.vlans[n].vid)
    ensures MidPass(s, e, steps[1..])
  {
    PortStepVlans(s, c, d, steps);
    KeepsVlansKnown(s, d, e, vids, steps[1..]);
    KeepsStatesKnown(s, d, e, vids, steps[1..]);
    MakesMembersKnown(s, d, e, vids, steps[1..]);
  }

  lemma DropPortPorts(s: Snapshot, c: Cache, d: Cache, steps: seq<Step>, p: string)
    requires steps != [] && Scheduled(steps) && steps[0] == DropPort(p)
    requires PortsKnown(s, c, steps) && PortsParsed(s, c, steps)
    requires d == c.(ports := c.ports - {p})
    ensures PortsKnown(s, d, steps[1..]) && PortsParsed(s, d, steps[1..])
  {
    PortTail(steps);
    assert AddPort(p) !in steps;
    forall q | q in d.ports ensures q in c.ports && q != p && d.ports[q] == c.ports[q] {}
  }

  lemma CarriedNoLonger(s: Snapshot, c: Cache, d: Cache, steps: seq<Step>, p: string, bits: set<int>)
    requires steps != [] && Scheduled(steps) && (steps[0] == DropPort(p) || steps[0] == ReadPort(p))
    requires MembersKnown(s, c, steps) && Spreadless(c) && VidsKnown(c)
    requires p in c.ports && c.ports[p].bits <= bits && d == c.(ports := d.ports)
    requires c.ports - {p} == d.ports - {p}
    requires p in d.ports ==> d.ports[p].bits <= bits && (d.ports[p].trunkAll ==> c.allVids <= bits)
    ensures forall n :: n in d.vlans && n in VlanIndex(s.vlans) && d.vlans[n].vid !in bits ==>
      FreshMember(s, d.ports, d.vlans[n]) || AwaitsPort(d, steps[1..], d.vlans[n].vid)
  {
    PortStepPending(steps, p);
    forall n | n in d.vlans && n in VlanIndex(s.vlans) && d.vlans[n].vid !in bits
      ensures FreshMember(s, d.ports, d.vlans[n]) || AwaitsPort(d, steps[1..], d.vlans[n].vid)
    {
      StandingWithout(s, c, d, p, steps, steps[1..], n);
    }
  }

  lemma DropPortKeeps(s: Snapshot, c: Cache, steps: seq<Step>, p: string)
    requires WellFormedVlans(s.vlans) && MidPass(s, c, steps)
    requires steps != [] && Scheduled(steps) && steps[0] == DropPort(p)
    ensures p in c.ports && MidPass(s, DoDropPort(s, c, p), steps[1..])
    ensures Reevaluated(s, c.(ports := c.ports - {p}), DoDropPort(s, c, p), Below(c.ports[p].bits, VLAN_BITMAP_SIZE))
  {
    assert p in c.ports by { HeadAndTail(steps); }
    var bits := c.ports[p].bits;
    var d := c.(ports := c.ports - {p});
    var vids := Below(bits, VLAN_BITMAP_SIZE);
    DropPortPorts(s, c, d, steps, p);
    assert Ready(d);
    RefreshBitsEffect(s, d, bits, VLAN_BITMAP_SIZE);
    assert c.ports - {p} == d.ports - {p};
    CarriedNoLonger(s, c, d, steps, p, bits);
    assert forall b :: b in bits ==> b in vids;
    PortStepKeeps(s, c, d, RefreshBits(s, d, bits, VLAN_BITMAP_SIZE), vids, steps);
  }

  lemma AddPortPorts(s: Snapshot, c: Cache, d: Cache, steps: seq<Step>, p: string)
    requires steps != [] && Scheduled(steps) && steps[0] == AddPort(p)
    requires PortsKnown(s, c, steps) && PortsParsed(s, c, steps)
    requires d == c.(ports := c.ports[p := NewPortEntry()])
    ensures p !in c.ports && PortsKnown(s, d, steps[1..]) && PortsParsed(s, d, steps[1..])
    ensures forall q :: Pending(steps, q) ==> Pending(steps[1..], q)
  {
    PortTail(steps);
    assert ReadPort(p) in steps[1..];
    assert Pending(steps[1..], p);
    forall q | Pending(steps[1..], q) ensures Pending(steps, q) {}
  }

  lemma AddPortStanding(s: Snapshot, c: Cache, d: Cache, steps: seq<Step>, p: string)
    requires steps != [] && MembersKnown(s, c, steps) && p !in c.ports
    requires d == c.(ports := c.ports[p := NewPortEntry()])
    requires forall q :: Pending(steps, q) ==> Pending(steps[1..], q)
    ensures MembersKnown(s, d, steps[1..])
  {
    assert c.ports - {p} == d.ports - {p};
    forall n | n in d.vlans && n in VlanIndex(s.vlans)
      ensures FreshMember(s, d.ports, d.vlans[n]) || AwaitsPort(d, steps[1..], d.vlans[n].vid)
    {
      MembershipWithout(s, c.ports, d.ports, p, d.vlans[n].vid);
      if !FreshMember(s, c.ports, c.vlans[n]) {
        var q :| q in c.ports && Pending(steps, q) && c.vlans[n].vid in c.ports[q].bits;
        assert q in d.ports && Pending(steps[1..], q) && d.vlans[n].vid in d.ports[q].bits;
      }
    }
  }

  lemma AddPortKeeps(s: Snapshot, c: Cache, steps: seq<Step>, p: string)
    requires WellFormedVlans(s.vlans) && MidPass(s, c, steps)
    requires steps != [] && Scheduled(steps) && steps[0] == AddPort(p)
    ensures p !in c.ports && MidPass(s, c.(ports := c.ports[p := NewPortEntry()]), steps[1..])
  {
    var d := c.(ports := c.ports[p := NewPortEntry()]);
    AddPortPorts(s, c, d, steps, p);
    AddPortStanding(s, c, d, steps, p);
    PortStepVlans(s, c, d, steps);
  }

  lemma ParsePortParses(k: PortConfig, allVids: set<int>, inBridge: bool)
    requires InRange(allVids)
    ensures var e := ParsePort(k, allVids, inBridge);
      Parsed(k, inBridge, allVids, e) && InRange(e.bits) && (e.trunkAll ==> allVids <= e.bits)
  {
  }

  lemma ReadPortPorts(s: Snapshot, c: Cache, d: Cache, steps: seq<Step>, p: string)
    requires steps != [] && Scheduled(steps) && steps[0] == ReadPort(p)
    requires PortsKnown(s, c, steps) && PortsParsed(s, c, steps) && InRange(c.allVids)
    requires p in PortIndex(s.ports)
    requires d == c.(ports := c.ports[p := ParsePort(PortIndex(s.ports)[p].config, c.allVids, InBridge(s, p))])
    ensures p in c.ports && PortsKnown(s, d, steps[1..]) && PortsParsed(s, d, steps[1..])
  {
    PortTail(steps);
    ParsePortParses(PortIndex(s.ports)[p].config, c.allVids, InBridge(s, p));
    assert AddPort(p) !in steps;
  }

  lemma ReadPortStanding(s: Snapshot, c: Cache, d: Cache, steps: seq<Step>, bits: set<int>)
    requires VlansKnown(s, c, steps) && d.vlans == c.vlans && InRange(bits)
    ensures forall n :: n in d.vlans && n in VlanIndex(s.vlans) && d.vlans[n].vid in bits ==>
      d.vlans[n].vid in Below(Defined(s, bits), VLAN_BITMAP_SIZE)
  {
    forall n | n in d.vlans && n in VlanIndex(s.vlans) && d.vlans[n].vid in bits
      ensures d.vlans[n].vid in Below(Defined(s, bits), VLAN_BITMAP_SIZE)
    {
      assert VlanIndex(s.vlans)[n] in s.vlans;
      assert RowHas(s, d.vlans[n].vid, |s.vlans|);
    }
  }

  lemma ReadPortReady(s: Snapshot, c: Cache, d: Cache, steps: seq<Step>, rest: seq<Step>)
    requires WellFormedVlans(s.vlans) && MidPass(s, c, steps)
    requires d == c.(ports := d.ports) && PortsParsed(s, d, rest)
    ensures Ready(d) && HandlesMatch(s, d)
  {
    HandlesAgree(s, c);
  }

  lemma ReadPortMembers(s: Snapshot, c: Cache, d: Cache, steps: seq<Step>, p: string, e: PortEntry)
    requires steps != [] && Scheduled(steps) && steps[0] == ReadPort(p)
    requires MembersKnown(s, c, steps) && Spreadless(c) && VidsKnown(c) && VlansKnown(s, c, steps)
    requires p in c.ports && d == c.(ports := c.ports[p := e])
    requires InRange(c.ports[p].bits) && InRange(e.bits) && (e.trunkAll ==> c.allVids <= e.bits)
    ensures forall n :: n in d.vlans && n in VlanIndex(s.vlans) ==>
      || d.vlans[n].vid in Below(Defined(s, c.ports[p].bits + e.bits), VLAN_BITMAP_SIZE)
      || FreshMember(s, d.ports, d.vlans[n])
      || AwaitsPort(d, steps[1..], d.vlans[n].vid)
  {
    var bits := c.ports[p].bits + e.bits;
    assert c.ports - {p} == d.ports - {p};
    CarriedNoLonger(s, c, d, steps, p, bits);
    ReadPortStanding(s, c, d, steps, bits);
  }

  lemma ReadPortKeeps(s: Snapshot, c: Cache, steps: seq<Step>, p: string)
    requires WellFormedVlans(s.vlans) && MidPass(s, c, steps)
    requires steps != [] && Scheduled(steps) && steps[0] == ReadPort(p)
    ensures p in c.ports && p in PortIndex(s.ports)
    ensures MidPass(s, DoReadPort(s, c, p, PortIndex(s.ports)[p].config), steps[1..])
    ensures var e := ParsePort(PortIndex(s.ports)[p].config, c.allVids, InBridge(s, p));
      Reevaluated(s, c.(ports := c.ports[p := e]), DoReadPort(s, c, p, PortIndex(s.ports)[p].config),
                  Below(Defined(s, c.ports[p].bits + e.bits), VLAN_BITMAP_SIZE))
  {
    assert p in PortIndex(s.ports) by { HeadAndTail(steps); }
    var e := ParsePort(PortIndex(s.ports)[p].config, c.allVids, InBridge(s, p));
    var d := c.(ports := c.ports[p := e]);
    ReadPortPorts(s, c, d, steps, p);
    var bits := c.ports[p].bits + e.bits;
    var vids := Below(Defined(s, bits), VLAN_BITMAP_SIZE);
    ReadPortReady(s, c, d, steps, steps[1..]);
    ScanBitsEffect(s, d, bits, VLAN_BITMAP_SIZE);
    ReadPortMembers(s, c, d, steps, p, e);
    var f := ScanBits(s, d, bits, VLAN_BITMAP_SIZE);
    PortStepKeeps(s, c, d, f, vids, steps);
    assert f == DoReadPort(s, c, p, PortIndex(s.ports)[p].config);
  }

  // ---- VLANs -------------------------------------------------------------------------

  /** Once VLAN work has begun, no port step is left, so every member flag is up to date. */
  lemma NoPortWorkLeft(steps: seq<Step>)
    requires steps != [] && Scheduled(steps) && Phase(steps[0]) >= 3
    ensures forall p :: DropPort(p) !in steps && AddPort(p) !in steps && ReadPort(p) !in steps && !Pending(steps, p)
    ensures forall p :: DropPort(p) !in steps[1..] && AddPort(p) !in steps[1..] && ReadPort(p) !in steps[1..]
    ensures forall p :: !Pending(steps[1..], p)
  {
    HeadAndTail(steps);
  }

  lemma VlanStepPorts(s: Snapshot, c: Cache, steps: seq<Step>)
    requires steps != [] && Scheduled(steps) && Phase(steps[0]) >= 3
    requires PortsKnown(s, c, steps) && MembersKnown(s, c, steps)
    ensures PortsKnown(s, c, steps[1..])
    ensures forall n :: n in c.vlans && n in VlanIndex(s.vlans) ==> FreshMember(s, c.ports, c.vlans[n])
  {
    NoPortWorkLeft(steps);
  }

  lemma SameMembership(s: Snapshot, a: map<string, PortEntry>, b: map<string, PortEntry>, vid: int)
    requires a.Keys == b.Keys
    requires forall p :: p in a ==> a[p].trunkAll == b[p].trunkAll && (vid in a[p].bits <==> vid in b[p].bits)
    ensures AnyMember(s, a, vid) <==> AnyMember(s, b, vid)
  {
    forall p | p in a ensures IsMember(s, a, p, vid) <==> IsMember(s, b, p, vid) {}
    if AnyMember(s, a, vid) {
      var p :| p in a && IsMember(s, a, p, vid);
      assert p in b && IsMember(s, b, p, vid);
    }
    if AnyMember(s, b, vid) {
      var p :| p in b && IsMember(s, b, p, vid);
      assert p in a && IsMember(s, a, p, vid);
    }
  }

  lemma DropVlanPorts(s: Snapshot, c: Cache, d: Cache, steps: seq<Step>, n: string)
    requires steps != [] && Scheduled(steps) && steps[0] == DropVlan(n)
    requires n in c.vlans && d == DoDropVlan(c, n)
    requires PortsKnown(s, c, steps) && PortsParsed(s, c, steps)
    ensures PortsKnown(s, d, steps[1..]) && PortsParsed(s, d, steps[1..])
  {
    NoPortWorkLeft(steps);
  }

  lemma DropVlanVids(c: Cache, d: Cache, n: string)
    requires VidsDistinct(c) && VidsKnown(c)
    requires n in c.vlans && d == DoDropVlan(c, n)
    ensures VidsDistinct(d) && VidsKnown(d)
  {
    forall m | m in d.vlans ensures m in c.vlans && m != n && d.vlans[m] == c.vlans[m] {}
    forall x | x in d.allVids ensures exists m :: m in d.vlans && d.vlans[m].vid == x {
      var m :| m in c.vlans && c.vlans[m].vid == x;
      assert m in d.vlans && d.vlans[m].vid == x;
    }
  }

  lemma DropVlanVlans(s: Snapshot, c: Cache, d: Cache, steps: seq<Step>, n: string)
    requires steps != [] && Scheduled(steps) && steps[0] == DropVlan(n)
    requires VlansKnown(s, c, steps)
    requires n in c.vlans && d == DoDropVlan(c, n)
    ensures VlansKnown(s, d, steps[1..])
  {
    VlanTail(steps);
    assert n !in VlanIndex(s.vlans);
  }

  lemma DropVlanMembers(s: Snapshot, c: Cache, d: Cache, steps: seq<Step>, n: string)
    requires steps != [] && Scheduled(steps) && steps[0] == DropVlan(n)
    requires n in c.vlans && d == DoDropVlan(c, n) && VidsDistinct(c)
    requires PortsKnown(s, c, steps) && MembersKnown(s, c, steps)
    ensures MembersKnown(s, d, steps[1..])
  {
    VlanStepPorts(s, c, steps);
    forall m | m in d.vlans && m in VlanIndex(s.vlans) ensures FreshMember(s, d.ports, d.vlans[m]) {
      assert m in c.vlans && d.vlans[m] == c.vlans[m];
      SameMembership(s, c.ports, d.ports, d.vlans[m].vid);
    }
  }

  lemma DropVlanStates(s: Snapshot, c: Cache, d: Cache, steps: seq<Step>, n: string)
    requires steps != [] && Scheduled(steps) && steps[0] == DropVlan(n)
    requires n in c.vlans && d == DoDropVlan(c, n)
    requires StatesKnown(s, c, steps)
    ensures StatesKnown(s, d, steps[1..])
  {
    VlanTail(steps);
  }

  lemma DropVlanKeeps(s: Snapshot, c: Cache, steps: seq<Step>, n: string)
    requires MidPass(s, c, steps)
    requires steps != [] && Scheduled(steps) && steps[0] == DropVlan(n)
    ensures n in c.vlans && MidPass(s, DoDropVlan(c, n), steps[1..])
  {
    assert n in c.vlans;
    var d := DoDropVlan(c, n);
    DropVlanPorts(s, c, d, steps, n);
    DropVlanVids(c, d, n);
    DropVlanVlans(s, c, d, steps, n);
    DropVlanStates(s, c, d, steps, n);
    DropVlanMembers(s, c, d, steps, n);
    forall m | m in d.vlans ensures Written(d, d.vlans[m]) {
      assert Written(c, c.vlans[m]);
    }
  }

  lemma AddVlanEntries(s: Snapshot, c: Cache, d: Cache, n: string, r: VlanRow)
    requires d == DoAddVlan(s, c, n, r)
    ensures d.allVids == c.allVids + {r.config.id} && d.db == c.db
    ensures d.vlans == c.vlans[n := NewVlanEntry(r).(any := AnyMember(s, c.ports, r.config.id))]
    ensures d.ports == Spread(s, c.ports, r.config.id)
  {
  }

  lemma SpreadParses(s: Snapshot, p: string, k: PortConfig, allVids: set<int>, e: PortEntry, vid: int)
    requires Parsed(k, InBridge(s, p), allVids, e) && InRange(e.bits) && ValidVid(vid)
    ensures Parsed(k, InBridge(s, p), allVids + {vid}, SpreadOne(s, p, e, vid)) && InRange(SpreadOne(s, p, e, vid).bits)
  {
  }

  lemma AddVlanParsed(s: Snapshot, c: Cache, d: Cache, steps: seq<Step>, vid: int)
    requires ValidVid(vid) && d.ports == Spread(s, c.ports, vid) && d.allVids == c.allVids + {vid}
    requires forall p :: p in c.ports ==> p in PortIndex(s.ports) && !Pending(steps, p)
    requires PortsParsed(s, c, steps)
    ensures PortsParsed(s, d, steps)
  {
    forall p | p in d.ports ensures InRange(d.ports[p].bits) &&
      Parsed(PortIndex(s.ports)[p].config, InBridge(s, p), d.allVids, d.ports[p])
    {
      assert d.ports[p] == SpreadOne(s, p, c.ports[p], vid);
      SpreadParses(s, p, PortIndex(s.ports)[p].config, c.allVids, c.ports[p], vid);
    }
  }

  lemma AddVlanPorts(s: Snapshot, c: Cache, d: Cache, steps: seq<Step>, n: string, r: VlanRow)
    requires steps != [] && Scheduled(steps) && steps[0] == AddVlan(n)
    requires ValidVid(r.config.id) && d == DoAddVlan(s, c, n, r)
    requires PortsKnown(s, c, steps) && PortsParsed(s, c, steps)
    ensures PortsKnown(s, d, steps[1..]) && PortsParsed(s, d, steps[1..])
  {
    NoPortWorkLeft(steps);
    AddVlanEntries(s, c, d, n, r);
    assert d.ports.Keys == c.ports.Keys;
    AddVlanParsed(s, c, d, steps, r.config.id);
  }

  lemma AddVlanIsNew(s: Snapshot, c: Cache, steps: seq<Step>, n: string)
    requires WellFormedVlans(s.vlans) && n in VlanIndex(s.vlans) && n !in c.vlans
    requires VlansKnown(s, c, steps)
    ensures var r := VlanIndex(s.vlans)[n];
      forall m :: m in c.vlans ==> c.vlans[m].vid != r.config.id && c.vlans[m].row != r.uuid
  {
    var r := VlanIndex(s.vlans)[n];
    assert r in s.vlans;
    forall m | m in c.vlans ensures c.vlans[m].vid != r.config.id && c.vlans[m].row != r.uuid {
      if m in VlanIndex(s.vlans) {
        assert VlanIndex(s.vlans)[m] in s.vlans && VlanIndex(s.vlans)[m].config.name == m;
      }
    }
  }

  lemma AddVlanVids(c: Cache, d: Cache, n: string, v: VlanEntry)
    requires VidsDistinct(c) && VidsKnown(c) && n !in c.vlans && ValidVid(v.vid)
    requires forall m :: m in c.vlans ==> c.vlans[m].vid != v.vid && c.vlans[m].row != v.row
    requires d.allVids == c.allVids + {v.vid} && d.vlans == c.vlans[n := v]
    ensures VidsDistinct(d) && VidsKnown(d)
  {
    forall x | x in d.allVids ensures exists m :: m in d.vlans && d.vlans[m].vid == x {
      if x == v.vid {
        assert n in d.vlans && d.vlans[n].vid == x;
      } else {
        var m :| m in c.vlans && c.vlans[m].vid == x;
        assert m in d.vlans && d.vlans[m].vid == x;
      }
    }
  }

  lemma AddVlanVlans(s: Snapshot, c: Cache, d: Cache, steps: seq<Step>, n: string, v: VlanEntry)
    requires steps != [] && Scheduled(steps) && steps[0] == AddVlan(n)
    requires n in VlanIndex(s.vlans) && v.row == VlanIndex(s.vlans)[n].uuid && v.vid == VlanIndex(s.vlans)[n].config.id
    requires VlansKnown(s, c, steps) && d.vlans == c.vlans[n := v]
    ensures VlansKnown(s, d, steps[1..])
  {
    VlanTail(steps);
  }

  lemma AddVlanStates(s: Snapshot, c: Cache, d: Cache, steps: seq<Step>, n: string, v: VlanEntry)
    requires steps != [] && Scheduled(steps) && steps[0] == AddVlan(n)
    requires ReadVlan(n) in steps && d.vlans == c.vlans[n := v]
    requires StatesKnown(s, c, steps)
    ensures StatesKnown(s, d, steps[1..])
  {
    VlanTail(steps);
  }

  /** Spreading a VLAN to implicit trunks adds it only where it already counts as carried. */
  lemma SpreadKeepsMembership(s: Snapshot, c: Cache, vid: int)
    ensures AnyMember(s, c.ports, vid) <==> AnyMember(s, Spread(s, c.ports, vid), vid)
  {
    var b := Spread(s, c.ports, vid);
    forall p | p in c.ports ensures p in b && (IsMember(s, c.ports, p, vid) <==> IsMember(s, b, p, vid)) {
      assert b[p] == SpreadOne(s, p, c.ports[p], vid);
    }
  }

  lemma AddVlanMembers(s: Snapshot, c: Cache, d: Cache, steps: seq<Step>, n: string, r: VlanRow)
    requires steps != [] && Scheduled(steps) && steps[0] == AddVlan(n)
    requires d == DoAddVlan(s, c, n, r) && n !in c.vlans
    requires forall m :: m in c.vlans ==> c.vlans[m].vid != r.config.id
    requires PortsKnown(s, c, steps) && PortsParsed(s, c, steps) && MembersKnown(s, c, steps)
    ensures MembersKnown(s, d, steps[1..])
  {
    NoPortWorkLeft(steps);
    VlanStepPorts(s, c, steps);
    AddVlanEntries(s, c, d, n, r);
    forall m | m in d.vlans && m in VlanIndex(s.vlans) ensures FreshMember(s, d.ports, d.vlans[m]) {
      if m == n {
        SpreadKeepsMembership(s, c, r.config.id);
      } else {
        SameMembership(s, c.ports, d.ports, c.vlans[m].vid);
      }
    }
  }

  lemma AddVlanKeeps(s: Snapshot, c: Cache, steps: seq<Step>, n: string)
    requires WellFormedVlans(s.vlans) && MidPass(s, c, steps)
    requires steps != [] && Scheduled(steps) && steps[0] == AddVlan(n)
    ensures n in VlanIndex(s.vlans) && n !in c.vlans
    ensures MidPass(s, DoAddVlan(s, c, n, VlanIndex(s.vlans)[n]), steps[1..])
  {
    assert n in VlanIndex(s.vlans) && n !in c.vlans && ReadVlan(n) in steps;
    var r := VlanIndex(s.vlans)[n];
    var d := DoAddVlan(s, c, n, r);
    var v := NewVlanEntry(r).(any := AnyMember(s, c.ports, r.config.id));
    assert r in s.vlans && ValidVid(r.config.id);
    AddVlanEntries(s, c, d, n, r);
    AddVlanIsNew(s, c, steps, n);
    AddVlanPorts(s, c, d, steps, n, r);
    AddVlanVids(c, d, n, v);
    AddVlanVlans(s, c, d, steps, n, v);
    AddVlanMembers(s, c, d, steps, n, r);
    AddVlanStates(s, c, d, steps, n, v);
    forall m | m in d.vlans ensures Written(d, d.vlans[m]) {
      if m != n {
        assert Written(c, c.vlans[m]);
      }
    }
  }

  /** Reading a VLAN row replaces its entry by one that is settled and written. */
  lemma ReadVlanEntry(s: Snapshot, c: Cache, d: Cache, n: string, r: VlanRow)
    requires WellFormedVlans(s.vlans) && r in s.vlans
    requires n in c.vlans && c.vlans[n].row == r.uuid && Written(c, c.vlans[n]) && d == DoReadVlan(s, c, n, r)
    ensures d.ports == c.ports && d.allVids == c.allVids && n in d.vlans && d.vlans == c.vlans[n := d.vlans[n]]
    ensures var v, w := c.vlans[n], d.vlans[n];
      && w == v.(any := w.any, admin := w.admin, op := w.op, reason := w.reason)
      && (w.admin == AdminUp <==> AdminIsUp(r.config))
      && Settled(s, w) && Written(d, w)
      && (FreshMember(s, c.ports, v) ==> FreshMember(s, d.ports, w))
    ensures d.db == c.db || (r.uuid in d.db && d.db == c.db[r.uuid := d.db[r.uuid]])
  {
    var v := c.vlans[n].(admin := if AdminIsUp(r.config) then AdminUp else AdminDown);
    var u := c.(vlans := c.vlans[n := v]);
    HandleEffect(s, u, n, r.uuid, r.config.l3port);
    MarkOfRow(s, r);
  }

  lemma ReadVlanDb(c: Cache, d: Cache, n: string)
    requires VidsDistinct(c) && DbAgrees(c) && n in c.vlans && n in d.vlans && d.vlans == c.vlans[n := d.vlans[n]]
    requires Written(d, d.vlans[n])
    requires d.db == c.db || (c.vlans[n].row in d.db && d.db == c.db[c.vlans[n].row := d.db[c.vlans[n].row]])
    ensures DbAgrees(d)
  {
    forall m | m in d.vlans ensures Written(d, d.vlans[m]) {
      assert Written(c, c.vlans[m]);
      if m != n {
        OthersStay(c, d, n, m);
      }
    }
  }

  lemma ReadVlanVids(c: Cache, d: Cache, n: string)
    requires n in c.vlans && n in d.vlans && d.vlans == c.vlans[n := d.vlans[n]]
    requires d.vlans[n].row == c.vlans[n].row && d.vlans[n].vid == c.vlans[n].vid && d.allVids == c.allVids
    requires VidsDistinct(c) && VidsKnown(c)
    ensures VidsDistinct(d) && VidsKnown(d)
  {
    forall m | m in d.vlans
      ensures m in c.vlans && d.vlans[m].vid == c.vlans[m].vid && d.vlans[m].row == c.vlans[m].row {}
    forall x | x in d.allVids ensures exists m :: m in d.vlans && d.vlans[m].vid == x {
      var m :| m in c.vlans && c.vlans[m].vid == x;
      assert m in d.vlans && d.vlans[m].vid == x;
    }
  }

  lemma ReadVlanVlans(s: Snapshot, c: Cache, d: Cache, steps: seq<Step>, n: string)
    requires steps != [] && Scheduled(steps) && steps[0] == ReadVlan(n)
    requires n in c.vlans && n in VlanIndex(s.vlans) && n in d.vlans && d.vlans == c.vlans[n := d.vlans[n]]
    requires d.vlans[n].row == c.vlans[n].row && d.vlans[n].vid == c.vlans[n].vid
    requires VlansKnown(s, c, steps) && forall m :: AddVlan(m) !in steps
    ensures VlansKnown(s, d, steps[1..])
  {
    VlanTail(steps);
  }

  lemma ReadVlanStates(s: Snapshot, c: Cache, d: Cache, steps: seq<Step>, n: string)
    requires steps != [] && Scheduled(steps) && steps[0] == ReadVlan(n)
    requires n in c.vlans && n in VlanIndex(s.vlans) && n in d.vlans && d.vlans == c.vlans[n := d.vlans[n]]
    requires StatesKnown(s, c, steps) && Settled(s, d.vlans[n])
    requires d.vlans[n].admin == AdminUp <==> AdminIsUp(VlanIndex(s.vlans)[n].config)
    ensures StatesKnown(s, d, steps[1..])
  {
    VlanTail(steps);
  }

  lemma ReadVlanMembers(s: Snapshot, c: Cache, d: Cache, steps: seq<Step>, n: string)
    requires steps != [] && Scheduled(steps) && steps[0] == ReadVlan(n)
    requires n in c.vlans && n in d.vlans && d.vlans == c.vlans[n := d.vlans[n]] && d.ports == c.ports
    requires PortsKnown(s, c, steps) && PortsParsed(s, c, steps) && MembersKnown(s, c, steps) && d.allVids == c.allVids
    requires FreshMember(s, c.ports, c.vlans[n]) ==> FreshMember(s, d.ports, d.vlans[n])
    ensures PortsKnown(s, d, steps[1..]) && PortsParsed(s, d, steps[1..]) && MembersKnown(s, d, steps[1..])
  {
    VlanStepPorts(s, c, steps);
    NoPortWorkLeft(steps);
  }

  lemma NoAddsLeft(steps: seq<Step>, n: string)
    requires steps != [] && Scheduled(steps) && steps[0] == ReadVlan(n)
    ensures forall m :: AddVlan(m) !in steps
  {
    HeadAndTail(steps);
  }

  /** The parts of the invariant that concern VLANs, after reading VLAN n. */
  lemma ReadVlanVlanParts(s: Snapshot, c: Cache, d: Cache, steps: seq<Step>, n: string)
    requires WellFormedVlans(s.vlans) && steps != [] && Scheduled(steps) && steps[0] == ReadVlan(n)
    requires n in VlanIndex(s.vlans) && n in c.vlans && d == DoReadVlan(s, c, n, VlanIndex(s.vlans)[n])
    requires VidsDistinct(c) && VidsKnown(c) && VlansKnown(s, c, steps) && StatesKnown(s, c, steps) && DbAgrees(c)
    ensures VidsDistinct(d) && VidsKnown(d) && VlansKnown(s, d, steps[1..]) && StatesKnown(s, d, steps[1..])
    ensures DbAgrees(d)
  {
    assert Written(c, c.vlans[n]);
    ReadVlanEntry(s, c, d, n, VlanIndex(s.vlans)[n]);
    ReadVlanDb(c, d, n);
    ReadVlanVids(c, d, n);
    NoAddsLeft(steps, n);
    ReadVlanVlans(s, c, d, steps, n);
    ReadVlanStates(s, c, d, steps, n);
  }

  lemma ReadVlanPortParts(s: Snapshot, c: Cache, d: Cache, steps: seq<Step>, n: string)
    requires WellFormedVlans(s.vlans) && steps != [] && Scheduled(steps) && steps[0] == ReadVlan(n)
    requires n in VlanIndex(s.vlans) && n in c.vlans && d == DoReadVlan(s, c, n, VlanIndex(s.vlans)[n])
    requires c.vlans[n].row == VlanIndex(s.vlans)[n].uuid && Written(c, c.vlans[n])
    requires PortsKnown(s, c, steps) && PortsParsed(s, c, steps) && MembersKnown(s, c, steps)
    ensures PortsKnown(s, d, steps[1..]) && PortsParsed(s, d, steps[1..]) && MembersKnown(s, d, steps[1..])
  {
    ReadVlanEntry(s, c, d, n, VlanIndex(s.vlans)[n]);
    ReadVlanMembers(s, c, d, steps, n);
  }

  lemma ReadVlanKeeps(s: Snapshot, c: Cache, steps: seq<Step>, n: string)
    requires WellFormedVlans(s.vlans) && MidPass(s, c, steps)
    requires steps != [] && Scheduled(steps) && steps[0] == ReadVlan(n)
    ensures n in VlanIndex(s.vlans) && n in c.vlans
    ensures MidPass(s, DoReadVlan(s, c, n, VlanIndex(s.vlans)[n]), steps[1..])
  {
    assert n in VlanIndex(s.vlans) && n in c.vlans by {
      NoAddsLeft(steps, n);
      assert ReadVlan(n) in steps;
    }
    assert Written(c, c.vlans[n]);
    var d := DoReadVlan(s, c, n, VlanIndex(s.vlans)[n]);
    ReadVlanVlanParts(s, c, d, steps, n);
    ReadVlanPortParts(s, c, d, steps, n);
  }

  lemma TailScheduled(steps: seq<Step>)
    requires steps != [] && Scheduled(steps)
    ensures Scheduled(steps[1..])
  {
    HeadAndTail(steps);
  }

  lemma DropPortStep(s: Snapshot, c: Cache, steps: seq<Step>, p: string, d: Cache)
    requires WellFormedVlans(s.vlans) && MidPass(s, c, steps)
    requires steps != [] && d == Apply(s, c, steps[0]) && Scheduled(steps) && steps[0] == DropPort(p)
    ensures MidPass(s, d, steps[1..])
  {
    DropPortKeeps(s, c, steps, p);
  }

  lemma AddPortStep(s: Snapshot, c: Cache, steps: seq<Step>, p: string, d: Cache)
    requires WellFormedVlans(s.vlans) && MidPass(s, c, steps)
    requires steps != [] && d == Apply(s, c, steps[0]) && Scheduled(steps) && steps[0] == AddPort(p)
    ensures MidPass(s, d, steps[1..])
  {
    AddPortKeeps(s, c, steps, p);
  }

  lemma ReadPortStep(s: Snapshot, c: Cache, steps: seq<Step>, p: string, d: Cache)
    requires WellFormedVlans(s.vlans) && MidPass(s, c, steps)
    requires steps != [] && d == Apply(s, c, steps[0]) && Scheduled(steps) && steps[0] == ReadPort(p)
    ensures MidPass(s, d, steps[1..])
  {
    ReadPortKeeps(s, c, steps, p);
  }

  lemma DropVlanStep(s: Snapshot, c: Cache, steps: seq<Step>, n: string, d: Cache)
    requires WellFormedVlans(s.vlans) && MidPass(s, c, steps)
    requires steps != [] && d == Apply(s, c, steps[0]) && Scheduled(steps) && steps[0] == DropVlan(n)
    ensures MidPass(s, d, steps[1..])
  {
    DropVlanKeeps(s, c, steps, n);
  }

  lemma AddVlanStep(s: Snapshot, c: Cache, steps: seq<Step>, n: string, d: Cache)
    requires WellFormedVlans(s.vlans) && MidPass(s, c, steps)
    requires steps != [] && d == Apply(s, c, steps[0]) && Scheduled(steps) && steps[0] == AddVlan(n)
    ensures MidPass(s, d, steps[1..])
  {
    AddVlanKeeps(s, c, steps, n);
  }

  lemma ReadVlanStep(s: Snapshot, c: Cache, steps: seq<Step>, n: string, d: Cache)
    requires WellFormedVlans(s.vlans) && MidPass(s, c, steps)
    requires steps != [] && d == Apply(s, c, steps[0]) && Scheduled(steps) && steps[0] == ReadVlan(n)
    ensures MidPass(s, d, steps[1..])
  {
    ReadVlanKeeps(s, c, steps, n);
  }

  /** The invariant of a pass, step by step. */
  lemma StepKeepsMidPass(s: Snapshot, c: Cache, steps: seq<Step>)
    requires WellFormedVlans(s.vlans) && steps != [] && Scheduled(steps)
    requires MidPass(s, c, steps)
    ensures MidPass(s, Apply(s, c, steps[0]), steps[1..]) && Scheduled(steps[1..])
  {
    TailScheduled(steps);
    var d := Apply(s, c, steps[0]);
    match steps[0]
    case DropPort(p) => DropPortStep(s, c, steps, p, d);
    case AddPort(p) => AddPortStep(s, c, steps, p, d);
    case ReadPort(p) => ReadPortStep(s, c, steps, p, d);
    case DropVlan(n) => DropVlanStep(s, c, steps, n, d);
    case AddVlan(n) => AddVlanStep(s, c, steps, n, d);
    case ReadVlan(n) => ReadVlanStep(s, c, steps, n, d);
  }
}
