/** The member flag of VID 1, which two rules set: membership, and a rule on port rows of its own. */
module DefaultVlan {
  import opened VlanTypes
  import opened VlanCache
  import opened PassInvariant
  import opened StepLemmas
  import opened Reconciliation
  import opened MemberFlags
  import opened PassProperties

  ghost predicate IsDefaultRow(s: Snapshot, r: VlanRow) {
    r in s.vlans && r.config.id == DEFAULT_VID
  }

  lemma MemberIsCarried(s: Snapshot, d: Cache, r: VlanRow)
    requires Synced(s, d) && IsDefaultRow(s, r) && r.config.name in d.vlans
    ensures HasCachedMember(s, d, r) <==> Carried(s, DEFAULT_VID)
  {
    RowKnown(s, d, [], r);
    AnyMemberIffCarried(s, d, DEFAULT_VID);
  }

  /**
   * What a pass makes of the member flag of VID 1, in any order: if it drops or rereads a port whose old or
   * new bitmap has VID 1, or adds VID 1, the flag says that a switched port carries it or that the rule
   * on port rows holds; otherwise the flag stays, except that rereading the VLAN's own row may raise it.
   * A VID 1 marked L3PORT is not subject to that rule.
   */
  lemma DefaultFlagExactly(a: Snapshot, b: Snapshot, c: Cache, steps: seq<Step>, r: VlanRow)
    requires Synced(a, c) && WellFormedVlans(b.vlans)
    requires Evolves(a, b) && NoneReplaced(a, b) && IsPass(b, a.seqno, c, steps) && IsDefaultRow(b, r)
    ensures var n, d := r.config.name, Run(b, c, steps);
      var rule := !r.config.l3port && DefaultVlanMember(b);
      && n in d.vlans
      && (!Touched(b, c, steps, r) ==> n in c.vlans)
      && (d.vlans[n].any <==>
            if Touched(b, c, steps, r) then Carried(b, DEFAULT_VID) || rule
            else c.vlans[n].any || (VlanFlagged(r, a.seqno) && rule))
  {
    PassBeginsCoherent(a, b, c, steps);
    FlagToEnd(b, c, steps, r);
    PassRefines(a, b, c, steps);
    MemberIsCarried(b, Run(b, c, steps), r);
    IndexOfRow(b.vlans, r);
  }

  // ---- Order of visiting -----------------------------------------------------------------------------

  /** Two passes over the same work touch a VLAN alike. */
  lemma SameWork(s: Snapshot, since: nat, c: Cache, steps: seq<Step>, others: seq<Step>, r: VlanRow)
    requires IsPass(s, since, c, steps) && IsPass(s, since, c, others)
    ensures Touched(s, c, steps, r) <==> Touched(s, c, others, r)
  {
    forall x ensures x in steps <==> x in others {
      match x
      case DropPort(p) =>
      case AddPort(p) =>
      case ReadPort(p) =>
      case DropVlan(m) =>
      case AddVlan(m) =>
      case ReadVlan(m) =>
    }
    forall p ensures DropTouches(c, steps, p, r.config.id) <==> DropTouches(c, others, p, r.config.id) {}
    forall p ensures ReadTouches(s, c, steps, p, r.config.id) <==> ReadTouches(s, c, others, p, r.config.id) {}
  }

  lemma SameFlag(a: Snapshot, b: Snapshot, c: Cache, steps: seq<Step>, others: seq<Step>, r: VlanRow)
    requires Synced(a, c) && WellFormedVlans(b.vlans) && Evolves(a, b) && NoneReplaced(a, b) && IsDefaultRow(b, r)
    requires IsPass(b, a.seqno, c, steps) && IsPass(b, a.seqno, c, others)
    ensures var n, d, e := r.config.name, Run(b, c, steps), Run(b, c, others);
      n in d.vlans && n in e.vlans && d.vlans[n].any == e.vlans[n].any
  {
    DefaultFlagExactly(a, b, c, steps, r);
    DefaultFlagExactly(a, b, c, others, r);
    SameWork(b, a.seqno, c, steps, others, r);
  }

  lemma SyncedDefaultAgree(s: Snapshot, d: Cache, e: Cache, r: VlanRow)
    requires Synced(s, d) && Synced(s, e) && IsDefaultRow(s, r) && VlanIndex(s.vlans)[r.config.name] == r
    requires r.config.name in VlanIndex(s.vlans) && r.config.name in d.vlans && r.config.name in e.vlans
    requires d.vlans[r.config.name].any == e.vlans[r.config.name].any
    requires r.config.l3port ==>
      && d.vlans[r.config.name].op == e.vlans[r.config.name].op
      && d.vlans[r.config.name].reason == e.vlans[r.config.name].reason
      && SameEntry(d.db, e.db, r.uuid)
    ensures Agree(d, e, r.config.name, r.uuid)
  {
    var n := r.config.name;
    SyncedMeansExpected(s, d, n);
    SyncedMeansExpected(s, e, n);
    if !r.config.l3port {
      SyncedMeansDefaultUp(s, d, n);
      SyncedMeansDefaultUp(s, e, n);
    }
  }

  /**
   * Whatever order the hash tables are visited in, a pass leaves the same entry and columns for every VLAN,
   * VID 1 too.
   */
  lemma OrderNeverMatters(a: Snapshot, b: Snapshot, c: Cache, steps: seq<Step>, others: seq<Step>, n: string)
    requires Synced(a, c) && WellFormedVlans(b.vlans) && Evolves(a, b) && NoneReplaced(a, b)
    requires IsPass(b, a.seqno, c, steps) && IsPass(b, a.seqno, c, others) && n in VlanIndex(b.vlans)
    ensures Agree(Run(b, c, steps), Run(b, c, others), n, VlanIndex(b.vlans)[n].uuid)
  {
    var r := VlanIndex(b.vlans)[n];
    if r.config.id != DEFAULT_VID {
      OrderDoesNotMatter(a, b, c, steps, others, n);
    } else {
      SameFlag(a, b, c, steps, others, r);
      PassRefines(a, b, c, steps);
      PassRefines(a, b, c, others);
      if r.config.l3port {
        PassFreezesL3(a, b, c, steps, r);
        PassFreezesL3(a, b, c, others, r);
      }
      SyncedDefaultAgree(b, Run(b, c, steps), Run(b, c, others), r);
    }
  }

  // ---- The two rules ---------------------------------------------------------------------------------

  lemma OnePort(r: PortRow)
    ensures PortIndex([r]) == map[r.name := r]
  {
    assert [r][..0] == [];
  }

  /** One port "1" in the default bridge, with this row, and one VLAN. */
  function OnePortSwitch(seqno: nat, k: PortConfig, row: VlanRow): Snapshot {
    Snapshot(seqno, [PortRow("1", k, 0, 0)], [row], [Bridge("bridge_normal", ["1"], [])])
  }

  /**
   * For VID 1 the daemon also consults port rows, but by another rule than membership, and neither implies
   * the other: a plain trunk tagged 1 that trunks VLAN 5 counts only for the rule, one without tag and trunks
   * only as a member. So the member flag of VID 1 is only known not to miss a port.
   */
  lemma DefaultVlanRulesDiffer(row: VlanRow, seqno: nat)
    requires row.config.id == 1
    ensures var s := OnePortSwitch(seqno, PortConfig(Some(Trunk), Some(1), [5]), row);
      DefaultVlanMember(s) && !Carried(s, 1)
    ensures var s := OnePortSwitch(seqno, PortConfig(Some(Trunk), None, []), row);
      !DefaultVlanMember(s) && Carried(s, 1)
  {
    var s := OnePortSwitch(seqno, PortConfig(Some(Trunk), Some(1), [5]), row);
    assert row in s.vlans && s.ports[0] in s.ports && MentionsDefault(s.ports[0].config);
    OnePort(s.ports[0]);
    assert !Carried(s, 1);
    var t := OnePortSwitch(seqno, PortConfig(Some(Trunk), None, []), row);
    OnePort(t.ports[0]);
    assert "1" in t.bridges[0].ports;
    assert CarriedBy(t, "1", 1);
    assert !DefaultVlanMember(t);
  }
}
