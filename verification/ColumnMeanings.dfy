/**
 * What rows mean, said of their columns alone: the cases of the design by value of the mode column, with none of
 * the functions the daemon's model is written in.
 */
module ColumnMeanings {
  import opened VlanTypes
  import opened VlanCache
  import opened PassInvariant
  import opened Reconciliation

  // ---- Port rows -----------------------------------------------------------------------------------

  /** The tag column holds v. */
  predicate Tagged(k: PortConfig, v: int) {
    k.tag.Some? && k.tag.value == v
  }

  /** The trunks column admits v: it is empty, which stands for every VLAN, or lists v. */
  predicate TrunksAdmit(k: PortConfig, v: int) {
    |k.trunks| == 0 || v in k.trunks
  }

  /** By mode column: which usable VLANs the port is a member of, all VLANs being defined. */
  predicate MemberByColumns(k: PortConfig, v: int) {
    match k.mode
    case None => if k.tag.Some? then Tagged(k, v) else TrunksAdmit(k, v)
    case Some(Access) => Tagged(k, v)
    case Some(Trunk) => TrunksAdmit(k, v)
    case Some(Unrecognised) => TrunksAdmit(k, v)
    case Some(NativeTagged) => Tagged(k, v) || TrunksAdmit(k, v)
    case Some(NativeUntagged) => Tagged(k, v) || TrunksAdmit(k, v)
  }

  /**
   * A port row makes its port a member of a usable VLAN: without a mode by its tag, or if it has none by its trunks;
   * in access mode by its tag; as a plain trunk, or in a mode nobody knows, by its trunks; in a native mode by either.
   */
  lemma CarriesByColumns(k: PortConfig, v: int)
    requires 0 < v < 4095
    ensures Carries(k, v) <==> MemberByColumns(k, v)
  {
  }

  /** The mode the daemon settles on. */
  lemma ModeByColumns(k: PortConfig, allVids: set<int>, inBridge: bool)
    ensures var m := ParsePort(k, allVids, inBridge).mode;
      && (m == Access <==> k.mode == Some(Access) || (k.mode == None && k.tag != None))
      && (m == Trunk <==> k.mode == Some(Trunk) || k.mode == Some(Unrecognised) || (k.mode == None && k.tag == None))
      && (m == NativeTagged <==> k.mode == Some(NativeTagged))
      && (m == NativeUntagged <==> k.mode == Some(NativeUntagged))
  {
  }

  /** The native VID is the tag, but in the plain trunk cases, where there is none. */
  lemma NativeByColumns(k: PortConfig, allVids: set<int>, inBridge: bool)
    ensures var e := ParsePort(k, allVids, inBridge);
      && (k.tag == None || k.mode == Some(Trunk) || k.mode == Some(Unrecognised) ==> e.native == -1)
      && (k.tag != None && k.mode != Some(Trunk) && k.mode != Some(Unrecognised) ==> Tagged(k, e.native))
  {
  }

  /** Only a port in a bridge, without trunks and not an access port, is marked as trunking every VLAN. */
  lemma TrunkAllByColumns(k: PortConfig, allVids: set<int>, inBridge: bool)
    ensures ParsePort(k, allVids, inBridge).trunkAll <==>
      inBridge && |k.trunks| == 0 && k.mode != Some(Access) && (k.mode == None ==> k.tag == None)
  {
  }

  /** Bit x comes from the tag of a row that may have a native VLAN, or from the trunks of one that may have trunks. */
  predicate BitByColumns(k: PortConfig, allVids: set<int>, x: int) {
    var fromTag := Tagged(k, x) && 0 < x < 4095;
    var fromTrunks := if |k.trunks| == 0 then x in allVids else x in k.trunks && 0 <= x < 4096;
    match k.mode
    case None => if k.tag.Some? then fromTag else fromTrunks
    case Some(Access) => fromTag
    case Some(Trunk) => fromTrunks
    case Some(Unrecognised) => fromTrunks
    case Some(NativeTagged) => fromTag || fromTrunks
    case Some(NativeUntagged) => fromTag || fromTrunks
  }

  lemma BitsByColumns(k: PortConfig, allVids: set<int>, inBridge: bool, x: int)
    ensures x in ParsePort(k, allVids, inBridge).bits <==> BitByColumns(k, allVids, x)
  {
  }

  lemma AllBitsByColumns(k: PortConfig, allVids: set<int>, inBridge: bool)
    ensures forall x :: x in ParsePort(k, allVids, inBridge).bits <==> BitByColumns(k, allVids, x)
  {
    forall x ensures x in ParsePort(k, allVids, inBridge).bits <==> BitByColumns(k, allVids, x) {
      BitsByColumns(k, allVids, inBridge, x);
    }
  }

  // ---- The rule for VID 1 --------------------------------------------------------------------------

  /** The rule on rows for VID 1: it is in the table, and a port is tagged 1 or, untagged, trunks 1. */
  lemma DefaultRuleByColumns(s: Snapshot)
    ensures DefaultVlanMember(s) <==>
      && (exists i :: 0 <= i < |s.vlans| && s.vlans[i].config.id == 1)
      && (exists j :: 0 <= j < |s.ports|
            && (s.ports[j].config.tag == Some(1) || (s.ports[j].config.tag == None && 1 in s.ports[j].config.trunks)))
  {
    if DefaultVlanMember(s) {
      var r :| r in s.vlans && r.config.id == DEFAULT_VID;
      var q :| q in s.ports && MentionsDefault(q.config);
      var i :| 0 <= i < |s.vlans| && s.vlans[i] == r;
      var j :| 0 <= j < |s.ports| && s.ports[j] == q;
      assert s.ports[j].config.tag == Some(1) || (s.ports[j].config.tag == None && 1 in s.ports[j].config.trunks);
    }
    if i, j :|
      && 0 <= i < |s.vlans| && s.vlans[i].config.id == 1 && 0 <= j < |s.ports|
      && (s.ports[j].config.tag == Some(1) || (s.ports[j].config.tag == None && 1 in s.ports[j].config.trunks))
    {
      assert s.vlans[i] in s.vlans && s.ports[j] in s.ports && MentionsDefault(s.ports[j].config);
    }
  }

  // ---- Rows of a name --------------------------------------------------------------------------------

  lemma VlanUnnamed(rows: seq<VlanRow>, n: string)
    requires forall j :: 0 <= j < |rows| ==> rows[j].config.name != n
    ensures n !in VlanIndex(rows)
  {
  }

  lemma EarlierVlan(rows: seq<VlanRow>, n: string)
    requires rows != [] && n in VlanIndex(rows[..|rows| - 1])
    ensures n in VlanIndex(rows) && VlanIndex(rows)[n] == VlanIndex(rows[..|rows| - 1])[n]
  {
  }

  lemma LastVlan(rows: seq<VlanRow>)
    requires rows != [] && rows[|rows| - 1].config.name !in VlanIndex(rows[..|rows| - 1])
    ensures rows[|rows| - 1].config.name in VlanIndex(rows)
    ensures VlanIndex(rows)[rows[|rows| - 1].config.name] == rows[|rows| - 1]
  {
  }

  /** Of several rows of a name the daemon looks at the first. */
  lemma {:induction false} FirstVlanOfName(rows: seq<VlanRow>, i: nat)
    requires i < |rows| && forall j :: 0 <= j < i ==> rows[j].config.name != rows[i].config.name
    ensures rows[i].config.name in VlanIndex(rows) && VlanIndex(rows)[rows[i].config.name] == rows[i]
    decreases |rows|
  {
    var most := rows[..|rows| - 1];
    if i < |most| {
      FirstVlanOfName(most, i);
      EarlierVlan(rows, rows[i].config.name);
    } else {
      VlanUnnamed(most, rows[i].config.name);
      LastVlan(rows);
    }
  }

  lemma PortUnnamed(rows: seq<PortRow>, n: string)
    requires forall j :: 0 <= j < |rows| ==> rows[j].name != n
    ensures n !in PortIndex(rows)
  {
  }

  lemma EarlierPort(rows: seq<PortRow>, n: string)
    requires rows != [] && n in PortIndex(rows[..|rows| - 1])
    ensures n in PortIndex(rows) && PortIndex(rows)[n] == PortIndex(rows[..|rows| - 1])[n]
  {
  }

  lemma LastPort(rows: seq<PortRow>)
    requires rows != [] && rows[|rows| - 1].name !in PortIndex(rows[..|rows| - 1])
    ensures rows[|rows| - 1].name in PortIndex(rows)
    ensures PortIndex(rows)[rows[|rows| - 1].name] == rows[|rows| - 1]
  {
  }

  lemma {:induction false} FirstPortOfName(rows: seq<PortRow>, i: nat)
    requires i < |rows| && forall j :: 0 <= j < i ==> rows[j].name != rows[i].name
    ensures rows[i].name in PortIndex(rows) && PortIndex(rows)[rows[i].name] == rows[i]
    decreases |rows|
  {
    var most := rows[..|rows| - 1];
    if i < |most| {
      FirstPortOfName(most, i);
      EarlierPort(rows, rows[i].name);
    } else {
      PortUnnamed(most, rows[i].name);
      LastPort(rows);
    }
  }

  // ---- Change marks ----------------------------------------------------------------------------------

  /** A pass rereads exactly the rows inserted or modified since: either stamp is enough. */
  lemma PassByStamps(s: Snapshot, since: nat, c: Cache, steps: seq<Step>)
    requires IsPass(s, since, c, steps)
    ensures forall p :: p in PortIndex(s.ports) && p != "bridge_normal" ==>
      (ReadPort(p) in steps <==> PortIndex(s.ports)[p].inserted > since || PortIndex(s.ports)[p].modified > since)
    ensures forall n :: n in VlanIndex(s.vlans) ==>
      (ReadVlan(n) in steps <==> VlanIndex(s.vlans)[n].inserted > since || VlanIndex(s.vlans)[n].modified > since)
  {
  }

  ghost predicate PortsMarked(a: Snapshot, b: Snapshot) {
    forall p :: p in PortIndex(b.ports) ==>
      var r := PortIndex(b.ports)[p];
      || r.inserted > a.seqno || r.modified > a.seqno
      || (p in PortIndex(a.ports) && PortIndex(a.ports)[p] == r && (InBridge(a, p) <==> InBridge(b, p)))
  }

  ghost predicate VlansMarked(a: Snapshot, b: Snapshot) {
    forall n :: n in VlanIndex(b.vlans) ==>
      var r := VlanIndex(b.vlans)[n];
      r.inserted > a.seqno || r.modified > a.seqno || (n in VlanIndex(a.vlans) && VlanIndex(a.vlans)[n] == r)
  }

  /** And change marks are sound if every row with neither stamp is as it was. */
  lemma EvolvesByStamps(a: Snapshot, b: Snapshot)
    requires a.seqno < b.seqno
    ensures Evolves(a, b) <==> PortsMarked(a, b) && VlansMarked(a, b)
  {
    if Evolves(a, b) {
      assert RowsEvolve(a, b);
    }
    if PortsMarked(a, b) && VlansMarked(a, b) {
      assert RowsEvolve(a, b);
      forall p | p in PortIndex(b.ports) && !PortFlagged(PortIndex(b.ports)[p], a.seqno)
        ensures InBridge(a, p) <==> InBridge(b, p) {}
    }
  }

  // ---- Status ----------------------------------------------------------------------------------------

  /** A port of the replica carries the VLAN, said of names, bridges and columns. */
  ghost predicate CarriedByColumns(s: Snapshot, v: int) {
    exists p, i ::
      && p in PortIndex(s.ports) && p != "bridge_normal"
      && 0 <= i < |s.bridges| && p in s.bridges[i].ports && MemberByColumns(PortIndex(s.ports)[p].config, v)
  }

  lemma CarriedIsByColumns(s: Snapshot, v: int)
    requires 0 < v < 4095
    ensures Carried(s, v) <==> CarriedByColumns(s, v)
  {
    forall p | p in PortIndex(s.ports)
      ensures Carries(PortIndex(s.ports)[p].config, v) <==> MemberByColumns(PortIndex(s.ports)[p].config, v)
    {
      CarriesByColumns(PortIndex(s.ports)[p].config, v);
    }
    if Carried(s, v) {
      var p :| CarriedBy(s, p, v);
      var i :| 0 <= i < |s.bridges| && p in s.bridges[i].ports;
      assert MemberByColumns(PortIndex(s.ports)[p].config, v);
    }
    if p, i :| p in PortIndex(s.ports) && p != "bridge_normal" && 0 <= i < |s.bridges| && p in s.bridges[i].ports
               && MemberByColumns(PortIndex(s.ports)[p].config, v) {
      assert CarriedBy(s, p, v);
    }
  }

  /**
   * What being in sync writes, column by column, for a VLAN other than VID 1 that is not marked L3PORT: down for
   * admin_down unless its admin column says up; else down for no_member_port unless carried; else up and enabled.
   */
  lemma StatusByColumns(s: Snapshot, c: Cache, n: string)
    requires Synced(s, c) && n in VlanIndex(s.vlans)
    requires VlanIndex(s.vlans)[n].config.id != 1 && !VlanIndex(s.vlans)[n].config.l3port
    ensures var r := VlanIndex(s.vlans)[n];
      var up, carried := r.config.admin == Some(AdminUp), CarriedByColumns(s, r.config.id);
      && r.uuid in c.db
      && (c.db[r.uuid].hwEnable <==> up && carried)
      && c.db[r.uuid].oper == (if up && carried then OperUp else OperDown)
      && c.db[r.uuid].reason == (if !up then ReasonAdminDown else if !carried then ReasonNoMemberPort else ReasonOk)
  {
    var r := VlanIndex(s.vlans)[n];
    assert r in s.vlans;
    CarriedIsByColumns(s, r.config.id);
    SyncedMeansExpected(s, c, n);
  }

  /** VID 1 is up and enabled; its reason is ok if its admin column says up and its flag is set. */
  lemma DefaultStatusByColumns(s: Snapshot, c: Cache, n: string)
    requires Synced(s, c) && n in VlanIndex(s.vlans)
    requires VlanIndex(s.vlans)[n].config.id == 1 && !VlanIndex(s.vlans)[n].config.l3port
    ensures var r := VlanIndex(s.vlans)[n];
      var up := r.config.admin == Some(AdminUp);
      && r.uuid in c.db && c.db[r.uuid].hwEnable && c.db[r.uuid].oper == OperUp
      && (!up ==> c.db[r.uuid].reason == ReasonAdminDown)
      && (up && CarriedByColumns(s, 1) ==> c.db[r.uuid].reason == ReasonOk)
      && (up ==> c.db[r.uuid].reason == ReasonOk || c.db[r.uuid].reason == ReasonNoMemberPort)
  {
    CarriedIsByColumns(s, 1);
    SyncedMeansDefaultUp(s, c, n);
  }
}
