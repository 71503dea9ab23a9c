/** The daemon: cached port and VLAN objects, bitmaps updated in place, and the passes over them. */
module VlandDaemon {
  import opened VlanTypes
  import opened VlanCache
  import opened PassInvariant
  import opened StepLemmas
  import opened Reconciliation
  import opened ColumnMeanings
  import opened PassProperties
  import opened DaemonRuns

  // ---- Bitmaps -----------------------------------------------------------------------

  ghost function Bits(a: array<bool>): set<int>
    reads a
  {
    set i | 0 <= i < a.Length && a[i]
  }

  method BitmapAllocate() returns (a: array<bool>)
    ensures fresh(a) && a.Length == VLAN_BITMAP_SIZE && Bits(a) == {}
  {
    a := new bool[VLAN_BITMAP_SIZE](_ => false);
  }

  method BitmapClone(src: array<bool>) returns (a: array<bool>)
    ensures fresh(a) && a.Length == src.Length && Bits(a) == Bits(src)
  {
    a := new bool[src.Length](i requires 0 <= i < src.Length reads src => src[i]);
  }

  method BitmapSet(a: array<bool>, i: int, on: bool)
    requires 0 <= i < a.Length
    modifies a
    ensures Bits(a) == if on then old(Bits(a)) + {i} else old(Bits(a)) - {i}
  {
    a[i] := on;
  }

  method BitmapFromArray(vids: seq<int>) returns (a: array<bool>)
    ensures fresh(a) && a.Length == VLAN_BITMAP_SIZE
    ensures Bits(a) == set t | t in vids && 0 <= t < VLAN_BITMAP_SIZE
  {
    a := BitmapAllocate();
    for i := 0 to |vids|
      invariant Bits(a) == set t | t in vids[..i] && 0 <= t < VLAN_BITMAP_SIZE
    {
      if 0 <= vids[i] < VLAN_BITMAP_SIZE {
        BitmapSet(a, vids[i], true);
      }
      assert vids[..i + 1] == vids[..i] + [vids[i]];
    }
    assert vids[..|vids|] == vids;
  }

  method BitmapOr(dst: array<bool>, src: array<bool>)
    requires dst != src && dst.Length == src.Length
    modifies dst
    ensures Bits(dst) == old(Bits(dst)) + Bits(src)
  {
    for i := 0 to dst.Length
      invariant forall j :: 0 <= j < i ==> dst[j] == (old(dst[j]) || src[j])
      invariant forall j :: i <= j < dst.Length ==> dst[j] == old(dst[j])
    {
      dst[i] := dst[i] || src[i];
    }
  }

  // ---- Cached objects ------------------------------------------------------------------

  class Port {
    var mode: VlanMode
    var nativeVid: int
    var trunkAllVlans: bool
    var vlansBitmap: array<bool>

    constructor Blank()
      ensures mode == Access && nativeVid == -1 && !trunkAllVlans
      ensures vlansBitmap.Length == 4096 && forall i :: 0 <= i < 4096 ==> !vlansBitmap[i]
      ensures Entry() == NewPortEntry() && fresh(vlansBitmap) && vlansBitmap.Length == VLAN_BITMAP_SIZE
    {
      mode, nativeVid, trunkAllVlans := Access, -1, false;
      vlansBitmap := new bool[VLAN_BITMAP_SIZE](_ => false);
    }

    ghost function Entry(): PortEntry
      reads this, vlansBitmap
    {
      PortEntry(mode, nativeVid, trunkAllVlans, Bits(vlansBitmap))
    }
  }

  /** idlCfg is the handle to the row the VLAN was created from; it is never exchanged. */
  class Vlan {
    const idlCfg: nat
    const vid: int
    var anyMemberExists: bool
    var admin: Admin
    var opState: OperState
    var opReason: OperReason

    constructor Parse(r: VlanRow)
      ensures idlCfg == r.uuid && vid == r.config.id && !anyMemberExists && admin == AdminDown
      ensures opState == OperUnknown && opReason == ReasonUnknown
      ensures Entry() == NewVlanEntry(r)
    {
      idlCfg, vid := r.uuid, r.config.id;
      anyMemberExists, admin := false, AdminDown;
      opState, opReason := OperUnknown, ReasonUnknown;
    }

    ghost function Entry(): VlanEntry
      reads this
    {
      VlanEntry(idlCfg, vid, anyMemberExists, admin, opState, opReason)
    }
  }

  // ---- Reading the replica ----------------------------------------------------------------

  method CheckPortInBridge(s: Snapshot, name: string) returns (found: bool)
    ensures found <==> exists i :: 0 <= i < |s.bridges| && name in s.bridges[i].ports
    ensures found <==> InBridge(s, name)
  {
    for i := 0 to |s.bridges|
      invariant forall k :: 0 <= k < i ==> name !in s.bridges[k].ports
    {
      for j := 0 to |s.bridges[i].ports|
        invariant forall k :: 0 <= k < j ==> s.bridges[i].ports[k] != name
      {
        if s.bridges[i].ports[j] == name {
          return true;
        }
      }
    }
    return false;
  }

  method DefaultVlanMemberPort(s: Snapshot) returns (found: bool)
    ensures found <==>
      && (exists i :: 0 <= i < |s.vlans| && s.vlans[i].config.id == 1)
      && (exists j :: 0 <= j < |s.ports|
            && (s.ports[j].config.tag == Some(1) || (s.ports[j].config.tag == None && 1 in s.ports[j].config.trunks)))
    ensures found <==> DefaultVlanMember(s)
  {
    DefaultRuleByColumns(s);
    found := false;
    var i := 0;
    while i < |s.vlans| && s.vlans[i].config.id != DEFAULT_VID
      invariant 0 <= i <= |s.vlans|
      invariant forall k :: 0 <= k < i ==> s.vlans[k].config.id != DEFAULT_VID
    {
      i := i + 1;
    }
    if i < |s.vlans| {
      for j := 0 to |s.ports|
        invariant !found && forall k :: 0 <= k < j ==> !MentionsDefault(s.ports[k].config)
      {
        var k := s.ports[j].config;
        if k.tag.Some? {
          found := k.tag.value == DEFAULT_VID;
        } else {
          for index := 0 to |k.trunks|
            invariant !found && forall m :: 0 <= m < index ==> k.trunks[m] != DEFAULT_VID
          {
            if k.trunks[index] == DEFAULT_VID {
              found := true;
              break;
            }
          }
        }
        if found {
          assert s.ports[j] in s.ports && s.vlans[i] in s.vlans;
          return;
        }
      }
    }
  }

  method CollectPorts(rows: seq<PortRow>) returns (m: map<string, PortRow>)
    ensures m == PortIndex(rows)
  {
    m := map[];
    for i := 0 to |rows|
      invariant m == PortIndex(rows[..i])
    {
      assert rows[..i + 1][..i] == rows[..i];
      if rows[i].name !in m {
        m := m[rows[i].name := rows[i]];
      }
    }
    assert rows[..|rows|] == rows;
  }

  method CollectVlans(rows: seq<VlanRow>) returns (m: map<string, VlanRow>)
    ensures m == VlanIndex(rows)
  {
    m := map[];
    for i := 0 to |rows|
      invariant m == VlanIndex(rows[..i])
    {
      assert rows[..i + 1][..i] == rows[..i];
      if rows[i].config.name !in m {
        m := m[rows[i].config.name := rows[i]];
      }
    }
    assert rows[..|rows|] == rows;
  }

  ghost predicate Live(s: Snapshot, uuid: nat) {
    exists r :: r in s.vlans && r.uuid == uuid
  }

  /** Following a row handle; only a live one can be followed. */
  function Deref(rows: seq<VlanRow>, uuid: nat): (r: VlanRow)
    requires exists k :: k in rows && k.uuid == uuid
    ensures r in rows && r.uuid == uuid
  {
    if rows[0].uuid == uuid then rows[0] else Deref(rows[1..], uuid)
  }

  ghost predicate MemberAmong(s: Snapshot, ports: map<string, PortEntry>, names: set<string>, vid: int) {
    exists p :: p in names && p in ports && IsMember(s, ports, p, vid)
  }

  lemma MemberAmongMore(s: Snapshot, ports: map<string, PortEntry>, names: set<string>, p: string, vid: int)
    requires p in ports
    ensures MemberAmong(s, ports, names + {p}, vid) <==> MemberAmong(s, ports, names, vid) || IsMember(s, ports, p, vid)
  {
  }

  lemma RefreshInTwo(s: Snapshot, c: Cache, d: Cache, n: string, r: VlanRow)
    requires WellFormedVlans(s.vlans) && r in s.vlans
    requires n in c.vlans && c.vlans[n].row == r.uuid && d == UpdateMembership(s, c, n)
    ensures n in d.vlans && HandleConfig(s, d, n, r.uuid, r.config.l3port) == Refresh(s, c, n)
  {
    MarkOfRow(s, r);
  }

  // ---- Steps and the sets they are for ----------------------------------------------------

  /** No port is deleted in the same batch as a VLAN in its bitmap. */
  ghost predicate DropsAreLive(s: Snapshot, c: Cache) {
    forall p, n :: p in c.ports && p !in PortIndex(s.ports) && n in c.vlans && c.vlans[n].vid in c.ports[p].bits ==>
      n in VlanIndex(s.vlans)
  }

  lemma HandlesCarryOver(a: Snapshot, b: Snapshot, c: Cache)
    requires Synced(a, c) && NoneReplaced(a, b) && WellFormedVlans(b.vlans)
    ensures HandlesMatch(b, c)
  {
    forall n, r | n in c.vlans && r in b.vlans && r.config.id == c.vlans[n].vid ensures r.uuid == c.vlans[n].row {
      IndexOfRow(b.vlans, r);
      SyncedMeansExactTables(a, c);
      assert n in VlanIndex(a.vlans) && VlanIndex(a.vlans)[n].config.id == r.config.id;
    }
  }

  lemma HandleIsLive(a: Snapshot, b: Snapshot, c: Cache, n: string)
    requires Synced(a, c) && NoneReplaced(a, b) && n in c.vlans && n in VlanIndex(b.vlans)
    ensures Live(b, c.vlans[n].row)
  {
    SyncedMeansExactTables(a, c);
    assert VlanIndex(b.vlans)[n] in b.vlans && VlanIndex(b.vlans)[n].uuid == VlanIndex(a.vlans)[n].uuid;
  }

  lemma EarlyThenLate(a: seq<Step>, b: seq<Step>, k: nat)
    requires Scheduled(a) && Scheduled(b)
    requires (forall x :: x in a ==> Phase(x) < k) && (forall x :: x in b ==> Phase(x) >= k)
    ensures Scheduled(a + b)
  {
    var c := a + b;
    forall i, j | 0 <= i < j < |c| ensures Phase(c[i]) <= Phase(c[j]) && c[i] != c[j] {
      if j < |a| {
        assert c[i] == a[i] && c[j] == a[j];
      } else if i < |a| {
        assert c[i] in a && c[j] == b[j - |a|] && c[j] in b;
      } else {
        assert c[i] == b[i - |a|] && c[j] == b[j - |a|];
      }
    }
  }

  /** The port work of a pass: what to drop, then what to add, then what to read. */
  ghost predicate PortSteps(s: Snapshot, since: nat, c: Cache, steps: seq<Step>) {
    var ports := PortIndex(s.ports);
    && Scheduled(steps) && (forall x :: x in steps ==> Phase(x) <= 2)
    && (forall p :: DropPort(p) in steps <==> p in c.ports && p !in ports)
    && (forall p :: AddPort(p) in steps <==> p in ports && p !in c.ports && p != DEFAULT_BRIDGE_NAME)
    && (forall p :: ReadPort(p) in steps <==> p in ports && p != DEFAULT_BRIDGE_NAME && PortFlagged(ports[p], since))
  }

  /** The VLAN work of a pass: what to drop, then what to add, then what to read. */
  ghost predicate VlanSteps(s: Snapshot, since: nat, c: Cache, steps: seq<Step>) {
    var vlans := VlanIndex(s.vlans);
    && Scheduled(steps) && (forall x :: x in steps ==> Phase(x) >= 3)
    && (forall n :: DropVlan(n) in steps <==> n in c.vlans && n !in vlans)
    && (forall n :: AddVlan(n) in steps <==> n in vlans && n !in c.vlans)
    && (forall n :: ReadVlan(n) in steps <==> n in vlans && VlanFlagged(vlans[n], since))
  }

  lemma PassFromPhases(s: Snapshot, since: nat, c: Cache, d: Cache, ports: seq<Step>, vlans: seq<Step>)
    requires PortSteps(s, since, c, ports) && VlanSteps(s, since, d, vlans) && c.vlans.Keys == d.vlans.Keys
    ensures IsPass(s, since, c, ports + vlans)
  {
    EarlyThenLate(ports, vlans, 3);
    var steps := ports + vlans;
    forall p ensures DropPort(p) in steps <==> DropPort(p) in ports {
      assert Phase(DropPort(p)) < 3;
    }
    forall p ensures AddPort(p) in steps <==> AddPort(p) in ports {
      assert Phase(AddPort(p)) < 3;
    }
    forall p ensures ReadPort(p) in steps <==> ReadPort(p) in ports {
      assert Phase(ReadPort(p)) < 3;
    }
    forall n ensures DropVlan(n) in steps <==> DropVlan(n) in vlans {
      assert Phase(DropVlan(n)) >= 3;
    }
    forall n ensures AddVlan(n) in steps <==> AddVlan(n) in vlans {
      assert Phase(AddVlan(n)) >= 3;
    }
    forall n ensures ReadVlan(n) in steps <==> ReadVlan(n) in vlans {
      assert Phase(ReadVlan(n)) >= 3;
    }
    forall n ensures n in c.vlans <==> n in d.vlans {
      assert n in c.vlans.Keys <==> n in d.vlans.Keys;
    }
  }

  lemma VlansAfter(held: set<string>, rows: set<string>)
    ensures held * rows + rows == rows && rows - held * rows == rows - held
  {
  }

  function StepOf(phase: nat, name: string): (x: Step)
    requires phase <= 5
    ensures Phase(x) == phase
  {
    match phase
    case 0 => DropPort(name)
    case 1 => AddPort(name)
    case 2 => ReadPort(name)
    case 3 => DropVlan(name)
    case 4 => AddVlan(name)
    case _ => ReadVlan(name)
  }

  /** The steps are those of one phase for exactly these names, each once. */
  ghost predicate Each(steps: seq<Step>, phase: nat, names: set<string>)
    requires phase <= 5
  {
    OnePhase(steps, phase) && forall p :: StepOf(phase, p) in steps <==> p in names
  }

  ghost function FlaggedVlans(rows: map<string, VlanRow>, since: nat): set<string> {
    set n | n in rows && VlanFlagged(rows[n], since)
  }

  lemma ThreePhases(a: seq<Step>, b: seq<Step>, c: seq<Step>, k: nat)
    requires OnePhase(a, k) && OnePhase(b, k + 1) && OnePhase(c, k + 2)
    ensures Scheduled(a + b + c)
    ensures forall x :: x in a + b + c <==> x in a || x in b || x in c
    ensures forall x :: x in a + b + c ==> k <= Phase(x) <= k + 2
  {
    PhasesInOrder([], a, k);
    assert [] + a == a;
    PhasesInOrder(a, b, k + 1);
    PhasesInOrder(a + b, c, k + 2);
  }

  lemma VlanPhases(s: Snapshot, since: nat, c: Cache, rows: map<string, VlanRow>,
                   drops: seq<Step>, adds: seq<Step>, rereads: seq<Step>)
    requires rows == VlanIndex(s.vlans)
    requires Each(drops, 3, c.vlans.Keys - rows.Keys)
    requires Each(adds, 4, rows.Keys - c.vlans.Keys)
    requires Each(rereads, 5, rows.Keys * FlaggedVlans(rows, since))
    ensures VlanSteps(s, since, c, drops + adds + rereads)
  {
    ThreePhases(drops, adds, rereads, 3);
    forall n ensures DropVlan(n) in drops <==> n in c.vlans && n !in rows {
      assert StepOf(3, n) == DropVlan(n);
    }
    forall n ensures AddVlan(n) in adds <==> n in rows && n !in c.vlans {
      assert StepOf(4, n) == AddVlan(n);
    }
    forall n ensures ReadVlan(n) in rereads <==> n in rows && VlanFlagged(rows[n], since) {
      assert StepOf(5, n) == ReadVlan(n);
    }
  }

  function ClearedOne(e: PortEntry, vid: int): PortEntry {
    if e.trunkAll then e.(bits := e.bits - {vid}) else e
  }

  ghost function ClearedPorts(c: Cache, vid: int): map<string, PortEntry> {
    map p | p in c.ports :: ClearedOne(c.ports[p], vid)
  }

  lemma DroppedVlan(c: Cache, n: string)
    requires n in c.vlans
    ensures var vid := c.vlans[n].vid;
      DoDropVlan(c, n) == c.(ports := ClearedPorts(c, vid), allVids := c.allVids - {vid}, vlans := c.vlans - {n})
  {
  }

  lemma AddedGrows(all: set<string>, bridge: string, held: set<string>, todo: set<string>, p: string)
    requires p in todo && todo <= all
    ensures all - {bridge} - held - (todo - {p}) ==
      all - {bridge} - held - todo + (if p == bridge || p in held then {} else {p})
  {
  }

  lemma NewKeys(held: set<string>, added: set<string>, bridge: string, p: string)
    ensures held + added + (if p == bridge then {} else {p}) ==
      held + (added + (if p == bridge || p in held then {} else {p}))
  {
  }

  lemma KeysGrow(held: set<string>, added: set<string>, n: string)
    ensures held + added + {n} == held + (added + (if n in held then {} else {n}))
  {
  }

  lemma AllAdded(all: set<string>, bridge: string, held: set<string>)
    ensures held + (all - {bridge} - held - {}) == held + (all - {bridge})
    ensures all - {bridge} - held - {} == all - {bridge} - held
  {
  }

  lemma ReadGrows(all: set<string>, flagged: set<string>, todo: set<string>, p: string)
    requires p in todo && todo <= all
    ensures all * flagged - (todo - {p}) == all * flagged - todo + (if p in flagged then {p} else {})
    ensures all * flagged - {} == all * flagged
  {
  }

  ghost function FlaggedPorts(rows: map<string, PortRow>, since: nat): set<string> {
    set p | p in rows && PortFlagged(rows[p], since)
  }

  lemma RunThree(s: Snapshot, c: Cache, x: seq<Step>, y: seq<Step>, z: seq<Step>)
    ensures Run(s, c, x + y + z) == Run(s, Run(s, Run(s, c, x), y), z)
  {
    RunAppend(s, c, x, y);
    RunAppend(s, c, x + y, z);
  }

  lemma PortsAfter(held: set<string>, rows: set<string>, bridge: string)
    requires bridge !in held
    ensures held * rows + (rows - {bridge}) == rows - {bridge}
    ensures rows - {bridge} - held * rows == rows - {bridge} - held
  {
  }

  lemma EachDropPort(steps: seq<Step>, names: set<string>)
    requires Each(steps, 0, names)
    ensures forall p :: DropPort(p) in steps <==> p in names
  {
    forall p ensures DropPort(p) in steps <==> p in names { assert StepOf(0, p) == DropPort(p); }
  }

  lemma EachAddPort(steps: seq<Step>, names: set<string>)
    requires Each(steps, 1, names)
    ensures forall p :: AddPort(p) in steps <==> p in names
  {
    forall p ensures AddPort(p) in steps <==> p in names { assert StepOf(1, p) == AddPort(p); }
  }

  lemma EachReadPort(steps: seq<Step>, names: set<string>)
    requires Each(steps, 2, names)
    ensures forall p :: ReadPort(p) in steps <==> p in names
  {
    forall p ensures ReadPort(p) in steps <==> p in names { assert StepOf(2, p) == ReadPort(p); }
  }

  lemma PortPhases(s: Snapshot, since: nat, c: Cache, rows: map<string, PortRow>,
                   drops: seq<Step>, adds: seq<Step>, rereads: seq<Step>)
    requires rows == PortIndex(s.ports)
    requires Each(drops, 0, c.ports.Keys - rows.Keys)
    requires Each(adds, 1, rows.Keys - {DEFAULT_BRIDGE_NAME} - c.ports.Keys)
    requires Each(rereads, 2, (rows.Keys - {DEFAULT_BRIDGE_NAME}) * FlaggedPorts(rows, since))
    ensures PortSteps(s, since, c, drops + adds + rereads)
  {
    ThreePhases(drops, adds, rereads, 0);
    EachDropPort(drops, c.ports.Keys - rows.Keys);
    EachAddPort(adds, rows.Keys - {DEFAULT_BRIDGE_NAME} - c.ports.Keys);
    EachReadPort(rereads, (rows.Keys - {DEFAULT_BRIDGE_NAME}) * FlaggedPorts(rows, since));
  }

  lemma WithoutMore<K, V>(m: map<K, V>, a: set<K>, b: set<K>)
    ensures m - a - b == m - (a + b)
  {
  }

  lemma WithoutAll<K, V>(m: map<K, V>, kept: set<K>)
    ensures (m - (m.Keys - kept - {})).Keys == m.Keys * kept && m.Keys - kept - {} == m.Keys - kept
  {
  }

  lemma StillThere<V>(m: map<string, V>, gone: set<string>, kept: set<string>, todo: set<string>, p: string)
    requires gone == m.Keys - kept - todo && p in todo && todo <= m.Keys
    ensures p !in gone && p in m - gone && (m - gone)[p] == m[p]
  {
  }

  lemma DoomedGrows(all: set<string>, kept: set<string>, todo: set<string>, p: string)
    requires p in todo && todo <= all
    ensures all - kept - (todo - {p}) == all - kept - todo + (if p in kept then {} else {p})
  {
  }

  lemma EachMore(steps: seq<Step>, phase: nat, names: set<string>, p: string)
    requires phase <= 5 && Each(steps, phase, names) && p !in names
    ensures Each(steps + [StepOf(phase, p)], phase, names + {p})
  {
    OnePhaseMore(steps, phase, StepOf(phase, p));
  }

  lemma RereadReady(c: Cache, d: Cache, p: string, k: PortConfig, inBridge: bool)
    requires Ready(c) && p in c.ports && d == c.(ports := c.ports[p := ParsePort(k, c.allVids, inBridge)])
    ensures Ready(d)
  {
  }

  lemma EachOf(phase: nat, names: set<string>) returns (steps: seq<Step>)
    requires phase <= 5
    ensures Each(steps, phase, names)
  {
    steps := [];
    var done: set<string> := {};
    while done != names
      invariant done <= names && Each(steps, phase, done)
      decreases |names - done|
    {
      var p :| p in names - done;
      EachMore(steps, phase, done, p);
      steps := steps + [StepOf(phase, p)];
      done := done + {p};
    }
  }

  /** Whatever the cache and the rows, there is an order of visiting that makes a pass. */
  lemma PassExists(s: Snapshot, since: nat, c: Cache) returns (steps: seq<Step>)
    ensures IsPass(s, since, c, steps)
  {
    var ports, vlans := PortIndex(s.ports), VlanIndex(s.vlans);
    var dropPorts := EachOf(0, c.ports.Keys - ports.Keys);
    var addPorts := EachOf(1, ports.Keys - {DEFAULT_BRIDGE_NAME} - c.ports.Keys);
    var readPorts := EachOf(2, (ports.Keys - {DEFAULT_BRIDGE_NAME}) * FlaggedPorts(ports, since));
    PortPhases(s, since, c, ports, dropPorts, addPorts, readPorts);
    var dropVlans := EachOf(3, c.vlans.Keys - vlans.Keys);
    var addVlans := EachOf(4, vlans.Keys - c.vlans.Keys);
    var readVlans := EachOf(5, vlans.Keys * FlaggedVlans(vlans, since));
    VlanPhases(s, since, c, vlans, dropVlans, addVlans, readVlans);
    PassFromPhases(s, since, c, c, dropPorts + addPorts + readPorts, dropVlans + addVlans + readVlans);
    steps := dropPorts + addPorts + readPorts + (dropVlans + addVlans + readVlans);
  }

  lemma ScanRowOf(s: Snapshot, c: Cache, vid: int, r: VlanRow, n: string)
    requires r.config.id == vid && LookupVid(c.vlans, vid) == Some(n)
    ensures n in c.vlans
    ensures ScanRow(s, c, vid, r) == if r.config.l3port then UpdateMembership(s, c, n) else Refresh(s, c, n)
  {
  }

  /** The fields of the daemon after a call that reconfigures. */
  lemma CallDone(d: Daemon, t: Call, e: Daemon)
    requires Reconfigures(d, t) && e.configured && (t.snap.seqno == d.last.seqno ==> t.snap == d.last)
    requires e.defaultSeen <==> d.defaultSeen || HasDefault(t.first) || HasDefaultBridge(t.first)
    requires e.last == t.snap && e.cache == if Passes(d, t) then Run(t.snap, d.cache, t.steps) else d.cache
    ensures e == AfterCall(d, t)
  {
  }

  // ---- The daemon ---------------------------------------------------------------------------

  class Vland {
    var allPorts: map<string, Port>
    var allVlans: map<string, Vlan>
    var allVlansBitmap: array<bool>
    var db: map<nat, Columns>
    ghost var writes: nat
    ghost var bitmaps: set<array<bool>>  // the bitmaps of the cached ports

    /** Objects and bitmaps are not shared; in particular no port holds the global bitmap. */
    ghost predicate Valid()
      reads this, allVlansBitmap, allPorts.Values, allVlans.Values
    {
      && allVlansBitmap.Length == VLAN_BITMAP_SIZE && allVlansBitmap !in bitmaps
      && (forall p :: p in allPorts ==>
            allPorts[p].vlansBitmap.Length == VLAN_BITMAP_SIZE && allPorts[p].vlansBitmap in bitmaps)
      && (forall p, q :: p in allPorts && q in allPorts && p != q ==>
            allPorts[p] != allPorts[q] && allPorts[p].vlansBitmap != allPorts[q].vlansBitmap)
      && (forall n, m :: n in allVlans && m in allVlans && n != m ==> allVlans[n] != allVlans[m])
    }

    ghost function PortEntries(): map<string, PortEntry>
      requires Valid()
      reads this, allVlansBitmap, allPorts.Values, allVlans.Values, bitmaps
    {
      map p | p in allPorts :: allPorts[p].Entry()
    }

    ghost function VlanEntries(): map<string, VlanEntry>
      reads this, allVlans.Values
    {
      map n | n in allVlans :: allVlans[n].Entry()
    }

    ghost function State(): Cache
      requires Valid()
      reads this, allVlansBitmap, allPorts.Values, allVlans.Values, bitmaps
    {
      Cache(PortEntries(), VlanEntries(), Bits(allVlansBitmap), db, writes)
    }

    ghost predicate UsableVids()
      reads `allVlans
    {
      forall n :: n in allVlans ==> ValidVid(allVlans[n].vid)
    }

    lemma UsableFromState(c: Cache)
      requires c.vlans == VlanEntries() && VidsKnown(c)
      ensures UsableVids()
    {
      forall n | n in allVlans ensures ValidVid(allVlans[n].vid) {
        assert c.vlans[n] == allVlans[n].Entry();
      }
    }

    constructor ()
      ensures Valid() && State() == EMPTY_CACHE && fresh(allVlansBitmap)
      ensures allPorts == map[] && allVlans == map[] && bitmaps == {}
    {
      allPorts, allVlans, db, writes, bitmaps := map[], map[], map[], 0, {};
      allVlansBitmap := new bool[VLAN_BITMAP_SIZE](_ => false);
    }

    /** When only VLAN n's object, the written columns and the write count changed. */
    twostate lemma OneVlanChanged(n: string)
      requires old(Valid()) && n in allVlans
      requires allPorts == old(allPorts) && allVlans == old(allVlans) && allVlansBitmap == old(allVlansBitmap)
      requires bitmaps == old(bitmaps)
      requires unchanged(allPorts.Values) && unchanged(old(bitmaps)) && unchanged(allVlansBitmap)
      requires forall m :: m in allVlans && m != n ==> unchanged(allVlans[m])
      ensures Valid()
      ensures var c := old(State());
        State() == c.(vlans := c.vlans[n := allVlans[n].Entry()], db := db, writes := writes)
    {
      assert PortEntries() == old(PortEntries());
      assert VlanEntries() == old(VlanEntries())[n := allVlans[n].Entry()];
    }

    method VlanLookupByVid(vid: int) returns (v: Vlan?, ghost n: string)
      requires Valid() && VidsDistinct(State())
      ensures v == null <==> LookupVid(State().vlans, vid) == None
      ensures v != null ==> n in allVlans && allVlans[n] == v && LookupVid(State().vlans, vid) == Some(n)
    {
      v, n := null, "";
      var todo := allVlans.Keys;
      while todo != {}
        invariant todo <= allVlans.Keys
        invariant forall m :: m in allVlans.Keys - todo ==> allVlans[m].vid != vid
        decreases todo
      {
        var m :| m in todo;
        if allVlans[m].vid == vid {
          assert State().vlans[m].vid == vid;
          return allVlans[m], m;
        }
        todo := todo - {m};
      }
      assert forall m :: m in State().vlans ==> State().vlans[m].vid != vid;
    }

    /** The loop body of update_vlan_membership for one port. */
    method JoinPort(s: Snapshot, p: string, port: Port, vid: int) returns (member: bool)
      requires port.vlansBitmap.Length == VLAN_BITMAP_SIZE && ValidVid(vid)
      modifies port.vlansBitmap
      ensures port.Entry() == SpreadOne(s, p, old(port.Entry()), vid)
      ensures member <==> InBridge(s, p) && (port.trunkAllVlans || vid in old(Bits(port.vlansBitmap)))
    {
      member := false;
      var inBridge := CheckPortInBridge(s, p);
      if inBridge {
        if port.trunkAllVlans {
          member := true;
          BitmapSet(port.vlansBitmap, vid, true);
        } else if port.vlansBitmap[vid] {
          member := true;
        }
      }
    }

    method JoinPorts(s: Snapshot, vid: int) returns (found: bool)
      requires Valid() && ValidVid(vid)
      modifies bitmaps
      ensures Valid() && Bits(allVlansBitmap) == old(Bits(allVlansBitmap)) && VlanEntries() == old(VlanEntries())
      ensures PortEntries() == Spread(s, old(PortEntries()), vid)
      ensures found <==> AnyMember(s, old(PortEntries()), vid)
    {
      ghost var before := PortEntries();
      found := false;
      var todo := allPorts.Keys;
      while todo != {}
        invariant todo <= allPorts.Keys
        invariant Bits(allVlansBitmap) == old(Bits(allVlansBitmap))
        invariant forall p :: p in allPorts ==>
          allPorts[p].Entry() == if p in todo then before[p] else SpreadOne(s, p, before[p], vid)
        invariant found <==> MemberAmong(s, before, before.Keys - todo, vid)
        decreases todo
      {
        var p :| p in todo;
        label turn:
        assert allPorts[p].Entry() == before[p];
        var member := JoinPort(s, p, allPorts[p], vid);
        forall q | q in allPorts && q != p ensures allPorts[q].Entry() == old@turn(allPorts[q].Entry()) {}
        MemberAmongMore(s, before, before.Keys - todo, p, vid);
        assert before.Keys - (todo - {p}) == before.Keys - todo + {p};
        found := found || member;
        todo := todo - {p};
      }
      assert before.Keys - {} == before.Keys;
      assert PortEntries() == Spread(s, before, vid);
    }

    method UpdateVlanMembership(s: Snapshot, v: Vlan, ghost n: string)
      requires Valid() && n in allVlans && allVlans[n] == v && ValidVid(v.vid)
      modifies bitmaps, v`anyMemberExists
      ensures Valid() && State() == UpdateMembership(s, old(State()), n)
    {
      var found := JoinPorts(s, v.vid);
      label joined:
      assert VlanEntries()[n] == v.Entry();
      v.anyMemberExists := found;
      OneVlanChanged@joined(n);
    }

    /** The state and reason a VLAN should have; for VID 1 this may also raise its member flag. */
    method CalcVlanOpStateNReason(s: Snapshot, v: Vlan) returns (state: OperState, reason: OperReason)
      modifies v`anyMemberExists
      ensures v.Entry() == Promoted(s, old(v.Entry()))
      ensures (state, reason) == StateOf(v.vid, v.admin, v.anyMemberExists)
    {
      state, reason := OperDown, ReasonUnknown;
      if v.vid == DEFAULT_VID {
        state := OperUp;
        var found := DefaultVlanMemberPort(s);
        if found {
          v.anyMemberExists := true;
        }
      }
      if v.admin == AdminDown {
        reason := ReasonAdminDown;
      } else if !v.anyMemberExists {
        reason := ReasonNoMemberPort;
      } else {
        state := OperUp;
        reason := ReasonOk;
      }
    }

    /** Returns the number of rows written: a row is written exactly when the VLAN's state changed. */
    method HandleVlanConfig(s: Snapshot, r: VlanRow, v: Vlan, ghost n: string) returns (rc: int)
      requires Valid() && n in allVlans && allVlans[n] == v
      modifies v`anyMemberExists, v`opState, v`opReason, `db, `writes
      ensures Valid() && State() == HandleConfig(s, old(State()), n, r.uuid, r.config.l3port)
      ensures rc == writes - old(writes) && 0 <= rc <= 1
    {
      if r.config.l3port {
        return 0;
      }
      ghost var entry := v.Entry();
      assert entry == State().vlans[n];
      var state, reason := CalcVlanOpStateNReason(s, v);
      if state == v.opState && reason == v.opReason {
        OneVlanChanged(n);
        return 0;
      }
      v.opState, v.opReason := state, reason;
      db := db[r.uuid := Columns(v.opState == OperUp, v.opState, v.opReason)];
      writes := writes + 1;
      OneVlanChanged(n);
      return 1;
    }

    /** Membership and state of one VLAN, through the handle kept in the cache. */
    method RefreshVlan(s: Snapshot, v: Vlan, ghost n: string) returns (rc: int)
      requires Valid() && n in allVlans && allVlans[n] == v && ValidVid(v.vid)
      requires WellFormedVlans(s.vlans) && Live(s, v.idlCfg)
      modifies bitmaps, v`anyMemberExists, v`opState, v`opReason, `db, `writes
      ensures Valid() && State() == Refresh(s, old(State()), n)
      ensures rc == writes - old(writes) && 0 <= rc <= 1
    {
      ghost var before := State();
      assert before.vlans[n] == v.Entry();
      UpdateVlanMembership(s, v, n);
      ghost var joined := State();
      var r := Deref(s.vlans, v.idlCfg);
      assert joined == UpdateMembership(s, before, n) && before.vlans[n].row == r.uuid;
      rc := HandleVlanConfig(s, r, v, n);
      ghost var after := State();
      assert after == HandleConfig(s, joined, n, r.uuid, r.config.l3port);
      RefreshInTwo(s, before, joined, n, r);
      assert after == Refresh(s, before, n);
    }

    // ---- Ports ----------------------------------------------------------------------------

    /** Every cached VLAN in this bitmap still has its row. */
    ghost predicate LiveIn(s: Snapshot, bits: set<int>)
      reads `allVlans
    {
      forall n :: n in allVlans && allVlans[n].vid in bits ==> Live(s, allVlans[n].idlCfg)
    }

    method RefreshByVid(s: Snapshot, vid: int) returns (rc: int)
      requires Valid() && VidsDistinct(State()) && UsableVids()
      requires WellFormedVlans(s.vlans) && LiveIn(s, {vid})
      modifies `db, `writes, bitmaps, allVlans.Values
      ensures Valid() && State() == RefreshVid(s, old(State()), vid)
      ensures rc == writes - old(writes) && 0 <= rc <= 1
    {
      var v, n := VlanLookupByVid(vid);
      if v == null {
        return 0;
      }
      rc := RefreshVlan(s, v, n);
    }

    /** One turn of the loop of del_old_port. */
    method RefreshBit(s: Snapshot, bitmap: array<bool>, vid: int, ghost start: Cache,
                      ghost bits: set<int>) returns (rc: int)
      requires Valid() && Ready(State()) && bitmap.Length == VLAN_BITMAP_SIZE && 0 <= vid < VLAN_BITMAP_SIZE
      requires bitmap !in bitmaps && UsableVids() && bits == Bits(bitmap)
      requires WellFormedVlans(s.vlans) && LiveIn(s, bits)
      requires State() == RefreshBits(s, start, bits, vid) && Ready(start)
      modifies `db, `writes, bitmaps, allVlans.Values
      ensures Valid() && State() == RefreshBits(s, start, bits, vid + 1) && Bits(bitmap) == bits
      ensures Ready(State()) && State().ports == start.ports
      ensures rc == writes - old(writes) && 0 <= rc <= 1
    {
      rc := 0;
      if bitmap[vid] {
        assert vid in bits;
        rc := RefreshByVid(s, vid);
      }
      RefreshBitsEffect(s, start, bits, vid + 1);
    }

    /** The loop of del_old_port over a bitmap that no cached port holds any more. */
    method RefreshBitmap(s: Snapshot, bitmap: array<bool>) returns (rc: int)
      requires Valid() && Ready(State()) && bitmap.Length == VLAN_BITMAP_SIZE
      requires bitmap !in bitmaps && UsableVids()
      requires WellFormedVlans(s.vlans) && LiveIn(s, Bits(bitmap))
      modifies `db, `writes, bitmaps, allVlans.Values
      ensures Valid() && State() == RefreshBits(s, old(State()), Bits(bitmap), VLAN_BITMAP_SIZE) && Ready(State())
      ensures State().ports == old(State()).ports
      ensures rc >= 0 && writes >= old(writes) && (rc != 0 <==> writes != old(writes))
    {
      rc := 0;
      ghost var start := State();
      ghost var bits := Bits(bitmap);
      for vid := 0 to VLAN_BITMAP_SIZE
        invariant Valid() && Bits(bitmap) == bits
        invariant State() == RefreshBits(s, start, bits, vid) && Ready(State()) && State().ports == start.ports
        invariant rc >= 0 && writes >= old(writes) && (rc != 0 <==> writes != old(writes))
      {
        var wrote := RefreshBit(s, bitmap, vid, start, bits);
        rc := if wrote != 0 then rc + 1 else rc;
      }
    }

    /** Takes a port out of the cache, so that it no longer counts as a member of anything. */
    method ForgetPort(p: string) returns (port: Port)
      requires Valid() && p in allPorts
      modifies `allPorts, `bitmaps
      ensures port == old(allPorts)[p] && allPorts == old(allPorts) - {p}
      ensures bitmaps == old(bitmaps) - {port.vlansBitmap}
      ensures Valid() && State() == old(State()).(ports := old(State()).ports - {p})
    {
      port := allPorts[p];
      allPorts := allPorts - {p};
      bitmaps := bitmaps - {port.vlansBitmap};
      assert PortEntries() == old(PortEntries()) - {p};
    }

    method DelOldPort(s: Snapshot, p: string) returns (rc: int)
      requires Valid() && Ready(State()) && p in allPorts
      requires WellFormedVlans(s.vlans) && LiveIn(s, Bits(allPorts[p].vlansBitmap))
      modifies `allPorts, `bitmaps, `db, `writes, bitmaps, allVlans.Values
      ensures Valid() && State() == DoDropPort(s, old(State()), p) && Ready(State())
      ensures State().ports == old(State()).ports - {p}
      ensures allPorts == old(allPorts) - {p} && bitmaps <= old(bitmaps)
      ensures rc >= 0 && writes >= old(writes) && (rc != 0 <==> writes != old(writes))
    {
      ghost var before := State();
      ghost var bits := Bits(allPorts[p].vlansBitmap);
      assert bits == before.ports[p].bits;
      UsableFromState(before);
      var port := ForgetPort(p);
      ghost var start := State();
      assert Ready(start);
      rc := RefreshBitmap(s, port.vlansBitmap);
    }

    ghost method AdmitBitmap(bitmap: array<bool>)
      requires Valid() && bitmap != allVlansBitmap
      modifies `bitmaps
      ensures Valid() && State() == old(State()) && bitmaps == old(bitmaps) + {bitmap}
    {
      bitmaps := bitmaps + {bitmap};
      assert PortEntries() == old(PortEntries());
    }

    method PlacePort(p: string, port: Port)
      requires Valid() && p !in allPorts && port.Entry() == NewPortEntry()
      requires port.vlansBitmap.Length == VLAN_BITMAP_SIZE
      requires port.vlansBitmap in bitmaps
      requires forall q :: q in allPorts ==> allPorts[q] != port && allPorts[q].vlansBitmap != port.vlansBitmap
      modifies `allPorts
      ensures Valid() && State() == old(State()).(ports := old(State()).ports[p := NewPortEntry()])
      ensures allPorts == old(allPorts)[p := port]
    {
      allPorts := allPorts[p := port];
      assert PortEntries() == old(PortEntries())[p := NewPortEntry()];
    }

    method AddNewPort(p: string)
      requires Valid() && p !in allPorts
      modifies `allPorts, `bitmaps
      ensures Valid() && State() == old(State()).(ports := old(State()).ports[p := NewPortEntry()])
      ensures p in allPorts && allPorts == old(allPorts)[p := allPorts[p]]
      ensures fresh(allPorts[p]) && bitmaps == old(bitmaps) + {allPorts[p].vlansBitmap}
      ensures fresh(allPorts[p].vlansBitmap)
    {
      var port := new Port.Blank();
      AdmitBitmap(port.vlansBitmap);
      PlacePort(p, port);
    }

    // The bitmap built here starts from the VLANs known before the pass.
    method ConstructVlanBitmap(s: Snapshot, row: PortRow, port: Port)
      requires allVlansBitmap.Length == VLAN_BITMAP_SIZE
      modifies port
      ensures fresh(port.vlansBitmap) && port.vlansBitmap.Length == VLAN_BITMAP_SIZE
      ensures port.Entry() == ParsePort(row.config, Bits(allVlansBitmap), InBridge(s, row.name))
      ensures forall x :: x in Bits(port.vlansBitmap) <==> BitByColumns(row.config, Bits(allVlansBitmap), x)
    {
      var k := row.config;
      var nativeVid, trunkAll := -1, false;
      var mode: VlanMode;
      match k.mode {
        case Some(m) => mode := if m == Unrecognised then Trunk else m;
        case None => mode := if k.tag.Some? then Access else Trunk;
      }
      if k.tag.Some? && mode != Trunk {
        nativeVid := k.tag.value;
      }
      var bitmap: array<bool>;
      if |k.trunks| > 0 && mode != Access {
        bitmap := BitmapFromArray(k.trunks);
      } else if mode == Access {
        bitmap := BitmapAllocate();
      } else {
        bitmap := BitmapClone(allVlansBitmap);
        var inBridge := CheckPortInBridge(s, row.name);
        if inBridge {
          trunkAll := true;
        }
      }
      if ValidVid(nativeVid) {
        BitmapSet(bitmap, nativeVid, true);
      }
      port.mode, port.nativeVid, port.vlansBitmap, port.trunkAllVlans := mode, nativeVid, bitmap, trunkAll;
      AllBitsByColumns(k, Bits(allVlansBitmap), InBridge(s, row.name));
    }

    /** Every cached VLAN with the id of a table row was created from that row. */
    ghost predicate Matched(s: Snapshot)
      reads `allVlans
    {
      forall n, r :: n in allVlans && r in s.vlans && r.config.id == allVlans[n].vid ==> r.uuid == allVlans[n].idlCfg
    }

    lemma MatchedState(s: Snapshot)
      requires Valid()
      ensures Matched(s) <==> HandlesMatch(s, State())
    {
      forall n | n in allVlans ensures State().vlans[n] == allVlans[n].Entry() {}
      if HandlesMatch(s, State()) {
        forall n, r | n in allVlans && r in s.vlans && r.config.id == allVlans[n].vid
          ensures r.uuid == allVlans[n].idlCfg
        {
          assert n in State().vlans && r.config.id == State().vlans[n].vid;
        }
      }
      if Matched(s) {
        forall n, r | n in State().vlans && r in s.vlans && r.config.id == State().vlans[n].vid
          ensures r.uuid == State().vlans[n].row
        {
          assert n in allVlans && r.config.id == allVlans[n].vid;
        }
      }
    }

    method ScanVlanRow(s: Snapshot, vid: int, r: VlanRow) returns (rc: int)
      requires Valid() && VidsDistinct(State()) && Matched(s) && UsableVids() && WellFormedVlans(s.vlans)
      requires r in s.vlans && r.config.id == vid
      modifies `db, `writes, bitmaps, allVlans.Values
      ensures Valid() && State() == ScanRow(s, old(State()), vid, r)
      ensures rc == writes - old(writes) && 0 <= rc <= 1
    {
      var v, n := VlanLookupByVid(vid);
      if v == null {
        return 0;
      }
      assert State().vlans[n] == v.Entry() && r.uuid == v.idlCfg;
      ScanRowOf(s, State(), vid, r, n);
      if r.config.l3port {
        UpdateVlanMembership(s, v, n);
        return 0;
      }
      rc := RefreshVlan(s, v, n);
    }

    /** The inner loop of update_port_cache over the VLAN table. */
    method ScanVlanTable(s: Snapshot, vid: int) returns (rc: int)
      requires Valid() && Ready(State()) && Matched(s) && UsableVids() && WellFormedVlans(s.vlans)
      modifies `db, `writes, bitmaps, allVlans.Values
      ensures Valid() && State() == ScanRows(s, old(State()), vid, |s.vlans|)
      ensures rc >= 0 && writes >= old(writes) && (rc != 0 <==> writes != old(writes))
    {
      rc := 0;
      ghost var start := State();
      MatchedState(s);
      for i := 0 to |s.vlans|
        invariant Valid() && State() == ScanRows(s, start, vid, i)
        invariant rc >= 0 && writes >= old(writes) && (rc != 0 <==> writes != old(writes))
      {
        var r := s.vlans[i];
        if r.config.id == vid {
          ScanRowsEffect(s, start, vid, i);
          assert State() == start;
          var wrote := ScanVlanRow(s, vid, r);
          rc := if wrote != 0 then rc + 1 else rc;
        }
      }
    }

    /** The bitmap loop of update_port_cache, over a bitmap that no cached port holds. */
    method ScanBitmap(s: Snapshot, bitmap: array<bool>) returns (rc: int)
      requires Valid() && Ready(State()) && Matched(s) && UsableVids() && WellFormedVlans(s.vlans)
      requires bitmap.Length == VLAN_BITMAP_SIZE && bitmap !in bitmaps
      modifies `db, `writes, bitmaps, allVlans.Values
      ensures Valid() && State() == ScanBits(s, old(State()), Bits(bitmap), VLAN_BITMAP_SIZE) && Ready(State())
      ensures State().ports == old(State()).ports
      ensures rc >= 0 && writes >= old(writes) && (rc != 0 <==> writes != old(writes))
    {
      rc := 0;
      ghost var start := State();
      ghost var bits := Bits(bitmap);
      MatchedState(s);
      for vid := 0 to VLAN_BITMAP_SIZE
        invariant Valid() && Bits(bitmap) == bits
        invariant State() == ScanBits(s, start, bits, vid) && Ready(State()) && State().ports == start.ports
        invariant rc >= 0 && writes >= old(writes) && (rc != 0 <==> writes != old(writes))
      {
        if bitmap[vid] {
          assert vid in bits;
          var wrote := ScanVlanTable(s, vid);
          rc := if wrote != 0 then rc + 1 else rc;
        }
        ScanBitsEffect(s, start, bits, vid + 1);
      }
    }

    /** Gives a port a newly built bitmap and hands out the old one. */
    method RereadPort(s: Snapshot, row: PortRow, p: string) returns (previous: array<bool>)
      requires Valid() && p in allPorts && row.name == p
      modifies allPorts[p], `bitmaps
      ensures Valid() && bitmaps == old(bitmaps) - {previous} + {allPorts[p].vlansBitmap}
      ensures fresh(allPorts[p].vlansBitmap) && previous in old(bitmaps)
      ensures previous.Length == VLAN_BITMAP_SIZE && Bits(previous) == old(Bits(allPorts[p].vlansBitmap))
      ensures var c := old(State());
        State() == c.(ports := c.ports[p := ParsePort(row.config, c.allVids, InBridge(s, p))])
    {
      var port := allPorts[p];
      previous := port.vlansBitmap;
      ConstructVlanBitmap(s, row, port);
      bitmaps := bitmaps - {previous} + {port.vlansBitmap};
      assert PortEntries() == old(PortEntries())[p := port.Entry()];
    }

    /** modified is the old bitmap or-ed with the new; it is neither the port's new bitmap nor the global one. */
    method OrWithNew(modified: array<bool>, port: Port)
      requires Valid() && modified !in bitmaps && modified != allVlansBitmap && modified.Length == VLAN_BITMAP_SIZE
      requires port in allPorts.Values
      modifies modified
      ensures Valid() && State() == old(State())
      ensures Bits(modified) == old(Bits(modified)) + Bits(port.vlansBitmap)
    {
      BitmapOr(modified, port.vlansBitmap);
      assert PortEntries() == old(PortEntries());
    }

    method RebuildPort(s: Snapshot, row: PortRow, p: string) returns (modified: array<bool>)
      requires Valid() && p in allPorts && row.name == p
      modifies allPorts[p], `bitmaps, bitmaps
      ensures Valid() && fresh(bitmaps - old(bitmaps)) && modified !in bitmaps && modified.Length == VLAN_BITMAP_SIZE
      ensures var c := old(State()); var e := ParsePort(row.config, c.allVids, InBridge(s, p));
        State() == c.(ports := c.ports[p := e]) && Bits(modified) == c.ports[p].bits + e.bits
    {
      assert old(State()).ports[p] == allPorts[p].Entry();
      modified := RereadPort(s, row, p);
      assert State().ports[p] == allPorts[p].Entry();
      OrWithNew(modified, allPorts[p]);
    }

    method UpdatePort(s: Snapshot, row: PortRow, p: string) returns (rc: int)
      requires Valid() && Ready(State()) && Matched(s) && WellFormedVlans(s.vlans)
      requires p in allPorts && row.name == p
      modifies allPorts[p], `bitmaps, `db, `writes, bitmaps, allVlans.Values
      ensures Valid() && State() == DoReadPort(s, old(State()), p, row.config) && Ready(State())
      ensures fresh(bitmaps - old(bitmaps))
      ensures rc >= 0 && writes >= old(writes) && (rc != 0 <==> writes != old(writes))
    {
      ghost var before := State();
      UsableFromState(before);
      var modified := RebuildPort(s, row, p);
      RereadReady(before, State(), p, row.config, InBridge(s, p));
      rc := ScanBitmap(s, modified);
    }

    // ---- The port phases ------------------------------------------------------------------

    method DeleteOnePort(s: Snapshot, p: string, ghost before: Cache, ghost steps: seq<Step>) returns (rc: int)
      requires Valid() && Ready(State()) && WellFormedVlans(s.vlans)
      requires p in allPorts && LiveIn(s, State().ports[p].bits)
      requires State() == Run(s, before, steps)
      modifies `allPorts, `bitmaps, `db, `writes, bitmaps, allVlans.Values
      ensures Valid() && State() == Run(s, before, steps + [DropPort(p)]) && Ready(State())
      ensures State().ports == old(State()).ports - {p} && allPorts == old(allPorts) - {p} && bitmaps <= old(bitmaps)
      ensures rc >= 0 && writes >= old(writes) && (rc != 0 <==> writes != old(writes))
    {
      assert State().ports[p] == allPorts[p].Entry();
      rc := DelOldPort(s, p);
      RunOneMore(s, before, steps, DropPort(p));
    }

    /** Looks at one cached port, todo being those still to be looked at and gone those deleted so far. */
    method VisitCachedPort(s: Snapshot, rows: map<string, PortRow>, p: string, ghost todo: set<string>,
                           ghost before: Cache, ghost held: map<string, Port>,
                           ghost steps: seq<Step>, ghost gone: set<string>)
      returns (rc: int, ghost more: seq<Step>, ghost went: set<string>)
      requires Valid() && Ready(State()) && WellFormedVlans(s.vlans)
      requires p in todo && todo <= before.ports.Keys && held.Keys == before.ports.Keys
      requires p !in rows ==> LiveIn(s, before.ports[p].bits)
      requires State() == Run(s, before, steps) && Each(steps, 0, gone)
      requires gone == before.ports.Keys - rows.Keys - todo
      requires allPorts == held - gone && State().ports == before.ports - gone
      modifies `allPorts, `bitmaps, `db, `writes, bitmaps, allVlans.Values
      ensures Valid() && State() == Run(s, before, more) && Ready(State())
      ensures went == before.ports.Keys - rows.Keys - (todo - {p}) && Each(more, 0, went)
      ensures allPorts == held - went && State().ports == before.ports - went
      ensures forall b :: b in bitmaps ==> b in old(bitmaps)
      ensures rc >= 0 && writes >= old(writes) && (rc != 0 <==> writes != old(writes))
    {
      rc, more, went := 0, steps, gone;
      StillThere(before.ports, gone, rows.Keys, todo, p);
      DoomedGrows(before.ports.Keys, rows.Keys, todo, p);
      if p !in rows {
        rc := DeleteOnePort(s, p, before, steps);
        EachMore(steps, 0, gone, p);
        WithoutMore(held, gone, {p});
        WithoutMore(before.ports, gone, {p});
        more, went := steps + [DropPort(p)], gone + {p};
      } else {
        assert gone + {} == gone;
      }
    }

    method DeleteOldPorts(s: Snapshot, rows: map<string, PortRow>) returns (rc: int, ghost steps: seq<Step>)
      requires Valid() && Ready(State()) && WellFormedVlans(s.vlans)
      requires forall p :: p in allPorts && p !in rows ==> LiveIn(s, State().ports[p].bits)
      modifies `allPorts, `bitmaps, `db, `writes, bitmaps, allVlans.Values
      ensures Valid() && State() == Run(s, old(State()), steps) && Ready(State())
      ensures allPorts.Keys == old(allPorts).Keys * rows.Keys
      ensures forall b :: b in bitmaps ==> b in old(bitmaps)
      ensures forall p :: p in allPorts ==> allPorts[p] == old(allPorts)[p]
      ensures Each(steps, 0, old(allPorts).Keys - rows.Keys)
      ensures rc >= 0 && writes >= old(writes) && (rc != 0 <==> writes != old(writes))
    {
      rc, steps := 0, [];
      ghost var before, held := State(), allPorts;
      assert held - {} == held && before.ports - {} == before.ports;
      assert before.ports.Keys - rows.Keys - before.ports.Keys == {};
      assert before.ports.Keys == held.Keys;
      var todo := allPorts.Keys;
      ghost var gone := {};
      while todo != {}
        invariant Valid() && State() == Run(s, before, steps) && Ready(State())
        invariant todo <= before.ports.Keys && forall b :: b in bitmaps ==> b in old(bitmaps)
        invariant gone == before.ports.Keys - rows.Keys - todo && Each(steps, 0, gone)
        invariant allPorts == held - gone && State().ports == before.ports - gone
        invariant rc >= 0 && writes >= old(writes) && (rc != 0 <==> writes != old(writes))
        decreases todo
      {
        var p :| p in todo;
        var wrote;
        wrote, steps, gone := VisitCachedPort(s, rows, p, todo, before, held, steps, gone);
        rc := if wrote != 0 then rc + 1 else rc;
        todo := todo - {p};
      }
      WithoutAll(held, rows.Keys);
    }

    method AddOnePort(s: Snapshot, p: string, ghost before: Cache, ghost steps: seq<Step>)
      requires Valid() && Ready(State()) && p !in allPorts && State() == Run(s, before, steps)
      modifies `allPorts, `bitmaps
      ensures Valid() && State() == Run(s, before, steps + [AddPort(p)]) && Ready(State())
      ensures p in allPorts && allPorts == old(allPorts)[p := allPorts[p]] && fresh(allPorts[p])
      ensures forall b :: b in bitmaps ==> b in old(bitmaps) || fresh(b)
    {
      AddNewPort(p);
      RunOneMore(s, before, steps, AddPort(p));
    }

    /** Makes room for the port of one row; added is the set of ports added so far. */
    method VisitPortRow(s: Snapshot, p: string, ghost before: Cache, ghost steps: seq<Step>, ghost added: set<string>)
      returns (ghost more: seq<Step>)
      requires Valid() && Ready(State()) && p !in added
      requires State() == Run(s, before, steps) && Each(steps, 1, added)
      modifies `allPorts, `bitmaps
      ensures Valid() && State() == Run(s, before, more) && Ready(State())
      ensures Each(more, 1, added + (if p == DEFAULT_BRIDGE_NAME || p in old(allPorts) then {} else {p}))
      ensures allPorts.Keys == old(allPorts).Keys + (if p == DEFAULT_BRIDGE_NAME then {} else {p})
      ensures forall b :: b in bitmaps ==> b in old(bitmaps) || fresh(b)
      ensures forall q :: q in allPorts ==>
        (q in old(allPorts) && allPorts[q] == old(allPorts)[q]) || fresh(allPorts[q])
    {
      more := steps;
      if p !in allPorts && p != DEFAULT_BRIDGE_NAME {
        AddOnePort(s, p, before, steps);
        EachMore(steps, 1, added, p);
        more := steps + [AddPort(p)];
      } else {
        assert added + {} == added;
      }
    }

    method AddNewPorts(s: Snapshot, rows: map<string, PortRow>) returns (ghost steps: seq<Step>)
      requires Valid() && Ready(State())
      modifies `allPorts, `bitmaps
      ensures Valid() && State() == Run(s, old(State()), steps) && Ready(State())
      ensures allPorts.Keys == old(allPorts).Keys + (rows.Keys - {DEFAULT_BRIDGE_NAME})
      ensures forall b :: b in bitmaps ==> b in old(bitmaps) || fresh(b)
      ensures forall p :: p in allPorts ==>
        (p in old(allPorts) && allPorts[p] == old(allPorts)[p]) || fresh(allPorts[p])
      ensures Each(steps, 1, rows.Keys - {DEFAULT_BRIDGE_NAME} - old(allPorts).Keys)
    {
      steps := [];
      ghost var before := State();
      ghost var held := allPorts.Keys;
      ghost var added := {};
      var todo := rows.Keys;
      while todo != {}
        invariant Valid() && State() == Run(s, before, steps) && Ready(State())
        invariant forall b :: b in bitmaps ==> b in old(bitmaps) || fresh(b)
        invariant forall q :: q in allPorts ==>
          (q in old(allPorts) && allPorts[q] == old(allPorts)[q]) || fresh(allPorts[q])
        invariant todo <= rows.Keys && added == rows.Keys - {DEFAULT_BRIDGE_NAME} - held - todo
        invariant allPorts.Keys == held + added && Each(steps, 1, added)
        decreases todo
      {
        var p :| p in todo;
        AddedGrows(rows.Keys, DEFAULT_BRIDGE_NAME, held, todo, p);
        steps := VisitPortRow(s, p, before, steps, added);
        NewKeys(held, added, DEFAULT_BRIDGE_NAME, p);
        added := added + (if p == DEFAULT_BRIDGE_NAME || p in held then {} else {p});
        todo := todo - {p};
      }
      AllAdded(rows.Keys, DEFAULT_BRIDGE_NAME, held);
    }

    /** Looks at one port row; read is the set of ports reread so far. */
    method VisitPort(s: Snapshot, rows: map<string, PortRow>, p: string, since: nat,
                     ghost before: Cache, ghost steps: seq<Step>, ghost read: set<string>)
      returns (rc: int, ghost more: seq<Step>)
      requires Valid() && Ready(State()) && Matched(s) && WellFormedVlans(s.vlans)
      requires p in allPorts && p in rows && rows == PortIndex(s.ports)
      requires State() == Run(s, before, steps) && Each(steps, 2, read) && p !in read
      modifies allPorts[p], `bitmaps, `db, `writes, bitmaps, allVlans.Values
      ensures Valid() && State() == Run(s, before, more) && Ready(State())
      ensures Each(more, 2, read + (if PortFlagged(rows[p], since) then {p} else {}))
      ensures forall b :: b in bitmaps ==> b in old(bitmaps) || fresh(b)
      ensures rc >= 0 && writes >= old(writes) && (rc != 0 <==> writes != old(writes))
    {
      rc, more := 0, steps;
      if PortFlagged(rows[p], since) {
        rc := UpdatePort(s, rows[p], p);
        RunOneMore(s, before, steps, ReadPort(p));
        EachMore(steps, 2, read, p);
        more := steps + [ReadPort(p)];
      } else {
        assert read + {} == read;
      }
    }

    method ReadChangedPorts(s: Snapshot, rows: map<string, PortRow>, since: nat) returns (rc: int,
                            ghost steps: seq<Step>)
      requires Valid() && Ready(State()) && Matched(s) && WellFormedVlans(s.vlans)
      requires rows == PortIndex(s.ports) && allPorts.Keys <= rows.Keys
      modifies allPorts.Values, `bitmaps, `db, `writes, bitmaps, allVlans.Values
      ensures Valid() && State() == Run(s, old(State()), steps) && Ready(State())
      ensures fresh(bitmaps - old(bitmaps))
      ensures Each(steps, 2, allPorts.Keys * FlaggedPorts(rows, since))
      ensures rc >= 0 && writes >= old(writes) && (rc != 0 <==> writes != old(writes))
    {
      rc, steps := 0, [];
      ghost var before := State();
      ghost var flagged := FlaggedPorts(rows, since);
      ghost var read := {};
      ghost var all := allPorts.Keys;
      var todo := allPorts.Keys;
      while todo != {}
        invariant Valid() && State() == Run(s, before, steps) && Ready(State())
        invariant todo <= all && forall b :: b in bitmaps ==> b in old(bitmaps) || fresh(b)
        invariant read == all * flagged - todo && Each(steps, 2, read)
        invariant rc >= 0 && writes >= old(writes) && (rc != 0 <==> writes != old(writes))
        decreases todo
      {
        var p :| p in todo;
        ReadGrows(all, flagged, todo, p);
        var wrote;
        wrote, steps := VisitPort(s, rows, p, since, before, steps, read);
        read := read + (if p in flagged then {p} else {});
        rc := if wrote != 0 then rc + 1 else rc;
        todo := todo - {p};
      }
    }

    /** The first two loops of update_port_cache: afterwards exactly the ports of the table are cached. */
    method ReplacePorts(s: Snapshot, rows: map<string, PortRow>)
      returns (rc: int, ghost drops: seq<Step>, ghost adds: seq<Step>)
      requires Valid() && Ready(State()) && WellFormedVlans(s.vlans) && DEFAULT_BRIDGE_NAME !in allPorts
      requires forall p :: p in allPorts && p !in rows ==> LiveIn(s, State().ports[p].bits)
      modifies `allPorts, `bitmaps, `db, `writes, bitmaps, allVlans.Values
      ensures Valid() && State() == Run(s, Run(s, old(State()), drops), adds) && Ready(State())
      ensures Each(drops, 0, old(State()).ports.Keys - rows.Keys)
      ensures Each(adds, 1, rows.Keys - {DEFAULT_BRIDGE_NAME} - old(State()).ports.Keys)
      ensures allPorts.Keys == rows.Keys - {DEFAULT_BRIDGE_NAME}
      ensures fresh(bitmaps - old(bitmaps)) && fresh(allPorts.Values - old(allPorts.Values))
      ensures rc >= 0 && writes >= old(writes) && (rc != 0 <==> writes != old(writes))
    {
      assert State().ports.Keys == allPorts.Keys;
      rc, drops := DeleteOldPorts(s, rows);
      adds := AddNewPorts(s, rows);
      PortsAfter(old(allPorts).Keys, rows.Keys, DEFAULT_BRIDGE_NAME);
    }

    /** The three loops of update_port_cache over the collected rows. */
    method ApplyPortRows(s: Snapshot, rows: map<string, PortRow>, since: nat) returns (rc: int, ghost steps: seq<Step>)
      requires Valid() && Ready(State()) && Matched(s) && WellFormedVlans(s.vlans)
      requires rows == PortIndex(s.ports) && DEFAULT_BRIDGE_NAME !in allPorts
      requires forall p :: p in allPorts && p !in rows ==> LiveIn(s, State().ports[p].bits)
      modifies `allPorts, allPorts.Values, `bitmaps, `db, `writes, bitmaps, allVlans.Values
      ensures Valid() && State() == Run(s, old(State()), steps)
      ensures PortSteps(s, since, old(State()), steps)
      ensures fresh(bitmaps - old(bitmaps))
      ensures rc >= 0 && writes >= old(writes) && (rc != 0 <==> writes != old(writes))
    {
      ghost var before := State();
      var deleted, drops, adds := ReplacePorts(s, rows);
      var changed, rereads := ReadChangedPorts(s, rows, since);
      rc := deleted + changed;
      steps := drops + adds + rereads;
      RunThree(s, before, drops, adds, rereads);
      PortPhases(s, since, before, rows, drops, adds, rereads);
    }

    method UpdatePortCache(s: Snapshot, since: nat) returns (rc: int, ghost steps: seq<Step>)
      requires Valid() && Ready(State()) && Matched(s) && WellFormedVlans(s.vlans)
      requires DEFAULT_BRIDGE_NAME !in allPorts
      requires forall p :: p in allPorts && p !in PortIndex(s.ports) ==> LiveIn(s, State().ports[p].bits)
      modifies `allPorts, allPorts.Values, `bitmaps, `db, `writes, bitmaps, allVlans.Values
      ensures Valid() && State() == Run(s, old(State()), steps)
      ensures PortSteps(s, since, old(State()), steps)
      ensures fresh(bitmaps - old(bitmaps))
      ensures rc >= 0 && writes >= old(writes) && (rc != 0 <==> writes != old(writes))
    {
      ghost var before := State();
      var rows := CollectPorts(s.ports);
      assert State() == before;
      rc, steps := ApplyPortRows(s, rows, since);
    }

    // ---- VLANs ----------------------------------------------------------------------------

    method ClearFromPort(port: Port, vid: int)
      requires port.vlansBitmap.Length == VLAN_BITMAP_SIZE && ValidVid(vid)
      modifies port.vlansBitmap
      ensures port.Entry() == ClearedOne(old(port.Entry()), vid)
    {
      if port.trunkAllVlans {
        BitmapSet(port.vlansBitmap, vid, false);
      }
    }

    method ClearFromTrunks(vid: int)
      requires Valid() && ValidVid(vid)
      modifies bitmaps
      ensures Valid() && Bits(allVlansBitmap) == old(Bits(allVlansBitmap)) && VlanEntries() == old(VlanEntries())
      ensures PortEntries() == map p | p in old(PortEntries()) :: ClearedOne(old(PortEntries())[p], vid)
    {
      ghost var before := PortEntries();
      var todo := allPorts.Keys;
      while todo != {}
        invariant todo <= allPorts.Keys
        invariant Bits(allVlansBitmap) == old(Bits(allVlansBitmap))
        invariant forall p :: p in allPorts ==>
          allPorts[p].Entry() == if p in todo then before[p] else ClearedOne(before[p], vid)
        decreases todo
      {
        var p :| p in todo;
        label turn:
        ClearFromPort(allPorts[p], vid);
        forall q | q in allPorts && q != p ensures allPorts[q].Entry() == old@turn(allPorts[q].Entry()) {}
        todo := todo - {p};
      }
      assert PortEntries() == map p | p in before :: ClearedOne(before[p], vid);
    }

    method ForgetVlan(n: string)
      requires Valid() && n in allVlans
      modifies `allVlans
      ensures Valid() && State() == old(State()).(vlans := old(State()).vlans - {n}) && allVlans == old(allVlans) - {n}
    {
      allVlans := allVlans - {n};
      assert VlanEntries() == old(VlanEntries()) - {n};
      assert PortEntries() == old(PortEntries());
    }

    method ClearGlobally(vid: int)
      requires Valid() && ValidVid(vid)
      modifies allVlansBitmap
      ensures Valid() && State() == old(State()).(allVids := old(State()).allVids - {vid})
    {
      BitmapSet(allVlansBitmap, vid, false);
      assert PortEntries() == old(PortEntries());
    }

    method DelOldVlan(n: string)
      requires Valid() && n in allVlans && ValidVid(allVlans[n].vid)
      modifies `allVlans, allVlansBitmap, bitmaps
      ensures Valid() && State() == DoDropVlan(old(State()), n) && allVlans == old(allVlans) - {n}
    {
      ghost var before := State();
      var vid := allVlans[n].vid;
      assert before.vlans[n].vid == vid;
      ClearFromTrunks(vid);
      ghost var cleared := State();
      assert cleared == before.(ports := ClearedPorts(before, vid));
      ClearGlobally(vid);
      ForgetVlan(n);
      DroppedVlan(before, n);
    }

    method MarkDefined(vid: int)
      requires Valid() && ValidVid(vid)
      modifies allVlansBitmap
      ensures Valid() && State() == old(State()).(allVids := old(State()).allVids + {vid})
    {
      BitmapSet(allVlansBitmap, vid, true);
      assert VlanEntries() == old(VlanEntries());
      assert PortEntries() == old(PortEntries());
    }

    method InsertVlan(n: string, r: VlanRow) returns (v: Vlan)
      requires Valid() && n !in allVlans && ValidVid(r.config.id)
      modifies `allVlans, allVlansBitmap
      ensures Valid() && fresh(v) && allVlans == old(allVlans)[n := v] && v.vid == r.config.id && v.idlCfg == r.uuid
      ensures var c := old(State());
        State() == c.(vlans := c.vlans[n := NewVlanEntry(r)], allVids := c.allVids + {r.config.id})
    {
      v := new Vlan.Parse(r);
      allVlans := allVlans[n := v];
      assert VlanEntries() == old(VlanEntries())[n := v.Entry()];
      assert PortEntries() == old(PortEntries());
      MarkDefined(v.vid);
    }

    method AddNewVlan(s: Snapshot, n: string, r: VlanRow)
      requires Valid() && n !in allVlans && ValidVid(r.config.id)
      modifies `allVlans, allVlansBitmap, bitmaps
      ensures Valid() && State() == DoAddVlan(s, old(State()), n, r)
      ensures n in allVlans && fresh(allVlans[n]) && allVlans == old(allVlans)[n := allVlans[n]]
      ensures allVlans[n].vid == r.config.id && allVlans[n].idlCfg == r.uuid
    {
      var v := InsertVlan(n, r);
      UpdateVlanMembership(s, v, n);
    }

    method SetAdmin(v: Vlan, ghost n: string, r: VlanRow)
      requires Valid() && n in allVlans && allVlans[n] == v
      modifies v`admin
      ensures Valid()
      ensures var c := old(State());
        State() == c.(vlans := c.vlans[n := c.vlans[n].(admin := if AdminIsUp(r.config) then AdminUp else AdminDown)])
    {
      assert State().vlans[n] == v.Entry();
      v.admin := AdminDown;
      if r.config.admin == Some(AdminUp) {
        v.admin := AdminUp;
      }
      OneVlanChanged(n);
    }

    method UpdateVlan(s: Snapshot, n: string, r: VlanRow) returns (rc: int)
      requires Valid() && n in allVlans
      modifies allVlans[n], `db, `writes
      ensures Valid() && State() == DoReadVlan(s, old(State()), n, r)
      ensures rc == writes - old(writes) && 0 <= rc <= 1
    {
      SetAdmin(allVlans[n], n, r);
      rc := HandleVlanConfig(s, r, allVlans[n], n);
    }

    // ---- The VLAN phases ------------------------------------------------------------------

    method VisitCachedVlan(s: Snapshot, keep: bool, n: string, ghost before: Cache, ghost steps: seq<Step>,
                           ghost gone: set<string>)
      returns (ghost more: seq<Step>)
      requires Valid() && UsableVids() && n in allVlans && n !in gone
      requires State() == Run(s, before, steps) && Each(steps, 3, gone)
      modifies `allVlans, allVlansBitmap, bitmaps
      ensures Valid() && UsableVids() && State() == Run(s, before, more)
      ensures Each(more, 3, gone + (if keep then {} else {n}))
      ensures allVlans == if keep then old(allVlans) else old(allVlans) - {n}
    {
      more := steps;
      if keep {
        assert gone + {} == gone;
      } else {
        DelOldVlan(n);
        RunOneMore(s, before, steps, DropVlan(n));
        EachMore(steps, 3, gone, n);
        more := steps + [DropVlan(n)];
      }
    }

    method DeleteOldVlans(s: Snapshot, rows: map<string, VlanRow>) returns (ghost steps: seq<Step>)
      requires Valid() && UsableVids()
      modifies `allVlans, allVlansBitmap, bitmaps
      ensures Valid() && UsableVids() && State() == Run(s, old(State()), steps)
      ensures allVlans.Keys == old(allVlans).Keys * rows.Keys && allVlans.Values <= old(allVlans.Values)
      ensures Each(steps, 3, old(allVlans).Keys - rows.Keys)
    {
      steps := [];
      ghost var before := State();
      ghost var all := allVlans.Keys;
      ghost var gone := {};
      var todo := allVlans.Keys;
      while todo != {}
        invariant Valid() && UsableVids() && State() == Run(s, before, steps)
        invariant todo <= all && allVlans == old(allVlans) - gone
        invariant gone == all - rows.Keys - todo && Each(steps, 3, gone)
        decreases todo
      {
        var n :| n in todo;
        DoomedGrows(all, rows.Keys, todo, n);
        steps := VisitCachedVlan(s, n in rows, n, before, steps, gone);
        WithoutMore(old(allVlans), gone, {n});
        gone := gone + (if n in rows then {} else {n});
        todo := todo - {n};
      }
    }

    method VisitVlanRow(s: Snapshot, n: string, r: VlanRow, ghost before: Cache, ghost steps: seq<Step>,
                        ghost added: set<string>)
      returns (ghost more: seq<Step>)
      requires Valid() && n in VlanIndex(s.vlans) && r == VlanIndex(s.vlans)[n] && ValidVid(r.config.id) && n !in added
      requires State() == Run(s, before, steps) && Each(steps, 4, added)
      modifies `allVlans, allVlansBitmap, bitmaps
      ensures Valid() && State() == Run(s, before, more)
      ensures Each(more, 4, added + (if n in old(allVlans) then {} else {n}))
      ensures allVlans.Keys == old(allVlans).Keys + {n}
      ensures forall m :: m in allVlans ==>
        (m in old(allVlans) && allVlans[m] == old(allVlans)[m]) || fresh(allVlans[m])
    {
      more := steps;
      if n in allVlans {
        assert added + {} == added;
      } else {
        AddNewVlan(s, n, r);
        RunOneMore(s, before, steps, AddVlan(n));
        EachMore(steps, 4, added, n);
        more := steps + [AddVlan(n)];
      }
    }

    method AddNewVlans(s: Snapshot, rows: map<string, VlanRow>) returns (ghost steps: seq<Step>)
      requires Valid() && rows == VlanIndex(s.vlans) && WellFormedVlans(s.vlans)
      modifies `allVlans, allVlansBitmap, bitmaps
      ensures Valid() && State() == Run(s, old(State()), steps)
      ensures allVlans.Keys == old(allVlans).Keys + rows.Keys
      ensures forall m :: m in allVlans ==>
        (m in old(allVlans) && allVlans[m] == old(allVlans)[m]) || fresh(allVlans[m])
      ensures Each(steps, 4, rows.Keys - old(allVlans).Keys)
    {
      steps := [];
      ghost var before := State();
      ghost var held := allVlans.Keys;
      ghost var added := {};
      var todo := rows.Keys;
      while todo != {}
        invariant Valid() && State() == Run(s, before, steps)
        invariant todo <= rows.Keys && allVlans.Keys == held + added
        invariant forall m :: m in allVlans ==>
          (m in old(allVlans) && allVlans[m] == old(allVlans)[m]) || fresh(allVlans[m])
        invariant added == rows.Keys - held - todo && Each(steps, 4, added)
        decreases todo
      {
        var n :| n in todo;
        assert rows[n] in s.vlans;
        DoomedGrows(rows.Keys, held, todo, n);
        steps := VisitVlanRow(s, n, rows[n], before, steps, added);
        KeysGrow(held, added, n);
        added := added + (if n in held then {} else {n});
        todo := todo - {n};
      }
    }

    method VisitVlan(s: Snapshot, n: string, r: VlanRow, since: nat,
                     ghost before: Cache, ghost steps: seq<Step>, ghost read: set<string>)
      returns (rc: int, ghost more: seq<Step>)
      requires Valid() && n in allVlans && n in VlanIndex(s.vlans) && r == VlanIndex(s.vlans)[n] && n !in read
      requires State() == Run(s, before, steps) && Each(steps, 5, read)
      modifies allVlans[n], `db, `writes
      ensures Valid() && State() == Run(s, before, more)
      ensures Each(more, 5, read + (if VlanFlagged(r, since) then {n} else {}))
      ensures rc == writes - old(writes) && 0 <= rc <= 1
    {
      rc, more := 0, steps;
      if VlanFlagged(r, since) {
        rc := UpdateVlan(s, n, r);
        RunOneMore(s, before, steps, ReadVlan(n));
        EachMore(steps, 5, read, n);
        more := steps + [ReadVlan(n)];
      } else {
        assert read + {} == read;
      }
    }

    method ReadChangedVlans(s: Snapshot, rows: map<string, VlanRow>, since: nat) returns (rc: int,
                            ghost steps: seq<Step>)
      requires Valid() && rows == VlanIndex(s.vlans) && allVlans.Keys <= rows.Keys
      modifies allVlans.Values, `db, `writes
      ensures Valid() && State() == Run(s, old(State()), steps)
      ensures Each(steps, 5, allVlans.Keys * FlaggedVlans(rows, since))
      ensures rc == writes - old(writes) && 0 <= rc
    {
      rc, steps := 0, [];
      ghost var before := State();
      ghost var flagged := FlaggedVlans(rows, since);
      ghost var read := {};
      ghost var all := allVlans.Keys;
      var todo := allVlans.Keys;
      while todo != {}
        invariant Valid() && State() == Run(s, before, steps)
        invariant todo <= all && read == all * flagged - todo && Each(steps, 5, read)
        invariant rc == writes - old(writes) && 0 <= rc
        decreases todo
      {
        var n :| n in todo;
        ReadGrows(all, flagged, todo, n);
        var wrote;
        wrote, steps := VisitVlan(s, n, rows[n], since, before, steps, read);
        read := read + (if n in flagged then {n} else {});
        rc := rc + wrote;
        todo := todo - {n};
      }
    }

    /** The three loops of update_vlan_cache over the collected rows. */
    method ApplyVlanRows(s: Snapshot, rows: map<string, VlanRow>, since: nat) returns (rc: int, ghost steps: seq<Step>)
      requires Valid() && UsableVids() && rows == VlanIndex(s.vlans) && WellFormedVlans(s.vlans)
      modifies `allVlans, allVlansBitmap, bitmaps, allVlans.Values, `db, `writes
      ensures Valid() && State() == Run(s, old(State()), steps)
      ensures VlanSteps(s, since, old(State()), steps)
      ensures rc == writes - old(writes) && 0 <= rc
    {
      ghost var before := State();
      ghost var drops := DeleteOldVlans(s, rows);
      ghost var adds := AddNewVlans(s, rows);
      VlansAfter(old(allVlans).Keys, rows.Keys);
      ghost var rereads;
      rc, rereads := ReadChangedVlans(s, rows, since);
      steps := drops + adds + rereads;
      RunThree(s, before, drops, adds, rereads);
      VlanPhases(s, since, before, rows, drops, adds, rereads);
    }

    method UpdateVlanCache(s: Snapshot, since: nat) returns (rc: int, ghost steps: seq<Step>)
      requires Valid() && UsableVids() && WellFormedVlans(s.vlans)
      modifies `allVlans, allVlansBitmap, bitmaps, allVlans.Values, `db, `writes
      ensures Valid() && State() == Run(s, old(State()), steps)
      ensures VlanSteps(s, since, old(State()), steps)
      ensures rc == writes - old(writes) && 0 <= rc
    {
      ghost var before := State();
      var rows := CollectVlans(s.vlans);
      assert State() == before;
      rc, steps := ApplyVlanRows(s, rows, since);
    }

    // ---- Passes -----------------------------------------------------------------------------

    /** What a pass relies on: distinct live handles, and no deleted port with a dead VLAN in its bitmap. */
    ghost predicate Prepared(s: Snapshot)
      requires Valid()
      reads this, allVlansBitmap, allPorts.Values, allVlans.Values, bitmaps
    {
      && Ready(State()) && UsableVids() && Matched(s) && WellFormedVlans(s.vlans) && DEFAULT_BRIDGE_NAME !in allPorts
      && forall p :: p in allPorts && p !in PortIndex(s.ports) ==> LiveIn(s, State().ports[p].bits)
    }

    lemma SyncedIsPrepared(last: Snapshot, s: Snapshot)
      requires Valid() && Synced(last, State()) && NoneReplaced(last, s) && DropsAreLive(s, State())
      requires WellFormedVlans(s.vlans)
      ensures Prepared(s)
    {
      var c := State();
      UsableFromState(c);
      SyncedMeansExactTables(last, c);
      assert c.ports.Keys == allPorts.Keys;
      HandlesCarryOver(last, s, c);
      MatchedState(s);
      forall p | p in allPorts && p !in PortIndex(s.ports) ensures LiveIn(s, c.ports[p].bits) {
        forall n | n in allVlans && allVlans[n].vid in c.ports[p].bits ensures Live(s, allVlans[n].idlCfg) {
          assert c.vlans[n] == allVlans[n].Entry();
          HandleIsLive(last, s, c, n);
        }
      }
    }

    /** update_port_cache, then update_vlan_cache: one pass. */
    method UpdateCaches(s: Snapshot, since: nat) returns (rc: int, ghost steps: seq<Step>)
      requires Valid() && Prepared(s)
      modifies `allPorts, allPorts.Values, `allVlans, allVlansBitmap, `bitmaps, bitmaps, allVlans.Values, `db, `writes
      ensures Valid() && State() == Run(s, old(State()), steps) && IsPass(s, since, old(State()), steps)
      ensures rc >= 0 && writes >= old(writes) && (rc != 0 <==> writes != old(writes))
      ensures rc == 0 ==> db == old(db)
    {
      ghost var before := State();
      rc := 0;
      var ports, portSteps := UpdatePortCache(s, since);
      if ports != 0 {
        rc := rc + 1;
      }
      ghost var between := State();
      assert between.vlans.Keys == before.vlans.Keys;
      var vlans, vlanSteps := UpdateVlanCache(s, since);
      if vlans != 0 {
        rc := rc + 1;
      }
      steps := portSteps + vlanSteps;
      RunAppend(s, before, portSteps, vlanSteps);
      PassFromPhases(s, since, before, between, portSteps, vlanSteps);
      NoUncountedWrite(s, before, steps);
    }
  }

  /** The main loop's state around the cache. */
  class Service {
    const cache: Vland
    var idlSeqno: nat
    var systemConfigured: bool
    var defaultVlanCreated: bool
    var committed: map<nat, Columns>     // the columns that reached the database
    ghost var last: Snapshot             // the snapshot processed last, of sequence number idlSeqno

    ghost function Footprint(): set<object>
      reads this, cache
    {
      {this, cache, cache.allVlansBitmap} + cache.allPorts.Values + cache.allVlans.Values + cache.bitmaps
    }

    constructor ()
      ensures cache.Valid() && AsDaemon() == START && committed == cache.db && last.seqno == idlSeqno
      ensures fresh(Footprint())
    {
      cache := new Vland();
      idlSeqno, systemConfigured, defaultVlanCreated, committed, last := 0, false, false, map[], START.last;
    }

    ghost function AsDaemon(): Daemon
      requires cache.Valid()
      reads this, cache, cache.allVlansBitmap, cache.allPorts.Values, cache.allVlans.Values, cache.bitmaps
    {
      Daemon(cache.State(), last, systemConfigured, defaultVlanCreated)
    }

    method ProcessNews(s: Snapshot) returns (rc: int, ghost steps: seq<Step>)
      requires cache.Valid() && cache.Prepared(s)
      modifies `idlSeqno, `last, Footprint() - {this}
      ensures cache.Valid() && idlSeqno == s.seqno
      ensures AsDaemon() == Daemon(Run(s, old(cache.State()), steps), s, systemConfigured, defaultVlanCreated)
      ensures IsPass(s, old(idlSeqno), old(cache.State()), steps)
      ensures cache.writes >= old(cache.writes) && (rc != 0 <==> cache.writes != old(cache.writes))
      ensures rc == 0 ==> cache.db == old(cache.db)
    {
      rc, steps := cache.UpdateCaches(s, idlSeqno);
      ghost var after := cache.State();
      idlSeqno, last := s.seqno, s;
      assert cache.State() == after;
    }

    method Reconfigure(s: Snapshot) returns (rc: int, ghost steps: seq<Step>)
      requires cache.Valid() && last.seqno == idlSeqno && (s.seqno == idlSeqno ==> s == last)
      requires s.seqno != idlSeqno ==> cache.Prepared(s)
      modifies `idlSeqno, `last, Footprint() - {this}
      ensures cache.Valid() && last == s && idlSeqno == s.seqno
      ensures s.seqno == old(idlSeqno) ==> AsDaemon() == old(AsDaemon())
      ensures s.seqno != old(idlSeqno) ==>
        && AsDaemon() == Daemon(Run(s, old(cache.State()), steps), s, systemConfigured, defaultVlanCreated)
        && IsPass(s, old(idlSeqno), old(cache.State()), steps)
      ensures cache.writes >= old(cache.writes) && (rc != 0 <==> cache.writes != old(cache.writes))
      ensures rc == 0 ==> cache.db == old(cache.db)
    {
      rc, steps := 0, [];
      if s.seqno == idlSeqno {
        return;
      }
      rc, steps := ProcessNews(s);
      assert last == AsDaemon().last;
    }

    /** The transaction around vland_reconfigure: committed when some write needs to happen, else dropped. */
    method ReconfigureAndCommit(s: Snapshot) returns (ghost steps: seq<Step>)
      requires cache.Valid() && last.seqno == idlSeqno && (s.seqno == idlSeqno ==> s == last) && committed == cache.db
      requires s.seqno != idlSeqno ==> cache.Prepared(s)
      modifies `idlSeqno, `last, `committed, Footprint() - {this}
      ensures cache.Valid() && last == s && idlSeqno == s.seqno && committed == cache.db
      ensures s.seqno == old(idlSeqno) ==> AsDaemon() == old(AsDaemon())
      ensures s.seqno != old(idlSeqno) ==>
        && AsDaemon() == Daemon(Run(s, old(cache.State()), steps), s, systemConfigured, defaultVlanCreated)
        && IsPass(s, old(idlSeqno), old(cache.State()), steps)
    {
      var rc;
      rc, steps := Reconfigure(s);
      if rc != 0 {
        ghost var after := cache.State();
        committed := cache.db;
        assert cache.State() == after;
      }
    }

    /**
     * create_default_vlan over the replica: whether the VLAN table lacks VLAN 1 and there is a bridge of
     * the default name to list it, so that a row is inserted and committed.
     */
    method CreateDefaultVlan(s: Snapshot) returns (inserted: bool)
      modifies `defaultVlanCreated
      ensures inserted <==>
        && (forall i :: 0 <= i < |s.vlans| ==> s.vlans[i].config.id != 1)
        && exists i :: 0 <= i < |s.bridges| && s.bridges[i].name == "bridge_normal"
      ensures inserted <==> !HasDefault(s) && HasDefaultBridge(s)
      ensures defaultVlanCreated <==> old(defaultVlanCreated) || HasDefault(s) || HasDefaultBridge(s)
    {
      for i := 0 to |s.vlans|
        invariant forall j :: 0 <= j < i ==> s.vlans[j].config.id != DEFAULT_VID
      {
        if s.vlans[i].config.id == DEFAULT_VID {
          defaultVlanCreated := true;
          return false;
        }
      }
      for i := 0 to |s.bridges|
        invariant forall j :: 0 <= j < i ==> s.bridges[j].name != DEFAULT_BRIDGE_NAME
      {
        if s.bridges[i].name == DEFAULT_BRIDGE_NAME {
          defaultVlanCreated := true;
          return true;
        }
      }
      return false;
    }

    /** What vland_run does once the system is configured. */
    method CreateThenReconfigure(first: Snapshot, s: Snapshot) returns (inserted: bool, ghost steps: seq<Step>)
      requires cache.Valid() && last.seqno == idlSeqno && (s.seqno == idlSeqno ==> s == last) && committed == cache.db
      requires s.seqno != idlSeqno ==> cache.Prepared(s)
      modifies `idlSeqno, `last, `committed, `defaultVlanCreated, Footprint() - {this}
      ensures cache.Valid() && last == s && idlSeqno == s.seqno && committed == cache.db
      ensures inserted <==> !old(defaultVlanCreated) && !HasDefault(first) && HasDefaultBridge(first)
      ensures defaultVlanCreated <==> old(defaultVlanCreated) || HasDefault(first) || HasDefaultBridge(first)
      ensures s.seqno == old(idlSeqno) ==> cache.State() == old(cache.State()) && last == old(last)
      ensures s.seqno != old(idlSeqno) ==>
        && cache.State() == Run(s, old(cache.State()), steps)
        && IsPass(s, old(idlSeqno), old(cache.State()), steps)
    {
      inserted := false;
      if !defaultVlanCreated {
        inserted := CreateDefaultVlan(first);
      }
      assert cache.State() == old(cache.State());
      assert AsDaemon().cache == old(AsDaemon().cache) && AsDaemon().last == old(AsDaemon().last);
      steps := ReconfigureAndCommit(s);
      assert cache.State() == AsDaemon().cache;
    }

    /**
     * vland_run after the replica was refreshed to first; s is the replica once the default VLAN, if it had
     * to be inserted, is committed. A transaction with writes in it is never dropped, so what the database
     * holds is always what the daemon wrote.
     */
    method VlandRun(first: Snapshot, s: Snapshot, contended: bool, locked: bool, curCfg: Option<int>)
      returns (inserted: bool, ghost steps: seq<Step>)
      requires cache.Valid() && last.seqno == idlSeqno && (s.seqno == idlSeqno ==> s == last) && committed == cache.db
      requires s.seqno != idlSeqno ==> cache.Prepared(s)
      modifies Footprint()
      ensures cache.Valid() && last.seqno == idlSeqno && committed == cache.db
      ensures var d, t := old(AsDaemon()), Call(first, s, contended, locked, curCfg, steps);
        && AsDaemon() == AfterCall(d, t)
        && (inserted <==> Creates(d, t))
        && (Passes(d, t) ==> IsPass(s, d.last.seqno, d.cache, steps))
    {
      inserted, steps := false, [];
      if contended {
        return;
      } else if !locked {
        return;
      }
      if !systemConfigured && curCfg.Some? && curCfg.value > 0 {
        systemConfigured := true;
      }
      if systemConfigured {
        ghost var d := old(AsDaemon());
        inserted, steps := CreateThenReconfigure(first, s);
        CallDone(d, Call(first, s, contended, locked, curCfg, steps), AsDaemon());
      }
    }

    /** One turn of the main loop keeps the cache in step with the replica, whatever the guards decide. */
    method Turn(first: Snapshot, s: Snapshot, contended: bool, locked: bool,
                curCfg: Option<int>) returns (inserted: bool)
      requires cache.Valid() && Tracking(AsDaemon(), first) && last.seqno == idlSeqno && committed == cache.db
      requires Evolves(first, s)
      requires !Creates(AsDaemon(), Call(first, s, contended, locked, curCfg, [])) ==> s == first
      requires s.seqno != idlSeqno ==>
        WellFormedVlans(s.vlans) && NoneReplaced(last, s) && DropsAreLive(s, cache.State())
      modifies Footprint()
      ensures cache.Valid() && Tracking(AsDaemon(), s) && last.seqno == idlSeqno && committed == cache.db
      ensures !contended && locked && systemConfigured ==> Synced(s, cache.State())
      ensures systemConfigured <==> old(systemConfigured) || (!contended && locked && curCfg.Some? && curCfg.value > 0)
      ensures inserted <==> Creates(old(AsDaemon()), Call(first, s, contended, locked, curCfg, []))
    {
      EvolvesTransitive(last, first, s);
      if s.seqno != idlSeqno {
        cache.SyncedIsPrepared(last, s);
      }
      ghost var d := AsDaemon();
      ghost var steps;
      inserted, steps := VlandRun(first, s, contended, locked, curCfg);
      CallKeepsTracking(d, first, Call(first, s, contended, locked, curCfg, steps));
    }
  }
}
