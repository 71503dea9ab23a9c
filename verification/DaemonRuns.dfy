/** Runs of the daemon's main loop: the guards of vland_run around the passes. */
module DaemonRuns {
  import opened VlanTypes
  import opened VlanCache
  import opened PassInvariant
  import opened Reconciliation

  /**
   * What survives from one call of vland_run to the next: last is the snapshot whose seqno is idl_seqno,
   * defaultSeen is default_vlan_created.
   */
  datatype Daemon = Daemon(cache: Cache, last: Snapshot, configured: bool, defaultSeen: bool)

  /**
   * One call of vland_run: the replica it begins with, the replica when it reconfigures (a later one if
   * the default VLAN had to be committed first), the lock, "cur_cfg", and the order of a pass.
   */
  datatype Call = Call(first: Snapshot, snap: Snapshot, contended: bool, locked: bool,
                       curCfg: Option<int>, steps: seq<Step>)

  const START: Daemon := Daemon(EMPTY_CACHE, Snapshot(0, [], [], []), false, false)

  predicate Configured(d: Daemon, t: Call) {
    d.configured || (t.curCfg.Some? && t.curCfg.value > 0)
  }

  /** The call gets as far as vland_reconfigure. */
  predicate Reconfigures(d: Daemon, t: Call) {
    !t.contended && t.locked && Configured(d, t)
  }

  predicate Passes(d: Daemon, t: Call) {
    Reconfigures(d, t) && t.snap.seqno != d.last.seqno
  }

  ghost predicate HasDefault(s: Snapshot) {
    exists i :: 0 <= i < |s.vlans| && s.vlans[i].config.id == DEFAULT_VID
  }

  ghost predicate HasDefaultBridge(s: Snapshot) {
    exists i :: 0 <= i < |s.bridges| && s.bridges[i].name == DEFAULT_BRIDGE_NAME
  }

  /** The call inserts the default VLAN and commits it before it reconfigures. */
  ghost predicate Creates(d: Daemon, t: Call) {
    Reconfigures(d, t) && !d.defaultSeen && !HasDefault(t.first) && HasDefaultBridge(t.first)
  }

  ghost function AfterCall(d: Daemon, t: Call): Daemon {
    if !Reconfigures(d, t) then d else
      var seen := d.defaultSeen || HasDefault(t.first) || HasDefaultBridge(t.first);
      if Passes(d, t) then Daemon(Run(t.snap, d.cache, t.steps), t.snap, true, seen)
      else d.(configured := true, defaultSeen := seen)
  }

  /** Another daemon holds the lock, or nobody does, or the system never was and is not configured. */
  predicate StandsBy(t: Call) {
    t.contended || !t.locked || t.curCfg == None || t.curCfg.value <= 0
  }

  /**
   * What a call does, by its guards alone: without the lock, with a contender, or before the system is configured it
   * does nothing; otherwise it makes a pass exactly if the sequence number moved, and remembers whether a VLAN 1
   * or a default bridge was seen.
   */
  lemma CallByGuards(d: Daemon, t: Call)
    ensures t.contended || !t.locked || (!d.configured && StandsBy(t)) ==> AfterCall(d, t) == d
    ensures !t.contended && t.locked && (d.configured || !StandsBy(t)) ==>
      var e := AfterCall(d, t);
      && e.configured
      && (if t.snap.seqno == d.last.seqno then e.cache == d.cache && e.last == d.last
          else e.cache == Run(t.snap, d.cache, t.steps) && e.last == t.snap)
      && (e.defaultSeen <==>
            || d.defaultSeen
            || (exists i :: 0 <= i < |t.first.vlans| && t.first.vlans[i].config.id == 1)
            || (exists i :: 0 <= i < |t.first.bridges| && t.first.bridges[i].name == "bridge_normal"))
  {
  }

  /** The replica moved from the previous call's, and a pass meets the conditions it relies on. */
  ghost predicate Legal(d: Daemon, before: Snapshot, t: Call) {
    && Evolves(before, t.first)
    && Evolves(t.first, t.snap)
    && (!Creates(d, t) ==> t.snap == t.first)
    && (Passes(d, t) ==>
          && WellFormedVlans(t.snap.vlans) && NoneReplaced(d.last, t.snap)
          && IsPass(t.snap, d.last.seqno, d.cache, t.steps))
  }

  ghost function AfterCalls(d: Daemon, calls: seq<Call>): Daemon
    decreases |calls|
  {
    if calls == [] then d else AfterCall(AfterCalls(d, calls[..|calls| - 1]), calls[|calls| - 1])
  }

  /** The replica as the last of the calls found it. */
  function Latest(before: Snapshot, calls: seq<Call>): Snapshot {
    if calls == [] then before else calls[|calls| - 1].snap
  }

  ghost predicate LegalCalls(d: Daemon, before: Snapshot, calls: seq<Call>)
    decreases |calls|
  {
    calls != [] ==>
      var earlier := calls[..|calls| - 1];
      LegalCalls(d, before, earlier) && Legal(AfterCalls(d, earlier), Latest(before, earlier), calls[|calls| - 1])
  }

  /** The daemon is in sync with what it processed last, and the replica has only moved on from there. */
  ghost predicate Tracking(d: Daemon, now: Snapshot) {
    Synced(d.last, d.cache) && Evolves(d.last, now)
  }

  lemma StartTracks(now: Snapshot)
    requires Evolves(START.last, now)
    ensures Tracking(START, now)
  {
  }

  lemma CallKeepsTracking(d: Daemon, before: Snapshot, t: Call)
    requires Tracking(d, before) && Legal(d, before, t)
    ensures Tracking(AfterCall(d, t), t.snap)
    ensures Reconfigures(d, t) ==> Synced(t.snap, AfterCall(d, t).cache)
  {
    EvolvesTransitive(d.last, before, t.first);
    EvolvesTransitive(d.last, t.first, t.snap);
    if Passes(d, t) {
      PassRefines(d.last, t.snap, d.cache, t.steps);
    }
  }

  /**
   * Over any run of calls, of which any number were skipped for want of the lock, of configuration
   * or of news: whenever the last call reconfigures, the cache is in sync with the replica.
   */
  lemma {:induction false} RunsStaySynced(d: Daemon, before: Snapshot, calls: seq<Call>)
    requires Tracking(d, before) && LegalCalls(d, before, calls)
    ensures Tracking(AfterCalls(d, calls), Latest(before, calls))
    ensures calls != [] && Reconfigures(AfterCalls(d, calls[..|calls| - 1]), calls[|calls| - 1]) ==>
      Synced(Latest(before, calls), AfterCalls(d, calls).cache)
    decreases |calls|
  {
    if calls == [] {
    } else {
      var earlier := calls[..|calls| - 1];
      RunsStaySynced(d, before, earlier);
      CallKeepsTracking(AfterCalls(d, earlier), Latest(before, earlier), calls[|calls| - 1]);
    }
  }

  /** However many calls find the lock held or wanted elsewhere, the daemon that makes them writes nothing. */
  lemma {:induction false} StandingByWritesNothing(d: Daemon, calls: seq<Call>)
    requires forall i :: 0 <= i < |calls| ==> calls[i].contended || !calls[i].locked
    ensures AfterCalls(d, calls) == d
    decreases |calls|
  {
    if calls == [] {
    } else {
      var earlier := calls[..|calls| - 1];
      StandingByWritesNothing(d, earlier);
      CallByGuards(d, calls[|calls| - 1]);
    }
  }

  /** Nor does one that never finds the system configured. */
  lemma {:induction false} UnconfiguredWritesNothing(calls: seq<Call>)
    requires forall i :: 0 <= i < |calls| ==> calls[i].curCfg == None || calls[i].curCfg.value <= 0
    ensures AfterCalls(START, calls) == START
    decreases |calls|
  {
    if calls == [] {
    } else {
      var earlier := calls[..|calls| - 1];
      UnconfiguredWritesNothing(earlier);
      CallByGuards(START, calls[|calls| - 1]);
    }
  }

  /**
   * After any run, whatever became of its last call: the columns of every cached VLAN that was handled
   * are its cached state; unless marked L3PORT it was handled; and other than VID 1 none is up
   * without being administratively up and having a member.
   */
  lemma RunsStaySafe(d: Daemon, before: Snapshot, calls: seq<Call>, n: string)
    requires Tracking(d, before) && LegalCalls(d, before, calls)
    requires n in AfterCalls(d, calls).cache.vlans
    ensures var e := AfterCalls(d, calls);
      var v := e.cache.vlans[n];
      && n in VlanIndex(e.last.vlans)
      && (v.op != OperUnknown ==> v.row in e.cache.db && e.cache.db[v.row] == Columns(v.op == OperUp, v.op, v.reason))
      && (!VlanIndex(e.last.vlans)[n].config.l3port ==>
            && v.op != OperUnknown && v.reason != ReasonUnknown
            && (v.vid != DEFAULT_VID && v.op == OperUp ==> v.admin == AdminUp && v.any))
  {
    RunsStaySynced(d, before, calls);
    var e := AfterCalls(d, calls);
    assert Written(e.cache, e.cache.vlans[n]);
    MarkOfRow(e.last, VlanIndex(e.last.vlans)[n]);
  }

  /** From a cold start, after any run: the status columns of an ordinary VLAN are the expected ones. */
  lemma ColdStartConverges(first: Snapshot, calls: seq<Call>, n: string)
    requires Evolves(START.last, first) && LegalCalls(START, first, calls) && calls != []
    requires Reconfigures(AfterCalls(START, calls[..|calls| - 1]), calls[|calls| - 1])
    requires n in VlanIndex(calls[|calls| - 1].snap.vlans)
    ensures var s, c := calls[|calls| - 1].snap, AfterCalls(START, calls).cache;
      var r := VlanIndex(s.vlans)[n];
      && (r.config.id != DEFAULT_VID && !r.config.l3port ==>
            r.uuid in c.db && c.db[r.uuid] == ExpectedStatus(s, r.config))
      && (r.config.id == DEFAULT_VID && !r.config.l3port ==>
            r.uuid in c.db && c.db[r.uuid].hwEnable && c.db[r.uuid].oper == OperUp)
  {
    StartTracks(first);
    RunsStaySynced(START, first, calls);
    var s, c := calls[|calls| - 1].snap, AfterCalls(START, calls).cache;
    if VlanIndex(s.vlans)[n].config.id == DEFAULT_VID {
      SyncedMeansDefaultUp(s, c, n);
    } else {
      SyncedMeansExpected(s, c, n);
    }
  }
}
