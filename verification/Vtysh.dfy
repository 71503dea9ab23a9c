/** The VLAN commands step by step: each opens a transaction, writes rows, and commits or aborts. */
module Vtysh {
  import opened VlanTypes
  import opened CliCommands
  import opened CliInvariants

  // ---- Rebuilding lists ------------------------------------------------------------------

  lemma {:induction false} WithoutPrefix<T(!new)>(s: seq<T>, v: T, k: nat)
    requires k <= |s|
    ensures |Without(s[..k], v)| <= |Without(s, v)|
    decreases |s| - k
  {
    if k == |s| {
      assert s[..k] == s;
    } else {
      assert s[..k + 1][..k] == s[..k];
      WithoutPrefix(s, v, k + 1);
    }
  }

  lemma WithoutOneMore<T(!new)>(s: seq<T>, v: T, k: nat)
    requires k < |s|
    ensures Without(s[..k + 1], v) == Without(s[..k], v) + if s[k] == v then [] else [s[k]]
  {
    assert s[..k + 1][..k] == s[..k];
  }

  /** The list without v, in an array of one element less. */
  method Rebuild<T(==, 0, !new)>(s: seq<T>, v: T) returns (a: array<T>)
    requires NoRepeats(s) && v in s
    ensures fresh(a) && a.Length == |s| - 1 && a[..] == Without(s, v)
  {
    WithoutKeepsOrder(s, v);
    a := new T[|s| - 1];
    var n := 0;
    for i := 0 to |s|
      invariant n == |Without(s[..i], v)| <= a.Length && a[..n] == Without(s[..i], v)
    {
      WithoutOneMore(s, v, i);
      WithoutPrefix(s, v, i + 1);
      if v != s[i] {
        a[n] := s[i];
        n := n + 1;
      }
    }
    assert s[..|s|] == s;
  }

  /** A copy with one element more at the end. */
  method Extend<T(0)>(s: seq<T>, x: T) returns (a: array<T>)
    ensures fresh(a) && a[..] == s + [x]
  {
    a := new T[|s| + 1];
    for i := 0 to |s|
      invariant a[..i] == s[..i]
    {
      a[i] := s[i];
    }
    a[|s|] := x;
  }

  /** One command session: the tables as its transaction sees them, and as last committed. */
  class Session {
    var ports: map<string, PortRec>
    var vlans: seq<VlanRec>
    var bridges: seq<Bridge>
    var interfaces: map<string, bool>
    var nextUuid: nat
    var committed: Db

    constructor (db: Db)
      ensures Idle() && committed == db
    {
      ports, vlans, bridges, interfaces, nextUuid := db.ports, db.vlans, db.bridges, db.interfaces, db.nextUuid;
      committed := db;
    }

    function View(): Db
      reads this
    {
      Db(ports, vlans, bridges, interfaces, nextUuid)
    }

    /** No transaction is open. */
    predicate Idle()
      reads this
    {
      View() == committed
    }

    method Commit()
      modifies this`committed
      ensures committed == View()
    {
      committed := Db(ports, vlans, bridges, interfaces, nextUuid);
    }

    method Abort()
      modifies this`ports, this`vlans, this`bridges, this`interfaces, this`nextUuid
      ensures Idle()
    {
      ports, vlans, bridges := committed.ports, committed.vlans, committed.bridges;
      interfaces, nextUuid := committed.interfaces, committed.nextUuid;
    }

    // ---- Lookups -------------------------------------------------------------------------

    method LookupVlan(vid: int) returns (found: bool, i: nat)
      ensures FindVlan(vlans, vid) == if found then Some(i) else None
      ensures found ==> i < |vlans| && vlans[i].config.id == vid
    {
      found, i := false, 0;
      while i < |vlans|
        invariant i <= |vlans| && forall j :: 0 <= j < i ==> vlans[j].config.id != vid
      {
        if vlans[i].config.id == vid {
          FirstVlan(vlans, vid, i);
          return true, i;
        }
        i := i + 1;
      }
    }

    /** The bridge of the default name, or else the first. */
    method LookupBridge() returns (b: nat)
      requires bridges != []
      ensures b < |bridges| && PickBridge(bridges) == Some(b)
    {
      b := 0;
      var i := 0;
      while i < |bridges|
        invariant i <= |bridges| && forall j :: 0 <= j < i ==> bridges[j].name != DEFAULT_BRIDGE_NAME
      {
        if bridges[i].name == DEFAULT_BRIDGE_NAME {
          FirstBridge(bridges, i);
          return i;
        }
        i := i + 1;
      }
      FirstBridge(bridges, i);
    }

    method CheckPortInBridge(p: string) returns (found: bool)
      ensures found <==> InBridges(bridges, p)
    {
      found := false;
      for i := 0 to |bridges|
        invariant found <==> exists j :: 0 <= j < i && p in bridges[j].ports
      {
        for k := 0 to |bridges[i].ports|
          invariant found <==> (exists j :: 0 <= j < i && p in bridges[j].ports) || p in bridges[i].ports[..k]
        {
          if bridges[i].ports[k] == p {
            found := true;
          }
        }
        assert bridges[i].ports[..|bridges[i].ports|] == bridges[i].ports;
      }
    }

    /** The port of interface p, unless the interface is in a link aggregation. */
    method LookupPortOf(p: string) returns (lag: bool, own: bool)
      ensures lag <==> LagMember(View(), p)
      ensures !lag ==> (own <==> OwnPort(View(), p))
    {
      lag, own := false, false;
      var rest := ports.Keys;
      while rest != {}
        invariant rest <= ports.Keys
        invariant forall q :: q in ports && q !in rest && q != p ==> !(p in interfaces && p in ports[q].interfaces)
        invariant own <==> p in ports && p !in rest && p in interfaces && p in ports[p].interfaces
        decreases |rest|
      {
        var q :| q in rest;
        rest := rest - {q};
        if p in interfaces && p in ports[q].interfaces {
          if q != p {
            return true, false;
          }
          own := true;
        }
      }
    }

    /** The port to configure as interface p, if there is one and it is switched. */
    method CheckInterface(p: string) returns (ok: bool)
      ensures ok <==> IntfUsable(View(), p)
    {
      var lag, own := LookupPortOf(p);
      if lag {
        return false;
      }
      var switched := CheckPortInBridge(p);
      return switched && p in ports;
    }

    method CheckInternal(env: Env, vid: int) returns (blocked: bool)
      ensures blocked <==> InternalBlocked(env, View(), vid)
    {
      var rest := interfaces.Keys;
      while rest != {}
        invariant rest <= interfaces.Keys
        invariant rest < interfaces.Keys ==> vid !in env.internalVids
        decreases |rest|
      {
        if vid in env.internalVids {
          return true;
        }
        var q :| q in rest;
        rest := rest - {q};
      }
      return false;
    }

    // ---- Writes to a port row ----------------------------------------------------------------

    method SetMode(p: string, m: Option<VlanMode>)
      requires p in ports
      modifies this`ports
      ensures ports == old(ports)[p := old(ports[p]).(config := old(ports[p].config).(mode := m))]
    {
      ports := ports[p := ports[p].(config := ports[p].config.(mode := m))];
    }

    method SetTag(p: string, vid: int)
      requires p in ports
      modifies this`ports
      ensures ports == old(ports)[p := old(ports[p]).(config := old(ports[p].config).(tag := Some(vid)))]
    {
      ports := ports[p := ports[p].(config := ports[p].config.(tag := Some(vid)))];
    }

    method SetTrunks(p: string, trunks: seq<int>)
      requires p in ports
      modifies this`ports
      ensures ports == old(ports)[p := old(ports[p]).(config := old(ports[p].config).(trunks := trunks))]
    {
      ports := ports[p := ports[p].(config := ports[p].config.(trunks := trunks))];
    }

    // ---- Commands on an interface ----------------------------------------------------------

    /** vlan access */
    method VlanAccess(env: Env, p: string, vid: int)
      requires Idle()
      modifies this
      ensures Idle() && committed == After(old(committed), DoIntfAccess(env, old(committed), p, vid))
    {
      var blocked := CheckInternal(env, vid);
      if blocked {
        Abort();
        return;
      }
      var ok := CheckInterface(p);
      if !ok {
        Abort();
        return;
      }
      var found, i := LookupVlan(vid);
      if !found {
        Abort();
        return;
      }
      SetMode(p, Some(Access));
      SetTag(p, vid);
      SetTrunks(p, []);
      Commit();
      assert committed.ports == DoIntfAccess(env, old(committed), p, vid).db.ports;
    }

    /** no vlan access */
    method NoVlanAccess(p: string, given: Option<int>)
      requires Idle()
      modifies this
      ensures Idle() && committed == After(old(committed), DoIntfNoAccess(old(committed), p, given))
    {
      if vlans == [] {
        Abort();
        return;
      }
      if given.Some? {
        var found, i := LookupVlan(given.value);
        if !found {
          Abort();
          return;
        }
      }
      var ok := CheckInterface(p);
      if !ok {
        Abort();
        return;
      }
      if ports[p].config.mode != Some(Access) {
        Abort();
        return;
      }
      if given.Some? && ports[p].config.tag != given {
        Abort();
        return;
      }
      SetMode(p, Some(Access));
      SetTag(p, DEFAULT_VID);
      Commit();
      assert committed.ports == DoIntfNoAccess(old(committed), p, given).db.ports;
    }

    /** The trunk list loop: is vid among the port's trunks? */
    method FindTrunk(p: string, vid: int) returns (found: bool)
      requires p in ports
      ensures found <==> vid in ports[p].config.trunks
    {
      var trunks := ports[p].config.trunks;
      for i := 0 to |trunks|
        invariant vid !in trunks[..i]
      {
        if vid == trunks[i] {
          return true;
        }
      }
      return false;
    }

    /** vlan trunk allowed, with the expanded list of VLANs. */
    method VlanTrunkAllowed(env: Env, p: string, list: seq<int>)
      requires Idle() && !DoIntfAllow(env, committed, p, list).Faulted?
      modifies this
      ensures Idle() && committed == After(old(committed), DoIntfAllow(env, old(committed), p, list))
    {
      if list == [] {
        return;
      }
      if !env.hasSystem {
        Abort();
        return;
      }
      ghost var db := committed;
      ghost var row := if p in ports then ports[p].config else PortConfig(None, None, []);
      ghost var total := AllowFrom(env, db, p, row, list);
      var i := 0;
      while i < |list|
        invariant i <= |list| && committed == db
        invariant View() == if p in db.ports then WithRow(db, p, row) else db
        invariant AllowFrom(env, db, p, row, list[i..]) == total
      {
        var vid := list[i];
        assert list[i..][1..] == list[i + 1..];
        if vid in env.internalVids {
          i := i + 1;
          continue;
        }
        if env.minInternal <= vid <= env.maxInternal {
          Abort();
          return;
        }
        var ok := CheckInterface(p);
        if p in db.ports { UsableWithRow(db, p, row); }
        if !ok {
          Abort();
          return;
        }
        var found, at := LookupVlan(vid);
        if !found {
          Abort();
          return;
        }
        AllowOne(env, db, p, row, list[i..]);
        if ports[p].config.mode != Some(NativeTagged) && ports[p].config.mode != Some(NativeUntagged) {
          SetMode(p, Some(NativeUntagged));
        }
        row := NativeMode(row);
        var already := FindTrunk(p, vid);
        if already {
          Commit();
          return;
        }
        var trunks := Extend(ports[p].config.trunks, vid);
        SetTrunks(p, trunks[..]);
        row := row.(trunks := row.trunks + [vid]);
        i := i + 1;
      }
      Commit();
    }

    /** Leaves vid out of the port's trunks; the rebuilt list has one entry less. */
    method RemoveTrunk(p: string, vid: int) returns (found: bool)
      requires p in ports && NoRepeats(ports[p].config.trunks)
      modifies this`ports
      ensures found <==> vid in old(ports[p]).config.trunks
      ensures ports == old(ports)[p := old(ports[p]).(config :=
        old(ports[p]).config.(trunks := Without(old(ports[p]).config.trunks, vid)))]
    {
      WithoutKeepsOrder(ports[p].config.trunks, vid);
      found := FindTrunk(p, vid);
      if found {
        var trunks := Rebuild(ports[p].config.trunks, vid);
        SetTrunks(p, trunks[..]);
      }
    }

    /** no vlan trunk allowed, on an interface */
    method NoVlanTrunkAllowed(p: string, vid: int)
      requires Idle() && PortsInv(committed)
      modifies this
      ensures Idle() && committed == After(old(committed), DoIntfNoAllow(old(committed), p, vid))
    {
      var lag, own := LookupPortOf(p);
      if lag || !own {
        Abort();
        return;
      }
      var switched := CheckPortInBridge(p);
      if !switched {
        Abort();
        return;
      }
      var mode := ports[p].config.mode;
      if mode.Some? && mode != Some(Trunk) && mode != Some(NativeTagged) && mode != Some(NativeUntagged) {
        Abort();
        return;
      }
      var found := RemoveTrunk(p, vid);
      if !found {
        Abort();
        return;
      }
      if ports[p].config.mode == Some(Trunk) {
        if |ports[p].config.trunks| == 0 {
          SetMode(p, Some(Access));
          SetTag(p, DEFAULT_VID);
        }
      }
      Commit();
      assert committed.ports == DoIntfNoAllow(old(committed), p, vid).db.ports;
    }

    /** The mode becomes native-untagged unless it is native already. */
    method MakeNative(p: string)
      requires p in ports
      modifies this`ports
      ensures ports == old(ports)[p := old(ports[p]).(config := NativeMode(old(ports[p]).config))]
    {
      if ports[p].config.mode.None? {
        SetMode(p, Some(NativeUntagged));
      } else if ports[p].config.mode != Some(NativeTagged) && ports[p].config.mode != Some(NativeUntagged) {
        SetMode(p, Some(NativeUntagged));
      }
    }

    /** vlan trunk native, on an interface */
    method VlanTrunkNative(env: Env, p: string, vid: int)
      requires Idle()
      modifies this
      ensures Idle() && committed == After(old(committed), DoIntfNative(env, old(committed), p, vid))
    {
      var blocked := CheckInternal(env, vid);
      if blocked {
        Abort();
        return;
      }
      var ok := CheckInterface(p);
      if !ok {
        Abort();
        return;
      }
      var found, i := LookupVlan(vid);
      if !found {
        Abort();
        return;
      }
      MakeNative(p);
      SetTag(p, vid);
      Commit();
      assert committed.ports == DoIntfNative(env, old(committed), p, vid).db.ports;
    }

    /** The native VLAN goes; what is left is a trunk or an access port, on VLAN 1. */
    method DropNative(p: string)
      requires p in ports
      modifies this`ports
      ensures ports == old(ports)[p := old(ports[p]).(config := NoNativeRow(old(ports[p]).config))]
    {
      var count := |ports[p].config.trunks|;
      SetTag(p, DEFAULT_VID);
      if count != 0 {
        SetMode(p, Some(Trunk));
      } else {
        SetMode(p, Some(Access));
      }
    }

    /** no vlan trunk native, on an interface */
    method NoVlanTrunkNative(p: string, given: Option<int>)
      requires Idle()
      modifies this
      ensures Idle() && committed == After(old(committed), DoIntfNoNative(old(committed), p, given))
    {
      var ok := CheckInterface(p);
      if !ok {
        Abort();
        return;
      }
      var mode := ports[p].config.mode;
      if mode.Some? && mode != Some(NativeTagged) && mode != Some(NativeUntagged) {
        Abort();
        return;
      }
      if given.Some? && ports[p].config.tag != given {
        Abort();
        return;
      }
      DropNative(p);
      Commit();
    }

    /** vlan trunk native tag, on an interface */
    method VlanTrunkNativeTag(p: string)
      requires Idle()
      modifies this
      ensures Idle() && committed == After(old(committed), DoIntfTag(old(committed), p))
    {
      var ok := CheckInterface(p);
      if !ok {
        Abort();
        return;
      }
      if ports[p].config.mode == Some(Access) {
        Abort();
        return;
      }
      SetMode(p, Some(NativeTagged));
      Commit();
    }

    /** no vlan trunk native tag, on an interface */
    method NoVlanTrunkNativeTag(p: string)
      requires Idle()
      modifies this
      ensures Idle() && committed == After(old(committed), DoIntfNoTag(old(committed), p))
    {
      var ok := CheckInterface(p);
      if !ok {
        Abort();
        return;
      }
      if ports[p].config.mode.Some? && ports[p].config.mode != Some(NativeTagged) {
        Abort();
        return;
      }
      SetMode(p, Some(NativeUntagged));
      Commit();
    }

    // ---- Commands on a link aggregation --------------------------------------------------------

    /** vlan access; the port row is used without checking that there is one. */
    method LagVlanAccess(p: string, vid: int)
      requires Idle() && !DoLagAccess(committed, p, vid).Faulted?
      modifies this
      ensures Idle() && committed == After(old(committed), DoLagAccess(old(committed), p, vid))
    {
      var switched := CheckPortInBridge(p);
      if !switched {
        Abort();
        return;
      }
      var found, i := LookupVlan(vid);
      if !found {
        Abort();
        return;
      }
      SetMode(p, Some(Access));
      SetTag(p, vid);
      SetTrunks(p, []);
      Commit();
      assert committed.ports == DoLagAccess(old(committed), p, vid).db.ports;
    }

    /** no vlan access */
    method LagNoVlanAccess(p: string)
      requires Idle()
      modifies this
      ensures Idle() && committed == After(old(committed), DoLagNoAccess(old(committed), p))
    {
      var switched := CheckPortInBridge(p);
      if !switched || p !in ports {
        Abort();
        return;
      }
      if ports[p].config.mode.Some? && ports[p].config.mode != Some(Access) {
        Abort();
        return;
      }
      SetMode(p, None);
      SetTag(p, DEFAULT_VID);
      Commit();
      assert committed.ports == DoLagNoAccess(old(committed), p).db.ports;
    }

    /** vlan trunk allowed; the port row is used without checking that there is one. */
    method LagVlanTrunkAllowed(p: string, vid: int)
      requires Idle() && !DoLagAllow(committed, p, vid).Faulted?
      modifies this
      ensures Idle() && committed == After(old(committed), DoLagAllow(old(committed), p, vid))
    {
      var switched := CheckPortInBridge(p);
      if !switched {
        Abort();
        return;
      }
      var found, i := LookupVlan(vid);
      if !found {
        Abort();
        return;
      }
      if ports[p].config.mode.None? {
        SetMode(p, Some(Trunk));
      } else if ports[p].config.mode != Some(NativeTagged) && ports[p].config.mode != Some(NativeUntagged) {
        SetMode(p, Some(Trunk));
      }
      var already := FindTrunk(p, vid);
      if already {
        Commit();
        return;
      }
      var trunks := Extend(ports[p].config.trunks, vid);
      SetTrunks(p, trunks[..]);
      Commit();
      assert committed.ports == DoLagAllow(old(committed), p, vid).db.ports;
    }

    /** no vlan trunk allowed; the mode column is compared without checking that it is set. */
    method LagNoVlanTrunkAllowed(p: string, vid: int)
      requires Idle() && PortsInv(committed) && !DoLagNoAllow(committed, p, vid).Faulted?
      modifies this
      ensures Idle() && committed == After(old(committed), DoLagNoAllow(old(committed), p, vid))
    {
      var switched := CheckPortInBridge(p);
      if !switched || p !in ports {
        Abort();
        return;
      }
      var mode := ports[p].config.mode;
      if mode.Some? && mode != Some(Trunk) && mode != Some(NativeTagged) && mode != Some(NativeUntagged) {
        Abort();
        return;
      }
      var found := RemoveTrunk(p, vid);
      if ports[p].config.mode.value == Trunk {
        if |ports[p].config.trunks| == 0 {
          SetMode(p, Some(Access));
          SetTag(p, DEFAULT_VID);
        }
      }
      Commit();
      assert committed.ports == DoLagNoAllow(old(committed), p, vid).db.ports;
    }

    /** vlan trunk native */
    method LagVlanTrunkNative(p: string, vid: int)
      requires Idle()
      modifies this
      ensures Idle() && committed == After(old(committed), DoLagNative(old(committed), p, vid))
    {
      var switched := CheckPortInBridge(p);
      if !switched {
        Abort();
        return;
      }
      var found, i := LookupVlan(vid);
      if !found || p !in ports {
        Abort();
        return;
      }
      MakeNative(p);
      SetTag(p, vid);
      Commit();
      assert committed.ports == DoLagNative(old(committed), p, vid).db.ports;
    }

    /** no vlan trunk native; the port row is used without checking that there is one. */
    method LagNoVlanTrunkNative(p: string)
      requires Idle() && !DoLagNoNative(committed, p).Faulted?
      modifies this
      ensures Idle() && committed == After(old(committed), DoLagNoNative(old(committed), p))
    {
      var switched := CheckPortInBridge(p);
      if !switched {
        Abort();
        return;
      }
      var mode := ports[p].config.mode;
      if mode.Some? && mode != Some(NativeTagged) && mode != Some(NativeUntagged) {
        Abort();
        return;
      }
      DropNative(p);
      Commit();
    }

    /** vlan trunk native tag */
    method LagVlanTrunkNativeTag(p: string)
      requires Idle()
      modifies this
      ensures Idle() && committed == After(old(committed), DoLagTag(old(committed), p))
    {
      var switched := CheckPortInBridge(p);
      if !switched || p !in ports {
        Abort();
        return;
      }
      if ports[p].config.mode == Some(Access) {
        Abort();
        return;
      }
      SetMode(p, Some(NativeTagged));
      Commit();
    }

    /** no vlan trunk native tag */
    method LagNoVlanTrunkNativeTag(p: string)
      requires Idle()
      modifies this
      ensures Idle() && committed == After(old(committed), DoLagNoTag(old(committed), p))
    {
      var switched := CheckPortInBridge(p);
      if !switched || p !in ports {
        Abort();
        return;
      }
      if ports[p].config.mode.Some? && ports[p].config.mode != Some(NativeTagged) {
        Abort();
        return;
      }
      SetMode(p, Some(NativeUntagged));
      Commit();
    }

    // ---- Commands on VLANs ------------------------------------------------------------------

    method SetAdmin(i: nat, a: Admin)
      requires i < |vlans|
      modifies this`vlans
      ensures vlans == old(vlans)[i := old(vlans[i]).(config := old(vlans[i]).config.(admin := Some(a)))]
    {
      vlans := vlans[i := vlans[i].(config := vlans[i].config.(admin := Some(a)))];
    }

    /** shutdown; the VLAN row is used without checking that it was found. */
    method VlanShutdown(vid: int)
      requires Idle() && !DoShutdown(committed, vid).Faulted?
      modifies this
      ensures Idle() && committed == After(old(committed), DoShutdown(old(committed), vid))
    {
      if vid == DEFAULT_VID {
        Abort();
        return;
      }
      var found, i := LookupVlan(vid);
      SetAdmin(i, AdminDown);
      Commit();
    }

    /** no shutdown; the VLAN row is used without checking that it was found. */
    method NoVlanShutdown(vid: int)
      requires Idle() && !DoNoShutdown(committed, vid).Faulted?
      modifies this
      ensures Idle() && committed == After(old(committed), DoNoShutdown(old(committed), vid))
    {
      var found, i := LookupVlan(vid);
      SetAdmin(i, AdminUp);
      Commit();
    }

    /** A new row of the VLAN table, also at the end of the bridge's list. */
    method InsertVlan(b: nat, config: VlanConfig)
      requires b < |bridges|
      modifies this`vlans, this`bridges, this`nextUuid
      ensures View() == Insert(old(View()), b, config)
    {
      vlans := vlans + [VlanRec(nextUuid, config)];
      var rows := Extend(bridges[b].vlans, nextUuid);
      bridges := bridges[b := bridges[b].(vlans := rows[..])];
      nextUuid := nextUuid + 1;
    }

    /** vlan */
    method CreateVlan(arg: string)
      requires Idle() && Digits(arg) && !DoCreateVlan(committed, arg).Faulted?
      modifies this
      ensures Idle() && committed == After(old(committed), DoCreateVlan(old(committed), arg))
    {
      var vid := Atoi(arg);
      var found, i := LookupVlan(vid);
      if found {
        return;
      }
      var b := LookupBridge();
      InsertVlan(b, VlanConfig(VlanName(arg), vid, Some(AdminDown), false));
      var vlanIf := VlanIfName(arg);
      if vlanIf in ports {
        SetTag(vlanIf, vid);
        SetMode(vlanIf, None);
      }
      Commit();
      assert committed.ports == DoCreateVlan(old(committed), arg).db.ports;
    }

    /** create_default_vlan of the daemon: only in the bridge of the default name. */
    method CreateDefaultVlan()
      requires Idle()
      modifies this
      ensures Idle() && committed == After(old(committed), DoCreateDefault(old(committed)))
    {
      var found, i := LookupVlan(DEFAULT_VID);
      if found {
        return;
      }
      if bridges == [] {
        Abort();
        return;
      }
      var b := LookupBridge();
      if bridges[b].name != DEFAULT_BRIDGE_NAME {
        Abort();
        return;
      }
      InsertVlan(b, DEFAULT_CONFIG);
      Commit();
    }

    /** The body of the port loop of "no vlan". */
    method SweepPort(p: string, vid: int)
      requires p in ports && NoRepeats(ports[p].config.trunks)
      modifies this`ports
      ensures ports == old(ports)[p := old(ports[p]).(config :=
        SweepRow(old(ports[p]).config, IsSystem(old(View()), p), vid))]
    {
      WithoutKeepsOrder(ports[p].config.trunks, vid);
      var touched := RemoveTrunk(p, vid);
      var count := |ports[p].config.trunks|;
      if ports[p].config.tag == Some(vid) {
        touched := true;
      }
      if touched {
        if count != 0 {
          SetMode(p, Some(Trunk));
          SetTag(p, 0);
        } else if p in interfaces && interfaces[p] {
          SetMode(p, Some(Access));
          SetTag(p, DEFAULT_VID);
        }
      }
    }

    /** The port loop of "no vlan", in any order. */
    method SweepPorts(vid: int)
      requires PortsInv(View())
      modifies this`ports
      ensures ports == Sweep(old(View()), vid)
    {
      ghost var db := View();
      var rest := ports.Keys;
      while rest != {}
        invariant rest <= ports.Keys == db.ports.Keys
        invariant forall p :: p in ports ==> ports[p] == if p in rest then db.ports[p] else Sweep(db, vid)[p]
        decreases |rest|
      {
        var p :| p in rest;
        rest := rest - {p};
        assert RowInv(p, IsSystem(db, p), db.ports[p].config);
        SweepPort(p, vid);
      }
    }

    /** no vlan */
    method DeleteVlan(arg: string)
      requires Idle() && DbInv(committed) && Digits(arg)
      modifies this
      ensures Idle() && committed == After(old(committed), DoDeleteVlan(old(committed), arg))
    {
      var vid := Atoi(arg);
      var found, i := LookupVlan(vid);
      if !found {
        return;
      }
      if vlans[i].config.l3port {
        return;
      }
      if VlanIfName(arg) in ports {
        return;
      }
      var b := LookupBridge();
      assert IsVlanRow(committed, vlans[i].uuid);
      var rows := Rebuild(bridges[b].vlans, vlans[i].uuid);
      bridges := bridges[b := bridges[b].(vlans := rows[..])];
      SweepPorts(vid);
      vlans := vlans[..i] + vlans[i + 1..];
      Commit();
      assert committed == DoDeleteVlan(old(committed), arg).db;
    }

    /** Any command, in a database that commands made: what the handlers do is what the run results speak of. */
    method Enter(env: Env, c: Command)
      requires Idle() && DbInv(committed) && Admitted(c) && !Exec(env, committed, c).Faulted?
      modifies this
      ensures Idle() && committed == After(old(committed), Exec(env, old(committed), c)) && DbInv(committed)
    {
      ghost var db := committed;
      match c {
        case CreateVlan(arg) => CreateVlan(arg);
        case DeleteVlan(arg) => DeleteVlan(arg);
        case Shutdown(vid) => VlanShutdown(vid);
        case NoShutdown(vid) => NoVlanShutdown(vid);
        case CreateDefault => CreateDefaultVlan();
        case IntfAccess(p, vid) => VlanAccess(env, p, vid);
        case IntfNoAccess(p, given) => NoVlanAccess(p, given);
        case IntfAllow(p, vids) => VlanTrunkAllowed(env, p, vids);
        case IntfNoAllow(p, vid) => NoVlanTrunkAllowed(p, vid);
        case IntfNative(p, vid) => VlanTrunkNative(env, p, vid);
        case IntfNoNative(p, given) => NoVlanTrunkNative(p, given);
        case IntfTag(p) => VlanTrunkNativeTag(p);
        case IntfNoTag(p) => NoVlanTrunkNativeTag(p);
        case LagAccess(p, vid) => LagVlanAccess(p, vid);
        case LagNoAccess(p) => LagNoVlanAccess(p);
        case LagAllow(p, vid) => LagVlanTrunkAllowed(p, vid);
        case LagNoAllow(p, vid) => LagNoVlanTrunkAllowed(p, vid);
        case LagNative(p, vid) => LagVlanTrunkNative(p, vid);
        case LagNoNative(p) => LagNoVlanTrunkNative(p);
        case LagTag(p) => LagVlanTrunkNativeTag(p);
        case LagNoTag(p) => LagNoVlanTrunkNativeTag(p);
      }
      ExecKeepsInv(env, db, c);
    }
  }

  // ---- show vlan -------------------------------------------------------------------------------

  datatype NamedPort = NamedPort(name: string, config: PortConfig)

  /** The port is listed under VLAN v. */
  predicate Shown(k: PortConfig, v: int) {
    v in k.trunks || k.tag == Some(v)
  }

  /** The ports listed under VLAN v, in table order. */
  function ShownPorts(ports: seq<NamedPort>, v: int): seq<string> {
    if ports == [] then [] else
      ShownPorts(ports[..|ports| - 1], v) +
      if Shown(ports[|ports| - 1].config, v) then [ports[|ports| - 1].name] else []
  }

  /** The size of the array: ports with a tag or with trunks. */
  function PortCount(ports: seq<NamedPort>): nat {
    if ports == [] then 0 else
      PortCount(ports[..|ports| - 1]) +
      if ports[|ports| - 1].config.tag.Some? || ports[|ports| - 1].config.trunks != [] then 1 else 0
  }

  lemma ShownOneMore(ports: seq<NamedPort>, v: int, i: nat)
    requires i < |ports|
    ensures ShownPorts(ports[..i + 1], v) ==
      ShownPorts(ports[..i], v) + if Shown(ports[i].config, v) then [ports[i].name] else []
    ensures PortCount(ports[..i + 1]) ==
      PortCount(ports[..i]) + if ports[i].config.tag.Some? || ports[i].config.trunks != [] then 1 else 0
  {
    assert ports[..i + 1][..i] == ports[..i];
  }

  lemma {:induction false} PortCountPrefix(ports: seq<NamedPort>, i: nat)
    requires i <= |ports|
    ensures PortCount(ports[..i]) <= PortCount(ports)
    decreases |ports| - i
  {
    if i == |ports| {
      assert ports[..i] == ports;
    } else {
      ShownOneMore(ports, 0, i);
      PortCountPrefix(ports, i + 1);
    }
  }

  /** The places in the table of ports with a tag or with trunks. */
  function Configured(ports: seq<NamedPort>): set<nat> {
    set i: nat | i < |ports| && (ports[i].config.tag != None || |ports[i].config.trunks| != 0)
  }

  lemma {:induction false} CountIsExact(ports: seq<NamedPort>)
    ensures PortCount(ports) == |Configured(ports)|
  {
    if ports == [] {
      assert Configured(ports) == {};
    } else {
      var most, last := ports[..|ports| - 1], ports[|ports| - 1];
      CountIsExact(most);
      var there := last.config.tag != None || |last.config.trunks| != 0;
      assert Configured(ports) == Configured(most) + (if there then {|most|} else {});
    }
  }

  method CountPorts(ports: seq<NamedPort>) returns (count: nat)
    ensures count == PortCount(ports) && count == |Configured(ports)|
  {
    CountIsExact(ports);
    count := 0;
    for i := 0 to |ports|
      invariant count == PortCount(ports[..i])
    {
      ShownOneMore(ports, 0, i);
      if ports[i].config.tag.Some? || |ports[i].config.trunks| != 0 {
        count := count + 1;
      }
    }
    assert ports[..|ports|] == ports;
  }

  /** The port loop of "show vlan" for one VLAN: an array of the counted size holds what is listed. */
  method CollectPorts(ports: seq<NamedPort>, vid: int, count: nat) returns (nodes: array<string>, n: nat)
    requires count == PortCount(ports)
    ensures fresh(nodes) && n <= nodes.Length && nodes[..n] == ShownPorts(ports, vid)
  {
    nodes := new string[count];
    n := 0;
    for i := 0 to |ports|
      invariant n <= PortCount(ports[..i]) && n <= nodes.Length == count
      invariant nodes[..n] == ShownPorts(ports[..i], vid)
    {
      ShownOneMore(ports, vid, i);
      PortCountPrefix(ports, i + 1);
      var k := ports[i].config;
      var printTag := false;
      var j := 0;
      var inTrunks := false;
      while j < |k.trunks| && !inTrunks
        invariant j <= |k.trunks|
        invariant !inTrunks ==> vid !in k.trunks[..j] && !printTag
        invariant inTrunks ==> vid in k.trunks && (printTag <==> k.tag == Some(vid))
      {
        if vid == k.trunks[j] {
          printTag := k.tag.Some? && k.tag.value == vid;
          inTrunks := true;
        }
        j := j + 1;
      }
      if inTrunks {
        nodes[n] := ports[i].name;
        n := n + 1;
      }
      if !printTag && k.tag.Some? && k.tag.value == vid {
        nodes[n] := ports[i].name;
        n := n + 1;
      }
    }
    assert ports[..|ports|] == ports;
  }

  lemma {:induction false} ShownExactly(ports: seq<NamedPort>, v: int, name: string)
    ensures name in ShownPorts(ports, v) <==>
      exists i :: 0 <= i < |ports| && ports[i].name == name && Shown(ports[i].config, v)
  {
    if ports == [] {
    } else {
      var most, last := ports[..|ports| - 1], ports[|ports| - 1];
      assert ports == most + [last];
      ShownExactly(most, v, name);
      if last.name == name && Shown(last.config, v) {
        assert ports[|most|] == last;
      }
      forall i | 0 <= i < |most| ensures most[i] == ports[i] {}
    }
  }

  /** The listing keeps the order of the table. */
  lemma {:induction false} ShownInOrder(a: seq<NamedPort>, b: seq<NamedPort>, v: int)
    ensures ShownPorts(a + b, v) == ShownPorts(a, v) + ShownPorts(b, v)
    decreases |b|
  {
    if b == [] {
      assert a + b == a;
    } else {
      var most := b[..|b| - 1];
      assert (a + b)[..|a + b| - 1] == a + most;
      ShownInOrder(a, most, v);
    }
  }

  lemma {:induction false} ShownOnce(ports: seq<NamedPort>, v: int)
    requires forall i, j :: 0 <= i < j < |ports| ==> ports[i].name != ports[j].name
    ensures NoRepeats(ShownPorts(ports, v))
  {
    if ports == [] {
    } else {
      var most, last := ports[..|ports| - 1], ports[|ports| - 1];
      ShownOnce(most, v);
      ShownExactly(most, v, last.name);
      assert forall i :: 0 <= i < |most| ==> most[i] == ports[i];
    }
  }

  /**
   * The listing agrees with membership except for ports that trunk every VLAN, which are missing, and
   * for the tag of an explicit plain trunk, which is listed though the port is not a member.
   */
  lemma ShownIsMembership(name: string, system: bool, k: PortConfig, v: int)
    requires ValidVid(v) && RowInv(name, system, k)
    ensures (Shown(k, v) <==> Carries(k, v)) <==>
      !(TrunksAll(k) && k.tag != Some(v)) &&
      !(EffectiveMode(k) == Trunk && k.trunks != [] && k.tag == Some(v) && v !in k.trunks)
  {
  }
}
