/**
 * What each command does, said of columns, tables and bridges alone: exactly when it commits, when it stops at
 * something missing, and what it leaves. Nothing here is used by the commands themselves.
 */
module CliMeanings {
  import opened VlanTypes
  import opened CliCommands
  import opened CliInvariants

  // ---- The state a command looks at ------------------------------------------------------------------

  ghost predicate Defined(db: Db, v: int) {
    exists i :: 0 <= i < |db.vlans| && db.vlans[i].config.id == v
  }

  /** A bridge lists the port. */
  ghost predicate Switched(db: Db, p: string) {
    exists b :: 0 <= b < |db.bridges| && p in db.bridges[b].ports
  }

  /** The interface belongs to the port of another name. */
  ghost predicate Aggregated(db: Db, p: string) {
    p in db.interfaces && exists q :: q in db.ports && q != p && p in db.ports[q].interfaces
  }

  /** A switched interface with a port row, in no link aggregation. */
  ghost predicate Open(db: Db, p: string) {
    p in db.ports && Switched(db, p) && !Aggregated(db, p)
  }

  predicate InInternalUse(env: Env, db: Db, v: int) {
    v in env.internalVids && |db.interfaces| != 0
  }

  lemma DefinedIsHasVlan(db: Db, v: int)
    ensures HasVlan(db, v) <==> Defined(db, v)
  {
  }

  lemma OpenIsUsable(db: Db, p: string)
    ensures IntfUsable(db, p) <==> Open(db, p)
    ensures LagMember(db, p) <==> Aggregated(db, p)
    ensures InBridges(db.bridges, p) <==> Switched(db, p)
  {
  }

  /** The entries other than v, from the front. */
  function Others<T(==)>(s: seq<T>, v: T): seq<T> {
    if s == [] then [] else (if s[0] == v then [] else [s[0]]) + Others(s[1..], v)
  }

  lemma {:induction false} OthersConcat<T>(s: seq<T>, t: seq<T>, v: T)
    ensures Others(s + t, v) == Others(s, v) + Others(t, v)
  {
    if s == [] {
      assert s + t == t;
    } else {
      assert (s + t)[0] == s[0] && (s + t)[1..] == s[1..] + t;
      OthersConcat(s[1..], t, v);
    }
  }

  lemma {:induction false} WithoutIsOthers<T(!new)>(s: seq<T>, v: T)
    ensures Without(s, v) == Others(s, v)
  {
    if s == [] {
    } else {
      var most, last := s[..|s| - 1], s[|s| - 1];
      assert s == most + [last];
      WithoutIsOthers(most, v);
      OthersConcat(most, [last], v);
      assert [last][1..] == [];
    }
  }

  // ---- Commands on ports -------------------------------------------------------------------------------

  predicate OnPort(c: Command) {
    !c.CreateVlan? && !c.DeleteVlan? && !c.Shutdown? && !c.NoShutdown? && !c.CreateDefault?
  }

  /** The mode column is unset or one of a trunk's. */
  predicate MayTrunk(k: PortConfig) {
    k.mode in {None, Some(Trunk), Some(NativeTagged), Some(NativeUntagged)}
  }

  predicate MayBeNative(k: PortConfig) {
    k.mode in {None, Some(NativeTagged), Some(NativeUntagged)}
  }

  /** The tag typed along with a "no" command is that of the row. */
  predicate TagFits(k: PortConfig, given: Option<int>) {
    given == None || k.tag == given
  }

  /** When a port command commits, "vlan trunk allowed" on an interface apart. */
  ghost predicate Commits(env: Env, db: Db, c: Command)
    requires OnPort(c) && !c.IntfAllow?
  {
    match c
    case IntfAccess(p, v) => Open(db, p) && Defined(db, v) && !InInternalUse(env, db, v)
    case IntfNoAccess(p, given) =>
      && Open(db, p) && |db.vlans| != 0 && (given.Some? ==> Defined(db, given.value))
      && db.ports[p].config.mode == Some(Access) && TagFits(db.ports[p].config, given)
    case IntfNoAllow(p, v) =>
      && Open(db, p) && p in db.interfaces && p in db.ports[p].interfaces
      && MayTrunk(db.ports[p].config) && v in db.ports[p].config.trunks
    case IntfNative(p, v) => Open(db, p) && Defined(db, v) && !InInternalUse(env, db, v)
    case IntfNoNative(p, given) =>
      Open(db, p) && MayBeNative(db.ports[p].config) && TagFits(db.ports[p].config, given)
    case IntfTag(p) => Open(db, p) && db.ports[p].config.mode != Some(Access)
    case IntfNoTag(p) => Open(db, p) && db.ports[p].config.mode in {None, Some(NativeTagged)}
    case LagAccess(p, v) => Switched(db, p) && Defined(db, v) && p in db.ports
    case LagNoAccess(p) => Switched(db, p) && p in db.ports && db.ports[p].config.mode in {None, Some(Access)}
    case LagAllow(p, v) => Switched(db, p) && Defined(db, v) && p in db.ports
    case LagNoAllow(p, _) =>
      Switched(db, p) && p in db.ports && db.ports[p].config.mode != None && MayTrunk(db.ports[p].config)
    case LagNative(p, v) => Switched(db, p) && Defined(db, v) && p in db.ports
    case LagNoNative(p) => Switched(db, p) && p in db.ports && MayBeNative(db.ports[p].config)
    case LagTag(p) => Switched(db, p) && p in db.ports && db.ports[p].config.mode != Some(Access)
    case LagNoTag(p) => Switched(db, p) && p in db.ports && db.ports[p].config.mode in {None, Some(NativeTagged)}
  }

  /** When it goes on to a port row or mode column that is not there. */
  ghost predicate Stops(db: Db, c: Command)
    requires OnPort(c) && !c.IntfAllow?
  {
    match c
    case LagAccess(p, v) => Switched(db, p) && Defined(db, v) && p !in db.ports
    case LagAllow(p, v) => Switched(db, p) && Defined(db, v) && p !in db.ports
    case LagNoAllow(p, _) => Switched(db, p) && p in db.ports && db.ports[p].config.mode == None
    case LagNoNative(p) => Switched(db, p) && p !in db.ports
    case _ => false
  }

  /** A native mode stays; any other becomes the given one. */
  function NativeOr(mode: Option<VlanMode>, m: VlanMode): Option<VlanMode> {
    match mode
    case Some(NativeTagged) => Some(NativeTagged)
    case Some(NativeUntagged) => Some(NativeUntagged)
    case _ => Some(m)
  }

  /** An emptied plain trunk becomes an access port on VLAN 1. */
  function TrunksLess(k: PortConfig, v: int): PortConfig {
    var left := Others(k.trunks, v);
    if k.mode == Some(Trunk) && |left| == 0 then PortConfig(Some(Access), Some(1), [])
    else PortConfig(k.mode, k.tag, left)
  }

  /** The row a committed port command leaves, column by column. */
  function Leaves(k: PortConfig, c: Command): PortConfig
    requires OnPort(c) && !c.IntfAllow?
  {
    match c
    case IntfAccess(_, v) => PortConfig(Some(Access), Some(v), [])
    case IntfNoAccess(_, _) => PortConfig(Some(Access), Some(1), k.trunks)
    case IntfNoAllow(_, v) => TrunksLess(k, v)
    case IntfNative(_, v) => PortConfig(NativeOr(k.mode, NativeUntagged), Some(v), k.trunks)
    case IntfNoNative(_, _) => PortConfig(if |k.trunks| == 0 then Some(Access) else Some(Trunk), Some(1), k.trunks)
    case IntfTag(_) => PortConfig(Some(NativeTagged), k.tag, k.trunks)
    case IntfNoTag(_) => PortConfig(Some(NativeUntagged), k.tag, k.trunks)
    case LagAccess(_, v) => PortConfig(Some(Access), Some(v), [])
    case LagNoAccess(_) => PortConfig(None, Some(1), k.trunks)
    case LagAllow(_, v) =>
      PortConfig(NativeOr(k.mode, Trunk), k.tag, if v in k.trunks then k.trunks else k.trunks + [v])
    case LagNoAllow(_, v) => TrunksLess(k, v)
    case LagNative(_, v) => PortConfig(NativeOr(k.mode, NativeUntagged), Some(v), k.trunks)
    case LagNoNative(_) => PortConfig(if |k.trunks| == 0 then Some(Access) else Some(Trunk), Some(1), k.trunks)
    case LagTag(_) => PortConfig(Some(NativeTagged), k.tag, k.trunks)
    case LagNoTag(_) => PortConfig(Some(NativeUntagged), k.tag, k.trunks)
  }

  /** From db to d only the columns of port p changed, to row k. */
  ghost predicate OnlyRowBecomes(db: Db, d: Db, p: string, k: PortConfig)
    requires p in db.ports
  {
    && d == db.(ports := d.ports) && d.ports.Keys == db.ports.Keys
    && (forall q :: q in db.ports && q != p ==> d.ports[q] == db.ports[q])
    && d.ports[p] == PortRec(k, db.ports[p].interfaces)
  }

  lemma PutIsOnlyRow(db: Db, p: string, k: PortConfig)
    requires p in db.ports
    ensures OnlyRowBecomes(db, Put(db, p, k).db, p, k)
  {
  }

  lemma IntfCommandExactly(env: Env, db: Db, c: Command)
    requires Admitted(c) && OnPort(c) && !c.IntfAllow?
    requires c.IntfAccess? || c.IntfNoAccess? || c.IntfNoAllow? || c.IntfNative? || c.IntfNoNative? || c.IntfTag?
          || c.IntfNoTag?
    ensures Exec(env, db, c) ==
      if Commits(env, db, c) then Put(db, c.port, Leaves(db.ports[c.port].config, c)) else Unchanged
  {
    OpenIsUsable(db, c.port);
    if c.IntfNoAllow? && c.port in db.ports { WithoutIsOthers(db.ports[c.port].config.trunks, c.vid); }
    if c.IntfAccess? || c.IntfNative? { DefinedIsHasVlan(db, c.vid); }
    if c.IntfNoAccess? && c.given.Some? { DefinedIsHasVlan(db, c.given.value); }
  }

  lemma LagCommandExactly(env: Env, db: Db, c: Command)
    requires Admitted(c) && OnPort(c) && !c.IntfAllow?
    requires c.LagAccess? || c.LagNoAccess? || c.LagAllow? || c.LagNoAllow? || c.LagNative? || c.LagNoNative?
          || c.LagTag? || c.LagNoTag?
    ensures Exec(env, db, c) ==
      if Commits(env, db, c) then Put(db, c.port, Leaves(db.ports[c.port].config, c))
      else if Stops(db, c) then Faulted else Unchanged
  {
    OpenIsUsable(db, c.port);
    if c.LagNoAllow? && c.port in db.ports { WithoutIsOthers(db.ports[c.port].config.trunks, c.vid); }
    if c.LagAccess? || c.LagAllow? || c.LagNative? { DefinedIsHasVlan(db, c.vid); }
  }

  /**
   * Every port command but the list command: it commits exactly under the conditions of its kind and then leaves
   * exactly that row; it stops at something missing exactly where said; otherwise it changes nothing.
   */
  lemma PortCommandExactly(env: Env, db: Db, c: Command)
    requires Admitted(c) && OnPort(c) && !c.IntfAllow?
    ensures var o := Exec(env, db, c);
      && (o.Committed? <==> Commits(env, db, c))
      && (o.Faulted? <==> Stops(db, c))
      && (o.Committed? ==> c.port in db.ports && OnlyRowBecomes(db, o.db, c.port, Leaves(db.ports[c.port].config, c)))
  {
    if c.IntfAccess? || c.IntfNoAccess? || c.IntfNoAllow? || c.IntfNative? || c.IntfNoNative? || c.IntfTag?
       || c.IntfNoTag? {
      IntfCommandExactly(env, db, c);
    } else {
      LagCommandExactly(env, db, c);
    }
    if Commits(env, db, c) { PutIsOnlyRow(db, c.port, Leaves(db.ports[c.port].config, c)); }
  }

  // ---- "vlan trunk allowed" with a list ------------------------------------------------------------------

  /** The elements not in internal use, which are the ones looked at. */
  function Looked(env: Env, vids: seq<int>): seq<int> {
    if vids == [] then []
    else if vids[0] in env.internalVids then Looked(env, vids[1..])
    else [vids[0]] + Looked(env, vids[1..])
  }

  lemma {:induction false} LookedIsNotInternal(env: Env, vids: seq<int>)
    ensures Looked(env, vids) == NotInternal(env, vids)
  {
    if vids == [] {
    } else {
      LookedIsNotInternal(env, vids[1..]);
    }
  }

  /** The VLAN may be allowed on the port. */
  ghost predicate Allowable(env: Env, db: Db, p: string, v: int) {
    Open(db, p) && Defined(db, v) && (v < env.minInternal || v > env.maxInternal)
  }

  /** The first n elements looked at are new to the trunks, and the next, if any, is not: the loop ends there. */
  ghost predicate EndsAfter(trunks: seq<int>, looked: seq<int>, n: nat) {
    && n <= |looked|
    && (forall i :: 0 <= i < n ==> looked[i] !in trunks && looked[i] !in looked[..i])
    && (n < |looked| ==> looked[n] in trunks || looked[n] in looked[..n])
  }

  lemma EndsAfterIsStopsAt(trunks: seq<int>, looked: seq<int>, n: nat)
    ensures EndsAfter(trunks, looked, n) <==> StopsAt(trunks, looked, n)
  {
    forall i | 0 <= i < |looked|
      ensures looked[i] in trunks + looked[..i] <==> looked[i] in trunks || looked[i] in looked[..i] {}
  }

  /** The elements looked at, the one that ends the loop too, may all be allowed. */
  ghost predicate AllAllowable(env: Env, db: Db, p: string, looked: seq<int>, n: nat) {
    forall i :: 0 <= i < |looked| && i <= n ==> Allowable(env, db, p, looked[i])
  }

  lemma AllowableIsMayAllow(env: Env, db: Db, p: string, v: int)
    ensures Allowable(env, db, p, v) <==> MayAllow(env, db, p, v)
  {
    OpenIsUsable(db, p);
    DefinedIsHasVlan(db, v);
  }

  lemma AllAllowableIsMay(env: Env, db: Db, p: string, looked: seq<int>, n: nat)
    ensures AllAllowable(env, db, p, looked, n) <==> AllMayBeAllowed(env, db, p, looked, n)
  {
    forall i | 0 <= i < |looked| ensures Allowable(env, db, p, looked[i]) <==> MayAllow(env, db, p, looked[i]) {
      AllowableIsMayAllow(env, db, p, looked[i]);
    }
  }

  /** The row with the first n elements added. */
  function AllowedMore(k: PortConfig, looked: seq<int>, n: nat): PortConfig
    requires n <= |looked|
  {
    PortConfig(if looked == [] then k.mode else NativeOr(k.mode, NativeUntagged), k.tag, k.trunks + looked[..n])
  }

  /**
   * The list command: it needs a System row and a list. On a port with a row it stops at a missing mode exactly if
   * the first element looked at may be allowed; otherwise it commits exactly if all it looks at may be allowed, and
   * then adds the elements up to the first one already there. Without a port row it changes nothing.
   */
  lemma ListCommandExactly(env: Env, db: Db, p: string, vids: seq<int>, n: nat)
    requires Admitted(IntfAllow(p, vids))
    requires p in db.ports ==> EndsAfter(db.ports[p].config.trunks, Looked(env, vids), n)
    ensures var o, looked := Exec(env, db, IntfAllow(p, vids)), Looked(env, vids);
      if p !in db.ports || |vids| == 0 || !env.hasSystem then o == Unchanged
      else
        var k := db.ports[p].config;
        if looked != [] && k.mode == None && Allowable(env, db, p, looked[0]) then o == Faulted
        else if AllAllowable(env, db, p, looked, n)
        then o.Committed? && OnlyRowBecomes(db, o.db, p, AllowedMore(k, looked, n))
        else o == Unchanged
  {
    LookedIsNotInternal(env, vids);
    var looked := Looked(env, vids);
    if vids == [] || !env.hasSystem {
    } else if p !in db.ports {
      AllowListWithoutPort(env, db, p, PortConfig(None, None, []), vids);
    } else {
      var k := db.ports[p].config;
      EndsAfterIsStopsAt(k.trunks, looked, n);
      AllowListOutcome(env, db, p, vids, n);
      AllAllowableIsMay(env, db, p, looked, n);
      if looked != [] { AllowableIsMayAllow(env, db, p, looked[0]); }
      PutIsOnlyRow(db, p, AllowedMore(k, looked, n));
    }
  }

  // ---- Commands on VLANs -----------------------------------------------------------------------------------

  /** Row i is the first of that id: the one a command finds. */
  ghost predicate Finds(db: Db, v: int, i: nat) {
    i < |db.vlans| && db.vlans[i].config.id == v && forall j :: 0 <= j < i ==> db.vlans[j].config.id != v
  }

  lemma FindsIsFindVlan(db: Db, v: int, i: nat)
    ensures FindVlan(db.vlans, v) == Some(i) <==> Finds(db, v, i)
  {
    if Finds(db, v, i) {
      FirstVlan(db.vlans, v, i);
    }
    if FindVlan(db.vlans, v) == Some(i) {
      FoundFirst(db.vlans, v);
    }
  }

  /** Bridge b is the first of the default name, or the first of all if none has it. */
  ghost predicate Chosen(bridges: seq<Bridge>, b: nat) {
    && b < |bridges|
    && if exists a :: 0 <= a < |bridges| && bridges[a].name == "bridge_normal"
       then bridges[b].name == "bridge_normal" && forall a :: 0 <= a < b ==> bridges[a].name != "bridge_normal"
       else b == 0
  }

  lemma {:induction false} NamedIsFirst(bridges: seq<Bridge>)
    ensures match NamedBridge(bridges)
      case None => forall a :: 0 <= a < |bridges| ==> bridges[a].name != "bridge_normal"
      case Some(b) =>
        bridges[b].name == "bridge_normal" && forall a :: 0 <= a < b ==> bridges[a].name != "bridge_normal"
  {
    if bridges != [] && bridges[0].name != "bridge_normal" {
      NamedIsFirst(bridges[1..]);
      forall a | 0 < a < |bridges| ensures bridges[a] == bridges[1..][a - 1] {}
    }
  }

  lemma ChosenIsPicked(bridges: seq<Bridge>)
    ensures match PickBridge(bridges)
      case None => bridges == []
      case Some(b) => Chosen(bridges, b)
  {
    NamedIsFirst(bridges);
  }

  /** From a to b only the VLAN list of bridge i changed, to list. */
  ghost predicate OnlyListBecomes(a: seq<Bridge>, b: seq<Bridge>, i: nat, list: seq<nat>) {
    && i < |a| == |b| && b[i] == Bridge(a[i].name, a[i].ports, list)
    && forall j :: 0 <= j < |a| && j != i ==> b[j] == a[j]
  }

  /** The new row: down, unmarked, named by the first eight characters of "VLAN" and what was typed. */
  function NewVlan(uuid: nat, arg: string): VlanRec
    requires Digits(arg)
  {
    VlanRec(uuid, VlanConfig("VLAN" + (if |arg| > 4 then arg[..4] else arg), Atoi(arg), Some(AdminDown), false))
  }

  /** The port of the interface VLAN of that number becomes tagged with it, without a mode; other ports stay. */
  ghost predicate InterfaceVlanJoins(db: Db, d: Db, name: string, v: int) {
    && d.ports.Keys == db.ports.Keys
    && forall p :: p in db.ports ==>
         d.ports[p] == if p == name then PortRec(PortConfig(None, Some(v), db.ports[p].config.trunks),
                                                 db.ports[p].interfaces)
                       else db.ports[p]
  }

  /**
   * Creating a VLAN: nothing if the id is there; else, if there is a bridge, a new last row under the next
   * identity, listed last in the chosen bridge.
   */
  lemma CreateExactly(env: Env, db: Db, arg: string)
    requires Admitted(CreateVlan(arg))
    ensures var o := Exec(env, db, CreateVlan(arg));
      && (o.Unchanged? <==> Defined(db, Atoi(arg)))
      && (o.Faulted? <==> !Defined(db, Atoi(arg)) && |db.bridges| == 0)
      && (o.Committed? ==>
            && o.db.vlans == db.vlans + [NewVlan(db.nextUuid, arg)]
            && o.db.nextUuid == db.nextUuid + 1 && o.db.interfaces == db.interfaces
            && (exists b: nat :: Chosen(db.bridges, b)
                  && OnlyListBecomes(db.bridges, o.db.bridges, b, db.bridges[b].vlans + [db.nextUuid]))
            && InterfaceVlanJoins(db, o.db, "vlan" + arg, Atoi(arg)))
  {
    DefinedIsHasVlan(db, Atoi(arg));
    ChosenIsPicked(db.bridges);
    var o := Exec(env, db, CreateVlan(arg));
    if o.Committed? {
      var b := PickBridge(db.bridges).value;
      assert VlanName(arg) == NewVlan(db.nextUuid, arg).config.name;
      assert OnlyListBecomes(db.bridges, o.db.bridges, b, db.bridges[b].vlans + [db.nextUuid]);
    }
  }

  /** What deleting VLAN v makes of a port row. */
  function SweptTo(k: PortConfig, system: bool, v: int): PortConfig {
    var left := Others(k.trunks, v);
    if v !in k.trunks && (k.tag == None || k.tag.value != v) then k
    else if |left| != 0 then PortConfig(Some(Trunk), Some(0), left)
    else if system then PortConfig(Some(Access), Some(1), [])
    else PortConfig(k.mode, k.tag, [])
  }

  /** Row i goes, and the rows after it move up. */
  ghost predicate OnlyRowGoes(a: seq<VlanRec>, b: seq<VlanRec>, i: nat) {
    && i < |a| && |b| == |a| - 1
    && (forall j :: 0 <= j < i ==> b[j] == a[j]) && forall j :: i <= j < |b| ==> b[j] == a[j + 1]
  }

  /** VLAN v may be deleted: there is such a row, not marked L3PORT, and no port of the interface VLAN's name. */
  ghost predicate MayDelete(db: Db, arg: string, i: nat)
    requires Digits(arg)
  {
    Finds(db, Atoi(arg), i) && !db.vlans[i].config.l3port && ("vlan" + arg) !in db.ports
  }

  lemma SweptIsSweepRow(k: PortConfig, system: bool, v: int)
    ensures SweepRow(k, system, v) == SweptTo(k, system, v)
  {
    WithoutIsOthers(k.trunks, v);
  }

  /** Port p's row is swept of VLAN v. */
  ghost predicate SweptRowOf(db: Db, rec: PortRec, p: string, v: int)
    requires p in db.ports
  {
    var system := p in db.interfaces && db.interfaces[p];
    rec == PortRec(SweptTo(db.ports[p].config, system, v), db.ports[p].interfaces)
  }

  lemma SweptPorts(db: Db, v: int)
    ensures Sweep(db, v).Keys == db.ports.Keys
    ensures forall p :: p in db.ports ==> SweptRowOf(db, Sweep(db, v)[p], p, v)
  {
    forall p | p in db.ports ensures SweptRowOf(db, Sweep(db, v)[p], p, v) {
      SweptIsSweepRow(db.ports[p].config, p in db.interfaces && db.interfaces[p], v);
    }
  }

  /** Deleting a VLAN: exactly if the row found may be deleted and there is a bridge. */
  lemma DeleteWhen(env: Env, db: Db, arg: string)
    requires Admitted(DeleteVlan(arg))
    ensures var o := Exec(env, db, DeleteVlan(arg));
      && (o.Committed? <==> |db.bridges| != 0 && exists i: nat :: MayDelete(db, arg, i))
      && (o.Faulted? <==> |db.bridges| == 0 && exists i: nat :: MayDelete(db, arg, i))
  {
    ChosenIsPicked(db.bridges);
    match FindVlan(db.vlans, Atoi(arg))
    case None =>
    case Some(i) =>
      FindsIsFindVlan(db, Atoi(arg), i);
      assert MayDelete(db, arg, i) <==> !db.vlans[i].config.l3port && VlanIfName(arg) !in db.ports;
      forall j: nat | MayDelete(db, arg, j) ensures j == i {}
  }

  /** And then the row goes, the chosen bridge lists it no more, and every port row is swept. */
  lemma DeleteLeaves(env: Env, db: Db, arg: string)
    requires Admitted(DeleteVlan(arg)) && Exec(env, db, DeleteVlan(arg)).Committed?
    ensures var d := Exec(env, db, DeleteVlan(arg)).db;
      && (exists i: nat, b: nat ::
            && MayDelete(db, arg, i) && OnlyRowGoes(db.vlans, d.vlans, i) && Chosen(db.bridges, b)
            && OnlyListBecomes(db.bridges, d.bridges, b, Others(db.bridges[b].vlans, db.vlans[i].uuid)))
      && d.interfaces == db.interfaces && d.nextUuid == db.nextUuid && d.ports.Keys == db.ports.Keys
      && forall p :: p in db.ports ==> SweptRowOf(db, d.ports[p], p, Atoi(arg))
  {
    var d := Exec(env, db, DeleteVlan(arg)).db;
    var i, b := FindVlan(db.vlans, Atoi(arg)).value, PickBridge(db.bridges).value;
    FindsIsFindVlan(db, Atoi(arg), i);
    ChosenIsPicked(db.bridges);
    WithoutIsOthers(db.bridges[b].vlans, db.vlans[i].uuid);
    SweptPorts(db, Atoi(arg));
    assert MayDelete(db, arg, i) && OnlyRowGoes(db.vlans, d.vlans, i);
    assert OnlyListBecomes(db.bridges, d.bridges, b, Others(db.bridges[b].vlans, db.vlans[i].uuid));
  }

  /** From db to d only the admin column of row i changed. */
  ghost predicate OnlyAdminBecomes(db: Db, d: Db, i: nat, a: Admin) {
    && i < |db.vlans| == |d.vlans| && d == db.(vlans := d.vlans)
    && d.vlans[i] == VlanRec(db.vlans[i].uuid, VlanConfig(db.vlans[i].config.name, db.vlans[i].config.id, Some(a),
                                                          db.vlans[i].config.l3port))
    && forall j :: 0 <= j < |db.vlans| && j != i ==> d.vlans[j] == db.vlans[j]
  }

  /** Shutting a VLAN down or bringing it up: VLAN 1 is never shut down; a missing row stops the command. */
  lemma AdminExactly(env: Env, db: Db, v: int, i: nat)
    requires 0 < v < 4095
    ensures Exec(env, db, Shutdown(v)).Unchanged? <==> v == 1
    ensures Exec(env, db, Shutdown(v)).Faulted? <==> v != 1 && !Defined(db, v)
    ensures v != 1 && Finds(db, v, i) ==>
      Exec(env, db, Shutdown(v)).Committed? && OnlyAdminBecomes(db, Exec(env, db, Shutdown(v)).db, i, AdminDown)
    ensures !Exec(env, db, NoShutdown(v)).Unchanged?
    ensures Exec(env, db, NoShutdown(v)).Faulted? <==> !Defined(db, v)
    ensures Finds(db, v, i) ==>
      Exec(env, db, NoShutdown(v)).Committed? && OnlyAdminBecomes(db, Exec(env, db, NoShutdown(v)).db, i, AdminUp)
  {
    DefinedIsHasVlan(db, v);
    FindsIsFindVlan(db, v, i);
  }

  /** The daemon's creation of VLAN 1: up, unmarked and under its own name, only where there is a default bridge. */
  lemma CreateDefaultExactly(env: Env, db: Db)
    ensures var o := Exec(env, db, CreateDefault);
      && !o.Faulted?
      && (o.Committed? <==>
            !Defined(db, 1) && exists a :: 0 <= a < |db.bridges| && db.bridges[a].name == "bridge_normal")
      && (o.Committed? ==>
            && o.db.vlans ==
                 db.vlans + [VlanRec(db.nextUuid, VlanConfig("DEFAULT_VLAN_1", 1, Some(AdminUp), false))]
            && o.db.nextUuid == db.nextUuid + 1 && o.db.interfaces == db.interfaces && o.db.ports == db.ports
            && exists b: nat :: Chosen(db.bridges, b)
                 && OnlyListBecomes(db.bridges, o.db.bridges, b, db.bridges[b].vlans + [db.nextUuid]))
  {
    DefinedIsHasVlan(db, 1);
    NamedIsFirst(db.bridges);
    var o := Exec(env, db, CreateDefault);
    if o.Committed? {
      var b := NamedBridge(db.bridges).value;
      assert Chosen(db.bridges, b);
      assert OnlyListBecomes(db.bridges, o.db.bridges, b, db.bridges[b].vlans + [db.nextUuid]);
    }
  }

  // ---- Marked VLANs over runs -------------------------------------------------------------------------------

  /** Row r, but for its admin column, is in the table. */
  ghost predicate StillThere(db: Db, r: VlanRec) {
    exists j :: 0 <= j < |db.vlans| && db.vlans[j].uuid == r.uuid && db.vlans[j].config.name == r.config.name
      && db.vlans[j].config.id == r.config.id && db.vlans[j].config.l3port == r.config.l3port
  }

  lemma OtherRowStays(a: seq<VlanRec>, d: Db, i: nat, k: nat)
    requires OnlyRowGoes(a, d.vlans, i) && k < |a| && k != i
    ensures StillThere(d, a[k])
  {
    assert d.vlans[if k < i then k else k - 1] == a[k];
  }

  lemma DeletedRow(env: Env, db: Db, arg: string) returns (i: nat)
    requires Admitted(DeleteVlan(arg)) && Exec(env, db, DeleteVlan(arg)).Committed?
    ensures MayDelete(db, arg, i) && OnlyRowGoes(db.vlans, Exec(env, db, DeleteVlan(arg)).db.vlans, i)
  {
    DeleteLeaves(env, db, arg);
    var d := Exec(env, db, DeleteVlan(arg)).db;
    var b: nat;
    i, b :|
      && MayDelete(db, arg, i) && OnlyRowGoes(db.vlans, d.vlans, i) && Chosen(db.bridges, b)
      && OnlyListBecomes(db.bridges, d.bridges, b, Others(db.bridges[b].vlans, db.vlans[i].uuid));
  }

  lemma MarkedSurvivesDeletion(env: Env, db: Db, arg: string, k: nat)
    requires Admitted(DeleteVlan(arg)) && Exec(env, db, DeleteVlan(arg)).Committed?
    requires k < |db.vlans| && db.vlans[k].config.l3port
    ensures StillThere(Exec(env, db, DeleteVlan(arg)).db, db.vlans[k])
  {
    var i := DeletedRow(env, db, arg);
    OtherRowStays(db.vlans, Exec(env, db, DeleteVlan(arg)).db, i, k);
  }

  lemma MarkedSurvives(env: Env, db: Db, c: Command, k: nat)
    requires DbInv(db) && Admitted(c) && k < |db.vlans| && db.vlans[k].config.l3port
    ensures StillThere(After(db, Exec(env, db, c)), db.vlans[k])
  {
    var o := Exec(env, db, c);
    if !o.Committed? {
      assert After(db, o).vlans[k] == db.vlans[k];
    } else if c.CreateVlan? {
      CreateExactly(env, db, c.arg);
      assert o.db.vlans[k] == db.vlans[k];
    } else if c.DeleteVlan? {
      MarkedSurvivesDeletion(env, db, c.arg, k);
    } else if c.CreateDefault? {
      CreateDefaultExactly(env, db);
      assert o.db.vlans[k] == db.vlans[k];
    } else if c.Shutdown? || c.NoShutdown? {
      var i := FindVlan(db.vlans, c.vid).value;
      FindsIsFindVlan(db, c.vid, i);
      AdminExactly(env, db, c.vid, i);
      assert o.db.vlans[k].uuid == db.vlans[k].uuid;
    } else {
      PortCommandsKeepVlans(env, db, c);
      assert o.db.vlans[k] == db.vlans[k];
    }
  }

  /** No run of commands removes a VLAN marked L3PORT, or its mark. */
  lemma {:induction false} MarkedVlansStay(db: Db, run: seq<Typed>, k: nat)
    requires DbInv(db) && AdmittedRun(run) && k < |db.vlans| && db.vlans[k].config.l3port
    ensures StillThere(RunCommands(db, run), db.vlans[k])
    decreases |run|
  {
    if run == [] {
    } else {
      var most := run[..|run| - 1];
      MarkedVlansStay(db, most, k);
      RunsKeepInv(db, most);
      var d := RunCommands(db, most);
      var j :| 0 <= j < |d.vlans| && d.vlans[j].uuid == db.vlans[k].uuid
        && d.vlans[j].config.name == db.vlans[k].config.name && d.vlans[j].config.id == db.vlans[k].config.id
        && d.vlans[j].config.l3port == db.vlans[k].config.l3port;
      MarkedSurvives(run[|run| - 1].env, d, run[|run| - 1].command, j);
    }
  }
}
