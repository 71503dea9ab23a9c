# ops-vland: VLAN reconciliation and VLAN configuration, modelled and proved

ops-vland turns VLAN configuration into VLAN status. Users write Port and VLAN rows through the
command line or REST; the daemon watches those tables, keeps a cache of ports and VLANs with one
bitmap per port, patches the cache as rows change, and writes each VLAN's hardware enable, operational
state and reason. This project models

- the daemon (`src/vland_ovsdb_if.c`): cached objects, bitmaps updated in place, the six loops of a
  pass, the guards of the main loop;
- the VLAN commands (`src/cli/vlan_vty.c`): twenty commands as transactions over port rows, the VLAN
  table and the bridge's VLAN list, with their list rebuilds into arrays of exactly computed size;
- the running-configuration printer for an interface (`src/cli/vtysh_ovsdb_vlan_context.c`);
- the REST checks (`opsplugins/vlan.py`);

and joins the first two into one statement about hardware following configuration.

## How it is laid out

| file | contents |
|---|---|
| `VlanTypes.dfy` | rows, snapshots of the replica, what a port row means |
| `VlanCache.dfy` | the daemon's cache as a value, the six kinds of step, what a pass is |
| `ColumnMeanings.dfy` | what rows mean, by their columns alone: membership, bitmaps, the rule for VID 1, change marks, status |
| `PassInvariant.dfy` | the invariant between two steps of a pass, and re-evaluation of VLANs |
| `StepLemmas.dfy` | every step keeps the invariant |
| `Reconciliation.dfy` | a pass refines the from-scratch status; what being in sync means |
| `PassProperties.dfy` | frozen L3PORT VLANs, order independence, quiescence and its limits, which writes are counted and which rows can be written |
| `MemberFlags.dfy` | when a pass recomputes a VLAN's member flag; bridge changes that flagged no row |
| `DefaultVlan.dfy` | the member flag of VID 1; no VLAN depends on the order of visiting |
| `RecreatedVlans.dfy` | VLANs deleted and created again between two passes |
| `DaemonRuns.dfy` | runs of the main loop with skipped turns |
| `Counterexamples.dfy` | runs on which quiescence of bitmaps, catching up with bridges and noticing a recreated VLAN fail |
| `VlandDaemon.dfy` | the daemon as objects: classes `Port`, `Vlan`, `Vland`, `Service` |
| `CliCommands.dfy` | the database and each command's effect on it |
| `CliMeanings.dfy` | what every command does, by columns, tables and bridges alone; VLANs marked L3PORT over runs |
| `CliInvariants.dfy` | what commands keep over all runs, deletion, the trunk list command |
| `CliUndo.dfy` | each command and its "no" form: what the pair leaves, and when the second undoes the first |
| `CliPrinter.dfy` | printer and replay |
| `Vtysh.dfy` | the commands as methods of a `Session`, and the port loop of "show vlan" |
| `EndToEnd.dfy` | commands, REST, other programs, replica and daemon together |
| `NameCollisions.dfy` | VLANs that share a name: the exact half of the end-to-end result that fails |
| `RestValidator.dfy` | the REST checks |

`ColumnMeanings.dfy` and `CliMeanings.dfy` say what the functions that methods and theorems share amount to, in words of
their own: reading digits and looking rows up by name apart, what they compare those functions with uses none of them.

Values and objects meet at `Vland.State()`, `Service.AsDaemon()` and `Session.View()`: every method is
proved to compute the value-level operation of the same name, and the theorems are about those.
A pass is a sequence of steps, grouped by loop; inside a loop the hash table may present its
entries in any order, so every theorem quantifies over all orders (`IsPass`, `PassExists`).

## What is assumed of the surroundings

- Change marks are sound. `Evolves` says it in terms of row sequence numbers: a row that is new or
  different since a snapshot, or a port that entered or left a bridge since, has a stamp above that
  snapshot's sequence number; any other row may have one too. The macro that compares a stamp with
  `idl_seqno` is not part of the repository. In `EndToEnd.dfy` the replica is stamped by `IdlRun`, for any
  row order and any spurious marks, a new row bearing only the stamp of its insertion; that a port's row is
  stamped when its place in the bridges changed is built into it (`PortChanged`), as the code relies on it: a
  bridge change alone stamps no port row, and `Counterexamples.MissedBridgeMove` is what happens then.
  Everything else `Evolves` asks is proved.
- VLAN ids are usable VIDs, and names, ids and row identities do not repeat (`WellFormedVlans`). Ids and
  identities follow from what every run of commands keeps. Names do as long as VLANs are typed with
  at most four digits and named accordingly over REST (`EndToEnd.PlainHistoryIsFair`); otherwise that they
  differ is a condition on a turn that makes a pass, and an exact one (`NameCollisions.HardwareFollowsExactly`).
- Between two processed snapshots no VLAN row is replaced by another of the same name or id
  (`NoneReplaced`); the code keeps the row handle of the first, and `Counterexamples.MissedRecreation` is what
  happens then. End to end the condition is on the database: no id and no name went to another row that
  the daemon looks at (`NoneReused`), which for VLANs typed with at most four digits comes down to no id
  being deleted and created again.
- While it drops ports the daemon follows row handles, so a port that is dropped carries no VLAN whose row
  went away in the same batch (`DropsAreLive`). End to end the condition is again on the database
  (`NoneGoneTogether`), and `EndToEnd.TurnDropsAreLive` derives the other from it.
- Other programs may create, change, remove and move ports at any time, as long as the port rows keep
  the invariant of the commands, and may mark VLANs L3PORT. VLANs may be created and deleted over REST as the
  two checks allow; the REST daemon itself is not part of this model, and is taken to insert and remove
  the row in the VLAN table and in the default bridge's list. The VLAN table is otherwise written by
  commands and by the daemon.
- Transactions are atomic and commits succeed (RFC 7047 section 4.1.3); a transaction reads its own writes.
- Helpers that are not part of this model are taken as plain reads and writes: the tag and trunk
  accessors store and return the values (also tag 0; a missing tag equals no VID);
  `bitmap_from_array` ignores values outside 0..4095; a port that does not exist yet is attached outside the bridge,
  where the commands then stop; an interface is switched when its port is in a bridge; "no vlan"
  stops when a port of the interface VLAN's name exists; that name is "vlan" followed by the argument.
- The bridges of a snapshot stand both for those the System row refers to and for the bridge table.
- VID 1 has rules of its own and VLANs marked L3PORT are left alone; both have their own statements.

## What the proofs found

- Reprocessing unchanged rows is quiet for VLANs, but not for every bitmap: an implicit trunk outside all
  bridges keeps a copy of the VLAN set from when it was read, and rereading replaces it
  (`ReprocessedBitmaps` has the exact condition, `StaleTrunkCopy` a run from the start).
- A bridge change that marks no port row may be missed, whatever else is in the batch: a VLAN the pass does not
  touch keeps its flag, and one it touches is recomputed with moved implicit trunks as they were last read
  (`UnflaggedBridgeMoves` has the exact condition, `MissedBridgeMove` a run from the start).
- A VLAN deleted and created again between two passes keeps its cache entry, and its new row is written in that
  pass exactly if its admin state is another than that of the deleted one, whatever else is in the batch
  (`RecreatedRowWritten`, and the run `MissedRecreation`).
- For VID 1 the daemon looks at "tag" and, only without a tag, "trunks", ignoring mode and bridge; neither
  rule implies the other (`DefaultVlanRulesDiffer`). `DefaultFlagExactly` says what the flag is after a pass.
- A VLAN name keeps eight characters, so it determines the id exactly when at most four digits were typed
  (`NameStandsForId`); "00012" and "00013" get the same name (`LongArgumentsCollide`). Of VLANs with one name
  the daemon only ever handles the first (`ShadowedNeverFollows`, and the run `CollidingVlanIsNeverEnabled`).
- VLAN 1 typed by a user and deleted over REST does not come back: the daemon creates it only until it has seen
  it once (`TurnMakesDefault`).
- "vlan trunk allowed" reads a missing mode column exactly under the condition of `AllowListFaults`.
- A plain trunk row is never restored by replaying its printed form; `RestoredExactly` has the condition.
- Few commands are undone by their "no" form; `Undoable` in `CliUndo.dfy` has the rows on which each one is.
- Deleting a VLAN from a port that trunks others leaves tag 0, whose printed native line the pattern of the
  command refuses (`DeletionLeavesTagZero`).
- "show vlan" leaves out ports that trunk every VLAN and lists the tag of an explicit plain trunk
  (`ShownIsMembership`).
- The REST deletion check protects a name, not an id: VLAN 1 typed by a user is not protected
  (`TypedVlanOneIsUnprotected`); once the daemon created it, exactly VLAN 1 is (`OnlyVlanOneIsProtected`).

## Model

| member | source | states |
|---|---|---|
| `VlandDaemon.Vland.ConstructVlanBitmap` | src/vland_ovsdb_if.c:185-262 | The mode, native VID, trunk-all mark and a newly allocated bitmap are what the port row says; an implicit trunk copies the global bitmap, so nothing set in it reaches the global one. |
| `VlandDaemon.Vland.DelOldPort` | src/vland_ovsdb_if.c:265-297 | The port leaves the cache first, then every VLAN of its bitmap is re-evaluated; returns non-zero iff a VLAN row was written. |
| `VlandDaemon.Vland.AddNewPort` | src/vland_ovsdb_if.c:300-322 | A new entry with a blank bitmap of its own; nothing else changes. |
| `VlandDaemon.CheckPortInBridge` | src/vland_ovsdb_if.c:325-345 | True iff some bridge lists the port. |
| `VlandDaemon.Vland.OrWithNew` | src/vland_ovsdb_if.c:403-412 | Or-ing old and new bitmap touches neither the port's new bitmap, nor another port's, nor the global one. |
| `VlandDaemon.Vland.UpdatePort` | src/vland_ovsdb_if.c:397-435 | Rereading a port rebuilds its bitmap and re-evaluates the VLANs of the old and the new bitmap, in id order; non-zero iff a row was written. |
| `VlandDaemon.Vland.ScanVlanRow` | src/vland_ovsdb_if.c:414-429 | One matching VLAN row: membership always, state and columns unless the row is marked L3PORT. |
| `VlandDaemon.Vland.DeleteOldPorts` | src/vland_ovsdb_if.c:365-374 | Exactly the cached ports without a row are dropped, each once, in any order. |
| `VlandDaemon.Vland.AddNewPorts` | src/vland_ovsdb_if.c:376-386 | Exactly the rows without a cached port are added, but for the bridge's own port. |
| `VlandDaemon.Vland.ReadChangedPorts` | src/vland_ovsdb_if.c:388-437 | Exactly the cached ports with a flagged row are reread, each once, in any order; bitmaps in use afterwards are old ones or new ones. |
| `VlandDaemon.Vland.UpdatePortCache` | src/vland_ovsdb_if.c:349-444 | The three port loops are the port steps of a pass. |
| `VlandDaemon.Vland.VlanLookupByVid` | src/vland_ovsdb_if.c:538-552 | Finds the cached VLAN of an id, or reports that there is none. |
| `VlandDaemon.Vlan.Parse` | src/vland_ovsdb_if.c:555-568 | A new VLAN entry has no member, is administratively down and of unknown state. |
| `VlandDaemon.Vland.UpdateVlanMembership` | src/vland_ovsdb_if.c:580-606 | The member flag becomes "some cached port in a bridge carries the VLAN", and the VLAN is set in the bitmap of every in-bridge implicit trunk and nowhere else. |
| `VlandDaemon.Vland.CalcVlanOpStateNReason` | src/vland_ovsdb_if.c:640-682 | State and reason from admin and member flag, VID 1 always up; for VID 1 the flag may be raised. |
| `VlandDaemon.Vland.HandleVlanConfig` | src/vland_ovsdb_if.c:695-745 | A VLAN row is written iff the state or reason changed and it is not L3PORT, and the return value says so. |
| `VlandDaemon.Vland.AddNewVlan` | src/vland_ovsdb_if.c:748-771 | The VLAN is cached, set in the global bitmap, and given its members and its place in implicit trunks. |
| `VlandDaemon.Vland.DelOldVlan` | src/vland_ovsdb_if.c:774-796 | The VLAN leaves the cache, the global bitmap and the bitmaps of implicit trunks, and nothing else changes. |
| `VlandDaemon.Vland.UpdateVlanCache` | src/vland_ovsdb_if.c:799-863 | The three VLAN loops are the VLAN steps of a pass. |
| `VlandDaemon.DefaultVlanMemberPort` | src/vland_ovsdb_if.c:1105-1152 | The rule by which VID 1 has a member port: a VID 1 row, and a port with tag 1 or, untagged, with 1 among its trunks. |
| `VlandDaemon.Service.Reconfigure` | src/vland_ovsdb_if.c:1011-1036 | Unchanged sequence number: nothing happens. Otherwise the cache makes one pass and remembers the number. Returns non-zero iff a VLAN row was written, through all nested counters; on zero no column changed. |
| `VlandDaemon.Service.ReconfigureAndCommit` | src/vland_ovsdb_if.c:1086-1091 | The transaction is dropped only if nothing was written: what is committed is always what the daemon wrote. |
| `VlandDaemon.Service.CreateDefaultVlan` | src/vland_ovsdb_if.c:932-1008 | Over the replica: VLAN 1 is inserted iff the table lacks it and there is a default bridge; it is looked for again only until it was seen or inserted. |
| `VlandDaemon.Service.VlandRun` | src/vland_ovsdb_if.c:1059-1096 | The guards: lock contention, lock, configuration, creation of the default VLAN, and the pass over the replica as it is then; exactly the transition of the run model. |
| `VlandDaemon.Service.Turn` | src/vland_ovsdb_if.c:1059-1096 | Whatever the guards decide, the objects stay in step with the replica; a turn that reconfigures leaves them in sync with it. |
| `VlandDaemon.PassExists` | src/vland_ovsdb_if.c:365-437 | For every cache and snapshot some order of visiting makes a pass, so statements about all passes are not empty. |
| `VlandDaemon.HandleIsLive` | src/vland_ovsdb_if.c:425 | When no row is replaced, the row handle of a cached VLAN still in the table refers to a row of the table. |
| `ColumnMeanings.CarriesByColumns` | src/vland_ovsdb_if.c:192-254 | Which usable VLANs a port row makes its port a member of, by mode column: no mode and a tag, or access mode: the tag; no mode and no tag, plain trunk or a mode nobody knows: the trunks, all if empty; native modes: the tag or the trunks. |
| `ColumnMeanings.ModeByColumns` | src/vland_ovsdb_if.c:192-216 | The mode the daemon settles on, as an iff for each of the four. |
| `ColumnMeanings.NativeByColumns` | src/vland_ovsdb_if.c:218-221 | The native VID is the tag, and there is none without a tag or in the plain trunk cases. |
| `ColumnMeanings.TrunkAllByColumns` | src/vland_ovsdb_if.c:241-249 | A port is marked as trunking every VLAN iff it is in a bridge, has no trunks and is not an access port, by mode or by tag. |
| `ColumnMeanings.BitsByColumns` | src/vland_ovsdb_if.c:223-254 | Every bit of the bitmap as an iff over mode, tag and trunks: usable tags only, trunks from 0 to 4095, the VLANs known before in place of empty trunks. |
| `ColumnMeanings.DefaultRuleByColumns` | src/vland_ovsdb_if.c:1105-1152 | The rule for VID 1 holds iff some VLAN row has id 1 and some port row has tag 1, or no tag and 1 among its trunks. |
| `ColumnMeanings.FirstVlanOfName` | src/vland_ovsdb_if.c:809-813 | Of several VLAN rows of a name the daemon looks at the first. |
| `ColumnMeanings.PassByStamps` | src/vland_ovsdb_if.c:389-396 | A pass rereads exactly the port and VLAN rows whose stamp of insertion or of modification is newer. |
| `ColumnMeanings.EvolvesByStamps` | src/vland_ovsdb_if.c:839-840 | Change marks are sound iff every row with neither stamp newer is as it was, a port's place in the bridges too. |
| `ColumnMeanings.StatusByColumns` | DESIGN.md:7-60 | In sync, for a VLAN but VID 1 without L3PORT mark: each of the three columns from the admin column, the bridges' port lists and the port rows' columns. |
| `ColumnMeanings.DefaultStatusByColumns` | src/vland_ovsdb_if.c:640-682 | In sync, VID 1: up and enabled; its reason is admin_down iff its admin column does not say up, and ok if it does and a switched port carries it. |
| `PassInvariant.UpdateMembershipEffect` | src/vland_ovsdb_if.c:580-606 | With every implicit trunk complete, re-evaluating one VLAN changes its member flag only: setting bits while scanning disturbs nothing. |
| `PassInvariant.RefreshBitsEffect` | src/vland_ovsdb_if.c:277-286 | Re-evaluating the VLANs of a bitmap in turn is the same as re-evaluating that set at once. |
| `PassInvariant.ScanBitsEffect` | src/vland_ovsdb_if.c:413-432 | The loop over the combined bitmap re-evaluates exactly the cached VLANs of the table that are in it. |
| `StepLemmas.ReadPortKeeps` | src/vland_ovsdb_if.c:388-437 | Rereading one flagged port keeps the mid-pass invariant: a cached VLAN still in the table has the right member flag or is carried by a port yet to be read. |
| `StepLemmas.DropPortKeeps` | src/vland_ovsdb_if.c:265-297 | Dropping a port keeps the mid-pass invariant. |
| `StepLemmas.AddVlanKeeps` | src/vland_ovsdb_if.c:748-771 | Adding a VLAN after all port work keeps the mid-pass invariant: bitmaps built from the VLANs known before are caught up. |
| `StepLemmas.DropVlanKeeps` | src/vland_ovsdb_if.c:774-796 | Dropping a VLAN keeps it, though the native bit of an implicit trunk may be cleared. |
| `StepLemmas.ReadVlanKeeps` | src/vland_ovsdb_if.c:834-856 | Rereading a VLAN row settles state, reason and columns, whatever was computed earlier in the pass from an old admin value. |
| `StepLemmas.StepKeepsMidPass` | src/vland_ovsdb_if.c:349-863 | Every step of a pass, in any order the loops allow, keeps the invariant. |
| `Reconciliation.PassRefines` | src/vland_ovsdb_if.c:1011-1036 | One pass, in any order, brings a cache in sync with one snapshot in sync with the next. |
| `Reconciliation.SyncedMeansExpected` | DESIGN.md:7-60 | In sync: for every VLAN but VID 1 admin and member flag are the from-scratch ones, and unless L3PORT so are state, reason and the three columns. |
| `Reconciliation.SyncedMeansDefaultUp` | src/vland_ovsdb_if.c:651-658 | In sync: VID 1 is up and enabled in hardware, its member flag misses no port, and its reason follows admin and member flag. |
| `Reconciliation.SyncedMeansExactTables` | src/vland_ovsdb_if.c:764-790 | In sync: the global bitmap is exactly the ids of the VLAN table, and the cache holds exactly the rows. |
| `Reconciliation.SyncedMeansBitmaps` | src/vland_ovsdb_if.c:220-254 | In sync: the bitmap of an access or explicit-trunk port is exact; that of an in-bridge implicit trunk lies between the VLAN table and the VLAN table plus the native VID. |
| `Reconciliation.EvolvesTransitive` | src/vland_ovsdb_if.c:1066-1075 | Change marks stay sound across skipped turns. |
| `DaemonRuns.RunsStaySynced` | src/vland_ovsdb_if.c:1059-1096 | Over any run of turns, skipped or not: whenever the last one reconfigures, the cache is in sync with the replica. |
| `DaemonRuns.ColdStartConverges` | src/vland_ovsdb_if.c:1059-1096 | From an empty cache, after any run: the columns of an ordinary VLAN are the expected ones, those of VID 1 are up and enabled. |
| `DaemonRuns.CallByGuards` | src/vland_ovsdb_if.c:1059-1096 | A call changes nothing with a contender, without the lock, or unconfigured with no positive cur_cfg; otherwise it makes a pass iff the sequence number moved, and remembers whether VLAN 1 or a default bridge was there. |
| `DaemonRuns.StandingByWritesNothing` | src/vland_ovsdb_if.c:1066-1075 | Over any run of calls, each with a contender or without the lock, nothing is written. |
| `DaemonRuns.UnconfiguredWritesNothing` | src/vland_ovsdb_if.c:1039-1056 | From the start, over any run of calls none of which finds the system configured, nothing is written. |
| `DaemonRuns.RunsStaySafe` | src/vland_ovsdb_if.c:695-745 | After any run, also one whose last turn was skipped: a handled VLAN's three columns equal the cache; unless L3PORT its state is never unknown; other than VID 1, up implies administratively up and a member port. |
| `PassProperties.PassFreezesL3` | src/vland_ovsdb_if.c:706-710 | A pass neither changes state nor writes columns of a VLAN marked L3PORT. |
| `DefaultVlan.OrderNeverMatters` | src/vland_ovsdb_if.c:366-437 | Two passes that visit the hash tables in different orders leave the same entry and columns for every VLAN, VID 1 and L3PORT ones too. |
| `PassProperties.Quiescence` | src/vland_ovsdb_if.c:716-719 | Reprocessing unchanged rows, with any spurious marks, writes no VLAN but VID 1 at any point, and changes tracked bitmaps only at ids no VLAN has. |
| `PassProperties.ReprocessedBitmaps` | src/vland_ovsdb_if.c:244-250 | Reprocessing unchanged rows gives flagged ports the entry of a fresh reading and leaves the others; an implicit trunk outside all bridges keeps its defined VLANs iff it is not flagged or its copy had every VLAN. |
| `Counterexamples.StaleTrunkCopy` | src/vland_ovsdb_if.c:244-250 | A run from the start, in three passes, after which reprocessing unchanged rows changes a bitmap at a defined VLAN. |
| `PassProperties.NoUncountedWrite` | src/vland_ovsdb_if.c:695-745 | Over any steps: if the write count stood still, no column of any row changed. |
| `MemberFlags.FlagToEnd` | src/vland_ovsdb_if.c:349-863 | From any point of a pass on, for every VLAN and whatever the bridges did: the flag ends up recomputed from the cached ports and the live bridges if the remaining work drops or rereads a port whose old or new bitmap has the VLAN, or adds it; otherwise it stays, but for VID 1 promoted when its row is read. |
| `MemberFlags.UnflaggedBridgeMoves` | src/vland_ovsdb_if.c:389-396 | Bridge changes that flag no row, beside any rows that are flagged: the member flag of a VLAN but VID 1 is right afterwards iff what the daemon noticed is so, which is the old membership if the pass does not touch the VLAN, and otherwise membership but for unflagged implicit trunks that joined a bridge with a copy lacking the VLAN; its columns iff so or it is administratively down. |
| `Counterexamples.MissedBridgeMove` | src/vland_ovsdb_if.c:389-396 | A run from the start after which VLAN 5 is up, carried by a switched port, and not enabled. |
| `RecreatedVlans.RecreatedRowWritten` | src/vland_ovsdb_if.c:799-863 | VLANs deleted and created again between two passes, beside any other changes: the cache still gets the expected status, but the new row of one other than VID 1 is given columns, and then the expected ones, iff its admin state is not that of the deleted row. |
| `Counterexamples.MissedRecreation` | src/vland_ovsdb_if.c:834-856 | A run from the start after which a recreated VLAN 5 is up, carried by a switched port, and never written. |
| `PassProperties.RunSkips` | src/vland_ovsdb_if.c:264-863 | Whatever steps are taken, only rows that are the first of their name, or whose handle is cached already, are ever written. |
| `DefaultVlan.DefaultFlagExactly` | src/vland_ovsdb_if.c:651-658 | After any pass the flag of VID 1 is: if the pass dropped or reread a port whose old or new bitmap has VID 1, or added VID 1, whether a switched port carries it or, unless marked L3PORT, the rule on port rows holds; otherwise what it was, or raised by that rule if its own row was reread. |
| `DefaultVlan.DefaultVlanRulesDiffer` | src/vland_ovsdb_if.c:1125-1146 | For VID 1 the row rule and membership are independent: a switched plain trunk tagged 1 that trunks 5 satisfies only the rule, one without tag and trunks is only a member. |
| `Vtysh.Session.CreateVlan` | src/cli/vlan_vty.c:242-367 | A new row with the next identity, appended to the bridge's list in an array one longer; an interface VLAN of that number joins it. |
| `Vtysh.Session.DeleteVlan` | src/cli/vlan_vty.c:369-537 | Bridge list and trunk lists are rebuilt into arrays one shorter, which the invariants show to be filled exactly; every port is swept; the row goes. |
| `Vtysh.Session.SweepPort` | src/cli/vlan_vty.c:466-515 | What deleting a VLAN makes of one port row, by trunks left and by interface type. |
| `Vtysh.Rebuild` | src/cli/vlan_vty.c:456-484 | The list without one entry, in an array of n - 1 entries, all written and none beyond; for trunk lists and for the bridge's list. |
| `Vtysh.Session.VlanTrunkAllowed` | src/cli/vlan_vty.c:1179-1401 | The list loop with its early commit, early abort and skipping is the recursive specification. |
| `Vtysh.Session.NoVlanTrunkAllowed` | src/cli/vlan_vty.c:1403-1543 | The VLAN leaves the trunks; an emptied plain trunk becomes an access port on VLAN 1. |
| `Vtysh.Session.LagVlanTrunkAllowed` | src/cli/vlan_vty.c:2154-2271 | One VLAN joins the trunks; a mode that is not native becomes plain trunk. |
| `Vtysh.Session.LagNoVlanTrunkAllowed` | src/cli/vlan_vty.c:2273-2373 | The VLAN leaves the trunks; committed even if it was not there. |
| `Vtysh.Session.CreateDefaultVlan` | src/vland_ovsdb_if.c:932-1008 | VLAN 1 is created administratively up in the default bridge, once. |
| `Vtysh.Session.CheckInterface` | src/cli/vlan_vty.c:937-984 | An interface may be configured iff it is in no link aggregation, is switched and has a port. |
| `Vtysh.Session.Enter` | src/cli/vlan_vty.c:242-2681 | Every command typed in a database that commands made does step by step what the run results speak of, and keeps the invariant, the arrays of its rebuilds fitting. |
| `CliMeanings.PortCommandExactly` | src/cli/vlan_vty.c:900-2681 | Every port command and "no" form but the list command, on interfaces and link aggregations: it commits iff the interface, the VLAN table, the mode column and a tag typed along are as its kind demands; stops iff a row or mode is missing where said; and leaves exactly one row changed, given column by column. |
| `CliMeanings.ListCommandExactly` | src/cli/vlan_vty.c:1179-1401 | The list command in the same terms: when it commits, when it reads a missing mode, and the row it leaves. |
| `CliMeanings.CreateExactly` | src/cli/vlan_vty.c:242-367 | "vlan": nothing iff the id is there; else a new last row, down and unmarked, under the truncated name and the next identity, listed last in the default bridge or else the first; the interface VLAN's port gets the tag and loses its mode. |
| `CliMeanings.DeleteWhen` | src/cli/vlan_vty.c:387-425 | "no vlan" commits iff there is such a row, it is not marked L3PORT, no port has the interface VLAN's name, and there is a bridge. |
| `CliMeanings.DeleteLeaves` | src/cli/vlan_vty.c:426-537 | And then that row goes, that bridge lists it no more, and each port row becomes what its columns and interface type call for. |
| `CliMeanings.AdminExactly` | src/cli/vlan_vty.c:808-898 | Shutting down and bringing up: VLAN 1 is never shut down, a missing row stops the command, and only the admin column of the row found changes. |
| `CliMeanings.CreateDefaultExactly` | src/vland_ovsdb_if.c:932-1008 | The daemon's VLAN 1: inserted iff it is not there and a bridge has the default name; up, unmarked, named DEFAULT_VLAN_1. |
| `CliMeanings.MarkedVlansStay` | src/cli/vlan_vty.c:404-411 | No run of commands removes a VLAN marked L3PORT, renames it or takes its mark. |
| `CliUndo.PairUndone` | src/cli/vlan_vty.c:900-2681 | A port command and its "no" form, on an interface or a link aggregation, change that port's row alone, leave of it a residue given by command and row, and leave everything as it was iff the row has the shape `Undoable` gives for the command. |
| `CliUndo.ShutdownThenNo` | src/cli/vlan_vty.c:808-898 | Undone iff the VLAN was up. |
| `CliUndo.CreateThenDelete` | src/cli/vlan_vty.c:242-537 | Creating and deleting a VLAN leaves no trace but the identity used up iff no port row was waiting for that id. |
| `CliInvariants.ExecKeepsInv` | src/cli/vlan_vty.c:242-2681 | Every command, with any argument its pattern admits, keeps: ids and row identities unique, the bridge list exactly the table without repeats, trunk lists without repeats, no trunks without mode or in access mode, no empty plain trunk on a system interface. |
| `CliInvariants.RunsKeepInv` | src/cli/vlan_vty.c:242-2681 | And so does every run of commands, the daemon's default VLAN among them. |
| `CliInvariants.FreshRunsHaveInv` | src/cli/vlan_vty.c:242-2681 | So after every run from an unconfigured database it holds. |
| `CliInvariants.CreateKeepsNames` | src/cli/vlan_vty.c:259-262 | A committed creation keeps names determining ids iff at most four digits were typed. |
| `CliInvariants.RunsKeepNames` | src/cli/vlan_vty.c:259-262 | Over every run in which VLANs are created so, names determine ids. |
| `CliInvariants.NameStandsForId` | src/cli/vlan_vty.c:259-262 | A new VLAN's name determines its id iff at most four digits were typed. |
| `CliInvariants.LongArgumentsCollide` | src/cli/vlan_vty.c:259-262 | With five digits two ids share a name. |
| `CliInvariants.RebuildFits` | src/cli/vlan_vty.c:474-484 | A rebuild sized one less is filled exactly iff the value occurs once. |
| `CliInvariants.DeletionRebuildsFit` | src/cli/vlan_vty.c:451-485 | In every reachable database that is so for the bridge and for every swept port. |
| `CliInvariants.DeletionSweeps` | src/cli/vlan_vty.c:468-517 | After "no vlan v": v is in no trunk list and no other entry is lost; ports not carrying v are untouched; a port still tagged v has no trunks and no system interface. |
| `CliInvariants.DefaultVlanStaysUp` | src/cli/vlan_vty.c:369-371 | Once VLAN 1 is there and up, no run of commands removes it or shuts it down. |
| `CliInvariants.CreateDefaultMakesItUp` | src/vland_ovsdb_if.c:959-983 | The daemon's creation of VLAN 1 brings it about. |
| `CliInvariants.PortCommandsKeepVlans` | src/cli/vlan_vty.c:900-2681 | Port commands leave VLAN table, bridges and the set of ports alone. |
| `CliInvariants.AllowListOutcome` | src/cli/vlan_vty.c:1225-1387 | The list command on a port commits the old trunks followed by the elements not in internal use up to the first already allowed; or, when an element looked at may not be allowed, nothing; or reads a missing mode when its first element may be allowed. |
| `CliInvariants.AllowListFaults` | src/cli/vlan_vty.c:1348-1352 | It reads a missing mode exactly when mode is unset and its first working element may be allowed. |
| `CliInvariants.StopPlace` | src/cli/vlan_vty.c:1354-1372 | There is exactly one place where the list loop stops. |
| `CliPrinter.IntftableParseVlan` | src/cli/vtysh_ovsdb_vlan_context.c:117-180 | The printed lines by mode column, with their number and each of them: tag line, native lines and one line per trunk in order; nothing without a mode. |
| `CliPrinter.LineEffect` | src/cli/vlan_vty.c:900-1902 | A printed line typed on a port commits iff it is accepted, and then changes that row alone. |
| `CliPrinter.LinesByColumns` | src/cli/vtysh_ovsdb_vlan_context.c:117-180 | The same of the function that replays speak of. |
| `CliPrinter.PlainTrunkReplay` | src/cli/vtysh_ovsdb_vlan_context.c:145-152 | Replaying a plain trunk on a blank port: when it commits, and that it leaves a native-untagged row with the port's own tag and the trunks not in internal use, in order, or the blank row if there are none. |
| `CliPrinter.PrintReplayRestores` | src/cli/vtysh_ovsdb_vlan_context.c:117-180 | Printing an access or native row with a tag and typing the lines on a blank port restores mode, tag and, in order, the trunks not in internal use. |
| `CliPrinter.RestoredExactly` | src/cli/vtysh_ovsdb_vlan_context.c:145-152 | If every line is accepted on a blank port, the row comes back iff it is an access or native row with a tag, or the blank row itself, or, on a port without a tag, a native row without one of which something is printed; a plain trunk never does. |
| `CliPrinter.ReplayCommitsExactly` | src/cli/vlan_vty.c:1225-1387 | The printed lines can be typed and are all accepted iff the row has only VIDs that the patterns admit and every one may be configured on the port. |
| `CliPrinter.DeletionLeavesTagZero` | src/cli/vlan_vty.c:499-502 | Deleting one of several trunked VLANs leaves tag 0; tagging the native VLAN then makes a row whose printed form cannot be typed. |
| `Vtysh.CollectPorts` | src/cli/vlan_vty.c:2772-2799 | The port loop of "show vlan" stays within the array sized by the earlier count and collects each listed port once. |
| `Vtysh.CountPorts` | src/cli/vlan_vty.c:2745-2749 | That count: ports with a tag or with trunks. |
| `Vtysh.ShownExactly` | src/cli/vlan_vty.c:2772-2799 | A port is listed iff the VLAN is among its trunks or is its tag. |
| `Vtysh.ShownInOrder` | src/cli/vlan_vty.c:2776-2800 | The listing keeps the order of the table. |
| `Vtysh.ShownOnce` | src/cli/vlan_vty.c:2772-2799 | No port is listed twice. |
| `Vtysh.ShownIsMembership` | src/cli/vlan_vty.c:2772-2799 | Listing and membership agree iff the port neither trunks every VLAN nor is an explicit plain trunk tagged with the VLAN. |
| `EndToEnd.IdlRunEvolves` | src/vland_ovsdb_if.c:388-396 | With row stamps as described above, and any row order and spurious marks, change marks are sound for every change of the database. |
| `EndToEnd.MirroredVlansAreWellFormed` | src/vland_ovsdb_if.c:807-813 | What the daemon relies on about ids and identities follows from what the commands keep, about names from their differing. |
| `EndToEnd.NoReplacement` | src/vland_ovsdb_if.c:834-856 | Where names differ and no id or name was reused between two passes, no row was replaced under its name, id or identity. |
| `EndToEnd.TurnDropsAreLive` | src/vland_ovsdb_if.c:277-286 | If no port went away together with a VLAN its row made it a member of, the daemon never follows the handle of a deleted row while dropping ports. |
| `EndToEnd.HistoryKeepsInv` | DESIGN.md:4-7 | Over any fair history of commands, VLANs created and deleted over REST, L3PORT marks, ports created, changed, removed or moved by others, and turns, the commands' invariant holds and the daemon tracks the replica. |
| `EndToEnd.TurnMakesDefault` | src/vland_ovsdb_if.c:1082-1084 | After a turn that reconfigures VLAN 1 is in the table iff it was before or had never been seen. |
| `EndToEnd.HistoryKeepsDefault` | src/vland_ovsdb_if.c:932-1008 | Over any history in which it is not deleted over REST, VLAN 1 is there once the daemon has seen or made it. |
| `EndToEnd.HardwareFollowsConfiguration` | DESIGN.md:7 | After any such history, one fair turn that reconfigures leaves every VLAN but VID 1 and the L3PORT ones enabled in hardware iff it is administratively up and a switched port carries it, and VID 1 enabled. |
| `NameCollisions.ShadowedNeverFollows` | src/vland_ovsdb_if.c:807-813 | Over any history at all, fair or not, a VLAN whose row comes after another of its name is never given its columns. |
| `NameCollisions.HardwareFollowsExactly` | DESIGN.md:7 | With no VLAN marked L3PORT, one turn that reconfigures, in which nothing was reused or went together, leaves the hardware of every VLAN following its configuration iff no two VLANs have one name. |
| `NameCollisions.CollidingVlanIsNeverEnabled` | src/cli/vlan_vty.c:259-262 | A run typed from an unconfigured database after which VLAN 13 is up and carried by a switched port, and no turn gives it its columns. |
| `EndToEnd.HardwareByColumns` | DESIGN.md:7-60 | The same from column to column: with lock, no contender and cur_cfg above 0, a VLAN but VLAN 1 without L3PORT mark is enabled iff its admin column says up and the columns of a port that a bridge lists make it a member. |
| `EndToEnd.PlainHistoryIsFair` | src/cli/vlan_vty.c:259-262 | Where VLANs are typed with at most four digits, names always differ, and nothing is reused iff no id was deleted and created again. |
| `EndToEnd.TurnIsPossible` | src/vland_ovsdb_if.c:1059-1096 | Such a turn can always be made: some order of visiting is a pass. |
| `RestValidator.LengthIsCardinality` | opsplugins/vlan.py:26 | A list is as long as its set iff nothing repeats. |
| `RestValidator.ValidateModification` | opsplugins/vlan.py:17-29 | A new row is accepted iff the ids in the table do not repeat; a change of a row always is. |
| `RestValidator.NewRowAccepted` | opsplugins/vlan.py:22-28 | Wherever the new row stands, that is so iff the ids did not repeat before and the new id is none of them. |
| `RestValidator.OnlyVlanOneIsProtected` | opsplugins/vlan.py:10-15 | Over every run of commands the deletion check refuses only VLAN 1; once VLAN 1 is there under its protected name, it refuses exactly VLAN 1. |
| `RestValidator.CreateDefaultNamesIt` | src/vland_ovsdb_if.c:959-964 | The daemon creates VLAN 1 under that name. |
| `RestValidator.TypedVlanOneIsUnprotected` | src/cli/vlan_vty.c:242-367 | VLAN 1 typed by a user gets a name that may be deleted. |

## Left out

- Commit failure and concurrent writers: `vland_run` ignores the commit status, so agreement with the database is claimed for commits that succeed.
- PassProperties.Quiescence: bitmaps of implicit trunks outside every bridge are excluded, because for them the claim is false; `ReprocessedBitmaps` gives the exact condition.
- Reconciliation.SyncedMeansDefaultUp: the member flag of VID 1 is only said not to miss a port, because being in sync does not determine it; `DefaultFlagExactly` says what each pass makes of it.
- EndToEnd.HardwareFollowsConfiguration: a fair turn needs VLAN names to differ, because otherwise the claim is false; `HardwareFollowsExactly` gives it as an exact condition.
- RecreatedVlans.RecreatedRowWritten: where a port step follows the handle of a deleted row, the value model writes to that identity; what the process does with the freed row is not modelled, and the objects exclude it.
- Sequence numbers are unbounded; the wrap-around of the daemon's 32-bit `idl_seqno` is not modelled.
- Port rows and VLAN rows of the command model are values in tables that the session reassigns, not objects: sharing between rows does not arise, since the database has none.
- The interfaces of a port are a set of names; the inner loop over them is one membership test.
- The order of the replica's rows is arbitrary, and two rows of one name never come from the commands; the daemon model still keeps the first of them.
- `cli_show_vlan_id`, sorting and text output; `shash_add` of equal names in the listing.
- The internal VLAN range commands, the global-context printer and the LAG printer.
- Port rows written by other programs that break the invariant of the commands.
- Interface-VLAN creation and deletion, the description column, and the status columns that creation presets.
- Debug dumps, option parsing, the poll loop, enum-to-string functions, logging and freeing.
- Writes to a missing row or reads of a missing column end a command in `Faulted`; what the process does then is not modelled.
