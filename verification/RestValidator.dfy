/** The REST daemon's checks on VLAN rows. */
module RestValidator {
  import opened VlanTypes
  import opened CliCommands
  import opened CliInvariants

  datatype Verdict = Accepted | VerificationFailed(details: string, vid: int)

  /** The ids of the VLAN table, with the row to be written already in it. */
  function Ids(rows: seq<VlanRec>): (ids: seq<int>)
    ensures |ids| == |rows| && forall i :: 0 <= i < |ids| ==> ids[i] == rows[i].config.id
  {
    seq(|rows|, i requires 0 <= i < |rows| => rows[i].config.id)
  }

  lemma SetOfMore(s: seq<int>, x: int)
    ensures (set y | y in s + [x]) == (set y | y in s) + {x}
  {
  }

  /** A list is as long as its set exactly when nothing repeats, and otherwise longer. */
  lemma {:induction false} LengthIsCardinality(s: seq<int>)
    ensures |set x | x in s| <= |s|
    ensures |set x | x in s| == |s| <==> NoRepeats(s)
    decreases |s|
  {
    if s == [] {
      assert (set x | x in s) == {};
    } else {
      var most, last := s[..|s| - 1], s[|s| - 1];
      assert s == most + [last];
      LengthIsCardinality(most);
      SetOfMore(most, last);
      if last in most {
        var i :| 0 <= i < |most| && most[i] == last;
        assert s[i] == s[|s| - 1];
        assert (set y | y in most) + {last} == (set y | y in most);
      } else {
        assert NoRepeats(s) <==> NoRepeats(most) by {
          assert forall i :: 0 <= i < |most| ==> most[i] == s[i];
        }
      }
    }
  }

  /** validate_modification: of a new row, whether ids repeat; of an old row, nothing. */
  method ValidateModification(rows: seq<VlanRec>, vid: int, isNew: bool) returns (v: Verdict)
    ensures v.Accepted? <==> !isNew || NoRepeats(Ids(rows))
    ensures !v.Accepted? ==> v == VerificationFailed("VLAN id already exists", vid)
  {
    v := Accepted;
    if isNew {
      var vlanIdList: seq<int> := [];
      for i := 0 to |rows|
        invariant vlanIdList == Ids(rows)[..i]
      {
        vlanIdList := vlanIdList + [rows[i].config.id];
      }
      assert vlanIdList == Ids(rows);
      LengthIsCardinality(vlanIdList);
      if |vlanIdList| != |set x | x in vlanIdList| {
        v := VerificationFailed("VLAN id already exists", vid);
      }
    }
  }

  lemma {:induction false} RepeatsByCount(s: seq<int>)
    ensures NoRepeats(s) <==> forall x :: multiset(s)[x] <= 1
    decreases |s|
  {
    if s == [] {
    } else {
      var most, last := s[..|s| - 1], s[|s| - 1];
      assert s == most + [last];
      RepeatsByCount(most);
      assert forall i :: 0 <= i < |most| ==> most[i] == s[i];
      if last in most {
        assert multiset(s)[last] > 1;
        var i :| 0 <= i < |most| && most[i] == last;
        assert s[i] == s[|s| - 1];
      } else {
        assert multiset(most)[last] == 0;
        assert forall x :: multiset(s)[x] == multiset(most)[x] + if x == last then 1 else 0;
      }
    }
  }

  /**
   * Wherever the new row stands in the table: the ids do not repeat exactly when they did not before
   * and the new id is none of them.
   */
  lemma NewRowAccepted(before: seq<int>, after: seq<int>, vid: int)
    requires multiset(after) == multiset(before) + multiset{vid}
    ensures NoRepeats(after) <==> NoRepeats(before) && vid !in before
  {
    RepeatsByCount(before);
    RepeatsByCount(after);
    assert forall x :: multiset(after)[x] == multiset(before)[x] + if x == vid then 1 else 0;
    assert vid in before <==> multiset(before)[vid] > 0;
  }

  /** validate_deletion looks at the name only. */
  predicate Deletable(row: VlanRec) {
    row.config.name != DEFAULT_VLAN_NAME
  }

  method ValidateDeletion(row: VlanRec) returns (v: Verdict)
    ensures v.Accepted? <==> Deletable(row)
  {
    if row.config.name == "DEFAULT_VLAN_1" {
      return VerificationFailed("DEFAULT_VLAN_1 cannot be deleted", row.config.id);
    }
    return Accepted;
  }

  /** No VLAN but VLAN 1 has the protected name. */
  ghost predicate NoImpostor(db: Db) {
    forall i :: 0 <= i < |db.vlans| ==> !Deletable(db.vlans[i]) ==> db.vlans[i].config.id == DEFAULT_VID
  }

  /** VLAN 1 is there under the protected name. */
  ghost predicate DefaultNamed(db: Db) {
    exists i :: 0 <= i < |db.vlans| && db.vlans[i].config.id == DEFAULT_VID && !Deletable(db.vlans[i])
  }

  lemma InsertKeepsNaming(db: Db, b: nat, config: VlanConfig)
    requires NoImpostor(db) && b < |db.bridges| && (config.name == DEFAULT_VLAN_NAME ==> config.id == DEFAULT_VID)
    ensures NoImpostor(Insert(db, b, config)) && (DefaultNamed(db) ==> DefaultNamed(Insert(db, b, config)))
  {
    var d := Insert(db, b, config);
    assert forall i :: 0 <= i < |db.vlans| ==> d.vlans[i] == db.vlans[i];
  }

  lemma DeleteKeepsNoImpostor(before: Db, after: Db, at: nat)
    requires NoImpostor(before) && at < |before.vlans| && after.vlans == before.vlans[..at] + before.vlans[at + 1..]
    ensures NoImpostor(after)
  {
    forall i | 0 <= i < |after.vlans| && !Deletable(after.vlans[i]) ensures after.vlans[i].config.id == DEFAULT_VID {
      KeptRow(before.vlans, after.vlans, at, if i < at then i else i + 1);
    }
  }

  lemma DeleteKeepsDefaultNamed(before: Db, after: Db, at: nat)
    requires DefaultNamed(before) && at < |before.vlans| && before.vlans[at].config.id != DEFAULT_VID
    requires after.vlans == before.vlans[..at] + before.vlans[at + 1..]
    ensures DefaultNamed(after)
  {
    var i :| 0 <= i < |before.vlans| && before.vlans[i].config.id == DEFAULT_VID && !Deletable(before.vlans[i]);
    KeptRow(before.vlans, after.vlans, at, i);
    assert !Deletable(after.vlans[if i < at then i else i - 1]);
  }

  lemma DeleteKeepsNaming(db: Db, arg: string)
    requires NoImpostor(db) && InVidRange(arg, 2) && DoDeleteVlan(db, arg).Committed?
    ensures var d := DoDeleteVlan(db, arg).db; NoImpostor(d) && (DefaultNamed(db) ==> DefaultNamed(d))
  {
    var d, at := DoDeleteVlan(db, arg).db, FindVlan(db.vlans, Atoi(arg)).value;
    DeleteKeepsNoImpostor(db, d, at);
    if DefaultNamed(db) { DeleteKeepsDefaultNamed(db, d, at); }
  }

  lemma SetAdminKeepsNaming(db: Db, i: nat, a: Admin)
    requires NoImpostor(db) && i < |db.vlans|
    ensures NoImpostor(SetAdmin(db, i, a)) && (DefaultNamed(db) ==> DefaultNamed(SetAdmin(db, i, a)))
  {
    var d := SetAdmin(db, i, a);
    assert forall j :: 0 <= j < |db.vlans| ==>
      d.vlans[j].config.name == db.vlans[j].config.name && d.vlans[j].config.id == db.vlans[j].config.id;
  }

  lemma ExecKeepsNaming(env: Env, db: Db, c: Command)
    requires DbInv(db) && NoImpostor(db) && Admitted(c)
    ensures var d := After(db, Exec(env, db, c)); NoImpostor(d) && (DefaultNamed(db) ==> DefaultNamed(d))
  {
    var o := Exec(env, db, c);
    if o.Committed? {
      match c
      case CreateVlan(arg) =>
        assert |VlanName(arg)| < |DEFAULT_VLAN_NAME|;
        var config := TypedConfig(arg);
        InsertKeepsNaming(db, PickBridge(db.bridges).value, config);
        assert o.db.vlans == Insert(db, PickBridge(db.bridges).value, config).vlans;
      case DeleteVlan(arg) => DeleteKeepsNaming(db, arg);
      case Shutdown(vid) => SetAdminKeepsNaming(db, FindVlan(db.vlans, vid).value, AdminDown);
      case NoShutdown(vid) => SetAdminKeepsNaming(db, FindVlan(db.vlans, vid).value, AdminUp);
      case CreateDefault =>
        InsertKeepsNaming(db, NamedBridge(db.bridges).value, DEFAULT_CONFIG);
      case _ => PortCommandsKeepVlans(env, db, c);
    }
  }

  lemma {:induction false} RunsKeepNaming(db: Db, run: seq<Typed>)
    requires DbInv(db) && NoImpostor(db) && AdmittedRun(run)
    ensures NoImpostor(RunCommands(db, run)) && (DefaultNamed(db) ==> DefaultNamed(RunCommands(db, run)))
    decreases |run|
  {
    if run == [] {
    } else {
      var most := run[..|run| - 1];
      RunsKeepInv(db, most);
      RunsKeepNaming(db, most);
      ExecKeepsNaming(run[|run| - 1].env, RunCommands(db, most), run[|run| - 1].command);
    }
  }

  /**
   * Over every run of commands that starts without an impostor, the REST daemon refuses to delete only
   * VLAN 1; and once VLAN 1 is there under its protected name, it refuses exactly VLAN 1.
   */
  lemma OnlyVlanOneIsProtected(db: Db, run: seq<Typed>, i: nat)
    requires DbInv(db) && NoImpostor(db) && AdmittedRun(run) && i < |RunCommands(db, run).vlans|
    ensures var r := RunCommands(db, run).vlans[i];
      && (!Deletable(r) ==> r.config.id == DEFAULT_VID)
      && (DefaultNamed(db) ==> (Deletable(r) <==> r.config.id != DEFAULT_VID))
  {
    RunsKeepInv(db, run);
    RunsKeepNaming(db, run);
  }

  /** The daemon creates VLAN 1 under the protected name. */
  lemma CreateDefaultNamesIt(db: Db)
    requires DbInv(db) && !HasVlan(db, DEFAULT_VID)
    ensures DefaultNamed(After(db, DoCreateDefault(db)))
  {
    var d := After(db, DoCreateDefault(db));
    assert d.vlans[|db.vlans|].config.id == DEFAULT_VID;
  }

  /** Typed before the daemon made it, VLAN 1 gets a name that may be deleted. */
  lemma TypedVlanOneIsUnprotected(db: Db)
    requires DbInv(db) && !HasVlan(db, 1)
    ensures Plain(CreateVlan("1")) && Atoi("1") == 1
    ensures DoCreateVlan(db, "1").Committed?
    ensures var d := DoCreateVlan(db, "1").db;
      d.vlans[|db.vlans|].config.id == DEFAULT_VID && d.vlans[|db.vlans|].config.name != DEFAULT_VLAN_NAME
  {
    assert "1"[..0] == "" && Atoi("") == 0;
    assert Atoi("1") == 1;
    assert |VlanName("1")| == 5;
  }
}
