/** The running-configuration printer for an interface, and replaying what it printed. */
module CliPrinter {
  import opened VlanTypes
  import opened CliCommands
  import opened CliInvariants

  /** A printed line, as the command it spells. */
  datatype Line = AccessLine(vid: int) | AllowedLine(vid: int) | NativeLine(vid: int) | NativeTagLine

  function AllowedLines(trunks: seq<int>): (r: seq<Line>)
    ensures |r| == |trunks| && forall i :: 0 <= i < |r| ==> r[i] == AllowedLine(trunks[i])
  {
    seq(|trunks|, i requires 0 <= i < |trunks| => AllowedLine(trunks[i]))
  }

  function NativeLines(k: PortConfig): seq<Line> {
    (if k.tag.Some? then [NativeLine(k.tag.value)] else [])
    + (if k.mode == Some(NativeTagged) then [NativeTagLine] else [])
  }

  /** What is printed for a port row, by mode. */
  function Lines(k: PortConfig): seq<Line> {
    if k.mode == Some(Access) then (if k.tag.Some? then [AccessLine(k.tag.value)] else [])
    else if k.mode == Some(Trunk) then AllowedLines(k.trunks)
    else if IsNative(k.mode) then NativeLines(k) + AllowedLines(k.trunks)
    else []
  }

  /** out goes on with the trunk lines, one for each trunk, from place h to the end. */
  predicate TrunkLinesFrom(out: seq<Line>, h: nat, trunks: seq<int>) {
    |out| == h + |trunks| && forall j :: h <= j < |out| ==> out[j] == AllowedLine(trunks[j - h])
  }

  /** The output for a port row, by its columns: how long it is, and each line of it. */
  predicate PrintedByColumns(k: PortConfig, out: seq<Line>) {
    var h := if k.tag.Some? then 1 else 0;
    match k.mode
    case None => |out| == 0
    case Some(Unrecognised) => |out| == 0
    case Some(Access) => |out| == h && (k.tag.Some? ==> out[0] == AccessLine(k.tag.value))
    case Some(Trunk) => TrunkLinesFrom(out, 0, k.trunks)
    case Some(NativeUntagged) =>
      TrunkLinesFrom(out, h, k.trunks) && (k.tag.Some? ==> out[0] == NativeLine(k.tag.value))
    case Some(NativeTagged) =>
      && TrunkLinesFrom(out, h + 1, k.trunks) && (k.tag.Some? ==> out[0] == NativeLine(k.tag.value))
      && out[h] == NativeTagLine
  }

  lemma TrunkLinesAfter(head: seq<Line>, trunks: seq<int>)
    ensures TrunkLinesFrom(head + AllowedLines(trunks), |head|, trunks)
    ensures forall i :: 0 <= i < |head| ==> (head + AllowedLines(trunks))[i] == head[i]
  {
  }

  lemma NativeLinesByColumns(k: PortConfig)
    requires k.mode == Some(NativeTagged) || k.mode == Some(NativeUntagged)
    ensures PrintedByColumns(k, Lines(k))
  {
    TrunkLinesAfter(NativeLines(k), k.trunks);
  }

  lemma LinesByColumns(k: PortConfig)
    ensures PrintedByColumns(k, Lines(k))
  {
    if k.mode == Some(NativeTagged) || k.mode == Some(NativeUntagged) {
      NativeLinesByColumns(k);
    } else if k.mode == Some(Trunk) {
      TrunkLinesAfter([], k.trunks);
      assert [] + AllowedLines(k.trunks) == Lines(k);
    }
  }

  method PrintTrunks(k: PortConfig, head: seq<Line>) returns (out: seq<Line>)
    ensures out == head + AllowedLines(k.trunks)
  {
    out := head;
    for i := 0 to |k.trunks|
      invariant out == head + AllowedLines(k.trunks[..i])
    {
      out := out + [AllowedLine(k.trunks[i])];
      assert AllowedLines(k.trunks[..i]) + [AllowedLine(k.trunks[i])] == AllowedLines(k.trunks[..i + 1]);
    }
    assert k.trunks[..|k.trunks|] == k.trunks;
  }

  /** vtysh_ovsdb_intftable_parse_vlan: the output is line by line what the mode calls for. */
  method IntftableParseVlan(port: Option<PortConfig>) returns (out: seq<Line>)
    ensures out == if port.None? then [] else Lines(port.value)
    ensures if port.None? then |out| == 0 else PrintedByColumns(port.value, out)
  {
    if port.Some? { LinesByColumns(port.value); }
    out := [];
    if port.None? || port.value.mode.None? {
      return;
    }
    var k := port.value;
    if k.mode == Some(Access) {
      if k.tag.Some? {
        out := out + [AccessLine(k.tag.value)];
      }
    } else if k.mode == Some(Trunk) {
      out := PrintTrunks(k, out);
    } else if k.mode == Some(NativeUntagged) {
      if k.tag.Some? {
        out := out + [NativeLine(k.tag.value)];
      }
      out := PrintTrunks(k, out);
    } else if k.mode == Some(NativeTagged) {
      if k.tag.Some? {
        out := out + [NativeLine(k.tag.value)];
      }
      out := out + [NativeTagLine];
      out := PrintTrunks(k, out);
    }
  }

  // ---- Replaying ---------------------------------------------------------------------------

  function CommandOf(p: string, l: Line): Command {
    match l
    case AccessLine(v) => IntfAccess(p, v)
    case AllowedLine(v) => IntfAllow(p, [v])
    case NativeLine(v) => IntfNative(p, v)
    case NativeTagLine => IntfTag(p)
  }

  predicate Typeable(p: string, lines: seq<Line>) {
    forall i :: 0 <= i < |lines| ==> Admitted(CommandOf(p, lines[i]))
  }

  /** Typing the lines in the context of interface p: the last outcome, as long as each one commits. */
  ghost function Replay(env: Env, db: Db, p: string, lines: seq<Line>): Outcome
    requires Typeable(p, lines)
    decreases |lines|
  {
    if lines == [] then Committed(db) else
      var o := Exec(env, db, CommandOf(p, lines[0]));
      if o.Committed? then Replay(env, o.db, p, lines[1..]) else o
  }

  /** What one accepted line makes of the row. */
  function LineRow(env: Env, k: PortConfig, l: Line): PortConfig {
    match l
    case AccessLine(v) => AccessRow(v)
    case NativeLine(v) => NativeRow(k, v)
    case NativeTagLine => k.(mode := Some(NativeTagged))
    case AllowedLine(v) =>
      if v in env.internalVids then k
      else if v in k.trunks then NativeMode(k)
      else NativeMode(k).(trunks := k.trunks + [v])
  }

  /** When the line is accepted on a port with row k. */
  ghost predicate LineAccepted(env: Env, db: Db, p: string, k: PortConfig, l: Line) {
    match l
    case AccessLine(v) => !InternalBlocked(env, db, v) && IntfUsable(db, p) && HasVlan(db, v)
    case NativeLine(v) => !InternalBlocked(env, db, v) && IntfUsable(db, p) && HasVlan(db, v)
    case NativeTagLine => IntfUsable(db, p) && k.mode != Some(Access)
    case AllowedLine(v) => env.hasSystem && (v in env.internalVids || (MayAllow(env, db, p, v) && k.mode != None))
  }

  lemma AllowedLineEffect(env: Env, d: Db, p: string, v: int)
    requires p in d.ports
    ensures var o, k, l := DoIntfAllow(env, d, p, [v]), d.ports[p].config, AllowedLine(v);
      && (o.Committed? <==> LineAccepted(env, d, p, k, l))
      && (o.Committed? ==> o == Put(d, p, LineRow(env, k, l)))
  {
    var k := d.ports[p].config;
    assert [v][1..] == [];
    assert AllowFrom(env, d, p, k, []) == Put(d, p, k);
    if v !in env.internalVids && k.mode != None {
      AllowOne(env, d, p, k, [v]);
      var k1 := NativeMode(k).(trunks := k.trunks + [v]);
      assert AllowFrom(env, d, p, k1, []) == Put(d, p, k1);
    }
  }

  /** One line on the port with row k commits exactly when it is accepted, and then changes that row alone. */
  lemma LineEffect(env: Env, db: Db, p: string, k: PortConfig, l: Line)
    requires p in db.ports && Admitted(CommandOf(p, l))
    ensures var o := Exec(env, WithRow(db, p, k), CommandOf(p, l));
      && (o.Committed? <==> LineAccepted(env, db, p, k, l))
      && (o.Committed? ==> o == Put(db, p, LineRow(env, k, l)))
  {
    var d := WithRow(db, p, k);
    UsableWithRow(db, p, k);
    WithRowTwice(db, p, k, LineRow(env, k, l));
    match l
    case AllowedLine(v) => AllowedLineEffect(env, d, p, v);
    case _ =>
  }

  /** What accepted lines make of the row. */
  function LineRows(env: Env, k: PortConfig, lines: seq<Line>): PortConfig
    decreases |lines|
  {
    if lines == [] then k else LineRows(env, LineRow(env, k, lines[0]), lines[1..])
  }

  ghost predicate LinesAccepted(env: Env, db: Db, p: string, k: PortConfig, lines: seq<Line>)
    decreases |lines|
  {
    lines == [] ||
    (LineAccepted(env, db, p, k, lines[0]) && LinesAccepted(env, db, p, LineRow(env, k, lines[0]), lines[1..]))
  }

  lemma {:induction false} ReplayEffect(env: Env, db: Db, p: string, k: PortConfig, lines: seq<Line>)
    requires p in db.ports && Typeable(p, lines)
    ensures var o := Replay(env, WithRow(db, p, k), p, lines);
      && (o.Committed? <==> LinesAccepted(env, db, p, k, lines))
      && (o.Committed? ==> o == Put(db, p, LineRows(env, k, lines)))
    decreases |lines|
  {
    if lines != [] {
      LineEffect(env, db, p, k, lines[0]);
      if LineAccepted(env, db, p, k, lines[0]) {
        ReplayEffect(env, db, p, LineRow(env, k, lines[0]), lines[1..]);
      }
    }
  }

  // ---- What replaying restores ---------------------------------------------------------------

  /** The row after trunk lines for the VLANs work, none of them in internal use or allowed before. */
  function Allowing(k: PortConfig, work: seq<int>): PortConfig {
    if work == [] then k else NativeMode(k).(trunks := k.trunks + work)
  }

  lemma AllowingOneMore(k: PortConfig, t: int, work: seq<int>)
    ensures Allowing(Allowing(k, [t]), work) == Allowing(k, [t] + work)
  {
    assert k.trunks + [t] + work == k.trunks + ([t] + work);
    if work == [] {
      assert [t] + work == [t];
    }
  }

  lemma FirstIsNew(s: seq<int>, t: seq<int>)
    requires t != [] && NoRepeats(s + t)
    ensures t[0] !in s
  {
    assert (s + t)[|s|] == t[0];
    forall i | 0 <= i < |s| ensures s[i] != t[0] {
      assert (s + t)[i] == s[i];
    }
  }

  lemma DropOneKeepsNoRepeats(s: seq<int>, t: seq<int>)
    requires t != [] && NoRepeats(s + t)
    ensures NoRepeats(s + t[1..])
  {
    var all, fewer := s + t, s + t[1..];
    forall i, j | 0 <= i < j < |fewer| ensures fewer[i] != fewer[j] {
      assert fewer[i] == all[if i < |s| then i else i + 1] && fewer[j] == all[if j < |s| then j else j + 1];
    }
  }

  lemma {:induction false} RowsOfAllowed(env: Env, k: PortConfig, trunks: seq<int>)
    requires NoRepeats(k.trunks + trunks)
    ensures LineRows(env, k, AllowedLines(trunks)) == Allowing(k, NotInternal(env, trunks))
    decreases |trunks|
  {
    if trunks == [] {
    } else {
      var t := trunks[0];
      assert AllowedLines(trunks)[1..] == AllowedLines(trunks[1..]);
      FirstIsNew(k.trunks, trunks);
      if t in env.internalVids {
        DropOneKeepsNoRepeats(k.trunks, trunks);
        RowsOfAllowed(env, k, trunks[1..]);
        assert NotInternal(env, trunks) == NotInternal(env, trunks[1..]);
      } else {
        assert LineRow(env, k, AllowedLine(t)) == Allowing(k, [t]);
        assert k.trunks + [t] + trunks[1..] == k.trunks + trunks;
        RowsOfAllowed(env, Allowing(k, [t]), trunks[1..]);
        AllowingOneMore(k, t, NotInternal(env, trunks[1..]));
      }
    }
  }

  /** The rows that come back: access or native mode, with a tag. */
  predicate Printable(k: PortConfig) {
    k.tag.Some? && (k.mode == Some(Access) || IsNative(k.mode))
  }

  /** A port as it is before it was configured. */
  predicate Blank(k: PortConfig) {
    (k.mode == None || k.mode == Some(Access)) && k.trunks == []
  }

  lemma {:induction false} RowsOfConcat(env: Env, k: PortConfig, a: seq<Line>, b: seq<Line>)
    ensures LineRows(env, k, a + b) == LineRows(env, LineRows(env, k, a), b)
    decreases |a|
  {
    if a == [] {
      assert a + b == b;
    } else {
      assert (a + b)[0] == a[0] && (a + b)[1..] == a[1..] + b;
      RowsOfConcat(env, LineRow(env, k, a[0]), a[1..], b);
    }
  }

  lemma RowsOfNative(env: Env, blank: PortConfig, k: PortConfig)
    requires Blank(blank) && Printable(k) && IsNative(k.mode)
    ensures LineRows(env, blank, NativeLines(k)) == k.(trunks := [])
  {
    var native := NativeLine(k.tag.value);
    assert LineRow(env, blank, native) == PortConfig(Some(NativeUntagged), k.tag, []);
    if k.mode == Some(NativeTagged) {
      assert NativeLines(k) == [native, NativeTagLine];
      assert [native, NativeTagLine][1..] == [NativeTagLine] && [NativeTagLine][1..] == [];
    } else {
      assert NativeLines(k) == [native] && [native][1..] == [];
    }
  }

  lemma RowsOfLines(env: Env, blank: PortConfig, k: PortConfig)
    requires Blank(blank) && Printable(k) && NoRepeats(k.trunks) && (k.mode == Some(Access) ==> k.trunks == [])
    ensures LineRows(env, blank, Lines(k)) == k.(trunks := NotInternal(env, k.trunks))
  {
    if k.mode == Some(Access) {
      assert Lines(k)[1..] == [];
    } else {
      RowsOfConcat(env, blank, NativeLines(k), AllowedLines(k.trunks));
      RowsOfNative(env, blank, k);
      assert [] + k.trunks == k.trunks;
      RowsOfAllowed(env, k.(trunks := []), k.trunks);
    }
  }

  /**
   * Printing a port row and typing the lines on a blank port restores mode, tag and, in order, the
   * trunks not in internal use meanwhile, if every line is accepted.
   */
  lemma PrintReplayRestores(env: Env, db: Db, p: string, k: PortConfig)
    requires p in db.ports && Blank(db.ports[p].config) && Printable(k) && RowInv(p, IsSystem(db, p), k)
    requires Typeable(p, Lines(k)) && Replay(env, db, p, Lines(k)).Committed?
    ensures Replay(env, db, p, Lines(k)) == Put(db, p, k.(trunks := NotInternal(env, k.trunks)))
  {
    WithOwnRow(db, p);
    ReplayEffect(env, db, p, db.ports[p].config, Lines(k));
    RowsOfLines(env, db.ports[p].config, k);
  }

  lemma NothingInternal(env: Env, s: seq<int>)
    requires forall t :: t in s ==> t !in env.internalVids
    ensures NotInternal(env, s) == s
    decreases |s|
  {
    if s != [] {
      var first := s[0];
      assert first in s && s == [first] + s[1..];
      NothingInternal(env, s[1..]);
    }
  }

  /** Trunk lines alone make a native-untagged row with the tag there was. */
  lemma TrunksOnly(env: Env, blank: PortConfig, k: PortConfig)
    requires Blank(blank) && NoRepeats(k.trunks) && NotInternal(env, k.trunks) == k.trunks
    ensures LineRows(env, blank, AllowedLines(k.trunks)) ==
      if k.trunks == [] then blank else PortConfig(Some(NativeUntagged), blank.tag, k.trunks)
  {
    assert blank.trunks + k.trunks == k.trunks;
    RowsOfAllowed(env, blank, k.trunks);
  }

  /** So does "native tag" before them, in native-tagged mode. */
  lemma TagThenTrunks(env: Env, blank: PortConfig, k: PortConfig)
    requires Blank(blank) && NoRepeats(k.trunks) && NotInternal(env, k.trunks) == k.trunks
    requires k.mode == Some(NativeTagged) && k.tag.None?
    ensures LineRows(env, blank, Lines(k)) == PortConfig(Some(NativeTagged), blank.tag, k.trunks)
  {
    var tagged := blank.(mode := Some(NativeTagged));
    RowsOfConcat(env, blank, [NativeTagLine], AllowedLines(k.trunks));
    assert Lines(k) == [NativeTagLine] + AllowedLines(k.trunks);
    assert [NativeTagLine][1..] == [];
    assert LineRows(env, blank, [NativeTagLine]) == tagged;
    assert tagged.trunks + k.trunks == k.trunks;
    RowsOfAllowed(env, tagged, k.trunks);
  }

  /**
   * Which rows come back on a blank port: those printable; the blank row itself; and, where the blank
   * port has no tag either, native rows without a tag if something of them is printed.
   */
  predicate Restorable(blank: PortConfig, k: PortConfig) {
    || Printable(k)
    || k == blank
    || (k.tag.None? && blank.tag.None?
        && (k.mode == Some(NativeTagged) || (k.mode == Some(NativeUntagged) && k.trunks != [])))
  }

  lemma UnprintableRows(env: Env, db: Db, p: string, blank: PortConfig, k: PortConfig)
    requires Blank(blank) && !Printable(k) && RowInv(p, IsSystem(db, p), k) && NotInternal(env, k.trunks) == k.trunks
    requires LinesAccepted(env, db, p, blank, Lines(k))
    ensures LineRows(env, blank, Lines(k)) == k <==> Restorable(blank, k)
  {
    if k.mode == Some(Trunk) || k.mode == Some(NativeUntagged) {
      assert Lines(k) == AllowedLines(k.trunks);
      TrunksOnly(env, blank, k);
    } else if k.mode == Some(NativeTagged) {
      TagThenTrunks(env, blank, k);
    } else {
      assert Lines(k) == [];
    }
  }

  lemma PutsDiffer(db: Db, p: string, k: PortConfig, m: PortConfig)
    requires p in db.ports
    ensures Put(db, p, k) == Put(db, p, m) <==> k == m
  {
    assert Put(db, p, k).db.ports[p].config == k;
    assert Put(db, p, m).db.ports[p].config == m;
  }

  /**
   * If every line is accepted, the row comes back on a blank port exactly when it is restorable there:
   * a plain trunk never is.
   */
  lemma RestoredExactly(env: Env, db: Db, p: string, k: PortConfig)
    requires p in db.ports && Blank(db.ports[p].config) && RowInv(p, IsSystem(db, p), k)
    requires forall t :: t in k.trunks ==> t !in env.internalVids
    requires Typeable(p, Lines(k)) && Replay(env, db, p, Lines(k)).Committed?
    ensures Replay(env, db, p, Lines(k)) == Put(db, p, k) <==> Restorable(db.ports[p].config, k)
  {
    var blank := db.ports[p].config;
    NothingInternal(env, k.trunks);
    WithOwnRow(db, p);
    ReplayEffect(env, db, p, blank, Lines(k));
    if Printable(k) {
      RowsOfLines(env, blank, k);
    } else {
      UnprintableRows(env, db, p, blank, k);
      PutsDiffer(db, p, k, LineRows(env, blank, Lines(k)));
    }
  }

  // ---- Plain trunks ------------------------------------------------------------------------------

  lemma {:induction false} AllowedAccepted(env: Env, db: Db, p: string, k: PortConfig, trunks: seq<int>)
    requires k.mode != None
    ensures LinesAccepted(env, db, p, k, AllowedLines(trunks)) <==>
      (trunks != [] ==> env.hasSystem) && forall t :: t in trunks ==> t in env.internalVids || MayAllow(env, db, p, t)
    decreases |trunks|
  {
    if trunks != [] {
      var t := trunks[0];
      assert t in trunks && trunks == [t] + trunks[1..];
      assert AllowedLines(trunks)[1..] == AllowedLines(trunks[1..]);
      AllowedAccepted(env, db, p, LineRow(env, k, AllowedLine(t)), trunks[1..]);
    }
  }

  /** What a printed plain trunk makes of a blank port: its trunks in native-untagged mode, on the tag there was. */
  function PlainTrunkReplayed(env: Env, blank: PortConfig, trunks: seq<int>): PortConfig {
    var left := NotInternal(env, trunks);
    if left == [] then blank else PortConfig(Some(NativeUntagged), blank.tag, left)
  }

  lemma {:induction false} ModelessAccepted(env: Env, db: Db, p: string, k: PortConfig, trunks: seq<int>)
    requires k.mode == None
    ensures LinesAccepted(env, db, p, k, AllowedLines(trunks)) <==>
      (trunks != [] ==> env.hasSystem) && forall t :: t in trunks ==> t in env.internalVids
    decreases |trunks|
  {
    if trunks != [] {
      var t := trunks[0];
      assert t in trunks && trunks == [t] + trunks[1..];
      assert AllowedLines(trunks)[1..] == AllowedLines(trunks[1..]);
      if t in env.internalVids { ModelessAccepted(env, db, p, k, trunks[1..]); }
    }
  }

  /** When the lines of a plain trunk are all accepted: on a port without mode only if none has any effect. */
  ghost predicate PlainTrunkAccepted(env: Env, db: Db, p: string, blank: PortConfig, trunks: seq<int>) {
    && (trunks != [] ==> env.hasSystem)
    && forall t :: t in trunks ==> t in env.internalVids || (blank.mode == Some(Access) && MayAllow(env, db, p, t))
  }

  /**
   * Replaying a plain trunk on a blank port: exactly when it commits, and then exactly what it leaves, which is
   * never a plain trunk.
   */
  lemma PlainTrunkReplay(env: Env, db: Db, p: string, k: PortConfig)
    requires p in db.ports && Blank(db.ports[p].config) && k.mode == Some(Trunk) && NoRepeats(k.trunks)
    requires Typeable(p, Lines(k))
    ensures var o, blank := Replay(env, db, p, Lines(k)), db.ports[p].config;
      && (o.Committed? <==> PlainTrunkAccepted(env, db, p, blank, k.trunks))
      && (o.Committed? ==> o == Put(db, p, PlainTrunkReplayed(env, blank, k.trunks)))
      && (o.Committed? ==> o.db.ports[p].config.mode != Some(Trunk))
  {
    var blank := db.ports[p].config;
    WithOwnRow(db, p);
    ReplayEffect(env, db, p, blank, Lines(k));
    if blank.mode == None {
      ModelessAccepted(env, db, p, blank, k.trunks);
    } else {
      AllowedAccepted(env, db, p, blank, k.trunks);
    }
    assert blank.trunks + k.trunks == k.trunks;
    RowsOfAllowed(env, blank, k.trunks);
    assert LineRows(env, blank, Lines(k)) == PlainTrunkReplayed(env, blank, k.trunks);
  }

  // ---- When every line is accepted -----------------------------------------------------------

  /** Every VID of the row may be configured on the port. */
  ghost predicate Configurable(env: Env, db: Db, p: string, k: PortConfig) {
    && IntfUsable(db, p)
    && (k.tag.Some? ==> HasVlan(db, k.tag.value) && !InternalBlocked(env, db, k.tag.value))
    && (k.trunks != [] ==> env.hasSystem)
    && forall t :: t in k.trunks ==> t in env.internalVids || MayAllow(env, db, p, t)
  }

  lemma {:induction false} AcceptedConcat(env: Env, db: Db, p: string, k: PortConfig, a: seq<Line>, b: seq<Line>)
    ensures LinesAccepted(env, db, p, k, a + b) <==>
      LinesAccepted(env, db, p, k, a) && LinesAccepted(env, db, p, LineRows(env, k, a), b)
    decreases |a|
  {
    if a == [] {
      assert a + b == b;
    } else {
      assert (a + b)[0] == a[0] && (a + b)[1..] == a[1..] + b;
      AcceptedConcat(env, db, p, LineRow(env, k, a[0]), a[1..], b);
    }
  }

  lemma NativeAccepted(env: Env, db: Db, p: string, blank: PortConfig, k: PortConfig)
    requires Blank(blank) && Printable(k) && IsNative(k.mode)
    ensures LinesAccepted(env, db, p, blank, NativeLines(k)) <==>
      IntfUsable(db, p) && HasVlan(db, k.tag.value) && !InternalBlocked(env, db, k.tag.value)
  {
    var native := NativeLine(k.tag.value);
    if k.mode == Some(NativeTagged) {
      assert NativeLines(k) == [native, NativeTagLine];
      assert [native, NativeTagLine][1..] == [NativeTagLine] && [NativeTagLine][1..] == [];
    } else {
      assert NativeLines(k) == [native] && [native][1..] == [];
    }
  }

  /** Every VID of the row is one that a command may be typed with. */
  predicate TypeableRow(p: string, k: PortConfig) {
    !IsVlanIf(p) && (k.tag.Some? ==> ValidVid(k.tag.value)) && forall t :: t in k.trunks ==> ValidVid(t)
  }

  lemma TypeableAllowed(p: string, trunks: seq<int>)
    ensures Typeable(p, AllowedLines(trunks)) <==>
      trunks == [] || (!IsVlanIf(p) && forall t :: t in trunks ==> ValidVid(t))
  {
    var lines := AllowedLines(trunks);
    forall i | 0 <= i < |lines| ensures Admitted(CommandOf(p, lines[i])) <==> !IsVlanIf(p) && ValidVid(trunks[i]) {
      assert CommandOf(p, lines[i]) == IntfAllow(p, [trunks[i]]);
      assert trunks[i] == [trunks[i]][0] && [trunks[i]][0] in [trunks[i]];
    }
    if trunks != [] && Typeable(p, lines) {
      assert Admitted(CommandOf(p, lines[0]));
      forall t | t in trunks ensures ValidVid(t) {
        var i :| 0 <= i < |trunks| && trunks[i] == t;
        assert Admitted(CommandOf(p, lines[i]));
      }
    }
  }

  lemma TypeableConcat(p: string, a: seq<Line>, b: seq<Line>)
    ensures Typeable(p, a + b) <==> Typeable(p, a) && Typeable(p, b)
  {
    if Typeable(p, a + b) {
      assert forall i :: 0 <= i < |a| ==> (a + b)[i] == a[i];
      assert forall i :: 0 <= i < |b| ==> (a + b)[|a| + i] == b[i];
    }
  }

  lemma TypeableLines(p: string, k: PortConfig)
    requires Printable(k) && (k.mode == Some(Access) ==> k.trunks == [])
    ensures Typeable(p, Lines(k)) <==> TypeableRow(p, k)
  {
    if k.mode == Some(Access) {
      assert Lines(k)[0] == AccessLine(k.tag.value);
    } else {
      assert NativeLines(k)[0] == NativeLine(k.tag.value);
      TypeableConcat(p, NativeLines(k), AllowedLines(k.trunks));
      TypeableAllowed(p, k.trunks);
    }
  }

  lemma ReplayCommitsWhenTyped(env: Env, db: Db, p: string, k: PortConfig)
    requires p in db.ports && Blank(db.ports[p].config) && Printable(k) && RowInv(p, IsSystem(db, p), k)
    requires Typeable(p, Lines(k))
    ensures Replay(env, db, p, Lines(k)).Committed? <==> Configurable(env, db, p, k)
  {
    var blank := db.ports[p].config;
    WithOwnRow(db, p);
    ReplayEffect(env, db, p, blank, Lines(k));
    if k.mode == Some(Access) {
      assert Lines(k)[1..] == [];
    } else {
      AcceptedConcat(env, db, p, blank, NativeLines(k), AllowedLines(k.trunks));
      NativeAccepted(env, db, p, blank, k);
      RowsOfNative(env, blank, k);
      AllowedAccepted(env, db, p, k.(trunks := []), k.trunks);
    }
  }

  /**
   * The printed lines can be typed and are all accepted on a blank port exactly when the row has only VIDs
   * that the patterns admit and is configurable there.
   */
  lemma ReplayCommitsExactly(env: Env, db: Db, p: string, k: PortConfig)
    requires p in db.ports && Blank(db.ports[p].config) && Printable(k) && RowInv(p, IsSystem(db, p), k)
    ensures Typeable(p, Lines(k)) && Replay(env, db, p, Lines(k)).Committed? <==>
      TypeableRow(p, k) && Configurable(env, db, p, k)
  {
    TypeableLines(p, k);
    if Typeable(p, Lines(k)) { ReplayCommitsWhenTyped(env, db, p, k); }
  }

  /**
   * Such rows are left by commands: deleting a VLAN from a port that trunks others too sets tag 0, and
   * "vlan trunk native tag" makes the row printable; its native line is then refused by the pattern.
   */
  lemma DeletionLeavesTagZero(db: Db, arg: string, p: string)
    requires DbInv(db) && InVidRange(arg, 2) && DoDeleteVlan(db, arg).Committed? && p in db.ports
    requires Atoi(arg) in db.ports[p].config.trunks && Without(db.ports[p].config.trunks, Atoi(arg)) != []
    ensures var d := DoDeleteVlan(db, arg).db; p in d.ports && d.ports[p].config.tag == Some(0)
    ensures var d := DoDeleteVlan(db, arg).db;
      DoIntfTag(d, p).Committed? ==>
        var k := DoIntfTag(d, p).db.ports[p].config; Printable(k) && !Typeable(p, Lines(k))
  {
    var d := DoDeleteVlan(db, arg).db;
    assert d.ports[p].config == SweepRow(db.ports[p].config, IsSystem(db, p), Atoi(arg));
    if DoIntfTag(d, p).Committed? {
      TypeableLines(p, DoIntfTag(d, p).db.ports[p].config);
    }
  }
}
