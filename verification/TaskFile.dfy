/**
  Rewriting one row of a tasks.md in place: the row's state is read from its own line, one setter
  changes it, and the line is rebuilt. Only that row changes, only the set fields change, and no row
  changes its id.
*/
module TaskFile {
  import opened Wrappers
  import opened Text
  import opened TaskMarkers
  import opened TaskLine
  import opened TaskRows
  import Base64Url
  import WorkMetadata

  // ------------------------------------------------------------- the rewrite

  /** The state a rewrite starts from: the line's own fields, and the parsed row's where the line has none. */
  function RewriteState(raw: string, target: State): State {
    var (d0, s0) := SplitSource(raw);
    var (d1, m1) := StripMarkers(d0);
    var (desc, doneHere) := SplitDoneWhen(d1);
    match s0
    case None => State(desc, None, Completed(m1, target.fields), target.checked, target.archived,
      Or(doneHere, target.doneWhen))
    case Some(s) =>
      var (s1, m2) := StripMarkers(s);
      var (src, doneThere) := SplitDoneWhen(s1);
      var run := if m2.runAt.Some? then m1.(runAt := m2.runAt) else m1;
      var markers := if m2.agentState.Some? then run.(agentState := m2.agentState, agentNo := m2.agentNo) else run;
      State(desc, Some(src), Completed(markers, target.fields), target.checked, target.archived,
        Or(Or(doneHere, doneThere), target.doneWhen))
  }

  function Completed(markers: Fields, target: Fields): Fields {
    Fields(Or(markers.runAt, target.runAt), Or(markers.agentState, target.agentState),
      Or(markers.agentNo, target.agentNo),
           Or(markers.stage, target.stage))
  }

  /** Stage markers both after the description and after the source, and not the same. */
  predicate StageClash(raw: string) {
    var (d0, s0) := SplitSource(raw);
    s0.Some? && StripMarkers(d0).1.stage.Some? && StripMarkers(s0.value).1.stage.Some?
    && StripMarkers(d0).1.stage != StripMarkers(s0.value).1.stage
  }

  /** A rewrite starts from exactly the state the row was read with, unless two stage markers clash. */
  lemma RewriteStateIsRead(mark: char, raw: string)
    ensures RewriteState(raw, ReadRaw(mark, raw)) == ReadRaw(mark, raw) <==> !StageClash(raw)
  {
    hide SplitSource, StripMarkers, SplitDoneWhen;
    var (d0, s0) := SplitSource(raw);
    assert forall text :: AgentTogether(StripMarkers(text).1) by {
      forall text ensures AgentTogether(StripMarkers(text).1) { NumberNeedsState(text); }
    }
    var m1 := StripMarkers(d0).1;
    assert AgentTogether(m1);
    if s0.Some? { assert AgentTogether(StripMarkers(s0.value).1); }
  }

  /** A number is only read with a state. */
  predicate AgentTogether(f: Fields) { f.agentNo.Some? ==> f.agentState.Some? }

  lemma NumberNeedsState(text: string)
    ensures AgentTogether(StripMarkers(text).1)
  {
    hide FindBlob, Markers, IsBlob;
  }

  /** The line a rewrite leaves, `None` where the setter refuses. */
  function Rewritten(line: string, setter: State -> Option<State>): Option<string> {
    match CheckLine(line)
    case None => None
    case Some((mark, raw)) =>
      match setter(RewriteState(raw, ReadRaw(mark, raw)))
      case None => None
      case Some(s) => Some(RebuildLine(s))
  }

  // ------------------------------------------------------------- setters

  /** A row whose agent is running is not rescheduled. */
  function SetRunAt(runAt: Option<string>): State -> Option<State> {
    (s: State) => if s.fields.agentState == Some("running") then None else Some(s.(fields := s.fields.(runAt := runAt)))
  }

  datatype MarkerArg = Clear | SetRunning | SetFailed | Kind(kind: string, no: Option<nat>)

  function AgentOf(arg: MarkerArg): (Option<string>, Option<nat>) {
    match arg
    case Clear => (None, None)
    case SetRunning => (Some("running"), None)
    case SetFailed => (Some("failed"), None)
    case Kind(kind, no) => (Some(kind), no)
  }

  function SetMarker(arg: MarkerArg): State -> Option<State> {
    (s: State) => Some(s.(fields := s.fields.(agentState := AgentOf(arg).0, agentNo := AgentOf(arg).1)))
  }

  function SetDoneWhen(text: Option<string>): State -> Option<State> {
    (s: State) => Some(s.(doneWhen := text))
  }

  function Check(uncheck: bool): State -> Option<State> {
    (s: State) => Some(s.(checked := !uncheck))
  }

  /** The phase stored in a row's metadata follows its stage. */
  function Restaged(codec: WorkMetadata.Codec, source: Option<string>, stage: Option<string>): Option<Option<string>> {
    var read := WorkMetadata.DecodeSource(codec, source);
    if read.invalid then None
    else if read.metadata == WorkMetadata.NoMetadata then Some(source)
    else
      var phase := WorkMetadata.DefaultPhase(if stage.Some? then stage.value else "planning");
      var written := WorkMetadata.WriteSource(codec, source, read.metadata.(workflowPhase := Some(phase)));
      if written.None? then None else Some(written)
  }

  /** Planning is the unmarked stage, so asking for it asks for no marker. */
  function WantedStage(asked: Option<string>): Option<Option<string>> {
    if asked.None? || asked.value in ["", "--clear", "planning"] then Some(None)
    else if asked.value in STAGES then Some(asked)
    else None
  }

  function SetStage(codec: WorkMetadata.Codec, asked: Option<string>): State -> Option<State> {
    (s: State) =>
      var stage := WantedStage(asked);
      var source := if stage.Some? then Restaged(codec, s.source, stage.value) else None;
      if source.None? then None else Some(s.(source := source.value, fields := s.fields.(stage := stage.value)))
  }

  // ------------------------------------------------------------- quiet lines

  predicate NoToken(s: string) { !Contains(s, "<!--") && !Contains(s, "-->") }

  predicate NoTokens(s: State) {
    NoToken(s.description) && (s.source.Some? ==> NoToken(s.source.value))
    && (s.doneWhen.Some? ==> NoToken(s.doneWhen.value))
  }

  lemma NoAngleNoToken(s: string)
    requires '<' !in s && '>' !in s
    ensures NoToken(s)
  {
    assert "<!--"[0] == '<' && "-->"[2] == '>';
    NotWithout(s, "<!--", '<');
    NotWithout(s, "-->", '>');
  }

  lemma NoTokenAcross(a: string, b: string)
    requires NoToken(a) && NoToken(b)
    ensures NoToken(a + " " + b)
  {
    assert ' ' !in "<!--" && ' ' !in "-->";
    NotAcrossBlank(a, b, "<!--");
    NotAcrossBlank(a, b, "-->");
  }

  lemma LabelledNoToken(a: string, tag: string, value: string)
    requires IsLabel(tag) && NoToken(a) && NoToken(value)
    ensures NoToken(Labelled(a, tag, value))
  {
    hide NoToken;
    var head: string := [DASH, ' '] + tag;
    TagIsPlain(tag);
    NoAngleNoToken(head);
    NoTokenAcross(head, value);
    if a == "" {
      assert Labelled(a, tag, value) == head + " " + value;
    } else {
      NoTokenAcross(a, head + " " + value);
      assert Labelled(a, tag, value) == a + " " + (head + " " + value);
    }
  }

  lemma TagIsPlain(tag: string)
    requires IsLabel(tag)
    ensures '<' !in [DASH, ' '] + tag && '>' !in [DASH, ' '] + tag
  {
    assert '<' !in tag && '>' !in tag;
  }

  lemma {:induction false} JoinHasNoAngle(parts: seq<string>)
    requires AllBodies(parts)
    ensures '<' !in Join(parts) && '>' !in Join(parts)
  {
    hide IsBody;
    if parts != [] {
      BodyHasNoAngle(parts[0]);
      JoinHasNoAngle(parts[1..]);
    }
  }

  lemma BodyHasNoAngle(s: string)
    requires IsBody(s)
    ensures '<' !in s && '>' !in s
  {
    hide IsBody;
    BodyShape(s);
    assert IsOuter('<') && IsOuter('>');
    assert forall i :: 1 <= i < |s| - 1 ==> s[i] == s[1..|s| - 1][i - 1];
  }

  lemma MarkedNoToken(t: string, f: Fields)
    requires NoToken(t) && RunAndStageOk(f)
    ensures NoToken(Marked(t, f))
  {
    hide NoToken, RunAndStageOk, Parts, Join, AllBodies;
    PartsAreBodies(f);
    JoinHasNoAngle(Parts(f));
    NoAngleNoToken(Join(Parts(f)));
    if Parts(f) != [] && t != "" { NoTokenAcross(t, Join(Parts(f))); }
  }

  lemma RebuiltNoToken(s: State)
    requires WellFormed(s) && NoTokens(s)
    ensures NoToken(RebuildLine(s))
  {
    hide NoToken, RunAndStageOk, Contains, Clean, Marked, Labelled, IsTrimmed, EndsInMarker, Printed, RebuildLine;
    var last := if s.source.Some? then s.source.value else s.description;
    if s.doneWhen.Some? { LabelledNoToken(last, DONE_WHEN_LABEL, s.doneWhen.value); }
    MarkedNoToken(Tail(s), s.fields);
    if s.source.Some? { LabelledNoToken(s.description, SOURCE_LABEL, Marked(Tail(s), s.fields)); }
    PrintedIsRaw(s);
    PrintedIs(s);
    BoxNoToken(Mark(s), Raw(s), Printed(s));
  }

  lemma BoxNoToken(mark: char, raw: string, printed: string)
    requires NoToken(raw) && (printed == raw || printed == " " + raw) && mark != '<' && mark != '>'
    ensures NoToken("- [" + [mark] + "] " + printed)
  {
    hide NoToken;
    var box: string := "- [" + [mark] + "]";
    assert '<' !in box && '>' !in box;
    NoAngleNoToken(box);
    NoAngleNoToken("");
    NoTokenAcross("", raw);
    assert "" + " " + raw == " " + raw;
    NoTokenAcross(box, printed);
    assert box + " " + printed == "- [" + [mark] + "] " + printed;
  }

  /** A check-box line outside a comment changes nothing in the scanner. */
  lemma BoxLineIsQuiet(scan: Scan, line: string)
    requires CheckLine(line).Some? && !Skipped(scan, Strip(line))
    ensures Next(scan, line) == scan && ClassifyHeading(Strip(line)).0.None?
  {
    hide Contains, HashCount, HeadingText, Strip, StartsWith, CheckLine, UpperAll, IsInboxHeading, TodayDay;
    BoxStays(line);
    var stripped := Strip(line);
    assert line[..5][0] == line[..3][0] == '-' && line[..5][1] == line[..3][1] == ' ';
    assert stripped[0] == stripped[..5][0] == '-' && stripped[1] == stripped[..5][1] == ' ';
    NotPrefix(stripped, "#", 0);
    NotPrefix(stripped, "---", 1);
    assert HashCount(stripped) == 0 by { NoHash(stripped); }
  }

  lemma NotPrefix(s: string, prefix: string, i: nat)
    requires i < |prefix| && i < |s| && s[i] != prefix[i]
    ensures !StartsWith(s, prefix)
  {
    assert |prefix| <= |s| ==> s[..|prefix|][i] == s[i];
  }

  lemma NoHash(s: string)
    requires s != "" && s[0] != '#'
    ensures HashCount(s) == 0
  {
  }

  lemma BoxStays(line: string)
    requires CheckLine(line).Some?
    ensures |line| >= 5 && |Strip(line)| >= 5 && Strip(line)[..5] == line[..5] && line[..3] == "- ["
  {
    hide IsSpace, LStrip, RStrip, IsBlank;
    assert line[..3][0] == '-' && line[4] == ']';
    BoxIsInk();
    LStripOf(line);
    RStripKeeps(line, 4);
  }

  lemma BoxIsInk()
    ensures !IsSpace('-') && !IsSpace(']')
  {
  }

  lemma RStripKeeps(s: string, i: nat)
    requires i < |s| && !IsSpace(s[i])
    ensures |RStrip(s)| > i && RStrip(s)[..i + 1] == s[..i + 1]
  {
    hide IsSpace, RStrip;
    var kept := RStrip(s);
    forall k | |kept| <= k < |s| ensures IsSpace(s[k]) {
      assert s[|kept|..][k - |kept|] == s[k];
    }
    assert s[..|kept|] == kept;
  }

  lemma StrippedNoToken(line: string)
    requires NoToken(line)
    ensures NoToken(Strip(line))
  {
    hide Strip;
    var left, right := StripParts(line);
    PartOf(left, Strip(line), right, "<!--");
    PartOf(left, Strip(line), right, "-->");
  }

  lemma RebuiltIsQuiet(scan: Scan, s: State)
    requires WellFormed(s) && NoTokens(s) && !scan.inComment
    ensures Next(scan, RebuildLine(s)) == scan && RowState(scan, RebuildLine(s)) == Some(AsRead(s))
  {
    hide Contains, WellFormed, NoTokens, RebuildLine, Strip, AsRead, ClassifyHeading;
    RebuiltNoToken(s);
    StrippedNoToken(RebuildLine(s));
    ReadUndoesRebuild(s);
    BoxLineIsQuiet(scan, RebuildLine(s));
  }

  // ------------------------------------------------------------- one row changes

  /** The row read from line `i` is replaced by one in this state; every other row, and every id, is as before. */
  ghost predicate OnlyRowChanges(lines: seq<string>, after: seq<string>, mine: string -> bool, i: nat, s: State)
    requires i < |lines|
  {
    var was, now := Rows(lines, mine), Rows(after, mine);
    |after| == |lines| && |now| == |was|
    && (forall k :: 0 <= k < |was| ==>
          now[k] == if was[k].lineNumber == i + 1 then RowOf(ScanAt(lines, i + 1), mine, was[k].number, i + 1, s)
            else was[k])
    && (forall norm, hash :: Ids(now, norm, hash) == Ids(was, norm, hash))
  }

  lemma {:induction false} SameScan(lines: seq<string>, after: seq<string>, i: nat, k: nat)
    requires |after| == |lines| && i < |lines| && k <= |lines| && forall n :: 0 <= n < |lines| && n != i ==>
             after[n] == lines[n]
    requires Next(ScanAt(lines, i), after[i]) == Next(ScanAt(lines, i), lines[i])
    ensures ScanAt(after, k) == ScanAt(lines, k)
  {
    hide Next;
    if k > 0 { SameScan(lines, after, i, k - 1); }
  }

  predicate SameBut(was: seq<Row>, now: seq<Row>, lineNumber: nat, row: Row) {
    |now| == |was|
    && forall k :: 0 <= k < |was| ==>
       now[k] == if was[k].lineNumber == lineNumber then row.(number := was[k].number) else was[k]
  }

  lemma RowsStep(lines: seq<string>, mine: string -> bool, k: nat)
    requires 0 < k <= |lines|
    ensures var rows, state := RowsUpTo(lines, mine, k - 1), RowState(ScanAt(lines, k - 1), lines[k - 1]);
            RowsUpTo(lines, mine, k) == if state.Some?
              then rows + [RowOf(ScanAt(lines, k), mine, |rows| + 1, k, state.value)] else rows
  {
    hide RowOf, RowState, ScanAt;
  }

  lemma NoRowsYet(lines: seq<string>, mine: string -> bool)
    ensures RowsUpTo(lines, mine, 0) == []
  {
  }

  lemma RowNumber(scan: Scan, mine: string -> bool, number: nat, lineNumber: nat, s: State)
    ensures RowOf(scan, mine, number, lineNumber, s) == RowOf(scan, mine, 0, lineNumber, s).(number := number)
    ensures RowOf(scan, mine, number, lineNumber, s).lineNumber == lineNumber
    ensures RowOf(scan, mine, number, lineNumber, s).state == s
            && RowOf(scan, mine, number, lineNumber, s).number == number
  {
    hide ParseOwner, Strip, DropAll, Contains;
  }

  lemma {:induction false} SameRows(lines: seq<string>, after: seq<string>, mine: string -> bool,
                                    i: nat, k: nat, s: State)
    requires |after| == |lines| && i < |lines| && k <= |lines| && forall n :: 0 <= n < |lines| && n != i ==>
             after[n] == lines[n]
    requires Next(ScanAt(lines, i), after[i]) == Next(ScanAt(lines, i), lines[i])
    requires RowState(ScanAt(lines, i), lines[i]).Some? && RowState(ScanAt(lines, i), after[i]) == Some(s)
    ensures SameBut(RowsUpTo(lines, mine, k), RowsUpTo(after, mine, k), i + 1,
            RowOf(ScanAt(lines, i + 1), mine, 0, i + 1, s))
    ensures forall n :: 0 <= n < |RowsUpTo(lines, mine, k)| ==> RowsUpTo(lines, mine, k)[n].lineNumber <= k
  {
    hide Next, RowState, ScanAt, RowOf, RowsUpTo;
    if k == 0 {
      NoRowsYet(lines, mine);
      NoRowsYet(after, mine);
    } else {
      SameRows(lines, after, mine, i, k - 1, s);
      SameScan(lines, after, i, k - 1);
      SameScan(lines, after, i, k);
      RowsStep(lines, mine, k);
      RowsStep(after, mine, k);
      var was, now := RowsUpTo(lines, mine, k - 1), RowsUpTo(after, mine, k - 1);
      var state := RowState(ScanAt(lines, k - 1), lines[k - 1]);
      if state.Some? {
        RowNumber(ScanAt(lines, k), mine, |was| + 1, k, state.value);
        RowNumber(ScanAt(lines, k), mine, |was| + 1, k, s);
      }
    }
  }

  /** The words of a row come from the words of its state alone. */
  lemma WordsOfState(scan: Scan, mine: string -> bool, n: nat, m: nat, a: State, b: State)
    requires a.description == b.description
    ensures RowOf(scan, mine, n, m, a).description == RowOf(scan, mine, n, m, b).description
  {
    hide ParseOwner, Strip, DropAll, Contains;
  }

  lemma {:induction false} RowAtLine(lines: seq<string>, mine: string -> bool, k: nat, n: nat)
    requires k <= |lines| && n < |RowsUpTo(lines, mine, k)|
    ensures var row := RowsUpTo(lines, mine, k)[n];
            1 <= row.lineNumber <= k
            && RowState(ScanAt(lines, row.lineNumber - 1), lines[row.lineNumber - 1]) == Some(row.state)
            && row == RowOf(ScanAt(lines, row.lineNumber), mine, row.number, row.lineNumber, row.state)
  {
    hide RowState, Next, ScanAt, RowOf, RowsUpTo;
    if k == 0 { NoRowsYet(lines, mine); }
    RowsStep(lines, mine, k);
    var before := RowsUpTo(lines, mine, k - 1);
    if n < |before| {
      RowAtLine(lines, mine, k - 1, n);
    } else {
      var state := RowState(ScanAt(lines, k - 1), lines[k - 1]).value;
      RowNumber(ScanAt(lines, k), mine, |before| + 1, k, state);
    }
  }

  lemma ChangedRow(lines: seq<string>, mine: string -> bool, i: nat, k: nat, s0: State, s: State)
    requires i < |lines| && RowState(ScanAt(lines, i), lines[i]) == Some(s0) && s.description == s0.description
             && k < |Rows(lines, mine)|
    ensures var row, scan := Rows(lines, mine)[k], ScanAt(lines, i + 1);
            RowOf(scan, mine, 0, i + 1, s).(number := row.number) == RowOf(scan, mine, row.number, i + 1, s)
            && (row.lineNumber == i + 1 ==> RowOf(scan, mine, row.number, i + 1, s).description == row.description)
  {
    hide RowState, ScanAt, RowOf, RowsUpTo;
    var row := Rows(lines, mine)[k];
    RowNumber(ScanAt(lines, i + 1), mine, row.number, i + 1, s);
    RowAtLine(lines, mine, |lines|, k);
    WordsOfState(ScanAt(lines, i + 1), mine, row.number, i + 1, s, s0);
  }

  lemma RowsChange(lines: seq<string>, after: seq<string>, mine: string -> bool, i: nat, s0: State, s: State)
    requires |after| == |lines| && i < |lines| && forall n :: 0 <= n < |lines| && n != i ==> after[n] == lines[n]
    requires Next(ScanAt(lines, i), after[i]) == Next(ScanAt(lines, i), lines[i])
    requires RowState(ScanAt(lines, i), lines[i]) == Some(s0) && RowState(ScanAt(lines, i), after[i]) == Some(s)
    requires s.description == s0.description
    ensures OnlyRowChanges(lines, after, mine, i, s)
  {
    hide RowState, ScanAt, RowOf, RowsUpTo, Next, Ids;
    SameRows(lines, after, mine, i, |lines|, s);
    var was, now := Rows(lines, mine), Rows(after, mine);
    forall k | 0 <= k < |was|
      ensures now[k]
              == (if was[k].lineNumber == i + 1 then RowOf(ScanAt(lines, i + 1), mine, was[k].number, i + 1, s)
              else was[k])
      ensures now[k].description == was[k].description
    {
      ChangedRow(lines, mine, i, k, s0, s);
    }
    forall norm, hash ensures Ids(now, norm, hash) == Ids(was, norm, hash) { SameWordsSameIds(now, was, norm, hash); }
  }

  /** Rewriting a row's line with a well-formed state that keeps its words changes that row only, and no id. */
  lemma RewriteKeepsOthers(lines: seq<string>, mine: string -> bool, i: nat, s0: State, s1: State)
    requires i < |lines| && RowState(ScanAt(lines, i), lines[i]) == Some(s0)
    requires WellFormed(s1) && NoTokens(s1) && s1.description == s0.description
    ensures OnlyRowChanges(lines, lines[i := RebuildLine(s1)], mine, i, AsRead(s1))
  {
    hide WellFormed, NoTokens, RebuildLine, Next, Strip, Contains, RowOf, ScanAt, ReadLine, CheckLine,
      ClassifyHeading, OnlyRowChanges;
    var scan := ScanAt(lines, i);
    RowIsBox(scan, lines[i]);
    BoxLineIsQuiet(scan, lines[i]);
    RebuiltIsQuiet(scan, s1);
    RowsChange(lines, lines[i := RebuildLine(s1)], mine, i, s0, AsRead(s1));
  }

  lemma RowIsBox(scan: Scan, line: string)
    requires RowState(scan, line).Some?
    ensures CheckLine(line).Some? && !Skipped(scan, Strip(line)) && !scan.inComment
            && RowState(scan, line) == ReadLine(line)
  {
    hide Contains, Strip, ClassifyHeading, ReadRaw, CheckLine;
  }

  // ------------------------------------------------------------- the setters

  /** A row the setters can rewrite without touching anything else in it. */
  predicate Settled(line: string, s: State) {
    WellFormed(s) && NoTokens(s) && AgentOk(s.fields.agentState, s.fields.agentNo) && !(s.checked && s.archived)
    && (CheckLine(line).Some? ==> !StageClash(CheckLine(line).value.1))
  }

  ghost predicate RowAt(lines: seq<string>, i: nat, s: State) {
    i < |lines| && RowState(ScanAt(lines, i), lines[i]) == Some(s) && Settled(lines[i], s)
  }

  lemma RewritesFrom(lines: seq<string>, i: nat, s: State, setter: State -> Option<State>)
    requires RowAt(lines, i, s)
    ensures Rewritten(lines[i], setter) == if setter(s).Some? then Some(RebuildLine(setter(s).value)) else None
  {
    hide RebuildLine, RewriteState, ReadRaw, StageClash, Contains, Strip, ClassifyHeading, ScanAt,
      WellFormed, NoTokens, CheckLine;
    RowIsBox(ScanAt(lines, i), lines[i]);
    var (mark, raw) := CheckLine(lines[i]).value;
    RewriteStateIsRead(mark, raw);
  }

  /** A setter that keeps the words and leaves a well-formed state does to the file exactly what it says. */
  lemma SetterFrame(lines: seq<string>, mine: string -> bool, i: nat, s: State, setter: State -> Option<State>)
    requires RowAt(lines, i, s) && setter(s).Some?
    requires var next := setter(s).value; WellFormed(next) && NoTokens(next) && next.description == s.description
    ensures Rewritten(lines[i], setter).Some?
    ensures OnlyRowChanges(lines, lines[i := Rewritten(lines[i], setter).value], mine, i, AsRead(setter(s).value))
  {
    hide RebuildLine, Rewritten, ScanAt, RowState, WellFormed, NoTokens, OnlyRowChanges, Settled, AsRead;
    RewritesFrom(lines, i, s, setter);
    RewriteKeepsOthers(lines, mine, i, s, setter(s).value);
  }

  lemma SetRunAtFrame(lines: seq<string>, mine: string -> bool, i: nat, s: State, runAt: Option<string>)
    requires RowAt(lines, i, s) && (runAt.Some? ==> IsRunAt(runAt.value))
    ensures Rewritten(lines[i], SetRunAt(runAt)).None? <==> s.fields.agentState == Some("running")
    ensures Rewritten(lines[i], SetRunAt(runAt)).Some? ==>
              OnlyRowChanges(lines, lines[i := Rewritten(lines[i], SetRunAt(runAt)).value], mine, i,
                s.(fields := s.fields.(runAt := runAt)))
  {
    hide RebuildLine, Rewritten, ScanAt, RowState, OnlyRowChanges, Clean, Contains, NoToken,
      IsRunAt, StageClash, CheckLine;
    var next := s.(fields := s.fields.(runAt := runAt));
    RewritesFrom(lines, i, s, SetRunAt(runAt));
    AgentSurvivesExactly(next.fields);
    if s.fields.agentState != Some("running") { SetterFrame(lines, mine, i, s, SetRunAt(runAt)); }
  }

  /** The agent's state reads back as the marker can say it: a bare `done` says nothing, `running` drops its number. */
  lemma SetMarkerFrame(lines: seq<string>, mine: string -> bool, i: nat, s: State, arg: MarkerArg)
    requires RowAt(lines, i, s)
    ensures Rewritten(lines[i], SetMarker(arg)).Some?
    ensures var said := NormalAgent(s.fields.(agentState := AgentOf(arg).0, agentNo := AgentOf(arg).1));
            OnlyRowChanges(lines, lines[i := Rewritten(lines[i], SetMarker(arg)).value], mine, i, s.(fields := said))
            && said.runAt == s.fields.runAt && said.stage == s.fields.stage
            && (AgentOk(AgentOf(arg).0, AgentOf(arg).1) <==> (said.agentState, said.agentNo) == AgentOf(arg))
  {
    hide RebuildLine, Rewritten, ScanAt, RowState, OnlyRowChanges, Clean, Contains, NoToken,
      IsRunAt, StageClash, CheckLine;
    SetterFrame(lines, mine, i, s, SetMarker(arg));
  }

  /** The finish lines the writer accepts: one trimmed line without `**` and without a marker. */
  predicate DoneWhenAllowed(text: string) {
    text != "" && IsTrimmed(text) && !Contains(text, "**") && forall a, b :: 0 <= a <= b <= |text| ==>
      !IsBody(text[a..b])
  }

  lemma AllowedIsWell(text: string)
    requires DoneWhenAllowed(text)
    ensures !EndsInMarker(text) && !Contains(text, SOURCE_LABEL)
  {
    hide IsBody;
    forall n | 0 <= n <= |text| ensures !IsBody(text[n..]) { assert text[n..|text|] == text[n..]; }
    forall i | 0 <= i <= |text| ensures !At(text, i, SOURCE_LABEL) {
      if i + 11 <= |text| {
        assert SOURCE_LABEL[..2] == "**";
        assert text[i..i + 11][..2] == text[i..i + 2];
        assert !At(text, i, "**");
      }
    }
  }

  lemma SetDoneWhenFrame(lines: seq<string>, mine: string -> bool, i: nat, s: State, text: Option<string>)
    requires RowAt(lines, i, s) && (text.Some? ==> DoneWhenAllowed(text.value) && NoToken(text.value))
    ensures Rewritten(lines[i], SetDoneWhen(text)).Some?
    ensures OnlyRowChanges(lines, lines[i := Rewritten(lines[i], SetDoneWhen(text)).value], mine,
            i, s.(doneWhen := text))
  {
    hide RebuildLine, Rewritten, ScanAt, RowState, OnlyRowChanges, Clean, Contains, NoToken, RunAndStageOk, StageClash,
      CheckLine, EndsInMarker, IsTrimmed;
    if text.Some? { AllowedIsWell(text.value); }
    AgentSurvivesExactly(s.fields);
    SetterFrame(lines, mine, i, s, SetDoneWhen(text));
  }

  /** Checking an open row checks it; an archived row stays as it was, whatever is asked. */
  lemma CheckFrame(lines: seq<string>, mine: string -> bool, i: nat, s: State, uncheck: bool)
    requires RowAt(lines, i, s)
    ensures Rewritten(lines[i], Check(uncheck)).Some?
    ensures OnlyRowChanges(lines, lines[i := Rewritten(lines[i], Check(uncheck)).value], mine, i,
            s.(checked := !uncheck && !s.archived))
  {
    hide RebuildLine, Rewritten, ScanAt, RowState, OnlyRowChanges, Clean, Contains, NoToken,
      RunAndStageOk, StageClash, CheckLine;
    AgentSurvivesExactly(s.fields);
    SetterFrame(lines, mine, i, s, Check(uncheck));
  }

  // ------------------------------------------------------------- stages

  /** What a source says besides its metadata can be printed: without the link it is clean. */
  predicate CleanRest(codec: WorkMetadata.Codec, source: Option<string>) {
    var read := WorkMetadata.DecodeSource(codec, source);
    read.metadata != WorkMetadata.NoMetadata && read.source.Some? ==>
      Clean(read.source.value) && NoToken(read.source.value)
  }

  lemma LinkIsClean(codec: WorkMetadata.Codec, m: WorkMetadata.Metadata)
    ensures var link := WorkMetadata.LinkOf(codec, m);
            |link| > 2 && link[0] == '[' && link[|link| - 1] == ')' && '*' !in link && '<' !in link
            && '>' !in link && DASH !in link
  {
    hide Base64Url.Encode, Base64Url.IsDigit;
    var token := Base64Url.Encode(codec.encode(m));
    Base64Url.EncodeDigits(codec.encode(m));
    DigitsAreClean(token);
    HeadIsClean();
  }

  lemma DigitsAreClean(token: string)
    requires Base64Url.AllDigits(token)
    ensures '*' !in token && '<' !in token && '>' !in token && DASH !in token
  {
  }

  lemma HeadIsClean()
    ensures var head := WorkMetadata.LINK_HEAD;
            '*' !in head && '<' !in head && '>' !in head && DASH !in head && head[0] == '[' && |head| == 29
  {
    var head := WorkMetadata.LINK_HEAD;
    assert head == "[Work details]" + "(cos-work://v1/";
    HeadFront();
    HeadBack();
  }

  lemma HeadFront()
    ensures var a := "[Work details]"; '*' !in a && '<' !in a && '>' !in a && DASH !in a
  {
  }

  lemma HeadBack()
    ensures var a := "(cos-work://v1/"; '*' !in a && '<' !in a && '>' !in a && DASH !in a
  {
  }

  /** A clean source stays clean when the link is written after it. */
  lemma LinkedIsClean(clean: string, link: string)
    requires Clean(clean) && NoToken(clean)
    requires |link| > 2 && link[0] == '[' && link[|link| - 1] == ')' && '*' !in link && '<' !in link
             && '>' !in link && DASH !in link
    ensures var s := (if clean == "" then "" else clean + " ") + link; s != "" && Clean(s) && NoToken(s)
  {
    hide NoToken, IsBody;
    NoAngleNoToken(link);
    assert "" + link == link;
    BracketIsInk();
    assert !IsSpace(')');
    assert DONE_WHEN_LABEL[0] == '*' && DONE_WHEN_LABEL[|DONE_WHEN_LABEL| - 1] == '*';
    NotWithout(link, DONE_WHEN_LABEL, '*');
    var s := (if clean == "" then "" else clean + " ") + link;
    forall n | 0 <= n <= |s| ensures !IsBody(s[n..]) { EndsRound(s, n); }
    if clean != "" {
      NoTokenAcross(clean, link);
      forall i | 0 <= i <= |s| ensures !At(s, i, DONE_WHEN_LABEL) { NoLabelInto(clean, link, i); }
    }
  }

  lemma EndsRound(s: string, n: nat)
    requires s != "" && s[|s| - 1] == ')' && n <= |s|
    ensures !IsBody(s[n..])
  {
    if IsBody(s[n..]) {
      BodyShape(s[n..]);
      assert false;
    }
  }

  lemma NoLabelInto(clean: string, link: string, i: nat)
    requires !Contains(clean, DONE_WHEN_LABEL) && '*' !in link
    ensures !At(clean + " " + link, i, DONE_WHEN_LABEL)
  {
    var s := clean + " " + link;
    assert |DONE_WHEN_LABEL| == 14 && DONE_WHEN_LABEL[13] == '*';
    if i + 14 <= |clean| {
      assert s[i..i + 14] == clean[i..i + 14];
      assert !At(clean, i, DONE_WHEN_LABEL);
    } else if i + 14 <= |s| {
      assert s[i..i + 14][13] == s[i + 13];
      assert i + 13 > |clean| ==> s[i + 13] == link[i + 12 - |clean|];
    }
  }

  /** The metadata a stage leaves: only the phase is the stage's. */
  function Phased(m: WorkMetadata.Metadata, stage: Option<string>): WorkMetadata.Metadata {
    m.(workflowPhase := Some(WorkMetadata.DefaultPhase(if stage.Some? then stage.value else "planning")))
  }

  /** What a source says besides its metadata does not mention the protocol, however the link is taken out. */
  predicate QuietRest(codec: WorkMetadata.Codec, source: Option<string>) {
    var read := WorkMetadata.DecodeSource(codec, source);
    read.source.Some? ==> !WorkMetadata.Mentions(read.source.value)
  }

  /**
    Restaging is refused exactly for metadata that does not read back or would grow too large. It leaves a source
    without metadata alone; in any other it keeps the words and stores the stage's phase and nothing else.
  */
  lemma RestagedKeepsWords(codec: WorkMetadata.Codec, source: Option<string>, stage: Option<string>)
    requires WorkMetadata.RoundTrips(codec)
    ensures var read, restaged := WorkMetadata.DecodeSource(codec, source), Restaged(codec, source, stage);
            (restaged.None? <==>
              read.invalid || (read.metadata != WorkMetadata.NoMetadata
              && |codec.encode(Phased(read.metadata, stage))| > WorkMetadata.MAX_BYTES))
            && (restaged.Some? && read.metadata == WorkMetadata.NoMetadata ==> restaged.value == source)
            && (restaged.Some? && read.metadata != WorkMetadata.NoMetadata ==>
                  (WorkMetadata.DecodeSource(codec, restaged.value)
                    == WorkMetadata.Decoded(read.source, Phased(read.metadata, stage), false)
                   <==> QuietRest(codec, source)))
  {
    hide WorkMetadata.Mentions, WorkMetadata.Valid, WorkMetadata.DecodeSource, WorkMetadata.TokenData,
      WorkMetadata.DefaultPhase;
    var read := WorkMetadata.DecodeSource(codec, source);
    if !read.invalid && read.metadata != WorkMetadata.NoMetadata {
      var next := Phased(read.metadata, stage);
      WorkMetadata.InvalidIsPreserved(codec, source);
      assert WorkMetadata.Valid(next) by { PhasedIsValid(read.metadata, stage); }
      if |codec.encode(next)| <= WorkMetadata.MAX_BYTES { WorkMetadata.RewrittenReadsBackExactly(codec, source, next); }
    }
  }

  lemma PhasedIsValid(m: WorkMetadata.Metadata, stage: Option<string>)
    requires WorkMetadata.Valid(m)
    ensures WorkMetadata.Valid(Phased(m, stage))
  {
    hide WorkMetadata.ValidMeeting, WorkMetadata.IsWorkIdentity;
    assert Phased(m, stage).workflowPhase.value in WorkMetadata.PHASES;
  }

  lemma RestagedIsWell(codec: WorkMetadata.Codec, source: Option<string>, stage: Option<string>)
    requires CleanRest(codec, source)
             && (source.Some? ==> source.value != "" && Clean(source.value) && NoToken(source.value))
    ensures var restaged := Restaged(codec, source, stage);
            restaged.Some? && restaged.value.Some? ==>
              restaged.value.value != "" && Clean(restaged.value.value) && NoToken(restaged.value.value)
    ensures Restaged(codec, source, stage) == Some(None) ==> source == None
  {
    hide WorkMetadata.Mentions, Clean, NoToken, WorkMetadata.DecodeSource, WorkMetadata.LinkOf, WorkMetadata.Valid,
      WorkMetadata.DefaultPhase;
    var read := WorkMetadata.DecodeSource(codec, source);
    if read.metadata != WorkMetadata.NoMetadata {
      var link := WorkMetadata.LinkOf(codec, Phased(read.metadata, stage));
      LinkIsClean(codec, Phased(read.metadata, stage));
      var clean := WorkMetadata.OrElse(read.source);
      assert Clean("") && NoToken("") by { EmptyIsClean(); }
      LinkedIsClean(clean, link);
      assert "" + link == link;
    }
  }

  lemma EmptyIsClean()
    ensures Clean("") && NoToken("")
  {
    hide BodyOf;
    NoAngleNoToken("");
    TooShort("", DONE_WHEN_LABEL);
    assert !IsBody("") by { EmptyIsNoBody(); }
    assert ""[0..] == "";
  }

  lemma EmptyIsNoBody()
    ensures !IsBody("")
  {
  }

  /**
    Setting a row's stage changes its stage marker and the phase stored in its metadata, if it has any; its words,
    ids and every other field stay. It refuses an unknown stage, metadata that does not read back and metadata that
    would grow too large, and nothing else.
  */
  lemma SetStageFrame(codec: WorkMetadata.Codec, lines: seq<string>, mine: string -> bool, i: nat,
                      s: State, asked: Option<string>)
    requires WorkMetadata.RoundTrips(codec) && RowAt(lines, i, s) && CleanRest(codec, s.source)
    ensures var read, after := WorkMetadata.DecodeSource(codec, s.source), Rewritten(lines[i], SetStage(codec, asked));
            (after.None? <==>
               WantedStage(asked).None? || read.invalid
               || (read.metadata != WorkMetadata.NoMetadata
               && |codec.encode(Phased(read.metadata, WantedStage(asked).value))| > WorkMetadata.MAX_BYTES))
            && (after.Some? ==>
                  var stage := WantedStage(asked).value;
                  var source := Restaged(codec, s.source, stage).value;
                  OnlyRowChanges(lines, lines[i := after.value], mine, i,
                    s.(source := source, fields := s.fields.(stage := stage)))
                  && (read.metadata == WorkMetadata.NoMetadata ==> source == s.source)
                  && (read.metadata != WorkMetadata.NoMetadata ==>
                        (WorkMetadata.DecodeSource(codec, source)
                          == WorkMetadata.Decoded(read.source, Phased(read.metadata, stage), false)
                         <==> QuietRest(codec, s.source))))
  {
    hide RebuildLine, Rewritten, ScanAt, RowState, OnlyRowChanges, Clean, Contains, NoToken, IsRunAt, StageClash,
      CheckLine, CleanRest, QuietRest,
      Restaged, WorkMetadata.DefaultPhase, WorkMetadata.RoundTrips, WorkMetadata.DecodeSource;
    RewritesFrom(lines, i, s, SetStage(codec, asked));
    if WantedStage(asked).Some? {
      var stage := WantedStage(asked).value;
      RestagedKeepsWords(codec, s.source, stage);
      var source := Restaged(codec, s.source, stage);
      if source.Some? {
        RestagedIsWell(codec, s.source, stage);
        AgentSurvivesExactly(s.fields.(stage := stage));
        assert WellFormed(s.(source := source.value, fields := s.fields.(stage := stage)));
        SetterFrame(lines, mine, i, s, SetStage(codec, asked));
      }
    }
  }

  /**
    Why markers are refused in words: they print as the row's own, so the row reads back in another state
    without them.
  */
  lemma MarkerInWordsIsTaken(words: string, checked: bool, archived: bool)
    requires words != "" && Clean(words) && !Contains(words, SOURCE_LABEL) && !(checked && archived)
    ensures var typed := State(words + " [agent failed]", None, NoFields, checked, archived, None);
            ReadLine(RebuildLine(typed))
              == Some(State(words, None, NoFields.(agentState := Some("failed")), checked, archived, None))
  {
    hide Clean, Contains, ReadLine, IsBody;
    var typed := State(words + " [agent failed]", None, NoFields, checked, archived, None);
    var failed := State(words, None, NoFields.(agentState := Some("failed")), checked, archived, None);
    assert typed.description + "" + "" == typed.description && words + "" + "" == words;
    assert Parts(failed.fields) == ["[agent failed]"] && Parts(typed.fields) == [];
    assert BodyText(failed) + " " + Join(Parts(failed.fields)) == BodyText(typed) by {
      assert words + " " + "[agent failed]" == words + " [agent failed]";
    }
    assert RebuildLine(typed) == RebuildLine(failed);
    StateSurvivesExactly(failed);
  }
}
