/**
  One line of a tasks.md: the printer that rebuilds it from a task's state, and the parser that reads
  the state back.
*/
module TaskLine {
  import opened Wrappers
  import opened Text
  import opened TaskMarkers

  const DASH: char := '\U{2014}'
  const SOURCE_LABEL := "**Source:**"
  const DONE_WHEN_LABEL := "**Done when:**"

  datatype State = State(
    description: string, source: Option<string>, fields: Fields, checked: bool, archived: bool,
      doneWhen: Option<string>)

  // ------------------------------------------------------------- printing

  function Mark(s: State): char { if s.archived then '~' else if s.checked then 'x' else ' ' }

  function Segment(tag: string, value: Option<string>): string {
    if value.Some? && value.value != "" then [' ', DASH, ' '] + tag + " " + value.value else ""
  }

  function BodyText(s: State): string
  {
    s.description + Segment(SOURCE_LABEL, s.source) + Segment(DONE_WHEN_LABEL, s.doneWhen)
  }

  function RebuildLine(s: State): string {
    "- [" + [Mark(s)] + "] " + (if Parts(s.fields) == [] then BodyText(s)
      else BodyText(s) + " " + Join(Parts(s.fields)))
  }

  // ------------------------------------------------------------- reading

  function DropDashes(s: string): string
  {
    if s != "" && s[|s| - 1] == DASH then DropDashes(s[..|s| - 1]) else s
  }

  /** What stands before a label, without the dash that set it off. */
  function PeelLeft(left: string): string { Strip(DropDashes(Strip(left))) }

  function SplitSource(line: string): (string, Option<string>) {
    match IndexOf(line, SOURCE_LABEL, 0)
    case None => (Strip(line), None)
    case Some(i) => (PeelLeft(line[..i]), Some(Strip(line[i + |SOURCE_LABEL|..])))
  }

  function SplitDoneWhen(text: string): (string, Option<string>) {
    match IndexOf(text, DONE_WHEN_LABEL, 0)
    case None => (text, None)
    case Some(i) =>
      var right := Strip(text[i + |DONE_WHEN_LABEL|..]);
      (PeelLeft(text[..i]), if right == "" then None else Some(right))
  }

  /** `- [`, a mark, `]`: the mark, and the rest without leading blanks. */
  function CheckLine(line: string): Option<(char, string)> {
    if |line| >= 5 && line[..3] == "- [" && line[3] in [' ', 'x', 'X', '~'] && line[4] == ']'
      then Some((line[3], LStrip(line[5..])))
    else None
  }

  function Or<T>(a: Option<T>, b: Option<T>): Option<T> { if a.Some? then a else b }

  /** Markers after the source win over markers after the description. */
  function Merge(primary: Fields, secondary: Fields): Fields {
    Fields(Or(secondary.runAt, primary.runAt), Or(secondary.agentState, primary.agentState),
           Or(secondary.agentNo, primary.agentNo), Or(secondary.stage, primary.stage))
  }

  function ReadRaw(mark: char, raw: string): State {
    var (d0, s0) := SplitSource(raw);
    var (d1, m1) := StripMarkers(d0);
    var (d2, doneHere) := SplitDoneWhen(d1);
    match s0
    case None => State(d2, None, m1, mark == 'x' || mark == 'X', mark == '~', doneHere)
    case Some(s) =>
      var (s1, m2) := StripMarkers(s);
      var (s2, doneThere) := SplitDoneWhen(s1);
      State(d2, Some(s2), Merge(m1, m2), mark == 'x' || mark == 'X', mark == '~', Or(doneHere, doneThere))
  }

  function ReadLine(line: string): Option<State> {
    match CheckLine(line)
    case None => None
    case Some((mark, raw)) => Some(ReadRaw(mark, raw))
  }

  // ------------------------------------------------------------- well-formed fields

  /**
    Text the writer accepts for a description or a source: trimmed, no marker or dash at its end, no finish-line
    label.
  */
  predicate Clean(t: string) {
    IsTrimmed(t) && (t != "" ==> t[|t| - 1] != DASH) && !EndsInMarker(t) && !Contains(t, DONE_WHEN_LABEL)
  }

  predicate WellFormed(s: State) {
    Clean(s.description) && !Contains(s.description, SOURCE_LABEL)
    && (s.source.Some? ==> s.source.value != "" && Clean(s.source.value))
    && (s.doneWhen.Some? ==>
          s.doneWhen.value != "" && IsTrimmed(s.doneWhen.value) && !EndsInMarker(s.doneWhen.value)
          && (s.source.None? ==> !Contains(s.doneWhen.value, SOURCE_LABEL)))
    && RunAndStageOk(s.fields)
  }

  // ------------------------------------------------------------- one segment

  predicate IsLabel(tag: string) { tag == SOURCE_LABEL || tag == DONE_WHEN_LABEL }

  /** The text before a segment's dash: nothing, or words and a blank. */
  function Lead(a: string): string { if a == "" then "" else a + " " }

  /** Words, a dash, a label and its value, without leading blanks. */
  function Labelled(a: string, tag: string, value: string): string { Lead(a) + [DASH, ' '] + tag + " " + value }

  lemma LabelShape(tag: string)
    requires IsLabel(tag)
    ensures |tag| > 2 && tag[0] == '*' && tag[|tag| - 1] == '*' && DASH !in tag
  {
  }

  /** A label that stands nowhere in the words stands first right after the dash. */
  lemma FirstLabel(a: string, tag: string, value: string)
    requires IsLabel(tag) && !Contains(a, tag)
    ensures IndexOf(Labelled(a, tag, value), tag, 0) == Some(|Lead(a)| + 2)
  {
    hide IsLabel;
    LabelShape(tag);
    var h, s := Lead(a), Labelled(a, tag, value);
    var at := |h| + 2;
    assert s == h + [DASH, ' '] + (tag + (" " + value));
    assert s[at..at + |tag|] == tag;
    forall i | 0 <= i < at ensures !At(s, i, tag) {
      var n := i + |tag|;
      if n <= |a| {
        assert s[i..n] == a[i..n];
        assert !At(a, i, tag);
      } else if n <= |s| && n == |a| + 1 && a != "" {
        assert s[i..n][|tag| - 1] == s[|a|] == ' ';
      } else if n <= |s| && i <= |h| {
        assert s[i..n][|h| - i] == DASH;
      } else if n <= |s| {
        assert s[i..n][0] == ' ';
      }
    }
    FirstAt(s, tag, 0, at);
  }

  lemma {:induction false} DropsDash(s: string)
    requires s == "" || s[|s| - 1] != DASH
    ensures DropDashes(s) == s && DropDashes(s + [DASH]) == s
  {
    assert (s + [DASH])[..|s|] == s;
  }

  /** The words before a dash come back as they were. */
  lemma PeelsLead(a: string)
    requires IsTrimmed(a) && (a != "" ==> a[|a| - 1] != DASH)
    ensures PeelLeft(Lead(a) + [DASH, ' ']) == a
  {
    hide IsTrimmed, Strip;
    var h := Lead(a);
    DashIsInk();
    var dashed := h + [DASH];
    assert IsTrimmed(dashed) by { LeadTrimmed(a); }
    StripIs("", dashed, " ");
    assert "" + dashed + " " == h + [DASH, ' '];
    DropsDash(h);
    if a == "" {
      assert Strip("") == "" by { EmptyStrip(); }
    } else {
      StripIs("", a, " ");
      assert "" + a + " " == h;
    }
  }

  lemma EmptyStrip()
    ensures Strip("") == ""
  {
  }

  lemma DashIsInk()
    ensures !IsSpace(DASH) && IsSpace(' ') && IsBlank(" ") && IsBlank("")
  {
  }

  lemma LeadTrimmed(a: string)
    requires IsTrimmed(a)
    ensures IsTrimmed(Lead(a) + [DASH])
  {
    DashIsInk();
  }

  lemma LabelledIsTrimmed(a: string, tag: string, value: string)
    requires IsTrimmed(a) && IsTrimmed(value) && value != "" && IsLabel(tag)
    ensures IsTrimmed(Labelled(a, tag, value))
  {
    DashIsInk();
    var s := Labelled(a, tag, value);
    assert s[|s| - 1] == value[|value| - 1];
    if a != "" { assert s[0] == a[0]; } else { assert s[0] == DASH; }
  }

  /** A value set off by a label is taken off as it was put on. */
  lemma SegmentReadsBack(a: string, tag: string, value: string)
    requires IsLabel(tag) && !Contains(a, tag) && IsTrimmed(a) && (a != "" ==> a[|a| - 1] != DASH)
    ensures var s := Labelled(a, tag, value);
            IndexOf(s, tag, 0) == Some(|Lead(a)| + 2) && PeelLeft(s[..|Lead(a)| + 2]) == a
            && s[|Lead(a)| + 2 + |tag|..] == " " + value
  {
    hide PeelLeft, IndexOf, IsLabel, IsTrimmed, Contains, Lead;
    FirstLabel(a, tag, value);
    PeelsLead(a);
    Around(Lead(a) + [DASH, ' '], tag, " " + value);
    assert Labelled(a, tag, value) == Lead(a) + [DASH, ' '] + tag + (" " + value);
  }

  lemma Around(a: string, b: string, c: string)
    ensures (a + b + c)[..|a|] == a && (a + b + c)[|a| + |b|..] == c
  {
  }

  lemma LabelledEndsAsValue(a: string, tag: string, value: string)
    requires IsLabel(tag) && value != "" && !EndsInMarker(value)
    ensures !EndsInMarker(Labelled(a, tag, value))
  {
    LabelShape(tag);
    hide IsBody, IsLabel;
    var s := Labelled(a, tag, value);
    var n := |s| - |value|;
    forall k | 0 <= k <= |s| ensures !IsBody(s[k..]) {
      if k >= n {
        assert s[k..] == value[k - n..];
      } else if k == n - 1 {
        assert s[k..][0] == ' ';
        NotABody(s[k..], 0);
      } else {
        assert s[n - 2] == tag[|tag| - 1] == '*';
        assert s[k..][n - 2 - k] == '*';
        NotABody(s[k..], n - 2 - k);
      }
    }
  }

  lemma NotABody(s: string, i: nat)
    requires i < |s| && ((i == 0 && s[0] != '[') || s[i] == '*')
    ensures !IsBody(s)
  {
    if IsBody(s) {
      BodyChars(s);
      assert false;
    }
  }

  lemma BodyChars(s: string)
    requires IsBody(s)
    ensures |s| >= 2 && s[0] == '[' && '*' !in s
  {
    BodyShape(s);
    assert IsOuter('*');
    assert forall i :: 1 <= i < |s| - 1 ==> s[i] == s[1..|s| - 1][i - 1];
  }

  // ------------------------------------------------------------- the line as the reader sees it

  /** The last text of the line, before its markers. */
  function Tail(s: State): string {
    var last := if s.source.Some? then s.source.value else s.description;
    if s.doneWhen.Some? then Labelled(last, DONE_WHEN_LABEL, s.doneWhen.value) else last
  }

  /** What follows the check box, without leading blanks. */
  function Raw(s: State): string {
    if s.source.Some? then Labelled(s.description, SOURCE_LABEL, Marked(Tail(s), s.fields))
      else Marked(Tail(s), s.fields)
  }

  lemma TailIsClean(s: State)
    requires WellFormed(s)
    ensures IsTrimmed(Tail(s)) && !EndsInMarker(Tail(s)) && (s.source.Some? ==> Tail(s) != "")
  {
    hide EndsInMarker, RunAndStageOk, Contains, IsTrimmed;
    if s.doneWhen.Some? {
      var last := if s.source.Some? then s.source.value else s.description;
      LabelledIsTrimmed(last, DONE_WHEN_LABEL, s.doneWhen.value);
      LabelledEndsAsValue(last, DONE_WHEN_LABEL, s.doneWhen.value);
    }
  }

  lemma RawIsTrimmed(s: State)
    requires WellFormed(s)
    ensures IsTrimmed(Raw(s))
  {
    hide EndsInMarker, RunAndStageOk, Contains, Tail, IsTrimmed;
    TailIsClean(s);
    MarkedIsTrimmed(Tail(s), s.fields);
    if s.source.Some? {
      MarkedNotEmpty(Tail(s), s.fields);
      LabelledIsTrimmed(s.description, SOURCE_LABEL, Marked(Tail(s), s.fields));
    }
  }

  lemma MarkedNotEmpty(t: string, f: Fields)
    requires t != ""
    ensures Marked(t, f) != ""
  {
  }

  function Printed(s: State): string {
    if Parts(s.fields) == [] then BodyText(s) else BodyText(s) + " " + Join(Parts(s.fields))
  }

  lemma LabelledIs(a: string, tag: string, value: string)
    requires value != ""
    ensures a + Segment(tag, Some(value)) == (if a == "" then " " else "") + Labelled(a, tag, value)
  {
  }

  lemma MarkedOnto(front: string, t: string, f: Fields)
    requires t != ""
    ensures front + Marked(t, f) == if Parts(f) == [] then front + t else front + t + " " + Join(Parts(f))
  {
    hide Parts, Join;
    if Parts(f) != [] { assert front + (t + " " + Join(Parts(f))) == front + t + " " + Join(Parts(f)); }
  }

  lemma LabelledJoin(a: string, tag: string, value: string, more: string)
    ensures Labelled(a, tag, value + more) == Labelled(a, tag, value) + more
  {
    var front := Lead(a) + [DASH, ' '] + tag + " ";
    assert front + (value + more) == front + value + more;
  }

  /** The printed body is the raw text, after a blank when there is no description. */
  lemma PrintedIsRaw(s: State)
    requires WellFormed(s)
    ensures Printed(s) == Raw(s) || Printed(s) == " " + Raw(s)
  {
    hide EndsInMarker, RunAndStageOk, Contains, Parts, Join, IsTrimmed, Labelled, Segment;
    if s.source.Some? {
      SourceIsRaw(s);
    } else {
      PlainIsRaw(s);
    }
  }

  lemma SourceIsRaw(s: State)
    requires WellFormed(s) && s.source.Some?
    ensures Printed(s) == Raw(s) || Printed(s) == " " + Raw(s)
  {
    hide EndsInMarker, RunAndStageOk, Contains, Parts, Join, IsTrimmed, Labelled, Clean;
    var src, f := s.source.value, s.fields;
    var pad := if s.description == "" then " " else "";
    LabelledIs(s.description, SOURCE_LABEL, src);
    var front := pad + Labelled(s.description, SOURCE_LABEL, src);
    var done := Segment(DONE_WHEN_LABEL, s.doneWhen);
    assert Tail(s) == src + done by {
      if s.doneWhen.Some? { LabelledIs(src, DONE_WHEN_LABEL, s.doneWhen.value); } else { assert src + "" == src; }
    }
    LabelledJoin(s.description, SOURCE_LABEL, src, done);
    assert BodyText(s) == pad + Labelled(s.description, SOURCE_LABEL, Tail(s));
    if Parts(f) != [] {
      LabelledJoin(s.description, SOURCE_LABEL, Tail(s), " " + Join(Parts(f)));
      assert Tail(s) + (" " + Join(Parts(f))) == Marked(Tail(s), f) by {
        assert Tail(s) + (" " + Join(Parts(f))) == Tail(s) + " " + Join(Parts(f));
      }
      assert BodyText(s) + " " + Join(Parts(f)) == BodyText(s) + (" " + Join(Parts(f)));
    }
    assert Printed(s) == pad + Raw(s);
  }

  lemma PlainIsRaw(s: State)
    requires WellFormed(s) && s.source.None?
    ensures Printed(s) == Raw(s) || Printed(s) == " " + Raw(s)
  {
    hide EndsInMarker, RunAndStageOk, Contains, Parts, Join, IsTrimmed, Labelled, WellFormed;
    var f := s.fields;
    assert s.description + "" == s.description;
    if s.doneWhen.Some? {
      assert s.doneWhen.value != "" by { DoneWhenIsText(s); }
      LabelledIs(s.description, DONE_WHEN_LABEL, s.doneWhen.value);
      var t := Labelled(s.description, DONE_WHEN_LABEL, s.doneWhen.value);
      assert t != "" by { LabelledNotEmpty(s.description, DONE_WHEN_LABEL, s.doneWhen.value); }
      MarkedOnto(if s.description == "" then " " else "", t, f);
      MarkedOnto("", t, f);
    } else if s.description != "" {
      MarkedOnto("", s.description, f);
    } else if Parts(f) != [] {
      assert "" + " " + Join(Parts(f)) == " " + Join(Parts(f));
    }
  }

  lemma DoneWhenIsText(s: State)
    requires WellFormed(s) && s.doneWhen.Some?
    ensures s.doneWhen.value != ""
  {
  }

  lemma LabelledNotEmpty(a: string, tag: string, value: string)
    ensures Labelled(a, tag, value) != ""
  {
  }

  lemma ChecksLine(s: State)
    requires WellFormed(s)
    ensures CheckLine(RebuildLine(s)) == Some((Mark(s), Raw(s)))
  {
    hide WellFormed, Raw, Printed, IsTrimmed, RebuildLine, CheckLine;
    PrintedIsRaw(s);
    RawIsTrimmed(s);
    PrintedIs(s);
    TrimmedStarts(Raw(s));
    BoxReadsBack(Mark(s), Printed(s), Raw(s));
  }

  lemma BoxReadsBack(mark: char, printed: string, raw: string)
    requires mark in [' ', 'x', 'X', '~'] && (printed == raw || printed == " " + raw) && (raw == "" || !IsSpace(raw[0]))
    ensures CheckLine("- [" + [mark] + "] " + printed) == Some((mark, raw))
  {
    hide IsSpace, LStrip;
    var line := "- [" + [mark] + "] " + printed;
    assert line[..3] == "- [" && line[3] == mark && line[4] == ']';
    assert line[5..] == " " + printed;
    DashIsInk();
    BlankJoin(" ", " ");
    LStripTrimmed(" ", raw);
    LStripTrimmed(" " + " ", raw);
    assert " " + (" " + raw) == " " + " " + raw;
  }

  lemma PrintedIs(s: State)
    ensures RebuildLine(s) == "- [" + [Mark(s)] + "] " + Printed(s)
  {
    hide BodyText, Parts, Join;
  }

  lemma TrimmedStarts(t: string)
    requires IsTrimmed(t)
    ensures t == "" || !IsSpace(t[0])
  {
  }

  // ------------------------------------------------------------- the round trip

  lemma DoneWhenReadsBack(a: string, done: string)
    requires Clean(a) && done != "" && IsTrimmed(done)
    ensures SplitDoneWhen(Labelled(a, DONE_WHEN_LABEL, done)) == (a, Some(done))
  {
    hide PeelLeft, IndexOf, IsTrimmed, Contains, Strip, Labelled, EndsInMarker;
    SegmentReadsBack(a, DONE_WHEN_LABEL, done);
    DashIsInk();
    StripIs(" ", done, "");
    assert " " + done + "" == " " + done;
  }

  lemma SourceReadsBack(a: string, rest: string)
    requires Clean(a) && !Contains(a, SOURCE_LABEL) && IsTrimmed(rest)
    ensures SplitSource(Labelled(a, SOURCE_LABEL, rest)) == (a, Some(rest))
  {
    hide PeelLeft, IndexOf, IsTrimmed, Contains, Strip, Labelled, EndsInMarker;
    SegmentReadsBack(a, SOURCE_LABEL, rest);
    DashIsInk();
    StripIs(" ", rest, "");
    assert " " + rest + "" == " " + rest;
  }

  lemma NoDoneWhen(t: string)
    requires !Contains(t, DONE_WHEN_LABEL)
    ensures SplitDoneWhen(t) == (t, None)
  {
    NotContained(t, DONE_WHEN_LABEL);
  }

  lemma NoSource(t: string)
    requires !Contains(t, SOURCE_LABEL) && IsTrimmed(t)
    ensures SplitSource(t) == (t, None)
  {
    NotContained(t, SOURCE_LABEL);
    TrimmedStays(t);
  }

  lemma TailReadsBack(s: State)
    requires WellFormed(s)
    ensures SplitDoneWhen(Tail(s)) == (if s.source.Some? then s.source.value else s.description, s.doneWhen)
  {
    hide SplitDoneWhen, EndsInMarker, Contains, IsTrimmed, RunAndStageOk, Labelled;
    var last := if s.source.Some? then s.source.value else s.description;
    if s.doneWhen.Some? {
      DoneWhenReadsBack(last, s.doneWhen.value);
    } else {
      NoDoneWhen(last);
    }
  }

  lemma {:induction false} JoinHasNoStar(parts: seq<string>)
    requires AllBodies(parts)
    ensures '*' !in Join(parts)
  {
    hide IsBody;
    if parts != [] {
      BodyChars(parts[0]);
      JoinHasNoStar(parts[1..]);
    }
  }

  lemma MarkedHasNoSource(t: string, f: Fields)
    requires !Contains(t, SOURCE_LABEL) && RunAndStageOk(f)
    ensures !Contains(Marked(t, f), SOURCE_LABEL)
  {
    hide Contains, RunAndStageOk, Parts, Join, AllBodies;
    PartsAreBodies(f);
    JoinHasNoStar(Parts(f));
    SourceWord();
    NotWithout(Join(Parts(f)), SOURCE_LABEL, '*');
    if Parts(f) != [] && t != "" { NotAcrossBlank(t, Join(Parts(f)), SOURCE_LABEL); }
  }

  lemma SourceWord()
    ensures ' ' !in SOURCE_LABEL && '*' in SOURCE_LABEL && |SOURCE_LABEL| == 11
  {
    assert SOURCE_LABEL[0] == '*';
  }

  lemma TailHasNoSource(s: State)
    requires WellFormed(s) && s.source.None?
    ensures !Contains(Tail(s), SOURCE_LABEL)
  {
    if s.doneWhen.Some? { LabelledHasNoSource(s.description, s.doneWhen.value); }
  }

  lemma LabelledHasNoSource(a: string, done: string)
    requires !Contains(a, SOURCE_LABEL) && !Contains(done, SOURCE_LABEL)
    ensures !Contains(Labelled(a, DONE_WHEN_LABEL, done), SOURCE_LABEL)
  {
    hide Contains;
    SourceWord();
    var dash: string := [DASH];
    TooShort(dash, SOURCE_LABEL);
    TooShort("**Done", SOURCE_LABEL);
    TooShort("when:**", SOURCE_LABEL);
    NotAcrossBlank("when:**", done, SOURCE_LABEL);
    NotAcrossBlank("**Done", "when:**" + " " + done, SOURCE_LABEL);
    NotAcrossBlank(dash, "**Done" + " " + ("when:**" + " " + done), SOURCE_LABEL);
    var rest := dash + " " + ("**Done" + " " + ("when:**" + " " + done));
    assert [DASH, ' '] + DONE_WHEN_LABEL + " " + done == rest;
    if a == "" {
      assert Labelled(a, DONE_WHEN_LABEL, done) == rest;
    } else {
      NotAcrossBlank(a, rest, SOURCE_LABEL);
      assert Labelled(a, DONE_WHEN_LABEL, done) == a + " " + rest;
    }
  }

  /** What a state reads back as: an archived row is not checked, and the agent's state is what its marker can say. */
  function AsRead(s: State): State {
    s.(fields := NormalAgent(s.fields), checked := s.checked && !s.archived)
  }

  lemma SourceStateReadsBack(s: State)
    requires WellFormed(s) && s.source.Some?
    ensures ReadRaw(Mark(s), Raw(s)) == AsRead(s)
  {
    hide EndsInMarker, Contains, IsTrimmed, RunAndStageOk, Labelled, Tail, Marked, StripMarkers, SplitSource,
      SplitDoneWhen, NormalAgent;
    TailIsClean(s);
    MarkedIsTrimmed(Tail(s), s.fields);
    SourceReadsBack(s.description, Marked(Tail(s), s.fields));
    UnmarkedReadsBack(s.description);
    MarkersReadBack(Tail(s), s.fields);
    NoDoneWhen(s.description);
    TailReadsBack(s);
    assert Merge(NoFields, NormalAgent(s.fields)) == NormalAgent(s.fields);
  }

  lemma PlainStateReadsBack(s: State)
    requires WellFormed(s) && s.source.None?
    ensures ReadRaw(Mark(s), Raw(s)) == AsRead(s)
  {
    hide EndsInMarker, Contains, IsTrimmed, RunAndStageOk, Labelled, Tail, Marked, StripMarkers, SplitSource,
      SplitDoneWhen, NormalAgent;
    TailIsClean(s);
    TailHasNoSource(s);
    MarkedHasNoSource(Tail(s), s.fields);
    MarkedIsTrimmed(Tail(s), s.fields);
    NoSource(Marked(Tail(s), s.fields));
    MarkersReadBack(Tail(s), s.fields);
    TailReadsBack(s);
  }

  /** The line round trip, for every well-formed state. */
  lemma ReadUndoesRebuild(s: State)
    requires WellFormed(s)
    ensures ReadLine(RebuildLine(s)) == Some(AsRead(s))
  {
    hide WellFormed, RebuildLine, ReadRaw, Raw, Mark, CheckLine, AsRead;
    ChecksLine(s);
    if s.source.Some? { SourceStateReadsBack(s); } else { PlainStateReadsBack(s); }
  }

  /**
    So a well-formed state comes back unchanged if and only if its agent's state is one the markers can
    say, and it is not both checked and archived.
  */
  lemma StateSurvivesExactly(s: State)
    requires WellFormed(s)
    ensures ReadLine(RebuildLine(s)) == Some(s) <==>
            AgentOk(s.fields.agentState, s.fields.agentNo) && !(s.checked && s.archived)
  {
    hide WellFormed, RebuildLine, ReadLine, NormalAgent;
    ReadUndoesRebuild(s);
    AgentSurvivesExactly(s.fields);
  }
}
