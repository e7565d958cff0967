/**
  The bracketed markers at the end of a task line: the run time, the agent's state and the workflow
  stage. What the writer prints is what the reader takes off again.
*/
module TaskMarkers {
  import opened Wrappers
  import opened Text
  import opened Numbers

  predicate IsRunAt(s: string) {
    |s| == 16 && AllDigits(s[..4]) && s[4] == '-' && AllDigits(s[5..7]) && s[7] == '-'
    && AllDigits(s[8..10]) && s[10] == ' '
    && AllDigits(s[11..13]) && s[13] == ':' && AllDigits(s[14..])
  }

  const STAGES := ["planning", "active", "review"]

  datatype Marker = Run(at: string) | Running | Numbered(no: nat, outcome: string) | Failed | Stage(name: string)

  /** `no` of a marker `pre`, digits, `post`. */
  function NumberBetween(s: string, pre: string, post: string): Option<nat> {
    if |s| > |pre| + |post| && s[..|pre|] == pre && s[|s| - |post|..] == post && AllDigits(s[|pre|..|s| - |post|])
    then Some(DigitsValue(s[|pre|..|s| - |post|])) else None
  }

  /** One marker, brackets included. */
  function BodyOf(s: string): Option<Marker> {
    if |s| == 22 && s[..5] == "[run " && IsRunAt(s[5..21]) && s[21] == ']' then Some(Run(s[5..21]))
    else if s == "[agent running]" then Some(Running)
    else if s == "[agent failed]" then Some(Failed)
    else if NumberBetween(s, "[agent #", " done]").Some?
      then Some(Numbered(NumberBetween(s, "[agent #", " done]").value, "done"))
    else if NumberBetween(s, "[agent #", " failed]").Some?
      then Some(Numbered(NumberBetween(s, "[agent #", " failed]").value, "failed"))
    else if s == "[stage planning]" then Some(Stage("planning"))
    else if s == "[stage active]" then Some(Stage("active"))
    else if s == "[stage review]" then Some(Stage("review"))
    else None
  }

  predicate IsBody(s: string) { BodyOf(s).Some? }

  /** Characters no marker holds between its brackets. */
  predicate IsOuter(c: char) { c == '[' || c == ']' || c == '*' || c == '\U{2014}' || c == '<' || c == '>' }

  predicate Inner(s: string) { forall i :: 0 <= i < |s| ==> !IsOuter(s[i]) }

  lemma BodyShape(s: string)
    requires IsBody(s)
    ensures |s| >= 2 && s[0] == '[' && s[|s| - 1] == ']' && Inner(s[1..|s| - 1])
  {
    hide Inner, IsRunAt, AllDigits;
    if |s| == 22 && s[..5] == "[run " && IsRunAt(s[5..21]) && s[21] == ']' {
      assert s[..5][0] == s[0];
      RunInner(s);
    } else if NumberBetween(s, "[agent #", " done]").Some? {
      assert Inner(" done") by { LiteralInner(" done"); }
      NumberedInner(s, " done");
    } else if NumberBetween(s, "[agent #", " failed]").Some? {
      assert Inner(" failed") by { LiteralInner(" failed"); }
      NumberedInner(s, " failed");
    } else {
      RunningShape();
      FailedShape();
      PlanningShape();
      ActiveShape();
      ReviewShape();
      assert Boxed(s);
    }
  }

  /** What every marker looks like from outside. */
  predicate Boxed(s: string) { |s| >= 2 && s[0] == '[' && s[|s| - 1] == ']' && Inner(s[1..|s| - 1]) }

  lemma RunningShape()
    ensures Boxed("[agent running]")
  {
    FixedInner("[agent running]", "agent running");
  }

  lemma FailedShape()
    ensures Boxed("[agent failed]")
  {
    FixedInner("[agent failed]", "agent failed");
  }

  lemma PlanningShape()
    ensures Boxed("[stage planning]")
  {
    FixedInner("[stage planning]", "stage planning");
  }

  lemma ActiveShape()
    ensures Boxed("[stage active]")
  {
    FixedInner("[stage active]", "stage active");
  }

  lemma ReviewShape()
    ensures Boxed("[stage review]")
  {
    FixedInner("[stage review]", "stage review");
  }

  lemma RunInner(s: string)
    requires |s| == 22 && s[..5] == "[run " && IsRunAt(s[5..21])
    ensures Inner(s[1..21])
  {
    hide IsRunAt;
    assert s[1..21] == "run " + s[5..21];
    RunAtInner(s[5..21]);
    LiteralInner("run ");
    InnerJoin("run ", s[5..21]);
  }

  lemma FixedInner(s: string, mid: string)
    requires s == "[" + mid + "]"
    requires '[' !in mid && ']' !in mid && '*' !in mid && '\U{2014}' !in mid && '<' !in mid && '>' !in mid
    ensures Boxed(s)
  {
    hide Inner;
    LiteralInner(mid);
    assert s[1..|s| - 1] == mid;
  }

  lemma LiteralInner(s: string)
    requires '[' !in s && ']' !in s && '*' !in s && '\U{2014}' !in s && '<' !in s && '>' !in s
    ensures Inner(s)
  {
  }

  lemma NumberedInner(s: string, outcome: string)
    requires NumberBetween(s, "[agent #", outcome + "]").Some? && Inner(outcome)
    ensures |s| >= 2 && s[0] == '[' && s[|s| - 1] == ']' && Inner(s[1..|s| - 1])
  {
    hide Inner;
    var d := s[8..|s| - |outcome| - 1];
    NumberedParts(s, outcome, d);
    LiteralInner("agent #");
    DigitsInner(d);
    InnerJoin("agent #", d);
    InnerJoin("agent #" + d, outcome);
  }

  lemma NumberedParts(s: string, outcome: string, d: string)
    requires NumberBetween(s, "[agent #", outcome + "]").Some? && d == s[8..|s| - |outcome| - 1]
    ensures s[0] == '[' && s[|s| - 1] == ']' && s[1..|s| - 1] == "agent #" + d + outcome
    ensures AllDigits(d)
  {
    var n := |s| - |outcome| - 1;
    assert s[..8] == "[agent #" && s[n..] == outcome + "]";
    assert s[n..][..|outcome|] == outcome && s[n..][|outcome|] == ']';
    assert s[1..8] == s[..8][1..] == "agent #";
    assert s[1..|s| - 1] == s[1..8] + d + s[n..|s| - 1];
  }

  lemma InnerJoin(a: string, b: string)
    requires Inner(a) && Inner(b)
    ensures Inner(a + b)
  {
  }

  lemma DigitsInner(s: string)
    requires AllDigits(s)
    ensures Inner(s)
  {
  }

  lemma RunAtInner(s: string)
    requires IsRunAt(s)
    ensures Inner(s)
  {
    DigitsInner(s[..4]);
    DigitsInner(s[5..7]);
    DigitsInner(s[8..10]);
    DigitsInner(s[11..13]);
    DigitsInner(s[14..]);
    forall i | 0 <= i < 16 ensures !IsOuter(s[i]) {
      if i < 4 { assert s[i] == s[..4][i]; }
      else if 5 <= i < 7 { assert s[i] == s[5..7][i - 5]; }
      else if 8 <= i < 10 { assert s[i] == s[8..10][i - 8]; }
      else if 11 <= i < 13 { assert s[i] == s[11..13][i - 11]; }
      else if 14 <= i { assert s[i] == s[14..][i - 14]; }
    }
  }

  // ------------------------------------------------------------- the trailing blob

  function FirstClose(s: string): (i: nat)
    ensures i <= |s| && (i < |s| ==> s[i] == ']') && forall k :: 0 <= k < i ==> s[k] != ']'
  {
    if s == "" || s[0] == ']' then 0 else 1 + FirstClose(s[1..])
  }

  /** Markers and blanks, at least one marker, to the end of the text. */
  predicate IsBlob(s: string)
    decreases |s|
  {
    var t := LStrip(s);
    var close := FirstClose(t);
    close < |t| && IsBody(t[..close + 1]) && (IsBlank(t[close + 1..]) || IsBlob(t[close + 1..]))
  }

  function Markers(s: string): seq<Marker>
    requires IsBlob(s)
    decreases |s|
  {
    var t := LStrip(s);
    var close := FirstClose(t);
    [BodyOf(t[..close + 1]).value] + (if IsBlank(t[close + 1..]) then [] else Markers(t[close + 1..]))
  }

  /** The leftmost place from `i` on where the rest of the text is a blob. */
  function FindBlob(text: string, i: nat): (at: Option<nat>)
    requires i <= |text|
    ensures at.Some? ==> i <= at.value <= |text| && IsBlob(text[at.value..])
    decreases |text| - i
  {
    if IsBlob(text[i..]) then Some(i) else if i == |text| then None else FindBlob(text, i + 1)
  }

  datatype Fields = Fields(runAt: Option<string>, agentState: Option<string>,
                           agentNo: Option<nat>, stage: Option<string>)

  const NoFields := Fields(None, None, None, None)

  function First(ms: seq<Marker>, wanted: Marker -> bool): Option<Marker> {
    if ms == [] then None else if wanted(ms[0]) then Some(ms[0]) else First(ms[1..], wanted)
  }

  function FieldsOf(ms: seq<Marker>): Fields {
    var run, stage, numbered :=
      First(ms, (m: Marker) => m.Run?), First(ms, (m: Marker) => m.Stage?), First(ms, (m: Marker) => m.Numbered?);
    Fields(
      if run.Some? && run.value.Run? then Some(run.value.at) else None,
      if numbered.Some? && numbered.value.Numbered? then Some(numbered.value.outcome)
      else if Running in ms then Some("running") else if Failed in ms then Some("failed") else None,
      if numbered.Some? && numbered.value.Numbered? then Some(numbered.value.no) else None,
      if stage.Some? && stage.value.Stage? then Some(stage.value.name) else None)
  }

  /** Take the end-of-line markers off a text. */
  function StripMarkers(text: string): (string, Fields) {
    match FindBlob(text, 0)
    case None => (text, NoFields)
    case Some(i) => (RStrip(text[..i]), FieldsOf(Markers(text[i..])))
  }

  // ------------------------------------------------------------- printing

  function RunPart(runAt: Option<string>): seq<string>
  {
    if runAt.Some? && runAt.value != "" then ["[run " + runAt.value + "]"] else []
  }

  function AgentPart(agentState: Option<string>, agentNo: Option<nat>): seq<string> {
    if agentState == Some("running") then ["[agent running]"]
    else if agentState == Some("done") && agentNo.Some? then ["[agent #" + Decimal(agentNo.value) + " done]"]
    else if agentState == Some("failed") then
      (if agentNo.Some? then ["[agent #" + Decimal(agentNo.value) + " failed]"] else ["[agent failed]"])
    else []
  }

  function StagePart(stage: Option<string>): seq<string>
  {
    if stage.Some? && stage.value != "" then ["[stage " + stage.value + "]"] else []
  }

  function Parts(f: Fields): seq<string> { RunPart(f.runAt) + AgentPart(f.agentState, f.agentNo) + StagePart(f.stage) }

  function Join(parts: seq<string>): string {
    if parts == [] then "" else if |parts| == 1 then parts[0] else parts[0] + " " + Join(parts[1..])
  }

  // ------------------------------------------------------------- reading what was printed

  predicate EndsInMarker(t: string) { exists n :: 0 <= n <= |t| && IsBody(t[n..]) }

  lemma LStripOf(s: string)
    requires s != "" && !IsSpace(s[0])
    ensures LStrip(s) == s && LStrip(" " + s) == s
  {
    assert IsSpace(' ');
    assert (" " + s)[1..] == s;
  }

  lemma CloseAt(body: string, rest: string)
    requires IsBody(body)
    ensures FirstClose(body + rest) == |body| - 1
  {
    hide IsBody, FirstClose;
    BodyShape(body);
    OneClose(body);
    var s := body + rest;
    assert s[|body| - 1] == ']' && forall k :: 0 <= k < |body| - 1 ==> s[k] == body[k];
  }

  lemma OneClose(body: string)
    requires |body| >= 2 && body[0] == '[' && Inner(body[1..|body| - 1])
    ensures forall k :: 0 <= k < |body| - 1 ==> body[k] != ']'
  {
    assert IsOuter(']');
    assert forall k :: 1 <= k < |body| - 1 ==> body[k] == body[1..|body| - 1][k - 1];
  }

  /** A marker followed by a blob, or by nothing, is a blob, with or without a blank before it. */
  lemma BlobOf(body: string, rest: string)
    requires IsBody(body) && (rest == "" || IsBlob(rest)) && (rest != "" ==> !IsBlank(rest))
    ensures IsBlob(body + rest) && IsBlob(" " + body + rest)
    ensures Markers(body + rest) == Markers(" " + body + rest)
            == [BodyOf(body).value] + (if rest == "" then [] else Markers(rest))
  {
    hide IsBody, BodyOf, IsSpace, Inner, LStrip, FirstClose;
    BodyShape(body);
    BracketIsInk();
    var s := body + rest;
    LStripOf(s);
    CloseAt(body, rest);
    assert " " + body + rest == " " + s;
    assert s[..|body|] == body && s[|body|..] == rest;
  }

  lemma BracketIsInk()
    ensures !IsSpace('[') && !IsSpace(']')
  {
  }

  lemma InkIsNotBlank(s: string, i: nat)
    requires i < |s| && !IsSpace(s[i])
    ensures !IsBlank(s)
  {
  }

  predicate AllBodies(parts: seq<string>) { forall i :: 0 <= i < |parts| ==> IsBody(parts[i]) }

  function MarkersOf(parts: seq<string>): seq<Marker>
    requires AllBodies(parts)
  {
    seq(|parts|, i requires 0 <= i < |parts| => BodyOf(parts[i]).value)
  }

  lemma {:induction false} JoinedIsBlob(parts: seq<string>)
    requires parts != [] && AllBodies(parts)
    ensures var j := Join(parts);
            j != "" && j[0] == '[' && j[|j| - 1] == ']' && IsBlob(j) && IsBlob(" " + j)
            && Markers(j) == Markers(" " + j) == MarkersOf(parts)
  {
    hide IsBlob, Markers, BodyOf;
    var j := Join(parts);
    BodyShape(parts[0]);
    BracketIsInk();
    if |parts| == 1 {
      BlobOf(j, "");
      assert j + "" == j && " " + j + "" == " " + j;
    } else {
      var rest := parts[1..];
      JoinedIsBlob(rest);
      InkIsNotBlank(" " + Join(rest), 1);
      BlobOf(parts[0], " " + Join(rest));
      assert parts[0] + (" " + Join(rest)) == j;
      assert " " + parts[0] + (" " + Join(rest)) == " " + j;
    }
  }

  /** Text that ends in ink and in no marker is never part of a blob that follows it after a blank. */
  lemma {:induction false} NoBlobAcross(a: string, r: string)
    requires a != "" && !IsSpace(a[|a| - 1]) && !EndsInMarker(a)
    requires r == "" || (|r| >= 2 && r[0] == ' ' && r[1] == '[')
    ensures !IsBlob(a + r)
    decreases |a|, 1
  {
    hide IsBody, IsSpace, IsBlank, EndsInMarker, IsBlob, LStrip, FirstClose;
    var ink := LStrip(a);
    InkLeft(a, r);
    var close := FirstClose(ink + r);
    if close < |ink + r| && IsBody((ink + r)[..close + 1]) {
      NoBlobRest(a, r, ink, close);
    }
    NotABlob(a + r, close);
  }

  lemma {:induction false} NoBlobRest(a: string, r: string, ink: string, close: nat)
    requires a != "" && !IsSpace(a[|a| - 1]) && !EndsInMarker(a)
    requires r == "" || (|r| >= 2 && r[0] == ' ' && r[1] == '[')
    requires ink != "" && |ink| <= |a| && a[|a| - |ink|..] == ink
    requires close < |ink + r| && IsBody((ink + r)[..close + 1])
    ensures !IsBlank((ink + r)[close + 1..]) && !IsBlob((ink + r)[close + 1..])
    decreases |a|, 0
  {
    hide IsBody, IsSpace, IsBlank, EndsInMarker, IsBlob;
    BodyFitsInk(ink, r, close);
    NotItself(a, ink);
    assert (ink + r)[..|ink|] == ink;
    var rest := ink[close + 1..];
    assert (ink + r)[close + 1..] == rest + r;
    InkIsNotBlank(rest + r, |rest| - 1);
    RestEndsInMarker(a, rest);
    NoBlobAcross(rest, r);
  }

  lemma NotABlob(s: string, close: nat)
    requires var t := LStrip(s);
             close == FirstClose(t)
             && (close < |t| && IsBody(t[..close + 1]) ==> !IsBlank(t[close + 1..]) && !IsBlob(t[close + 1..]))
    ensures !IsBlob(s)
  {
    hide IsBody, IsSpace, IsBlank, LStrip, FirstClose;
  }

  lemma NotItself(a: string, ink: string)
    requires |ink| <= |a| && a[|a| - |ink|..] == ink && !EndsInMarker(a)
    ensures !IsBody(ink)
  {
    hide IsBody;
  }

  /** No marker reaches over a blank and an opening bracket. */
  lemma BodyFitsInk(ink: string, r: string, close: nat)
    requires close < |ink + r| && IsBody((ink + r)[..close + 1]) && ink != ""
    requires r == "" || (|r| >= 2 && r[0] == ' ' && r[1] == '[')
    ensures close < |ink|
  {
    hide IsBody;
    var body := (ink + r)[..close + 1];
    BodyShape(body);
    OneBracket(body);
    assert forall k :: 0 <= k <= close ==> body[k] == (ink + r)[k];
    assert r != "" ==> (ink + r)[|ink|] == ' ' && (ink + r)[|ink| + 1] == '[';
  }

  lemma OneBracket(body: string)
    requires |body| >= 2 && body[|body| - 1] == ']' && Inner(body[1..|body| - 1])
    ensures forall k :: 1 <= k < |body| ==> body[k] != '['
  {
    assert IsOuter('[');
    assert forall k :: 1 <= k < |body| - 1 ==> body[k] == body[1..|body| - 1][k - 1];
  }

  lemma InkLeft(a: string, r: string)
    requires a != "" && !IsSpace(a[|a| - 1])
    ensures LStrip(a) != "" && LStrip(a)[|LStrip(a)| - 1] == a[|a| - 1] && LStrip(a + r) == LStrip(a) + r
  {
    hide IsSpace, LStrip, IsBlank;
    var ink := LStrip(a);
    var blanks := a[..|a| - |ink|];
    InkIsNotBlank(a, |a| - 1);
    SplitAt(a, |a| - |ink|);
    assert ink != "" by { assert a[..|a|] == a; }
    LStripTrimmed(blanks, ink + r);
    assert blanks + (ink + r) == blanks + ink + r;
  }

  lemma RestEndsInMarker(a: string, rest: string)
    requires |rest| <= |a| && a[|a| - |rest|..] == rest && !EndsInMarker(a)
    ensures !EndsInMarker(rest)
  {
    hide IsBody;
    forall n | 0 <= n <= |rest| ensures !IsBody(rest[n..]) {
      assert a[|a| - |rest| + n..] == rest[n..];
    }
  }

  lemma {:induction false} FindsBlobAt(text: string, i: nat, at: nat)
    requires i <= at <= |text| && IsBlob(text[at..]) && forall k :: i <= k < at ==> !IsBlob(text[k..])
    ensures FindBlob(text, i) == Some(at)
    decreases at - i
  {
    hide IsBlob;
    if i < at { FindsBlobAt(text, i + 1, at); }
  }

  lemma {:induction false} FindsNoBlob(text: string, i: nat)
    requires i <= |text| && forall k :: i <= k <= |text| ==> !IsBlob(text[k..])
    ensures FindBlob(text, i) == None
    decreases |text| - i
  {
    hide IsBlob;
    if i < |text| { FindsNoBlob(text, i + 1); }
  }

  lemma NoBlobIn(t: string, r: string)
    requires IsTrimmed(t) && !EndsInMarker(t) && (r == "" || (|r| >= 2 && r[0] == ' ' && r[1] == '['))
    ensures forall k :: 0 <= k < |t| ==> !IsBlob((t + r)[k..])
  {
    hide EndsInMarker, IsBlob, IsTrimmed;
    forall k | 0 <= k < |t| ensures !IsBlob((t + r)[k..]) { NoBlobAt(t, r, k); }
  }

  lemma NoBlobAt(t: string, r: string, k: nat)
    requires IsTrimmed(t) && !EndsInMarker(t) && (r == "" || (|r| >= 2 && r[0] == ' ' && r[1] == '[')) && k < |t|
    ensures !IsBlob((t + r)[k..])
  {
    hide EndsInMarker, IsBlob, IsSpace;
    var rest := t[k..];
    assert rest[|rest| - 1] == t[|t| - 1];
    RestEndsInMarker(t, rest);
    NoBlobAcross(rest, r);
    assert rest + r == (t + r)[k..];
  }

  lemma UnmarkedReadsBack(t: string)
    requires IsTrimmed(t) && !EndsInMarker(t)
    ensures StripMarkers(t) == (t, NoFields)
  {
    hide EndsInMarker, IsTrimmed;
    NoBlobIn(t, "");
    assert t + "" == t;
    assert t[|t|..] == "";
    EmptyIsNoBlob();
    FindsNoBlob(t, 0);
  }

  lemma EmptyIsNoBlob()
    ensures !IsBlob("")
  {
  }

  /** The text a marker list is appended to, and the markers, both come back. */
  lemma MarkedReadsBack(t: string, parts: seq<string>)
    requires IsTrimmed(t) && !EndsInMarker(t) && parts != [] && AllBodies(parts)
    ensures StripMarkers(if t == "" then Join(parts) else t + " " + Join(parts)) == (t, FieldsOf(MarkersOf(parts)))
  {
    hide EndsInMarker, IsBlob, Markers, FieldsOf, AllBodies, MarkersOf, Join;
    var j := Join(parts);
    JoinedIsBlob(parts);
    if t == "" {
      assert j[0..] == j && j[..0] == "";
      FindsBlobAt(j, 0, 0);
      assert RStrip("") == "";
    } else {
      var text := t + " " + j;
      assert text == t + (" " + j);
      NoBlobIn(t, " " + j);
      assert text[|t|..] == " " + j && text[..|t|] == t;
      FindsBlobAt(text, 0, |t|);
      assert RStrip(t) == t;
    }
  }

  // ------------------------------------------------------------- fields

  predicate AgentOk(agentState: Option<string>, agentNo: Option<nat>) {
    (agentState.None? && agentNo.None?) || (agentState == Some("running") && agentNo.None?)
    || (agentState == Some("done") && agentNo.Some?) || agentState == Some("failed")
  }

  lemma RunBody(at: string)
    requires IsRunAt(at)
    ensures BodyOf("[run " + at + "]") == Some(Run(at))
  {
    var s := "[run " + at + "]";
    assert s[..5] == "[run " && s[5..21] == at;
  }

  lemma NumberedBody(no: nat)
    ensures BodyOf("[agent #" + Decimal(no) + " done]") == Some(Numbered(no, "done"))
    ensures BodyOf("[agent #" + Decimal(no) + " failed]") == Some(Numbered(no, "failed"))
  {
    DecimalValue(no);
    var d := Decimal(no);
    var done, failed := "[agent #" + d + " done]", "[agent #" + d + " failed]";
    assert done[..8] == "[agent #" && done[|done| - 6..] == " done]" && done[8..|done| - 6] == d;
    assert failed[..8] == "[agent #" && failed[|failed| - 8..] == " failed]" && failed[8..|failed| - 8] == d;
    assert done[7] == '#' && failed[7] == '#';
    assert failed[|failed| - 6..] != " done]" by { assert failed[|failed| - 6..][0] == 'a'; }
    NotRun(done);
    NotRun(failed);
  }

  lemma NotRun(s: string)
    requires |s| > 7 && s[7] == '#'
    ensures !(|s| == 22 && s[..5] == "[run " && IsRunAt(s[5..21]) && s[21] == ']') && s != "[agent running]"
            && s != "[agent failed]"
  {
    if |s| == 22 { HashIsNoRun(s[5..21]); }
  }

  lemma HashIsNoRun(t: string)
    requires |t| == 16 && t[2] == '#'
    ensures !IsRunAt(t)
  {
    assert t[..4][2] == '#';
  }

  lemma StageBody(name: string)
    requires name in STAGES
    ensures BodyOf("[stage " + name + "]") == Some(Stage(name))
  {
    assert "[stage " + "planning" + "]" == "[stage planning]";
    assert "[stage " + "active" + "]" == "[stage active]";
    assert "[stage " + "review" + "]" == "[stage review]";
  }

  /**
    What an agent's state reads back as: a number is kept only where one is printed, and a finished run only
    with its number.
  */
  function NormalAgent(f: Fields): Fields {
    if f.agentState == Some("running") then f.(agentNo := None)
    else if f.agentState == Some("failed") || (f.agentState == Some("done") && f.agentNo.Some?) then f
    else f.(agentState := None, agentNo := None)
  }

  lemma AgentSurvivesExactly(f: Fields)
    ensures NormalAgent(f) == f <==> AgentOk(f.agentState, f.agentNo)
  {
  }

  function AgentMarkers(f: Fields): seq<Marker> {
    if f.agentState == Some("running") then [Running]
    else if f.agentState == Some("done") && f.agentNo.Some? then [Numbered(f.agentNo.value, "done")]
    else if f.agentState == Some("failed")
      then (if f.agentNo.Some? then [Numbered(f.agentNo.value, "failed")] else [Failed])
    else []
  }

  function PrintedMarkers(f: Fields): seq<Marker> {
    (if f.runAt.Some? then [Run(f.runAt.value)]
      else []) + AgentMarkers(f) + (if f.stage.Some? then [Stage(f.stage.value)] else [])
  }

  predicate RunAndStageOk(f: Fields)
  {
    (f.runAt.Some? ==> IsRunAt(f.runAt.value)) && (f.stage.Some? ==> f.stage.value in STAGES)
  }

  lemma PartsAreBodies(f: Fields)
    requires RunAndStageOk(f)
    ensures AllBodies(Parts(f)) && MarkersOf(Parts(f)) == PrintedMarkers(f)
  {
    hide BodyOf, IsRunAt;
    if f.runAt.Some? {
      assert f.runAt.value != "" by { RunLength(f.runAt.value); }
      RunBody(f.runAt.value);
    }
    if f.stage.Some? {
      assert f.stage.value != "";
      StageBody(f.stage.value);
    }
    assert BodyOf("[agent running]") == Some(Running) && BodyOf("[agent failed]") == Some(Failed) by { PlainBodies(); }
    if f.agentNo.Some? { NumberedBody(f.agentNo.value); }
  }

  lemma RunLength(at: string)
    requires IsRunAt(at)
    ensures |at| == 16
  {
  }

  lemma PlainBodies()
    ensures BodyOf("[agent running]") == Some(Running) && BodyOf("[agent failed]") == Some(Failed)
  {
  }

  lemma PrintedFields(f: Fields)
    requires RunAndStageOk(f)
    ensures FieldsOf(PrintedMarkers(f)) == NormalAgent(f)
  {
    hide IsRunAt;
    var run, agent, stage := if f.runAt.Some? then [Run(f.runAt.value)]
      else [], AgentMarkers(f), if f.stage.Some? then [Stage(f.stage.value)] else [];
    assert PrintedMarkers(f) == run + agent + stage;
    FirstJoin(run + agent, stage, (m: Marker) => m.Run?);
    FirstJoin(run, agent, (m: Marker) => m.Run?);
    FirstJoin(run + agent, stage, (m: Marker) => m.Stage?);
    FirstJoin(run, agent, (m: Marker) => m.Stage?);
    FirstJoin(run + agent, stage, (m: Marker) => m.Numbered?);
    FirstJoin(run, agent, (m: Marker) => m.Numbered?);
    assert Running in PrintedMarkers(f) <==> Running in agent;
    assert Failed in PrintedMarkers(f) <==> Failed in agent;
  }

  lemma {:induction false} FirstJoin(a: seq<Marker>, b: seq<Marker>, wanted: Marker -> bool)
    ensures First(a + b, wanted) == if First(a, wanted).Some? then First(a, wanted) else First(b, wanted)
  {
    if a == [] {
      assert a + b == b;
    } else {
      assert (a + b)[1..] == a[1..] + b;
      FirstJoin(a[1..], b, wanted);
    }
  }

  /** A text and the markers after it, as the writer lays them out. */
  function Marked(t: string, f: Fields): string {
    if Parts(f) == [] then t else if t == "" then Join(Parts(f)) else t + " " + Join(Parts(f))
  }

  /** Markers read back as they were printed, and the text before them is untouched. */
  lemma MarkersReadBack(t: string, f: Fields)
    requires IsTrimmed(t) && !EndsInMarker(t) && RunAndStageOk(f)
    ensures StripMarkers(Marked(t, f)) == (t, NormalAgent(f))
  {
    hide EndsInMarker, IsBody, StripMarkers, Join, FieldsOf, PrintedMarkers, NormalAgent, IsRunAt;
    PartsAreBodies(f);
    PrintedFields(f);
    if Parts(f) == [] {
      UnmarkedReadsBack(t);
      assert NormalAgent(f) == NoFields by { NothingPrinted(f); }
    } else {
      MarkedReadsBack(t, Parts(f));
    }
  }

  lemma NothingPrinted(f: Fields)
    requires RunAndStageOk(f) && Parts(f) == []
    ensures NormalAgent(f) == NoFields
  {
    assert forall at :: IsRunAt(at) ==> at != "";
  }

  /** A marked text is trimmed, and its markers hold no bracket, star, dash or comment token of their own. */
  lemma MarkedIsTrimmed(t: string, f: Fields)
    requires IsTrimmed(t) && RunAndStageOk(f)
    ensures IsTrimmed(Marked(t, f))
  {
    hide IsBody, BodyOf, IsRunAt, IsBlob, Markers;
    PartsAreBodies(f);
    if Parts(f) != [] {
      JoinedIsBlob(Parts(f));
      BracketIsInk();
    }
  }
}
