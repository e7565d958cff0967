/**
  Sections of a tasks.md: finding or making the heading a row belongs under, purging empty past days,
  and inserting a row at the top of its section. No task line is ever lost.
*/
module TaskSections {
  import opened Wrappers
  import opened Text
  import opened Numbers
  import opened TaskMarkers
  import opened TaskLine
  import opened TaskRows
  import opened TaskFile

  // ------------------------------------------------------------- tasks

  predicate IsTask(line: string) { StartsWith(line, "- [") }

  /** The task lines of a file, in order. */
  function TasksOf(lines: seq<string>): seq<string> {
    if lines == [] then []
    else
      var front := TasksOf(lines[..|lines| - 1]);
      if IsTask(lines[|lines| - 1]) then front + [lines[|lines| - 1]] else front
  }

  lemma {:induction false} TasksJoin(a: seq<string>, b: seq<string>)
    ensures TasksOf(a + b) == TasksOf(a) + TasksOf(b)
  {
    if b == [] {
      assert a + b == a;
    } else {
      var front := b[..|b| - 1];
      assert (a + b)[..|a + b| - 1] == a + front;
      TasksJoin(a, front);
    }
  }

  lemma {:induction false} NoTasks(lines: seq<string>)
    requires forall k :: 0 <= k < |lines| ==> !IsTask(lines[k])
    ensures TasksOf(lines) == []
  {
    if lines != [] { NoTasks(lines[..|lines| - 1]); }
  }

  /** One line more, somewhere, and everything else in its place. */
  predicate OneMore(before: seq<string>, line: string, after: seq<string>) {
    exists p :: 0 <= p <= |before| && after == before[..p] + [line] + before[p..]
  }

  // ------------------------------------------------------------- sections

  /** The depth of a heading line, leading blanks aside. */
  function HeadingDepth(line: string): Option<nat> {
    var stripped := LStrip(line);
    if StartsWith(stripped, "#") then Some(HashCount(stripped)) else None
  }

  predicate EndsSection(line: string, depth: nat) {
    StartsWith(Strip(line), "---") || (HeadingDepth(line).Some? && HeadingDepth(line).value <= depth)
  }

  function DepthOf(line: string): nat {
    if HeadingDepth(line).Some? && HeadingDepth(line).value != 0 then HeadingDepth(line).value else 2
  }

  /** Where the section headed at `start` ends: its first rule or heading as shallow, or the end of the file. */
  predicate IsSection(lines: seq<string>, start: nat, depth: nat, end: nat) {
    start < end <= |lines|
    && (forall k :: start < k < end ==> !EndsSection(lines[k], depth))
    && (end < |lines| ==> EndsSection(lines[end], depth))
  }

  method SectionEnd(lines: seq<string>, start: nat, depth: nat) returns (end: nat)
    requires start < |lines|
    ensures IsSection(lines, start, depth, end)
  {
    hide EndsSection;
    end := start + 1;
    while end < |lines|
      invariant start < end <= |lines|
      invariant forall k :: start < k < end ==> !EndsSection(lines[k], depth)
    {
      if EndsSection(lines[end], depth) { return; }
      end := end + 1;
    }
  }

  lemma OneEnd(lines: seq<string>, start: nat, depth: nat, a: nat, b: nat)
    requires IsSection(lines, start, depth, a) && IsSection(lines, start, depth, b)
    ensures a == b
  {
    hide EndsSection;
  }

  /** A heading of the wanted section, and of the wanted day when one is given. */
  predicate IsHeadingFor(line: string, want: string, day: Option<string>) {
    var (kind, headingDay) := ClassifyHeading(Strip(line));
    kind == Some(want) && (want == "today" && day.Some? ==> headingDay == day)
  }

  predicate NoHeading(lines: seq<string>, want: string, day: Option<string>) {
    forall k :: 0 <= k < |lines| ==> !IsHeadingFor(lines[k], want, day)
  }

  predicate FirstHeading(lines: seq<string>, at: nat, want: string, day: Option<string>) {
    at < |lines| && IsHeadingFor(lines[at], want, day) && forall k :: 0 <= k < at ==> !IsHeadingFor(lines[k], want, day)
  }

  method FindHeading(lines: seq<string>, want: string, day: Option<string>) returns (at: Option<nat>)
    ensures at.Some? ==> FirstHeading(lines, at.value, want, day)
    ensures at.None? <==> NoHeading(lines, want, day)
  {
    hide IsHeadingFor;
    for i := 0 to |lines|
      invariant forall k :: 0 <= k < i ==> !IsHeadingFor(lines[k], want, day)
    {
      if IsHeadingFor(lines[i], want, day) { return Some(i); }
    }
    return None;
  }

  method InsertHeading(lines: seq<string>, idx: nat, heading: string) returns (out: seq<string>, at: nat)
    requires idx <= |lines| && !IsTask(heading)
    ensures out == lines[..idx] + ["", heading, ""] + lines[idx..] && at == idx + 1
    ensures TasksOf(out) == TasksOf(lines)
  {
    out, at := lines[..idx] + ["", heading, ""] + lines[idx..], idx + 1;
    TasksJoin(lines[..idx] + ["", heading, ""], lines[idx..]);
    TasksJoin(lines[..idx], ["", heading, ""]);
    NoTasks(["", heading, ""]);
    TasksJoin(lines[..idx], lines[idx..]);
    assert lines == lines[..idx] + lines[idx..];
  }

  // ------------------------------------------------------------- purging past days

  /** `TODAY` in capitals, with its day. */
  function PastToday(line: string): Option<string> {
    var stripped := Strip(line);
    var text := RStrip(HeadingText(stripped));
    if 1 <= HashCount(stripped) <= 3 && |text| > 5 && text[..5] == "TODAY" && IsSpace(text[5])
      && IsDay(LStrip(text[5..]))
    then Some(LStrip(text[5..])) else None
  }

  predicate Less(a: string, b: string) {
    if b == "" then false else if a == "" then true else a[0] < b[0] || (a[0] == b[0] && Less(a[1..], b[1..]))
  }

  predicate Prose(line: string) {
    IsBlank(Strip(line)) || StartsWith(Strip(line), "---") || ClassifyHeading(Strip(line)).0.None?
  }

  /** A day section before `before`, lines `start` to `end`, that holds no task and no further heading. */
  predicate EmptyPast(lines: seq<string>, start: nat, end: nat, before: string) {
    start < |lines| && PastToday(lines[start]).Some? && Less(PastToday(lines[start]).value, before)
    && IsSection(lines, start, DepthOf(lines[start]), end)
    && forall k :: start < k < end ==> !IsTask(lines[k]) && Prose(lines[k])
  }

  /** Line `k` belongs to such a section. */
  ghost predicate Gone(lines: seq<string>, k: nat, before: string) {
    exists start: nat, end: nat :: start <= k < end && EmptyPast(lines, start, end, before)
  }

  /** The first `n` lines without those that go. */
  ghost function Kept(lines: seq<string>, before: string, n: nat): seq<string>
    requires n <= |lines|
  {
    if n == 0 then [] else Kept(lines, before, n - 1) + if Gone(lines, n - 1, before) then [] else [lines[n - 1]]
  }

  lemma PastIsNoTask(line: string)
    requires PastToday(line).Some?
    ensures !IsTask(line)
  {
    if IsTask(line) {
      TaskIsNoHeading(line);
      assert false;
    }
  }

  lemma TaskIsNoHeading(line: string)
    requires IsTask(line)
    ensures HashCount(Strip(line)) == 0
  {
    assert line[..3][0] == '-';
    LStripOf(line);
    var kept := RStrip(line);
    if kept != "" { assert line[..|kept|][0] == kept[0]; }
  }

  /** A line that goes is no task, and heads no section but a past day. */
  lemma GoneIsNothing(lines: seq<string>, k: nat, before: string, kind: string)
    requires Gone(lines, k, before)
    ensures k < |lines| && !IsTask(lines[k]) && (kind != "today" ==> !IsHeadingFor(lines[k], kind, None))
  {
    hide EndsSection, IsTask, PastToday, Less, DepthOf, Strip, ClassifyHeading;
    var start: nat, end: nat :| start <= k < end && EmptyPast(lines, start, end, before);
    if k == start {
      PastIsNoTask(lines[k]);
      PastIsToday(lines[k]);
    } else {
      ProseIsNoHeading(lines[k]);
    }
  }

  lemma PastIsToday(line: string)
    requires PastToday(line).Some?
    ensures ClassifyHeading(Strip(line)).0 == Some("today")
  {
    hide Strip, RStrip, LStrip, IsDay, IsSpace, HeadingText, Contains;
    var stripped := Strip(line);
    assert StartsWith(stripped, "#") by { HashStarts(stripped); }
    var text := RStrip(HeadingText(stripped));
    UpperLength(text);
    assert UpperAll("TODAY") == "TODAY";
  }

  lemma HashStarts(s: string)
    requires HashCount(s) > 0
    ensures StartsWith(s, "#")
  {
    assert s[..1] == "#";
  }

  lemma {:induction false} UpperLength(s: string)
    ensures |UpperAll(s)| == |s|
  {
    if s != "" { UpperLength(s[1..]); }
  }

  /** A heading, or a line that is blank or a rule, is classified nowhere but by its hashes. */
  lemma ProseIsNoHeading(line: string)
    requires Prose(line)
    ensures ClassifyHeading(Strip(line)).0.None?
  {
    hide Strip, HashCount, HeadingText, Contains, UpperAll, RStrip, LStrip, IsDay;
    var s := Strip(line);
    assert StartsWith(s, "#") ==> s[0] == s[..1][0] == '#';
    assert StartsWith(s, "---") ==> s[0] == s[..3][0] == '-';
  }

  /** Every section before `idx` that is to go ends by `idx`. */
  ghost predicate Settled(lines: seq<string>, before: string, idx: nat) {
    forall start: nat, end: nat :: start < idx && EmptyPast(lines, start, end, before) ==> end <= idx
  }

  lemma StaysWhenBare(lines: seq<string>, before: string, idx: nat)
    requires idx < |lines| && Settled(lines, before, idx) && forall end: nat :: !EmptyPast(lines, idx, end, before)
    ensures !Gone(lines, idx, before) && Settled(lines, before, idx + 1)
  {
    hide EmptyPast;
  }

  lemma {:induction false} GoesWhole(lines: seq<string>, before: string, idx: nat, end: nat, k: nat)
    requires EmptyPast(lines, idx, end, before) && idx <= k <= end
    ensures Kept(lines, before, k) == Kept(lines, before, idx)
  {
    hide EmptyPast;
    if k > idx {
      GoesWhole(lines, before, idx, end, k - 1);
      assert Gone(lines, k - 1, before);
    }
  }

  lemma SettledBehind(lines: seq<string>, before: string, idx: nat, end: nat)
    requires EmptyPast(lines, idx, end, before) && Settled(lines, before, idx)
    ensures Settled(lines, before, end)
  {
    hide EndsSection, IsTask, PastToday, Less, DepthOf, Prose;
    forall start: nat, other: nat | start < end && EmptyPast(lines, start, other, before) ensures other <= end {
      if start == idx {
        OneEnd(lines, idx, DepthOf(lines[idx]), end, other);
      } else if start > idx {
        PastIsToday(lines[start]);
        ProseIsNoHeading(lines[start]);
        assert false;
      }
    }
  }

  lemma {:induction false} KeptTasks(lines: seq<string>, before: string, n: nat)
    requires n <= |lines|
    ensures TasksOf(Kept(lines, before, n)) == TasksOf(lines[..n])
  {
    hide IsTask, Gone;
    if n > 0 {
      KeptTasks(lines, before, n - 1);
      assert lines[..n][..n - 1] == lines[..n - 1];
      var front := Kept(lines, before, n - 1);
      if Gone(lines, n - 1, before) {
        GoneIsNothing(lines, n - 1, before, "inbox");
        assert front + [] == front;
      } else {
        assert (front + [lines[n - 1]])[..|front|] == front;
      }
    }
  }

  lemma {:induction false} KeptHeadings(lines: seq<string>, before: string, kind: string, n: nat)
    requires n <= |lines| && kind != "today"
    ensures NoHeading(Kept(lines, before, n), kind, None) <==> NoHeading(lines[..n], kind, None)
  {
    hide IsHeadingFor, Gone, NoHeading;
    if n == 0 {
      assert lines[..0] == Kept(lines, before, 0);
    } else {
      KeptHeadings(lines, before, kind, n - 1);
      NoHeadingOneMore(lines[..n - 1], lines[n - 1], kind);
      assert lines[..n - 1] + [lines[n - 1]] == lines[..n];
      var front := Kept(lines, before, n - 1);
      NoHeadingOneMore(front, lines[n - 1], kind);
      if Gone(lines, n - 1, before) { GoneIsNothing(lines, n - 1, before, kind); }
      assert front + [] == front;
    }
  }

  lemma NoHeadingOneMore(lines: seq<string>, line: string, kind: string)
    ensures NoHeading(lines + [line], kind, None) <==> NoHeading(lines, kind, None) && !IsHeadingFor(line, kind, None)
  {
    hide IsHeadingFor;
    var all := lines + [line];
    assert all[|lines|] == line;
    assert forall k :: 0 <= k < |lines| ==> all[k] == lines[k];
  }

  lemma {:induction false} KeptIsSome(lines: seq<string>, before: string, n: nat)
    requires n <= |lines|
    ensures forall k :: 0 <= k < |Kept(lines, before, n)| ==> Kept(lines, before, n)[k] in lines
  {
    hide Gone;
    if n > 0 { KeptIsSome(lines, before, n - 1); }
  }

  /**
    Exactly the lines of the empty day sections before `before` go. So every task is kept, and so is every
    heading of another section.
  */
  method PurgeEmptyToday(lines: seq<string>, before: string) returns (keep: seq<string>)
    ensures keep == Kept(lines, before, |lines|)
    ensures TasksOf(keep) == TasksOf(lines)
    ensures forall kind :: kind != "today" ==> (NoHeading(keep, kind, None) <==> NoHeading(lines, kind, None))
  {
    hide EndsSection, IsTask, PastToday, Prose, Less, HeadingDepth, IsHeadingFor, Gone, Settled;
    keep := [];
    var idx := 0;
    assert Settled(lines, before, 0) by { NothingSettled(lines, before); }
    while idx < |lines|
      invariant idx <= |lines| && keep == Kept(lines, before, idx) && Settled(lines, before, idx)
    {
      var day := PastToday(lines[idx]);
      if day.Some? && Less(day.value, before) {
        var end := SectionEnd(lines, idx, DepthOf(lines[idx]));
        var bare := true;
        var k := idx + 1;
        while k < end
          invariant idx < k <= end
          invariant bare <==> forall n :: idx < n < k ==> !IsTask(lines[n]) && Prose(lines[n])
        {
          if IsTask(lines[k]) || !Prose(lines[k]) { bare := false; }
          k := k + 1;
        }
        if bare {
          GoesWhole(lines, before, idx, end, end);
          SettledBehind(lines, before, idx, end);
          idx := end;
          continue;
        }
        NotBare(lines, before, idx, end);
      }
      StaysWhenBare(lines, before, idx);
      keep := keep + [lines[idx]];
      idx := idx + 1;
    }
    assert lines[..|lines|] == lines;
    KeptTasks(lines, before, |lines|);
    forall kind | kind != "today" ensures NoHeading(keep, kind, None) <==> NoHeading(lines, kind, None) {
      KeptHeadings(lines, before, kind, |lines|);
    }
  }

  lemma NothingSettled(lines: seq<string>, before: string)
    ensures Settled(lines, before, 0)
  {
  }

  lemma NotBare(lines: seq<string>, before: string, idx: nat, end: nat)
    requires idx < |lines| && IsSection(lines, idx, DepthOf(lines[idx]), end)
    requires exists n :: idx < n < end && (IsTask(lines[n]) || !Prose(lines[n]))
    ensures forall other: nat :: !EmptyPast(lines, idx, other, before)
  {
    hide EndsSection, IsTask, PastToday, Prose, Less, DepthOf, IsSection;
    forall other: nat | EmptyPast(lines, idx, other, before) ensures false {
      OneEnd(lines, idx, DepthOf(lines[idx]), end, other);
    }
  }

  // ------------------------------------------------------------- the section a row goes to

  /** No comment markup anywhere in the file. */
  predicate Uncommented(lines: seq<string>) { forall k :: 0 <= k < |lines| ==> NoToken(lines[k]) }

  /** `today:` and a day, or one of the other writable sections. */
  function ParseSection(token: string): Option<(string, Option<string>)> {
    if StartsWith(token, "today:") && IsDay(token[6..]) then Some(("today", Some(token[6..])))
    else if token in ["inbox", "urgent", "this_week", "backlog"] then Some((token, None))
    else None
  }

  predicate IsTarget(kind: string, day: Option<string>) {
    if kind == "today" then day.Some? && IsDay(day.value)
      else kind in ["inbox", "urgent", "this_week", "backlog"] && day.None?
  }

  /** The targets are what the section tokens of a request parse to, and nothing else. */
  lemma TargetsAreTokens(kind: string, day: Option<string>)
    ensures IsTarget(kind, day) <==> exists token :: ParseSection(token) == Some((kind, day))
  {
    hide IsDay;
    if IsTarget(kind, day) {
      var token := if kind == "today" then "today:" + day.value else kind;
      if kind == "today" {
        assert token[..6] == "today:" && token[6..] == day.value;
      } else {
        assert token in ["inbox", "urgent", "this_week", "backlog"];
NotPrefix(token, "today:", 1);
      }
      assert ParseSection(token) == Some((kind, day));
    }
  }

  lemma SecondLevel(text: string)
    requires text != "" && IsTrimmed(text)
    ensures var h := "## " + text;
            Strip(h) == h && HashCount(h) == 2 && HeadingText(h) == text && RStrip(text) == text
            && !IsTask(h) && StartsWith(h, "#")
  {
    hide LStrip, RStrip, Strip, IsSpace, IsTrimmed, HashCount, IsBlank, StartsWith;
    var h := "## " + text;
    HeadTrimmed(text);
    TrimmedStays(h);
    HashesOf(h, 2);
    SecondLevelText(h, text);
    RStripStays(text);
    NotPrefix(h, "- [", 0);
    StartsHashed(h);
  }

  lemma SecondLevelText(h: string, text: string)
    requires text != "" && IsTrimmed(text) && h == "## " + text && HashCount(h) == 2
    ensures HeadingText(h) == text
  {
    hide LStrip, IsSpace, IsTrimmed, HashCount, IsBlank;
    assert h[2..] == " " + text;
    assert !IsSpace(text[0]) by { TrimmedStarts(text); }
    LStripOf(text);
  }

  lemma StartsHashed(h: string)
    requires h != "" && h[0] == '#'
    ensures StartsWith(h, "#")
  {
    assert h[..1] == "#";
  }

  lemma RStripStays(s: string)
    requires IsTrimmed(s)
    ensures RStrip(s) == s
  {
  }

  lemma HeadTrimmed(text: string)
    requires text != "" && IsTrimmed(text)
    ensures IsTrimmed("## " + text)
  {
    var h := "## " + text;
    assert h[|h| - 1] == text[|text| - 1];
  }

  lemma InboxHeading()
    ensures IsHeadingFor("## INBOX", "inbox", None) && !IsTask("## INBOX") && NoToken("## INBOX") && NoToken("")
  {
    hide Strip, HashCount, HeadingText, RStrip, IsTask;
    assert IsTrimmed("INBOX");
    SecondLevel("INBOX");
    assert "## " + "INBOX" == "## INBOX";
    assert UpperAll("INBOX") == "INBOX";
    PlainNoToken("## INBOX");
    PlainNoToken("");
  }

  lemma PlainNoToken(s: string)
    requires '<' !in s && '>' !in s
    ensures NoToken(s)
  {
    NoAngleNoToken(s);
  }

  lemma {:induction false} HashesOf(s: string, n: nat)
    requires n < |s| && (forall i :: 0 <= i < n ==> s[i] == '#') && s[n] != '#'
    ensures HashCount(s) == n
  {
    if n > 0 { HashesOf(s[1..], n - 1); }
  }

  lemma DayShape(day: string)
    requires IsDay(day)
    ensures |day| == 10 && '<' !in day && '>' !in day && !IsSpace(day[0]) && !IsSpace(day[9])
  {
    DigitsPlain(day[..4]);
    DigitsPlain(day[5..7]);
    DigitsPlain(day[8..]);
    assert day == day[..4] + "-" + day[5..7] + "-" + day[8..];
    assert day[0] == day[..4][0] && day[9] == day[8..][1];
  }

  lemma DigitsPlain(s: string)
    requires AllDigits(s)
    ensures '<' !in s && '>' !in s && forall i :: 0 <= i < |s| ==> !IsSpace(s[i])
  {
  }

  lemma TodayHeading(day: string)
    requires IsDay(day)
    ensures IsHeadingFor("## TODAY " + day, "today", Some(day)) && !IsTask("## TODAY " + day)
            && NoToken("## TODAY " + day)
  {
    hide IsDay, NoToken, IsHeadingFor, IsTask;
    DayShape(day);
    TodayHeadingIs(day);
    PlainJoin("## TODAY ", day);
  }

  lemma TodayHeadingIs(day: string)
    requires IsDay(day) && |day| == 10 && !IsSpace(day[0]) && !IsSpace(day[9])
    ensures IsHeadingFor("## TODAY " + day, "today", Some(day)) && !IsTask("## TODAY " + day)
  {
    hide Strip, HashCount, HeadingText, RStrip, IsTask, LStrip, IsDay, NoToken, ClassifyHeading, IsInboxHeading,
      StartsWith, IsTrimmed, IsSpace;
    var text := "TODAY " + day;
    assert IsTrimmed(text) by { TodayTrimmed(day); }
    SecondLevel(text);
    assert "## " + text == "## TODAY " + day;
    TodayWord(day);
    LStripOf(day);
    NotInbox("## " + text, text);
    ClassifiesToday("## " + text, text, day);
  }

  lemma TodayWord(day: string)
    ensures var text := "TODAY " + day;
            text[..5] == "TODAY" && UpperAll(text[..5]) == "TODAY" && text[5..] == " " + day && text[5] == ' '
  {
    var text := "TODAY " + day;
    assert text[..5] == "TODAY";
    assert UpperAll("TODAY") == "TODAY";
  }

  lemma PlainJoin(a: string, b: string)
    requires '<' !in a && '>' !in a && '<' !in b && '>' !in b
    ensures NoToken(a + b)
  {
    PlainNoToken(a + b);
  }

  lemma ClassifiesToday(h: string, text: string, day: string)
    requires StartsWith(h, "#") && HashCount(h) == 2 && HeadingText(h) == text
             && RStrip(text) == text && !IsInboxHeading(h)
    requires |text| > 5 && UpperAll(text[..5]) == "TODAY" && text[5] == ' ' && LStrip(text[5..]) == day && IsDay(day)
    ensures ClassifyHeading(h) == (Some("today"), Some(day))
  {
    hide HashCount, HeadingText, RStrip, LStrip, IsInboxHeading, UpperAll, IsDay, StartsWith, Contains;
    assert IsSpace(' ');
  }

  lemma TodayTrimmed(day: string)
    requires |day| == 10 && !IsSpace(day[9])
    ensures IsTrimmed("TODAY " + day)
  {
    var text := "TODAY " + day;
    assert text[0] == 'T' && text[|text| - 1] == day[9];
  }

  lemma NotInbox(h: string, text: string)
    requires HeadingText(h) == text && RStrip(text) == text && |text| > 5
    ensures !IsInboxHeading(h)
  {
  }

  /** The first second-level heading, or the end. */
  predicate FirstSecondLevel(lines: seq<string>, at: nat) {
    at <= |lines| && (forall k :: 0 <= k < at ==> !StartsWith(lines[k], "## "))
    && (at < |lines| ==> StartsWith(lines[at], "## "))
  }

  /** `out` is `lines` with this heading between blanks at `at`. */
  predicate HeadingPut(lines: seq<string>, at: nat, heading: string, out: seq<string>) {
    at <= |lines| && out == lines[..at] + ["", heading, ""] + lines[at..]
  }

  /** The first inbox heading there is, or a new one before the first second-level heading. */
  predicate InboxAt(lines: seq<string>, out: seq<string>, at: nat) {
    if NoHeading(lines, "inbox", None)
    then at >= 1 && FirstSecondLevel(lines, at - 1) && HeadingPut(lines, at - 1, "## INBOX", out)
    else out == lines && FirstHeading(lines, at, "inbox", None)
  }

  method EnsureInbox(lines: seq<string>) returns (out: seq<string>, at: nat)
    ensures InboxAt(lines, out, at)
    ensures at < |out| && IsHeadingFor(out[at], "inbox", None) && TasksOf(out) == TasksOf(lines)
    ensures Uncommented(lines) ==> Uncommented(out)
  {
    hide IsHeadingFor, TasksOf, IsTask, NoToken;
    var found := FindHeading(lines, "inbox", None);
    if found.Some? { return lines, found.value; }
    var first := 0;
    while first < |lines| && !StartsWith(lines[first], "## ")
      invariant first <= |lines| && forall k :: 0 <= k < first ==> !StartsWith(lines[k], "## ")
    {
      first := first + 1;
    }
    InboxHeading();
    out, at := InsertHeading(lines, first, "## INBOX");
  }

  predicate EndsDay(line: string) { StartsWith(Strip(line), "## ") || StartsWith(Strip(line), "---") }

  /** The first second-level heading or rule behind `from`, or the end. */
  predicate FirstBehind(lines: seq<string>, from: nat, at: nat) {
    from < at <= |lines| && (forall k :: from < k < at ==> !EndsDay(lines[k])) && (at < |lines| ==> EndsDay(lines[at]))
  }

  /** A new day section goes behind the inbox. */
  predicate DayAt(lines: seq<string>, inbox: nat, day: string, out: seq<string>, at: nat) {
    at >= 1 && FirstBehind(lines, inbox, at - 1) && HeadingPut(lines, at - 1, "## TODAY " + day, out)
  }

  /**
    Where a row for this section goes: under the first heading of the section; failing that, a day gets a
    section of its own behind the inbox and every other section falls to the inbox.
  */
  ghost predicate Sectioned(lines: seq<string>, kind: string, day: Option<string>,
                            out: seq<string>, at: nat, fell: bool) {
    (fell <==> kind in ["urgent", "this_week", "backlog"] && NoHeading(lines, kind, day))
    && if kind == "inbox" || fell then InboxAt(lines, out, at)
       else if !NoHeading(lines, kind, day) then out == lines && FirstHeading(lines, at, kind, day)
       else day.Some? && exists with, inbox: nat ::
              InboxAt(lines, with, inbox) && DayAt(with, inbox, day.value, out, at)
  }

  /** The lines that stay when past days before `purgeBefore` are purged, if they are. */
  ghost function Purged(lines: seq<string>, purgeBefore: Option<string>): seq<string> {
    if purgeBefore.Some? && purgeBefore.value != "" then Kept(lines, purgeBefore.value, |lines|) else lines
  }

  method PurgeIfAsked(lines: seq<string>, kind: string, day: Option<string>, purgeBefore: Option<string>)
    returns (out: seq<string>)
    requires IsTarget(kind, day)
    ensures out == Purged(lines, purgeBefore) && TasksOf(out) == TasksOf(lines)
            && (Uncommented(lines) ==> Uncommented(out))
    ensures kind != "today" ==> (NoHeading(out, kind, day) <==> NoHeading(lines, kind, day))
  {
    hide IsHeadingFor, TasksOf, NoToken, IsDay, NoHeading;
    if purgeBefore.None? || purgeBefore.value == "" { return lines; }
    out := PurgeEmptyToday(lines, purgeBefore.value);
    KeptIsSome(lines, purgeBefore.value, |lines|);
  }

  /** The heading to insert under; only a missing urgent, week or backlog section falls to the inbox. */
  method EnsureSection(lines0: seq<string>, kind: string, day: Option<string>, purgeBefore: Option<string>)
    returns (out: seq<string>, at: nat, fell: bool)
    requires IsTarget(kind, day)
    ensures Sectioned(Purged(lines0, purgeBefore), kind, day, out, at, fell)
    ensures fell <==> kind in ["urgent", "this_week", "backlog"] && NoHeading(lines0, kind, day)
    ensures TasksOf(out) == TasksOf(lines0) && (Uncommented(lines0) ==> Uncommented(out))
    ensures at < |out| && (if fell then IsHeadingFor(out[at], "inbox", None) else IsHeadingFor(out[at], kind, day))
  {
    hide IsHeadingFor, TasksOf, IsTask, NoToken, IsDay, StartsWith, Strip, ClassifyHeading, NoHeading,
      InboxAt, Purged, Uncommented;
    var lines := PurgeIfAsked(lines0, kind, day, purgeBefore);
    if kind == "inbox" {
      out, at := EnsureInbox(lines);
      return out, at, false;
    }
    var found := FindHeading(lines, kind, day);
    if found.Some? { return lines, found.value, false; }
    var inbox: nat;
    out, inbox := EnsureInbox(lines);
    if kind != "today" { return out, inbox, true; }
    out, at := PutDay(out, inbox, day.value);
    return out, at, false;
  }

  method PutDay(lines: seq<string>, inbox: nat, day: string) returns (out: seq<string>, at: nat)
    requires inbox < |lines| && IsDay(day)
    ensures DayAt(lines, inbox, day, out, at) && at < |out| && IsHeadingFor(out[at], "today", Some(day))
    ensures TasksOf(out) == TasksOf(lines) && (Uncommented(lines) ==> Uncommented(out))
  {
    hide IsHeadingFor, TasksOf, IsTask, NoToken, IsDay, EndsDay;
    var insertAt := |lines|;
    var idx := inbox + 1;
    while idx < |lines|
      invariant inbox < idx <= |lines| && insertAt == |lines|
      invariant forall k :: inbox < k < idx ==> !EndsDay(lines[k])
    {
      if EndsDay(lines[idx]) {
        insertAt := idx;
        break;
      }
      idx := idx + 1;
    }
    TodayHeading(day);
    InboxHeading();
    out, at := InsertHeading(lines, insertAt, "## TODAY " + day);
  }

  lemma BlankEndsNothing(line: string, depth: nat)
    requires IsBlank(Strip(line))
    ensures !EndsSection(line, depth)
  {
    hide IsSpace;
    StripTrims(line);
    BlankAndTrimmed(Strip(line));
    BlankStripped(line);
  }

  lemma BlankStripped(line: string)
    requires Strip(line) == ""
    ensures LStrip(line) == ""
  {
  }

  /** Directly behind the heading and all the blanks that follow it. */
  predicate TopOf(lines: seq<string>, heading: nat, at: nat) {
    heading < at <= |lines| && (forall k :: heading < k < at ==> IsBlank(Strip(lines[k])))
    && (at < |lines| ==> !IsBlank(Strip(lines[at])))
  }

  method TopInsert(lines: seq<string>, heading: nat, task: string) returns (out: seq<string>, at: nat)
    requires heading < |lines|
    ensures TopOf(lines, heading, at) && out == lines[..at] + [task] + lines[at..]
  {
    hide EndsSection, HeadingDepth, IsBlank, Strip, DepthOf;
    at := heading + 1;
    while at < |lines| && IsBlank(Strip(lines[at]))
      invariant heading < at <= |lines| && forall k :: heading < k < at ==> IsBlank(Strip(lines[k]))
    {
      at := at + 1;
    }
    var end := SectionEnd(lines, heading, DepthOf(lines[heading]));
    if end < |lines| && IsBlank(Strip(lines[end])) { BlankEndsNothing(lines[end], DepthOf(lines[heading])); }
    at := if at < end then at else end;
    out := lines[..at] + [task] + lines[at..];
  }

  // ------------------------------------------------------------- what the new row reads as

  lemma {:induction false} NeverInComment(lines: seq<string>, i: nat)
    requires Uncommented(lines) && i <= |lines|
    ensures !ScanAt(lines, i).inComment
  {
    hide NoToken, ClassifyHeading, Strip;
    if i > 0 {
      NeverInComment(lines, i - 1);
      NotSkipped(ScanAt(lines, i - 1), lines[i - 1]);
    }
  }

  lemma NotSkipped(scan: Scan, line: string)
    requires NoToken(line) && !scan.inComment
    ensures !Skipped(scan, Strip(line)) && !Next(scan, line).inComment
  {
    hide ClassifyHeading, Strip, Contains;
    StrippedNoToken(line);
  }

  lemma HeadingSets(scan: Scan, line: string, kind: string, day: Option<string>)
    requires NoToken(line) && !scan.inComment && IsHeadingFor(line, kind, day) && IsTarget(kind, day)
    ensures Next(scan, line).section == kind && (kind == "today" ==> Next(scan, line).day == day)
  {
    hide ClassifyHeading, Strip, Contains, IsDay;
    NotSkipped(scan, line);
  }

  lemma NothingStarts()
    ensures HashCount("") == 0
  {
  }

  lemma BlankAndTrimmed(s: string)
    requires IsBlank(s) && IsTrimmed(s)
    ensures s == ""
  {
  }

  lemma BlankIsQuiet(scan: Scan, line: string)
    requires IsBlank(Strip(line)) && !scan.inComment
    ensures Next(scan, line) == scan
  {
    hide Contains, HeadingText, HashCount, UpperAll, Strip, LStrip, RStrip, IsSpace, IsBlank, IsTrimmed;
    StripTrims(line);
    BlankAndTrimmed(Strip(line));
    NothingStarts();
    TooShort("", "<!--");
    TooShort("", "-->");
  }

  lemma {:induction false} SectionHolds(lines: seq<string>, heading: nat, i: nat, kind: string, day: Option<string>)
    requires Uncommented(lines) && heading < i <= |lines|
             && IsHeadingFor(lines[heading], kind, day) && IsTarget(kind, day)
    requires forall k :: heading < k < i ==> IsBlank(Strip(lines[k]))
    ensures ScanAt(lines, i).section == kind && (kind == "today" ==> ScanAt(lines, i).day == day)
  {
    hide NoToken, Next, IsHeadingFor, IsTarget, Strip, IsBlank;
    if i == heading + 1 {
      NeverInComment(lines, heading);
      HeadingSets(ScanAt(lines, heading), lines[heading], kind, day);
    } else {
      SectionHolds(lines, heading, i - 1, kind, day);
      NeverInComment(lines, i - 1);
      BlankIsQuiet(ScanAt(lines, i - 1), lines[i - 1]);
    }
  }

  /** A row read from line `at`, under the wanted section and day. */
  predicate RowLands(row: Row, line: string, at: nat, kind: string, day: Option<string>) {
    row.lineNumber == at + 1 && row.section == kind && (kind == "today" ==> row.sectionDay == day)
    && ReadLine(line) == Some(row.state)
  }

  ghost predicate LandsIn(lines: seq<string>, mine: string -> bool, at: nat, kind: string, day: Option<string>)
    requires at < |lines|
  {
    exists row :: row in Rows(lines, mine) && RowLands(row, lines[at], at, kind, day)
  }

  lemma {:induction false} RowIsListed(lines: seq<string>, mine: string -> bool, i: nat, k: nat) returns (row: Row)
    requires i < k <= |lines| && RowState(ScanAt(lines, i), lines[i]).Some?
    ensures row in RowsUpTo(lines, mine, k) && row.lineNumber == i + 1
            && Some(row.state) == RowState(ScanAt(lines, i), lines[i])
    ensures row == RowOf(ScanAt(lines, i + 1), mine, row.number, i + 1, row.state)
  {
    hide RowState, ScanAt, RowOf, RowsUpTo;
    RowsStep(lines, mine, k);
    if k == i + 1 {
      var state := RowState(ScanAt(lines, i), lines[i]).value;
      row := RowOf(ScanAt(lines, k), mine, |RowsUpTo(lines, mine, k - 1)| + 1, k, state);
      RowNumber(ScanAt(lines, k), mine, |RowsUpTo(lines, mine, k - 1)| + 1, k, state);
      assert row in RowsUpTo(lines, mine, k);
    } else {
      row := RowIsListed(lines, mine, i, k - 1);
    }
  }

  lemma RowSection(scan: Scan, mine: string -> bool, n: nat, m: nat, s: State)
    ensures RowOf(scan, mine, n, m, s).section == scan.section
    ensures RowOf(scan, mine, n, m, s).sectionDay == if scan.section == "today" then scan.day else None
  {
    hide ParseOwner, Strip, DropAll, Contains;
  }

  /** A task line inserted after a heading and blanks, in a file without comments, is a row of that section. */
  lemma InsertedLands(lines: seq<string>, mine: string -> bool, heading: nat, at: nat,
                      kind: string, day: Option<string>)
    requires Uncommented(lines) && heading < at < |lines|
             && IsHeadingFor(lines[heading], kind, day) && IsTarget(kind, day)
    requires forall k :: heading < k < at ==> IsBlank(Strip(lines[k]))
    requires CheckLine(lines[at]).Some?
    ensures LandsIn(lines, mine, at, kind, day)
  {
    hide NoToken, IsHeadingFor, IsTarget, Strip, CheckLine, RowOf, ScanAt, RowsUpTo, Next, IsBlank, Skipped,
      ClassifyHeading, RowState,
      ReadLine;
    SectionHolds(lines, heading, at, kind, day);
    NeverInComment(lines, at);
    var scan := ScanAt(lines, at);
    NotSkipped(scan, lines[at]);
    BoxLineIsQuiet(scan, lines[at]);
    assert ScanAt(lines, at + 1) == Next(scan, lines[at]) by { ScanStep(lines, at); }
    assert RowState(scan, lines[at]) == ReadLine(lines[at]) && ReadLine(lines[at]).Some? by {
      QuietRow(scan, lines[at]);
    }
    var row := RowIsListed(lines, mine, at, |lines|);
    RowSection(ScanAt(lines, at + 1), mine, row.number, at + 1, row.state);
    assert RowLands(row, lines[at], at, kind, day);
  }

  lemma ScanStep(lines: seq<string>, i: nat)
    requires i < |lines|
    ensures ScanAt(lines, i + 1) == Next(ScanAt(lines, i), lines[i])
  {
    hide Next;
  }

  lemma QuietRow(scan: Scan, line: string)
    requires CheckLine(line).Some? && !Skipped(scan, Strip(line)) && ClassifyHeading(Strip(line)).0.None?
    ensures RowState(scan, line) == ReadLine(line) && ReadLine(line).Some?
  {
    hide CheckLine, Strip, ClassifyHeading, Contains, ReadRaw;
  }

  // ------------------------------------------------------------- capture and move

  lemma TaskAdded(lines: seq<string>, at: nat, line: string)
    requires at <= |lines| && IsTask(line)
    ensures OneMore(TasksOf(lines), line, TasksOf(lines[..at] + [line] + lines[at..]))
  {
    hide TasksOf, IsTask, OneMore;
    var before, after := TasksOf(lines[..at]), TasksOf(lines[at..]);
    TasksJoin(lines[..at] + [line], lines[at..]);
    TasksJoin(lines[..at], [line]);
    TasksJoin(lines[..at], lines[at..]);
    TakeDrop(lines, at);
    OneTask(line);
    Between(before, line, after);
  }

  lemma TakeDrop(lines: seq<string>, at: nat)
    requires at <= |lines|
    ensures lines == lines[..at] + lines[at..]
  {
  }

  lemma Between(before: seq<string>, line: string, after: seq<string>)
    ensures OneMore(before + after, line, before + [line] + after)
  {
    var all := before + after;
    assert all[..|before|] == before && all[|before|..] == after;
  }

  lemma OneTask(line: string)
    requires IsTask(line)
    ensures TasksOf([line]) == [line]
  {
    assert [line][..0] == [] && TasksOf([]) == [];
  }

  /** `out` is the file with this line at the top of the section asked for, or of the inbox when it fell there. */
  ghost predicate Placed(lines: seq<string>, line: string, kind: string, day: Option<string>,
                         out: seq<string>, at: nat, fell: bool) {
    exists with, heading: nat ::
      Sectioned(lines, kind, day, with, heading, fell) && TopOf(with, heading, at)
      && out == with[..at] + [line] + with[at..]
  }

  /**
    A captured line joins the tasks and displaces none, whatever is purged; it falls to the inbox exactly when
    the file has no heading of a section that is not made on demand; and in a file without comments it reads
    as a row of the requested section and day, or of the inbox when it fell there.
  */
  method Capture(lines: seq<string>, line: string, kind: string, day: Option<string>, purgeBefore: Option<string>,
                 ghost mine: string -> bool)
    returns (out: seq<string>, fell: bool, ghost at: nat)
    requires IsTarget(kind, day) && CheckLine(line).Some?
    ensures Placed(Purged(lines, purgeBefore), line, kind, day, out, at, fell)
    ensures fell <==> kind in ["urgent", "this_week", "backlog"] && NoHeading(lines, kind, day)
    ensures at < |out| && out[at] == line && OneMore(TasksOf(lines), line, TasksOf(out))
    ensures Uncommented(lines) && NoToken(line) ==>
            LandsIn(out, mine, at, if fell then "inbox" else kind, if fell then None else day)
  {
    BoxIsTask(line);
    hide TasksOf, NoToken, IsHeadingFor, Strip, OneMore, LandsIn, CheckLine, IsTask, IsBlank, Uncommented, IsTarget,
      Sectioned, NoHeading, Purged;
    var with, heading;
    with, heading, fell := EnsureSection(lines, kind, day, purgeBefore);
    var place: nat;
    out, place := TopInsert(with, heading, line);
    at := place;
    TaskAdded(with, place, line);
    if Uncommented(lines) && NoToken(line) {
      if fell { InboxIsTarget(); }
      CapturedLands(with, out, mine, heading, place, line, if fell then "inbox" else kind, if fell then None else day);
    }
  }

  lemma BoxIsTask(line: string)
    requires CheckLine(line).Some?
    ensures IsTask(line)
  {
  }

  lemma InboxIsTarget()
    ensures IsTarget("inbox", None)
  {
  }

  lemma CapturedLands(with: seq<string>, out: seq<string>, mine: string -> bool, heading: nat, at: nat, line: string,
                      kind: string, day: Option<string>)
    requires Uncommented(with) && NoToken(line) && heading < at <= |with| && out == with[..at] + [line] + with[at..]
    requires IsHeadingFor(with[heading], kind, day) && IsTarget(kind, day) && CheckLine(line).Some?
    requires forall k :: heading < k < at ==> IsBlank(Strip(with[k]))
    ensures LandsIn(out, mine, at, kind, day)
  {
    hide NoToken, IsHeadingFor, Strip, LandsIn, CheckLine, IsBlank, IsTarget;
    assert out[heading] == with[heading] && forall k :: heading < k < at ==> out[k] == with[k];
    assert Uncommented(out);
    InsertedLands(out, mine, heading, at, kind, day);
  }

  function Without(lines: seq<string>, idx: nat): seq<string>
    requires idx < |lines|
  {
    lines[..idx] + lines[idx + 1..]
  }

  /**
    A moved line leaves its place and lands at the top of the requested section, or of the inbox exactly when
    the file has no heading of a section that is not made on demand; every other task stays, in order.
  */
  method Move(lines: seq<string>, idx: nat, kind: string, day: Option<string>, purgeBefore: Option<string>,
              ghost mine: string -> bool)
    returns (out: seq<string>, ghost at: nat, ghost fell: bool)
    requires IsTarget(kind, day) && idx < |lines| && CheckLine(lines[idx]).Some?
    ensures Placed(Purged(Without(lines, idx), purgeBefore), lines[idx], kind, day, out, at, fell)
    ensures fell <==> kind in ["urgent", "this_week", "backlog"] && NoHeading(lines, kind, day)
    ensures at < |out| && out[at] == lines[idx]
    ensures exists rest :: OneMore(rest, lines[idx], TasksOf(lines)) && OneMore(rest, lines[idx], TasksOf(out))
    ensures Uncommented(lines) ==> LandsIn(out, mine, at, if fell then "inbox" else kind, if fell then None else day)
  {
    BoxIsTask(lines[idx]);
    hide TasksOf, NoToken, IsHeadingFor, Strip, OneMore, LandsIn, CheckLine, IsTask, Uncommented, IsTarget, IsDay,
      Placed, NoHeading, Purged;
    var taskLine := lines[idx];
    var rest := lines[..idx] + lines[idx + 1..];
    TaskAdded(rest, idx, taskLine);
    TakenOut(lines, idx);
    NoHeadingTaken(lines, idx, kind, day);
    out, fell, at := Capture(rest, taskLine, kind, day, purgeBefore, mine);
  }

  /** A task is no heading, so taking one out takes no heading. */
  lemma NoHeadingTaken(lines: seq<string>, idx: nat, kind: string, day: Option<string>)
    requires idx < |lines| && IsTask(lines[idx])
    ensures NoHeading(Without(lines, idx), kind, day) <==> NoHeading(lines, kind, day)
  {
    hide IsHeadingFor, IsTask;
    TaskHeadsNothing(lines[idx], kind, day);
    var rest := Without(lines, idx);
    assert forall k :: 0 <= k < |rest| ==> rest[k] == if k < idx then lines[k] else lines[k + 1];
    assert forall k :: 0 <= k < |lines| && k != idx ==> lines[k] == rest[if k < idx then k else k - 1];
  }

  lemma TaskHeadsNothing(line: string, kind: string, day: Option<string>)
    requires IsTask(line)
    ensures !IsHeadingFor(line, kind, day)
  {
    hide Strip, LStrip, RStrip, HeadingText, Contains, UpperAll, IsDay, HashCount, StartsWith;
    TaskIsNoHeading(line);
    if StartsWith(Strip(line), "#") { HashCounts(Strip(line)); }
  }

  lemma HashCounts(s: string)
    requires StartsWith(s, "#")
    ensures HashCount(s) > 0
  {
    assert s[0] == s[..1][0];
  }

  lemma TakenOut(lines: seq<string>, idx: nat)
    requires idx < |lines|
    ensures var rest := lines[..idx] + lines[idx + 1..];
            rest[..idx] + [lines[idx]] + rest[idx..] == lines
            && (Uncommented(lines) ==> Uncommented(rest) && NoToken(lines[idx]))
  {
    hide NoToken;
    var rest := lines[..idx] + lines[idx + 1..];
    assert rest[..idx] == lines[..idx] && rest[idx..] == lines[idx + 1..];
  }
}
