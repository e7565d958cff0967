/**
  The rows of a tasks.md: headings, comments and delegated zones are tracked line by line, and each
  check-box line outside a comment becomes a row with an id made of its words.
*/
module TaskRows {
  import opened Wrappers
  import opened Text
  import opened Numbers
  import opened TaskMarkers
  import opened TaskLine

  // ------------------------------------------------------------- headings

  /** `str.upper` on the letters the headings are spelled with. */
  function Upper(c: char): char { if 'a' <= c <= 'z' then c - 'a' + 'A' else c }

  function UpperAll(s: string): string { seq(|s|, i requires 0 <= i < |s| => Upper(s[i])) }

  function HashCount(s: string): (n: nat)
    ensures n <= |s| && (forall i :: 0 <= i < n ==> s[i] == '#') && (n < |s| ==> s[n] != '#')
  {
    if s != "" && s[0] == '#' then 1 + HashCount(s[1..]) else 0
  }

  predicate StartsWith(s: string, prefix: string) { |prefix| <= |s| && s[..|prefix|] == prefix }

  predicate IsDay(s: string) {
    |s| == 10 && AllDigits(s[..4]) && s[4] == '-' && AllDigits(s[5..7]) && s[7] == '-' && AllDigits(s[8..])
  }

  /** What follows the `#`s and the blanks after them. */
  function HeadingText(stripped: string): string { LStrip(stripped[HashCount(stripped)..]) }

  predicate IsInboxHeading(stripped: string) {
    1 <= HashCount(stripped) <= 3 && UpperAll(RStrip(HeadingText(stripped))) == "INBOX"
  }

  /** `TODAY`, at least one blank, a day. */
  function TodayDay(stripped: string): Option<string> {
    var text := RStrip(HeadingText(stripped));
    if 1 <= HashCount(stripped) <= 3 && |text| > 5 && UpperAll(text[..5]) == "TODAY" && IsSpace(text[5])
      && IsDay(LStrip(text[5..]))
    then Some(LStrip(text[5..])) else None
  }

  /** The section and day of a heading; `None` for any other line. */
  function ClassifyHeading(stripped: string): (Option<string>, Option<string>) {
    if !StartsWith(stripped, "#") then (None, None)
    else if IsInboxHeading(stripped) then (Some("inbox"), None)
    else if TodayDay(stripped).Some? then (Some("today"), TodayDay(stripped))
    else
      var upper := UpperAll(stripped);
      if Contains(upper, "URGENT") then (Some("urgent"), None)
      else if Contains(upper, "THIS WEEK") then (Some("this_week"), None)
      else if Contains(upper, "BACKLOG") then (Some("backlog"), None)
      else if Contains(upper, "COMPLETED") then (Some("completed"), None)
      else (Some("other"), None)
  }

  predicate EndsDelegatedZone(stripped: string) {
    StartsWith(stripped, "---") || (StartsWith(stripped, "#") && HashCount(stripped) <= 2)
  }

  predicate IsWord(c: char) { 'a' <= c <= 'z' || 'A' <= c <= 'Z' || '0' <= c <= '9' || c == '_' }

  predicate IsDelegatedHeading(stripped: string) {
    var text := HeadingText(stripped);
    1 <= HashCount(stripped) <= 2 && |text| >= 9 && UpperAll(text[..9]) == "DELEGATED"
    && (|text| == 9 || !IsWord(text[9]))
  }

  // ------------------------------------------------------------- owners and review flags

  function FirstOf(s: string, c: char): (i: nat)
    ensures i <= |s| && (i < |s| ==> s[i] == c)
  {
    if s == "" || s[0] == c then 0 else 1 + FirstOf(s[1..], c)
  }

  /** `**Name**: words` or `[Name] words`. */
  function ParseOwner(text: string): (Option<string>, string) {
    if BoldOwner(text).Some? then
      var n := BoldOwner(text).value;
      (Some(Strip(text[2..2 + n])), LStrip(text[5 + n..]))
    else if BracketOwner(text).Some? then
      var n := BracketOwner(text).value;
      (Some(Strip(text[1..1 + n])), LStrip(text[2 + n..]))
    else (None, text)
  }

  /** The length of a bold owner's name. */
  function BoldOwner(text: string): (n: Option<nat>)
    ensures n.Some? ==> 5 + n.value <= |text|
  {
    if !StartsWith(text, "**") || StartsWith(text[2..], "Owner:") then None
    else
      var n := FirstOf(text[2..], '*');
      if n > 0 && StartsWith(text[2 + n..], "**:") then Some(n) else None
  }

  function BracketOwner(text: string): (n: Option<nat>)
    ensures n.Some? ==> 2 + n.value < |text|
  {
    if !StartsWith(text, "[") then None
    else
      var n := FirstOf(text[1..], ']');
      if n > 0 && 2 + n < |text| && IsSpace(text[2 + n]) then Some(n) else None
  }

  const REVIEW := "[REVIEW]"

  function DropAll(s: string, word: string): string
    requires word != ""
  {
    if |s| < |word| then s
    else if s[..|word|] == word then DropAll(s[|word|..], word)
    else [s[0]] + DropAll(s[1..], word)
  }

  // ------------------------------------------------------------- scanning

  datatype Scan = Scan(priority: string, section: string, day: Option<string>, inComment: bool, delegated: bool)

  const Start := Scan("backlog", "other", None, false, false)

  datatype Row = Row(
    number: nat, lineNumber: nat, section: string, sectionDay: Option<string>, priority: string,
    delegated: bool, needsReview: bool, owner: Option<string>, description: string, state: State)

  predicate InComment(scan: Scan, stripped: string) {
    (scan.inComment || Contains(stripped, "<!--")) && !Contains(stripped, "-->")
  }

  predicate Skipped(scan: Scan, stripped: string)
  {
    Contains(stripped, "-->") || scan.inComment || Contains(stripped, "<!--")
  }

  /** The scanner after one line. */
  function Next(scan: Scan, line: string): Scan {
    var stripped := Strip(line);
    var commented := scan.(inComment := InComment(scan, stripped));
    if Skipped(scan, stripped) then commented
    else
      var zone := IsDelegatedHeading(stripped) || (scan.delegated && !EndsDelegatedZone(stripped));
      var zoned := commented.(delegated := zone);
      match ClassifyHeading(stripped)
      case (None, _) => zoned
      case (Some(section), day) =>
        if section == "other" then zoned.(section := section, day := None)
          else zoned.(section := section, priority := section, day := day)
  }

  /** The state on this line, if it is a row. */
  function RowState(scan: Scan, line: string): Option<State> {
    var stripped := Strip(line);
    if Skipped(scan, stripped) || ClassifyHeading(stripped).0.Some? then None else ReadLine(line)
  }

  const PRIORITY_SECTIONS := ["inbox", "today", "urgent", "this_week", "backlog", "completed"]

  /** `mine`: whether an owner names the operator. */
  function RowOf(scan: Scan, mine: string -> bool, number: nat, lineNumber: nat, state: State): Row {
    var review := Contains(state.description, REVIEW);
    var words := if review then Strip(DropAll(state.description, REVIEW)) else state.description;
    var (owner, rest) := ParseOwner(words);
    Row(number, lineNumber, scan.section, if scan.section == "today" then scan.day else None,
        if state.checked then "completed"
          else if scan.section in PRIORITY_SECTIONS then scan.section else scan.priority,
        scan.delegated || (owner.Some? && !mine(owner.value)), review, owner, Strip(rest), state)
  }

  /** The scanner that line `i` is read with. */
  function ScanAt(lines: seq<string>, i: nat): Scan
    requires i <= |lines|
  {
    if i == 0 then Start else Next(ScanAt(lines, i - 1), lines[i - 1])
  }

  /** A heading changes the section but not the zone it ends; rows see the scanner after their own line. */
  function RowsUpTo(lines: seq<string>, mine: string -> bool, i: nat): seq<Row>
    requires i <= |lines|
  {
    if i == 0 then [] else
    var rows := RowsUpTo(lines, mine, i - 1);
    match RowState(ScanAt(lines, i - 1), lines[i - 1])
    case None => rows
    case Some(state) => rows + [RowOf(ScanAt(lines, i), mine, |rows| + 1, i, state)]
  }

  function Rows(lines: seq<string>, mine: string -> bool): seq<Row> { RowsUpTo(lines, mine, |lines|) }

  method ParsePath(lines: seq<string>, mine: string -> bool) returns (rows: seq<Row>)
    ensures rows == Rows(lines, mine)
  {
    hide ReadLine, ClassifyHeading, Contains, Strip, RowOf, EndsDelegatedZone, IsDelegatedHeading;
    rows := [];
    var scan := Start;
    var i := 0;
    while i < |lines|
      invariant i <= |lines| && scan == ScanAt(lines, i) && rows == RowsUpTo(lines, mine, i)
    {
      var line := lines[i];
      var stripped := Strip(line);
      ghost var before := scan;
      i := i + 1;
      if Contains(stripped, "<!--") { scan := scan.(inComment := true); }
      if Contains(stripped, "-->") {
        scan := scan.(inComment := false);
        continue;
      }
      if scan.inComment { continue; }
      if EndsDelegatedZone(stripped) { scan := scan.(delegated := false); }
      if IsDelegatedHeading(stripped) { scan := scan.(delegated := true); }
      var (section, day) := ClassifyHeading(stripped);
      if section.Some? {
        scan := scan.(section := section.value);
        if section.value != "other" { scan := scan.(priority := section.value, day := day); } else {
          scan := scan.(day := None);
        }
        continue;
      }
      assert scan == Next(before, line);
      var state := ReadLine(line);
      if state.None? { continue; }
      rows := rows + [RowOf(scan, mine, |rows| + 1, i, state.value)];
    }
  }

  // ------------------------------------------------------------- ids

  /** How many of the first `n` are these words. */
  function CountOf(words: seq<string>, n: nat, w: string): nat
    requires n <= |words|
  {
    |set k | 0 <= k < n && words[k] == w|
  }

  /** Ids: the words, normalised, and the number of earlier rows that say the same, hashed together. */
  function Ids(rows: seq<Row>, norm: string -> string, hash: (string, nat) -> string): seq<string> {
    seq(|rows|, i requires 0
      <= i < |rows| => hash(norm(rows[i].description), CountOf(Words(rows, norm), i, norm(rows[i].description))))
  }

  function Words(rows: seq<Row>, norm: string -> string): seq<string> {
    seq(|rows|, i requires 0 <= i < |rows| => norm(rows[i].description))
  }

  method AssignIds(rows: seq<Row>, norm: string -> string, hash: (string, nat) -> string) returns (ids: seq<string>)
    ensures ids == Ids(rows, norm, hash)
  {
    ids := [];
    var seen: map<string, nat> := map[];
    ghost var words := Words(rows, norm);
    for i := 0 to |rows|
      invariant |ids| == i && forall k :: 0 <= k < i ==> ids[k] == Ids(rows, norm, hash)[k]
      invariant forall w :: (if w in seen then seen[w] else 0) == CountOf(words, i, w)
    {
      var w := norm(rows[i].description);
      var ordinal := if w in seen then seen[w] else 0;
      CountNext(words, i, w);
      seen := seen[w := ordinal + 1];
      ids := ids + [hash(w, ordinal)];
    }
  }

  lemma CountNext(words: seq<string>, i: nat, w: string)
    requires i < |words| && words[i] == w
    ensures CountOf(words, i + 1, w) == CountOf(words, i, w) + 1
    ensures forall v :: v != w ==> CountOf(words, i + 1, v) == CountOf(words, i, v)
  {
    assert (set k | 0 <= k < i + 1 && words[k] == w) == (set k | 0 <= k < i && words[k] == w) + {i};
    forall v | v != w ensures CountOf(words, i + 1, v) == CountOf(words, i, v) {
      assert (set k | 0 <= k < i + 1 && words[k] == v) == (set k | 0 <= k < i && words[k] == v);
    }
  }

  /** Rows that say the same words in the same order have the same ids. */
  lemma SameWordsSameIds(a: seq<Row>, b: seq<Row>, norm: string -> string, hash: (string, nat) -> string)
    requires |a| == |b| && forall i :: 0 <= i < |a| ==> a[i].description == b[i].description
    ensures Ids(a, norm, hash) == Ids(b, norm, hash)
  {
    assert Words(a, norm) == Words(b, norm);
  }
}
