/**
  The head and tail windows of a large transcript: finding where the last record starts by walking back in
  chunks, opening the tail there when it is bigger than the window, and which records are read twice.
*/
module SessionWindows {
  import opened Wrappers

  const CHUNK: nat := 65536

  /** A complete record: a non-empty line, as its first byte and the byte past its last. */
  predicate IsRecord(s: string, b: nat, e: nat) {
    b < e <= |s| && (b == 0 || s[b - 1] == '\n') && (e == |s| || s[e] == '\n') && '\n' !in s[b..e]
  }

  // ------------------------------------------------------------- the last record

  /** The end of the file, before a newline that only closes the last record. */
  function SearchEnd(file: string): (e: nat)
    ensures e <= |file|
  {
    if file != "" && file[|file| - 1] == '\n' then |file| - 1 else |file|
  }

  function LastNewline(s: string): (i: Option<nat>)
    ensures i.Some? ==> i.value < |s| && s[i.value] == '\n' && '\n' !in s[i.value + 1..]
    ensures i.None? ==> '\n' !in s
  {
    if s == "" then None
    else if s[|s| - 1] == '\n' then Some(|s| - 1)
    else
      var i := LastNewline(s[..|s| - 1]);
      assert i.Some? ==> s[i.value + 1..] == s[..|s| - 1][i.value + 1..] + [s[|s| - 1]];
      i
  }

  /** What reading the whole file would answer: just past the last newline before the end, or the front. */
  function WholeFileAnswer(file: string): nat {
    match LastNewline(file[..SearchEnd(file)])
    case Some(i) => i + 1
    case None => 0
  }

  function Floor(file: string, limit: nat): nat { if |file| < limit then 0 else |file| - limit }

  lemma LastNewlineIs(s: string, i: nat)
    requires i < |s| && s[i] == '\n' && '\n' !in s[i + 1..]
    ensures LastNewline(s) == Some(i)
  {
    hide LastNewline;
    var j := LastNewline(s);
    NoneFrom(s, i + 1);
    if j.Some? { NoneFrom(s, j.value + 1); }
  }

  lemma NoneFrom(s: string, from: nat)
    requires from <= |s| && '\n' !in s[from..]
    ensures forall k :: from <= k < |s| ==> s[k] != '\n'
  {
    assert forall k :: from <= k < |s| ==> s[k] == s[from..][k - from];
  }

  lemma NoneAfter(s: string, from: nat, to: nat)
    requires from <= to <= |s| && '\n' !in s[from..to]
    ensures forall k :: from <= k < to ==> s[k] != '\n'
  {
    assert forall k :: from <= k < to ==> s[k] == s[from..to][k - from];
  }

  /**
    The walk back agrees with the whole file: it finds the last record's start exactly when that lies above the
    floor, or
    the floor is the front of the file; otherwise it gives up. A file with no last record has none.
  */
  method LastRecordStart(file: string, limit: nat) returns (r: Option<nat>)
    ensures r == if SearchEnd(file) > 0 && (WholeFileAnswer(file) > Floor(file, limit) || Floor(file, limit) == 0)
                 then Some(WholeFileAnswer(file)) else None
  {
    hide LastNewline, WholeFileAnswer, SearchEnd;
    var size := |file|;
    if size <= 0 {
      EndIs(file);
      return None;
    }
    var searchEnd := if file[size - 1] == '\n' then size - 1 else size;
    assert searchEnd == SearchEnd(file) by { EndIs(file); }
    if searchEnd <= 0 { return None; }
    var floor := if size < limit then 0 else size - limit;
    var pos := searchEnd;
    while pos > floor
      invariant pos <= searchEnd && (pos >= floor || pos == searchEnd) && '\n' !in file[pos..searchEnd]
      decreases pos
    {
      var start := if pos < floor + CHUNK then floor else pos - CHUNK;
      var buf := file[start..pos];
      var idx := LastNewline(buf);
      if idx.Some? {
        FoundIt(file, searchEnd, start, pos, idx.value);
        return Some(start + idx.value + 1);
      }
      assert file[start..searchEnd] == buf + file[pos..searchEnd];
      pos := start;
    }
    NotFound(file, searchEnd, pos, floor);
    return if floor == 0 then Some(0) else None;
  }

  lemma EndIs(file: string)
    ensures SearchEnd(file) == if |file| > 0 && file[|file| - 1] == '\n' then |file| - 1 else |file|
  {
  }

  lemma FoundIt(file: string, searchEnd: nat, start: nat, pos: nat, i: nat)
    requires start <= pos <= searchEnd <= |file| && searchEnd == SearchEnd(file) && '\n' !in file[pos..searchEnd]
    requires i < pos - start && file[start..pos][i] == '\n' && '\n' !in file[start..pos][i + 1..]
    ensures WholeFileAnswer(file) == start + i + 1
  {
    hide LastNewline;
    var s := file[..searchEnd];
    assert s[start + i] == file[start..pos][i];
    assert s[start + i + 1..] == file[start..pos][i + 1..] + file[pos..searchEnd];
    LastNewlineIs(s, start + i);
  }

  lemma NotFound(file: string, searchEnd: nat, pos: nat, floor: nat)
    requires pos <= floor && pos <= searchEnd <= |file| && searchEnd == SearchEnd(file) && '\n' !in file[pos..searchEnd]
    ensures WholeFileAnswer(file) <= floor
    ensures floor == 0 ==> WholeFileAnswer(file) == 0
  {
    NoneAfter(file, pos, searchEnd);
  }

  /** The answer is where the last record starts, when the last line is not empty. */
  lemma LastRecordIs(file: string)
    requires SearchEnd(file) > 0
    ensures WholeFileAnswer(file) <= SearchEnd(file)
    ensures WholeFileAnswer(file) < SearchEnd(file) <==> IsRecord(file, WholeFileAnswer(file), SearchEnd(file))
    ensures forall b: nat, e: nat :: IsRecord(file, b, e) ==> b <= WholeFileAnswer(file)
    ensures forall b: nat, e: nat :: IsRecord(file, b, e) && b == WholeFileAnswer(file) ==> e == SearchEnd(file)
  {
    var w, end := WholeFileAnswer(file), SearchEnd(file);
    var s := file[..end];
    assert forall k :: w <= k < end ==> file[k] == s[w..][k - w] && file[k] != '\n';
    forall b: nat, e: nat | IsRecord(file, b, e) ensures b <= w && (b == w ==> e == end) {
      assert forall k :: b <= k < e ==> file[b..e][k - b] == file[k];
    }
    assert forall k :: w <= k < end ==> file[w..end][k - w] == file[k];
  }

  // ------------------------------------------------------------- the tail window

  function Preferred(file: string, headBytes: nat, tailBytes: nat): nat {
    var back := if |file| < tailBytes then 0 else |file| - tailBytes;
    if headBytes > back then headBytes else back
  }

  /** The tail opens at its ordinary start, unless the last record starts behind that and within reach. */
  predicate ReachesBack(file: string, headBytes: nat, tailBytes: nat, extraBytes: nat) {
    SearchEnd(file) > 0 && WholeFileAnswer(file) < Preferred(file, headBytes, tailBytes)
    && (WholeFileAnswer(file) > Floor(file, tailBytes + extraBytes) || Floor(file, tailBytes + extraBytes) == 0)
  }

  method TailWindowStart(file: string, headBytes: nat, tailBytes: nat, extraBytes: nat) returns (start: nat)
    ensures start == if ReachesBack(file, headBytes, tailBytes, extraBytes) then WholeFileAnswer(file)
            else Preferred(file, headBytes, tailBytes)
  {
    var back := if |file| < tailBytes then 0 else |file| - tailBytes;
    var preferred := if headBytes > back then headBytes else back;
    var boundary := LastRecordStart(file, tailBytes + extraBytes);
    if boundary.None? || boundary.value >= preferred { return preferred; }
    return boundary.value;
  }

  function TailStart(file: string, headBytes: nat, tailBytes: nat, extraBytes: nat): nat {
    if ReachesBack(file, headBytes, tailBytes, extraBytes) then WholeFileAnswer(file)
      else Preferred(file, headBytes, tailBytes)
  }

  /** The head window yields this record of the file whole. */
  predicate InHead(file: string, headBytes: nat, b: nat, e: nat) {
    IsRecord(file, b, e) && IsRecord(if headBytes < |file| then file[..headBytes] else file, b, e)
  }

  predicate InTail(file: string, start: nat, b: nat, e: nat) {
    IsRecord(file, b, e) && start <= b && start <= |file| && IsRecord(file[start..], b - start, e - start)
  }

  lemma InHeadIs(file: string, headBytes: nat, b: nat, e: nat)
    requires IsRecord(file, b, e)
    ensures InHead(file, headBytes, b, e) <==> e <= headBytes || |file| <= headBytes
  {
    if headBytes < |file| && e <= headBytes {
      assert file[..headBytes][b..e] == file[b..e];
    }
  }

  lemma InTailIs(file: string, start: nat, b: nat, e: nat)
    requires IsRecord(file, b, e)
    ensures InTail(file, start, b, e) <==> start <= b
  {
    if start <= b {
      assert file[start..][b - start..e - start] == file[b..e];
    }
  }

  /**
    A complete record is read twice if and only if the tail reached back to the last record and that record's text
    ends within the head; then it is that record, and no other. A head as large as the file is no exception.
  */
  lemma ReadTwiceExactly(file: string, headBytes: nat, tailBytes: nat, extraBytes: nat, b: nat, e: nat)
    requires IsRecord(file, b, e)
    ensures var start := TailStart(file, headBytes, tailBytes, extraBytes);
            (InHead(file, headBytes, b, e) && InTail(file, start, b, e))
            <==>
            (ReachesBack(file, headBytes, tailBytes, extraBytes)
             && SearchEnd(file) <= headBytes && b == WholeFileAnswer(file))
  {
    hide IsRecord, LastNewline, WholeFileAnswer;
    var start := TailStart(file, headBytes, tailBytes, extraBytes);
    InHeadIs(file, headBytes, b, e);
    InTailIs(file, start, b, e);
    assert b < e <= |file| by { RecordBounds(file, b, e); }
    if SearchEnd(file) > 0 { LastRecordIs(file); }
  }

  lemma RecordBounds(file: string, b: nat, e: nat)
    requires IsRecord(file, b, e)
    ensures b < e <= |file|
  {
  }

  /** So with a ceiling above the head, as the reader has, no record of a file past the ceiling is ever read twice. */
  lemma NeverTwiceBelowTheCeiling(file: string, maxBytes: nat, headBytes: nat, tailBytes: nat,
                                  extraBytes: nat, b: nat, e: nat)
    requires headBytes < maxBytes < |file| && IsRecord(file, b, e)
    ensures !(InHead(file, headBytes, b, e) && InTail(file, TailStart(file, headBytes, tailBytes, extraBytes), b, e))
  {
    ReadTwiceExactly(file, headBytes, tailBytes, extraBytes, b, e);
  }

  /** With the ceiling no higher than the head it can be: one record, closed by a newline just past the head. */
  lemma CanBeReadTwice() returns (file: string)
    ensures |file| == 4 && InHead(file, 3, 0, 3) && InTail(file, TailStart(file, 3, 1, 3), 0, 3)
  {
    file := "abc\n";
    assert file[..3] == "abc" && '\n' !in "abc";
    assert file[0..3] == "abc";
    assert IsRecord(file, 0, 3);
    var w := LastNewline(file[..3]);
    assert w == None;
    ReadTwiceExactly(file, 3, 1, 3, 0, 3);
  }

  /**
    Reaching back recovers what it is for: the last record is in the tail if it starts in reach or in the
    ordinary window.
  */
  lemma LastRecordIsRead(file: string, headBytes: nat, tailBytes: nat, extraBytes: nat)
    requires SearchEnd(file) > 0 && WholeFileAnswer(file) < SearchEnd(file)
    ensures InTail(file, TailStart(file, headBytes, tailBytes, extraBytes), WholeFileAnswer(file), SearchEnd(file))
       <==>
       (ReachesBack(file, headBytes, tailBytes, extraBytes)
        || WholeFileAnswer(file) >= Preferred(file, headBytes, tailBytes))
  {
    hide IsRecord, LastNewline, WholeFileAnswer;
    LastRecordIs(file);
    InTailIs(file, TailStart(file, headBytes, tailBytes, extraBytes), WholeFileAnswer(file), SearchEnd(file));
  }
}
