/**
  Reading the end of a transcript window by window gives what reading all of it would. A file is its
  bytes, one character each; a record is a line.
*/
module SessionTurns {
  import opened Wrappers

  const SESSION_TURNS_MAX: int := 40

  /** One message: whose, its text, and when. */
  datatype Turn = Turn(role: string, text: string, at: Option<string>)

  /** One character more on the last line, or one line more. */
  function Grown(lines: seq<string>, c: char): seq<string>
    requires lines != []
  {
    if c == '\n' then lines + [""] else lines[|lines| - 1 := lines[|lines| - 1] + [c]]
  }

  /** `split('\n')`: never empty; a final newline leaves a final empty line. */
  function Lines(s: string): (lines: seq<string>)
    ensures |lines| > 0
  {
    if s == "" then [""]
    else
      Grown(Lines(s[..|s| - 1]), s[|s| - 1])
  }

  /** Each message a line holds, in file order. */
  function TurnsOf(read: string -> Option<Turn>, lines: seq<string>): seq<Turn> {
    if lines == [] then []
    else
      var front := TurnsOf(read, lines[..|lines| - 1]);
      if read(lines[|lines| - 1]).Some? then front + [read(lines[|lines| - 1]).value] else front
  }

  /** `slice(-n)` for positive `n`. */
  function Newest(s: seq<Turn>, n: nat): (r: seq<Turn>)
    ensures |r| == if |s| < n then |s| else n
  {
    s[if |s| < n then 0 else |s| - n..]
  }

  predicate LastLines(a: seq<string>, b: seq<string>) { |a| <= |b| && b[|b| - |a|..] == a }

  predicate IsSuffix(a: seq<Turn>, b: seq<Turn>) { |a| <= |b| && b[|b| - |a|..] == a }

  method RecentSessionTurns(read: string -> Option<Turn>, lines: seq<string>, limit: nat) returns (r: seq<Turn>)
    ensures r == Newest(TurnsOf(read, lines), limit)
  {
    var out: seq<Turn> := [];
    for k := 0 to |lines|
      invariant out == TurnsOf(read, lines[..k])
    {
      assert lines[..k + 1][..k] == lines[..k];
      var turn := read(lines[k]);
      if turn.Some? { out := out + [turn.value]; }
    }
    assert lines[..|lines|] == lines;
    return if limit > 0 then out[if |out| < limit then 0 else |out| - limit..] else [];
  }

  // ------------------------------------------------------------- a window's lines are the file's last lines

  /** Cutting a text anywhere joins the last line before the cut to the first after it, and changes no other line. */
  lemma {:induction false} LinesJoin(a: string, b: string)
    ensures var x, y := Lines(a), Lines(b);
            Lines(a + b) == x[..|x| - 1] + [x[|x| - 1] + y[0]] + y[1..]
  {
    var x, y := Lines(a), Lines(b);
    if b == "" {
      assert a + b == a;
      assert x[|x| - 1] + "" == x[|x| - 1];
    } else {
      var c, front := b[|b| - 1], b[..|b| - 1];
      LinesJoin(a, front);
      assert (a + b)[..|a + b| - 1] == a + front && (a + b)[|a + b| - 1] == c;
      LineGrows(x, Lines(front), c);
    }
  }

  lemma LineGrows(x: seq<string>, z: seq<string>, c: char)
    requires x != [] && z != []
    ensures var y := Grown(z, c);
            Grown(x[..|x| - 1] + [x[|x| - 1] + z[0]] + z[1..], c) == x[..|x| - 1] + [x[|x| - 1] + y[0]] + y[1..]
  {
    var joined, y := x[..|x| - 1] + [x[|x| - 1] + z[0]] + z[1..], Grown(z, c);
    if c == '\n' {
      assert joined + [""] == x[..|x| - 1] + [x[|x| - 1] + y[0]] + y[1..];
    } else if |z| == 1 {
      assert x[|x| - 1] + z[0] + [c] == x[|x| - 1] + (z[0] + [c]);
    } else {
      assert joined[|joined| - 1] == z[|z| - 1];
    }
  }

  lemma WindowLines(file: string, from: nat)
    requires from <= |file|
    ensures LastLines(Lines(file[from..])[1..], Lines(file))
  {
    hide Lines, LastLines;
    LinesJoin(file[..from], file[from..]);
    assert file[..from] + file[from..] == file;
    var x, y := Lines(file[..from]), Lines(file[from..]);
    EndsWith(x[..|x| - 1] + [x[|x| - 1] + y[0]], y[1..]);
  }

  lemma EndsWith(a: seq<string>, b: seq<string>)
    ensures LastLines(b, a + b)
  {
  }

  lemma {:induction false} TurnsJoin(read: string -> Option<Turn>, a: seq<string>, b: seq<string>)
    ensures TurnsOf(read, a + b) == TurnsOf(read, a) + TurnsOf(read, b)
  {
    if b == [] {
      assert a + b == a;
    } else {
      assert (a + b)[..|a + b| - 1] == a + b[..|b| - 1];
      TurnsJoin(read, a, b[..|b| - 1]);
    }
  }

  lemma SuffixTurns(read: string -> Option<Turn>, a: seq<string>, b: seq<string>)
    requires LastLines(a, b)
    ensures IsSuffix(TurnsOf(read, a), TurnsOf(read, b))
  {
    TurnsJoin(read, b[..|b| - |a|], a);
    assert b == b[..|b| - |a|] + a;
  }

  lemma NewestOfSuffix(a: seq<Turn>, b: seq<Turn>, n: nat, m: nat)
    requires IsSuffix(a, b) && m <= n
    ensures IsSuffix(Newest(Newest(a, n), m), b)
    ensures |Newest(a, n)| >= m ==> Newest(Newest(a, n), m) == Newest(b, m)
  {
  }

  // ------------------------------------------------------------- the windowed reader

  /**
    What a read of the newest messages must answer: always the end of the whole file's messages. When as many as
    wanted are returned they are exactly the newest wanted; when there is said to be no more, it is every message of
    the file; and when the whole file was read and there is more, as many as wanted are returned.
  */
  predicate ReadsEnd(all: seq<Turn>, turns: seq<Turn>, more: bool, bytesRead: nat, size: nat, want: nat) {
    IsSuffix(turns, all) && |turns| <= want && bytesRead <= size
    && (want > 0 && !more ==> turns == all)
    && (want > 0 && |turns| == want ==> turns == Newest(all, want))
    && (more && bytesRead == size ==> |all| > want && |turns| == want)
  }

  /** No window reaches the front of the file. */
  predicate AllShort(windows: seq<nat>, size: nat) { forall k :: 0 <= k < |windows| ==> windows[k] < size }

  /**
    When there is said to be more: when there is, and also whenever every window is shorter than the file, even if
    no message precedes those returned.
  */
  predicate SaysMore(all: seq<Turn>, turns: seq<Turn>, more: bool, windows: seq<nat>, size: nat, want: nat) {
    more <==> want > 0 && (|all| > |turns| || (size > 0 && AllShort(windows, size)))
  }

  function Wanted(limit: int): nat
  {
    if limit < 0 then 0 else if limit > SESSION_TURNS_MAX then SESSION_TURNS_MAX else limit
  }

  /** `read` is the message of one line; an empty line is no record. */
  method ReadRecentSessionTurns(file: string, read: string -> Option<Turn>, limit: int, windows: seq<nat>)
    returns (turns: seq<Turn>, more: bool, bytesRead: nat)
    requires read("") == None
    ensures ReadsEnd(TurnsOf(read, Lines(file)), turns, more, bytesRead, |file|, Wanted(limit))
    ensures SaysMore(TurnsOf(read, Lines(file)), turns, more, windows, |file|, Wanted(limit))
  {
    hide Lines, TurnsOf, IsSuffix, Newest, ReadsEnd, Wanted;
    var want := Wanted(limit);
    ghost var all := TurnsOf(read, Lines(file));
    if want == 0 || file == "" {
      NothingRead(read, file, want);
      return [], false, 0;
    }
    var found: seq<Turn> := [];
    var start := |file|;
    ghost var seen: seq<Turn> := [];
    NothingFound(all, want);
    var k := 0;
    while k < |windows|
      invariant 0 <= k <= |windows| && 0 <= start <= |file|
      invariant IsSuffix(seen, all) && found == Newest(seen, want + 1)
      invariant start > 0 && forall j :: 0 <= j < k ==> windows[j] < |file|
    {
      found, start, seen := ReadWindow(file, read, windows[k], want);
      if |found| > want || start == 0 { break; }
      k := k + 1;
    }
    more := |found| > want || start > 0;
    turns := found[if |found| < want then 0 else |found| - want..];
    bytesRead := |file| - start;
    ReadIs(seen, all, found, turns, want, |file|, start);
    if |found| <= want && start == 0 { assert !AllShort(windows, |file|) by { assert windows[k] >= |file|; } }
    MoreIs(seen, all, found, turns, want, start);
  }

  lemma MoreIs(seen: seq<Turn>, all: seq<Turn>, found: seq<Turn>, turns: seq<Turn>, want: nat, start: nat)
    requires IsSuffix(seen, all) && found == Newest(seen, want + 1)
             && turns == found[if |found| < want then 0 else |found| - want..]
    requires start == 0 ==> seen == all
    ensures |all| > |turns| ==> |found| > want || start > 0
    ensures |found| > want ==> |all| > |turns|
  {
  }

  /** Two bytes that hold no message, read through a window of one: nothing is returned, and more is promised. */
  lemma MoreOfNothing(read: string -> Option<Turn>, turns: seq<Turn>, more: bool, bytesRead: nat)
    requires forall line :: read(line) == None
    requires ReadsEnd(TurnsOf(read, Lines("ab")), turns, more, bytesRead, 2, 5)
             && SaysMore(TurnsOf(read, Lines("ab")), turns, more, [1], 2, 5)
    ensures more && turns == [] == TurnsOf(read, Lines("ab"))
  {
    hide Lines;
    NoMessages(read, Lines("ab"));
  }

  lemma {:induction false} NoMessages(read: string -> Option<Turn>, lines: seq<string>)
    requires forall line :: read(line) == None
    ensures TurnsOf(read, lines) == []
  {
    if lines != [] { NoMessages(read, lines[..|lines| - 1]); }
  }

  /** The messages of the whole lines of one window, the newest `want + 1` of them. */
  method ReadWindow(file: string, read: string -> Option<Turn>, window: nat, want: nat)
    returns (found: seq<Turn>, start: nat, ghost seen: seq<Turn>)
    ensures start == (if |file| < window then 0 else |file| - window)
    ensures IsSuffix(seen, TurnsOf(read, Lines(file))) && found == Newest(seen, want + 1)
    ensures start == 0 ==> seen == TurnsOf(read, Lines(file))
  {
    hide Lines, TurnsOf, IsSuffix, Newest;
    start := if |file| < window then 0 else |file| - window;
    var from := if start > 0 then start - 1 else 0;
    var lines := Lines(file[from..]);
    if start > 0 { lines := lines[1..]; }
    found := RecentSessionTurns(read, lines, want + 1);
    WindowIsSuffix(read, file, start, from);
    seen := TurnsOf(read, lines);
  }

  /** What the last of a suffix is of the whole. */
  lemma ReadIs(seen: seq<Turn>, all: seq<Turn>, found: seq<Turn>, turns: seq<Turn>, want: nat, size: nat, start: nat)
    requires IsSuffix(seen, all) && found == Newest(seen, want + 1)
             && turns == found[if |found| < want then 0 else |found| - want..]
    requires start <= size && (start == 0 ==> seen == all)
    ensures ReadsEnd(all, turns, |found| > want || start > 0, size - start, size, want)
  {
    NewestOfSuffix(seen, all, want + 1, want);
    assert turns == Newest(found, want);
  }

  lemma NothingFound(all: seq<Turn>, want: nat)
    ensures IsSuffix([], all) && Newest([], want + 1) == []
  {
  }

  /** With nothing wanted, or nothing in the file, there is nothing to return. */
  lemma NothingRead(read: string -> Option<Turn>, file: string, want: nat)
    requires read("") == None && (want == 0 || file == "")
    ensures ReadsEnd(TurnsOf(read, Lines(file)), [], false, 0, |file|, want)
  {
    if file == "" { EmptyFile(read); }
  }

  lemma EmptyFile(read: string -> Option<Turn>)
    requires read("") == None
    ensures TurnsOf(read, Lines("")) == []
  {
    assert [""][..0] == [] && TurnsOf(read, []) == [];
  }

  lemma WindowIsSuffix(read: string -> Option<Turn>, file: string, start: nat, from: nat)
    requires start <= |file| && from == if start > 0 then start - 1 else 0
    ensures var lines := Lines(file[from..]);
            var kept := if start > 0 then lines[1..] else lines;
            IsSuffix(TurnsOf(read, kept), TurnsOf(read, Lines(file))) && (start == 0 ==> kept == Lines(file))
  {
    hide Lines, TurnsOf;
    if start > 0 {
      WindowLines(file, from);
      SuffixTurns(read, Lines(file[from..])[1..], Lines(file));
    } else {
      assert file[0..] == file;
    }
  }
}
