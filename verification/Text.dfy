/** Characters and strings as Python sees them. */
module Text {
  import opened Wrappers

  /** `str.isspace`, and `\s` in a pattern over text. */
  predicate IsSpace(c: char) {
    c == ' ' || '\t' <= c <= '\r' || '\U{1C}' <= c <= '\U{1F}' || c == '\U{85}' || c == '\U{A0}' || c == '\U{1680}'
    || '\U{2000}' <= c <= '\U{200A}' || c == '\U{2028}' || c == '\U{2029}' || c == '\U{202F}'
    || c == '\U{205F}' || c == '\U{3000}'
  }

  predicate IsBlank(s: string) { forall i :: 0 <= i < |s| ==> IsSpace(s[i]) }

  function LStrip(s: string): (r: string)
    ensures r != "" ==> !IsSpace(r[0])
    ensures |r| <= |s| && s[|s| - |r|..] == r && IsBlank(s[..|s| - |r|])
  {
    if s != "" && IsSpace(s[0]) then
      var r := LStrip(s[1..]);
      var n := |s| - |r|;
      assert s[..n] == [s[0]] + s[1..][..n - 1];
      assert s[n..] == s[1..][n - 1..];
      r
    else s
  }

  function RStrip(s: string): (r: string)
    ensures r != "" ==> !IsSpace(r[|r| - 1])
    ensures |r| <= |s| && s[..|r|] == r && IsBlank(s[|r|..])
  {
    if s != "" && IsSpace(s[|s| - 1]) then RStrip(s[..|s| - 1]) else s
  }

  /** `str.strip`. */
  function Strip(s: string): string { RStrip(LStrip(s)) }

  /** Nothing to strip. */
  predicate IsTrimmed(s: string) { s == "" || (!IsSpace(s[0]) && !IsSpace(s[|s| - 1])) }

  predicate At(s: string, i: int, needle: string) { 0 <= i && i + |needle| <= |s| && s[i..i + |needle|] == needle }

  predicate Contains(s: string, needle: string) { exists i :: 0 <= i <= |s| && At(s, i, needle) }

  /** `str.find` from `from` on: the first occurrence. */
  function IndexOf(s: string, needle: string, from: nat): (at: Option<nat>)
    ensures at.Some? ==> from <= at.value && At(s, at.value, needle)
    decreases |s| - from
  {
    if At(s, from, needle) then Some(from) else if from >= |s| then None else IndexOf(s, needle, from + 1)
  }

  /** `str.count` from `from` on: occurrences that do not overlap. */
  function Count(s: string, needle: string, from: nat): nat
    requires needle != ""
    decreases |s| - from
  {
    if from + |needle| > |s| then 0
    else if At(s, from, needle) then 1 + Count(s, needle, from + |needle|)
    else Count(s, needle, from + 1)
  }

  /** Places the needle stands at, from `from` on, none overlapping the next. */
  predicate DisjointPlaces(s: string, needle: string, from: nat, places: seq<nat>) {
    (forall k :: 0 <= k < |places| ==> from <= places[k] && At(s, places[k], needle))
    && forall k, l :: 0 <= k < l < |places| ==> places[k] + |needle| <= places[l]
  }

  /** Taking the first match each time finds as many as any choice of disjoint places. */
  lemma {:induction false} GreedyIsMost(s: string, needle: string, from: nat, places: seq<nat>)
    requires needle != "" && DisjointPlaces(s, needle, from, places)
    ensures |places| <= Count(s, needle, from)
    decreases |s| - from
  {
    if places != [] {
      assert At(s, places[0], needle);
      if At(s, from, needle) {
        GreedyIsMost(s, needle, from + |needle|, places[1..]);
      } else {
        assert places[0] != from;
        assert forall k :: 0 < k < |places| ==> places[0] + |needle| <= places[k];
        GreedyIsMost(s, needle, from + 1, places);
      }
    }
  }

  /** The letters whose lower case is one of the letters these modules look for; the Kelvin sign lowers to `k`. */
  function Lower(c: char): char {
    if 'A' <= c <= 'Z' then c - 'A' + 'a' else if c == '\U{212A}' then 'k' else c
  }

  function LowerAll(s: string): (r: string)
    ensures |r| == |s|
  {
    seq(|s|, i requires 0 <= i < |s| => Lower(s[i]))
  }

  lemma {:induction false} RStripTrimmed(s: string, blanks: string)
    requires IsBlank(blanks) && (s == "" || !IsSpace(s[|s| - 1]))
    ensures RStrip(s + blanks) == s
  {
    var all := s + blanks;
    if blanks == "" {
      assert all == s;
    } else {
      assert all[..|all| - 1] == s + blanks[..|blanks| - 1];
      RStripTrimmed(s, blanks[..|blanks| - 1]);
    }
  }

  lemma {:induction false} LStripTrimmed(blanks: string, s: string)
    requires IsBlank(blanks) && (s == "" || !IsSpace(s[0]))
    ensures LStrip(blanks + s) == s
  {
    var all := blanks + s;
    if blanks == "" {
      assert all == s;
    } else {
      assert all[1..] == blanks[1..] + s;
      LStripTrimmed(blanks[1..], s);
    }
  }

  lemma TrimmedStays(s: string)
    requires IsTrimmed(s)
    ensures Strip(s) == s
  {
    assert "" + s == s && s + "" == s;
    LStripTrimmed("", s);
    RStripTrimmed(s, "");
  }

  /** What strip leaves is the one trimmed middle: anything blank around it goes. */
  lemma StripIs(before: string, s: string, after: string)
    requires IsBlank(before) && IsBlank(after) && IsTrimmed(s)
    ensures Strip(before + s + after) == s
  {
    assert before + s + after == before + (s + after);
    if s == "" {
      assert s + after == after && before + after == before + after + "";
      assert IsBlank(before + after);
      LStripTrimmed(before + after, "");
      assert RStrip("") == "";
    } else {
      LStripTrimmed(before, s + after);
      RStripTrimmed(s, after);
    }
  }

  lemma StripTrims(s: string)
    ensures IsTrimmed(Strip(s))
  {
    var l := LStrip(s);
    var r := RStrip(l);
    if r != "" { assert l[..|r|][0] == r[0] == l[0]; }
  }

  lemma StripParts(s: string) returns (left: string, right: string)
    ensures s == left + Strip(s) + right && IsBlank(left) && IsBlank(right)
  {
    hide IsSpace, IsBlank, LStrip, RStrip;
    var l := LStrip(s);
    var r := RStrip(l);
    left, right := s[..|s| - |l|], l[|r|..];
    SplitAt(s, |s| - |l|);
    SplitAt(l, |r|);
    assert left + l == left + (r + right) == left + r + right;
  }

  lemma SplitAt(s: string, n: nat)
    requires n <= |s|
    ensures s == s[..n] + s[n..]
  {
  }

  lemma BlankJoin(a: string, b: string)
    requires IsBlank(a) && IsBlank(b)
    ensures IsBlank(a + b)
  {
  }

  /** Blank text at either end changes nothing. */
  lemma StripAround(before: string, s: string, after: string)
    requires IsBlank(before) && IsBlank(after)
    ensures Strip(before + s + after) == Strip(s)
  {
    hide IsSpace, IsBlank, Strip, IsTrimmed;
    var left, right := StripParts(s);
    var r := Strip(s);
    StripTrims(s);
    BlankJoin(before, left);
    BlankJoin(right, after);
    StripIs(before + left, r, right + after);
    assert before + (left + r + right) + after == before + left + r + (right + after);
  }

  /** Exactly one occurrence, wherever it is, counts as one. */
  lemma {:induction false} CountsOne(s: string, needle: string, only: nat, from: nat)
    requires needle != "" && At(s, only, needle)
    requires forall i :: 0 <= i <= |s| && At(s, i, needle) ==> i == only
    ensures Count(s, needle, from) == if from <= only then 1 else 0
    decreases |s| - from
  {
    if from + |needle| <= |s| {
      if At(s, from, needle) { CountsOne(s, needle, only, from + |needle|); } else {
        CountsOne(s, needle, only, from + 1);
      }
    }
  }

  lemma {:induction false} FirstAt(s: string, needle: string, from: nat, at: nat)
    requires from <= at && At(s, at, needle) && forall i :: from <= i < at ==> !At(s, i, needle)
    ensures IndexOf(s, needle, from) == Some(at)
    decreases at - from
  {
    if from < at { FirstAt(s, needle, from + 1, at); }
  }

  lemma {:induction false} NowhereFrom(s: string, needle: string, from: nat)
    requires forall i :: from <= i <= |s| ==> !At(s, i, needle)
    ensures IndexOf(s, needle, from) == None
    decreases |s| - from
  {
    if from < |s| { NowhereFrom(s, needle, from + 1); }
  }

  lemma NotContained(s: string, needle: string)
    requires !Contains(s, needle)
    ensures IndexOf(s, needle, 0) == None
  {
    NowhereFrom(s, needle, 0);
  }

  /** An occurrence in a part is one in the whole. */
  lemma PartOf(left: string, s: string, right: string, needle: string)
    requires !Contains(left + s + right, needle)
    ensures !Contains(s, needle)
  {
    var all := left + s + right;
    forall i | 0 <= i <= |s| ensures !At(s, i, needle) {
      if i + |needle| <= |s| { assert all[|left| + i..|left| + i + |needle|] == s[i..i + |needle|]; }
      assert !At(all, |left| + i, needle);
    }
  }

  /** A word with no blank in it is in `a b` only if it is in `a` or in `b`. */
  lemma NotAcrossBlank(a: string, b: string, word: string)
    requires ' ' !in word && word != "" && !Contains(a, word) && !Contains(b, word)
    ensures !Contains(a + " " + b, word)
  {
    var s := a + " " + b;
    forall i | 0 <= i <= |s| ensures !At(s, i, word) {
      var n := i + |word|;
      if n <= |a| {
        assert s[i..n] == a[i..n];
        assert !At(a, i, word);
      } else if i > |a| && n <= |s| {
        assert s[i..n] == b[i - |a| - 1..n - |a| - 1];
        assert !At(b, i - |a| - 1, word);
      } else if n <= |s| {
        assert s[i..n][|a| - i] == ' ';
      }
    }
  }

  lemma NotWithout(s: string, word: string, c: char)
    requires c in word && c !in s
    ensures !Contains(s, word)
  {
    var k :| 0 <= k < |word| && word[k] == c;
    forall i | 0 <= i <= |s| ensures !At(s, i, word) {
      if i + |word| <= |s| { assert s[i..i + |word|][k] == s[i + k]; }
    }
  }

  lemma TooShort(s: string, word: string)
    requires |s| < |word|
    ensures !Contains(s, word)
  {
  }
}
