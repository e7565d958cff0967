/**
  Searching a day file chunk by chunk: each chunk is read behind the last characters of the one before,
  so that a match on a boundary is found, and found once.
*/
module ArchiveSearch {
  import opened Wrappers
  import opened Text

  /** Lower-casing, one character for one. */
  function Lowered(low: char -> char, s: string): (r: string)
    ensures |r| == |s|
  {
    seq(|s|, i requires 0 <= i < |s| => low(s[i]))
  }

  /** How many places from `from` on the needle stands at, overlapping or not. */
  function CountAll(s: string, needle: string, from: nat): nat
    decreases |s| - from
  {
    if from >= |s| then 0 else (if At(s, from, needle) then 1 else 0) + CountAll(s, needle, from + 1)
  }

  /** No prefix of the needle, other than all of it, is also a suffix: it cannot overlap itself. */
  predicate Borderless(needle: string) { forall k :: 0 < k < |needle| ==> needle[..k] != needle[|needle| - k..] }

  // ------------------------------------------------------------- greedy counting is best

  lemma {:induction false} GreedyIsReached(s: string, needle: string, from: nat) returns (places: seq<nat>)
    requires needle != ""
    ensures DisjointPlaces(s, needle, from, places) && |places| == Count(s, needle, from)
    decreases |s| - from
  {
    if from + |needle| > |s| {
      places := [];
    } else if At(s, from, needle) {
      var rest := GreedyIsReached(s, needle, from + |needle|);
      places := [from] + rest;
    } else {
      places := GreedyIsReached(s, needle, from + 1);
    }
  }

  /** So the count is the greatest number of places that do not overlap. */
  lemma CountIsMostDisjoint(s: string, needle: string)
    requires needle != ""
    ensures forall places :: DisjointPlaces(s, needle, 0, places) ==> |places| <= Count(s, needle, 0)
    ensures exists places :: DisjointPlaces(s, needle, 0, places) && |places| == Count(s, needle, 0)
  {
    hide Count, DisjointPlaces;
    forall places | DisjointPlaces(s, needle, 0, places) ensures |places| <= Count(s, needle, 0) {
      GreedyIsMost(s, needle, 0, places);
    }
    var places := GreedyIsReached(s, needle, 0);
  }

  lemma {:induction false} AllFromLater(s: string, needle: string, from: nat, to: nat)
    requires from <= to
    ensures CountAll(s, needle, to) <= CountAll(s, needle, from)
    ensures (forall i :: from <= i < to ==> !At(s, i, needle)) ==> CountAll(s, needle, to) == CountAll(s, needle, from)
    decreases if from <= to then to - from else 0
  {
    if from < to { AllFromLater(s, needle, from + 1, to); }
  }

  lemma {:induction false} DisjointIsSome(s: string, needle: string, from: nat)
    requires needle != ""
    ensures Count(s, needle, from) <= CountAll(s, needle, from)
    ensures Borderless(needle) ==> Count(s, needle, from) == CountAll(s, needle, from)
    decreases |s| - from
  {
    hide Borderless;
    if from + |needle| > |s| {
      AllFromLater(s, needle, from, |s| + from);
    } else if At(s, from, needle) {
      DisjointIsSome(s, needle, from + |needle|);
      AllFromLater(s, needle, from + 1, from + |needle|);
      if Borderless(needle) {
        forall i | from < i < from + |needle| ensures !At(s, i, needle) { NoOverlap(s, needle, from, i); }
      }
    } else {
      DisjointIsSome(s, needle, from + 1);
    }
  }

  lemma NoOverlap(s: string, needle: string, x: nat, y: nat)
    requires Borderless(needle) && At(s, x, needle) && x < y < x + |needle|
    ensures !At(s, y, needle)
  {
    var k := x + |needle| - y;
    assert s[x..x + |needle|][|needle| - k..] == s[y..x + |needle|];
    assert y + |needle| <= |s| ==> s[y..y + |needle|][..k] == s[y..x + |needle|];
    assert needle[..k] != needle[|needle| - k..];
  }

  // ------------------------------------------------------------- one more chunk

  /** The last `n` characters, or all of them. */
  function Last(s: string, n: nat): (r: string)
    ensures |r| == if |s| < n then |s| else n
  {
    s[if |s| < n then 0 else |s| - n..]
  }

  lemma AtWithin(a: string, b: string, needle: string, i: nat)
    ensures i + |needle| <= |a| ==> (At(a + b, i, needle) <==> At(a, i, needle))
  {
    if i + |needle| <= |a| { assert (a + b)[i..i + |needle|] == a[i..i + |needle|]; }
  }

  lemma AtBeyond(s: string, needle: string, shift: nat, i: nat)
    requires shift <= |s|
    ensures At(s, shift + i, needle) <==> At(s[shift..], i, needle)
  {
    if shift + i + |needle| <= |s| { assert s[shift..][i..i + |needle|] == s[shift + i..shift + i + |needle|]; }
  }

  lemma {:induction false} CountBeyond(s: string, needle: string, shift: nat, from: nat)
    requires needle != "" && shift <= |s|
    ensures Count(s, needle, shift + from) == Count(s[shift..], needle, from)
    ensures CountAll(s, needle, shift + from) == CountAll(s[shift..], needle, from)
    decreases |s| - from
  {
    hide At;
    AtBeyond(s, needle, shift, from);
    if shift + from < |s| {
      CountBeyond(s, needle, shift, from + 1);
      CountBeyond(s, needle, shift, from + |needle|);
    }
  }

  function Max(x: nat, y: nat): nat { if x >= y then x else y }

  /** Where the chunk's haystack starts: its carry is one character short of the needle. */
  function HayStart(a: string, needle: string): nat
    requires needle != ""
  {
    |a| - |Last(a, |needle| - 1)|
  }

  /** Each place ends in what came before or in the new chunk: all the places add up, and no disjoint one is lost. */
  lemma {:induction false} PlacesAdd(a: string, b: string, needle: string, from: nat)
    requires needle != ""
    ensures Count(a + b, needle, from) <= Count(a, needle, from) + Count(a + b, needle, Max(from, HayStart(a, needle)))
    ensures CountAll(a + b, needle, from)
            == CountAll(a, needle, from) + CountAll(a + b, needle, Max(from, HayStart(a, needle)))
    decreases |a| - from
  {
    hide At;
    if from < HayStart(a, needle) {
      AtWithin(a, b, needle, from);
      PlacesAdd(a, b, needle, from + 1);
      PlacesAdd(a, b, needle, from + |needle|);
      if from + |needle| > HayStart(a, needle) { LaterIsFewer(a + b, needle, HayStart(a, needle), from + |needle|); }
    } else {
      NoneLeft(a, needle, from);
    }
  }

  lemma {:induction false} LaterIsFewer(s: string, needle: string, from: nat, to: nat)
    requires needle != "" && from <= to
    ensures Count(s, needle, to) <= Count(s, needle, from)
  {
    hide Count, At;
    var places := GreedyIsReached(s, needle, to);
    GreedyIsMost(s, needle, from, places);
  }

  lemma {:induction false} NoneLeft(a: string, needle: string, from: nat)
    requires needle != "" && from + |needle| > |a|
    ensures Count(a, needle, from) == 0 && CountAll(a, needle, from) == 0
    decreases |a| - from
  {
    if from < |a| { NoneLeft(a, needle, from + 1); }
  }

  lemma ChunkAdds(a: string, b: string, needle: string)
    requires needle != ""
    ensures var hay := Last(a, |needle| - 1) + b;
            Count(a + b, needle, 0) <= Count(a, needle, 0) + Count(hay, needle, 0)
            && CountAll(a + b, needle, 0) == CountAll(a, needle, 0) + CountAll(hay, needle, 0)
  {
    hide Count, CountAll;
    PlacesAdd(a, b, needle, 0);
    CountBeyond(a + b, needle, HayStart(a, needle), 0);
    assert (a + b)[HayStart(a, needle)..] == Last(a, |needle| - 1) + b;
  }

  // ------------------------------------------------------------- the readers

  /** Count the matches of one haystack, past each needle found. */
  method CollectMatches(hay: string, needle: string) returns (found: nat)
    requires needle != ""
    ensures found == Count(hay, needle, 0)
  {
    hide Count;
    found := 0;
    var i := IndexOf(hay, needle, 0);
    SkipToNext(hay, needle, 0);
    while i.Some?
      invariant i.Some? ==> At(hay, i.value, needle) && Count(hay, needle, 0) == found + Count(hay, needle, i.value)
      invariant i.None? ==> Count(hay, needle, 0) == found
      decreases if i.Some? then |hay| - i.value + 1 else 0
    {
      found := found + 1;
      CountStep(hay, needle, i.value);
      SkipToNext(hay, needle, i.value + |needle|);
      i := IndexOf(hay, needle, i.value + |needle|);
    }
  }

  lemma CountStep(hay: string, needle: string, i: nat)
    requires needle != "" && At(hay, i, needle)
    ensures Count(hay, needle, i) == 1 + Count(hay, needle, i + |needle|)
  {
  }

  lemma {:induction false} SkipToNext(hay: string, needle: string, from: nat)
    requires needle != ""
    ensures var next := IndexOf(hay, needle, from);
            Count(hay, needle, from) == if next.Some? then Count(hay, needle, next.value) else 0
    decreases |hay| - from
  {
    if from < |hay| && !At(hay, from, needle) { SkipToNext(hay, needle, from + 1); }
  }

  function Joined(chunks: seq<string>): string
  {
    if chunks == [] then "" else Joined(chunks[..|chunks| - 1]) + chunks[|chunks| - 1]
  }

  /** What adding up the chunks comes to: each is counted behind its carry. */
  function Streamed(low: char -> char, chunks: seq<string>, needle: string): nat
    requires needle != ""
  {
    if chunks == [] then 0
    else
      var front := chunks[..|chunks| - 1];
      Streamed(low, front,
        needle) + Count(Lowered(low, Last(Joined(front), |needle| - 1) + chunks[|chunks| - 1]), needle, 0)
  }

  lemma {:induction false} StreamedIsBetween(low: char -> char, chunks: seq<string>, needle: string)
    requires needle != ""
    ensures var text := Lowered(low, Joined(chunks));
            Count(text, needle, 0) <= Streamed(low, chunks, needle) <= CountAll(text, needle, 0)
  {
    hide Count, CountAll, Lowered;
    if chunks == [] {
      NothingYet(needle);
      assert Lowered(low, "") == "";
    } else {
      var front, chunk := chunks[..|chunks| - 1], chunks[|chunks| - 1];
      StreamedIsBetween(low, front, needle);
      LoweredChunk(low, Joined(front), chunk, |needle| - 1);
      ChunkAdds(Lowered(low, Joined(front)), Lowered(low, chunk), needle);
      DisjointIsSome(Lowered(low, Last(Joined(front), |needle| - 1) + chunk), needle, 0);
    }
  }

  /**
    Searching in chunks, however the text is cut: something is found exactly when the needle is in the whole text, the
    count lies between the whole text's disjoint matches and all its matches, and is the whole text's own count when
    the needle cannot overlap itself.
  */
  method SearchArchiveFile(chunks: seq<string>, needle: string, low: char -> char) returns (matches: nat)
    requires needle != ""
    ensures matches == Streamed(low, chunks, needle)
    ensures var text := Lowered(low, Joined(chunks));
            (matches > 0 <==> Contains(text, needle))
            && Count(text, needle, 0) <= matches <= CountAll(text, needle, 0)
            && (Borderless(needle) ==> matches == Count(text, needle, 0))
  {
    hide Count, CountAll;
    matches := 0;
    var carry := "";
    var overlap := |needle| - 1;
    ghost var text := "";
    assert chunks[..0] == [];
    for k := 0 to |chunks|
      invariant text == Joined(chunks[..k]) && carry == Last(text, overlap)
      invariant matches == Streamed(low, chunks[..k], needle)
    {
      var chunk := chunks[k];
      var hay := carry + chunk;
      var found := CollectMatches(Lowered(low, hay), needle);
      matches := matches + found;
      assert chunks[..k + 1][..k] == chunks[..k];
      carry := Last(hay, overlap);
      CarryOn(text, chunk, overlap);
      text := text + chunk;
    }
    assert chunks[..|chunks|] == chunks;
    StreamedIsBetween(low, chunks, needle);
    Conclude(Lowered(low, text), needle);
  }

  /**
    The count is the whole text's own, for every text and every cut, if and only if the needle cannot overlap
    itself.
  */
  lemma CountsAgreeExactly(low: char -> char, needle: string)
    requires needle != "" && Lowered(low, needle) == needle
    ensures Borderless(needle) <==>
              forall chunks: seq<string> ::
                Streamed(low, chunks, needle) == Count(Lowered(low, Joined(chunks)), needle, 0)
  {
    hide Count, CountAll, Borderless, Streamed, Lowered;
    if Borderless(needle) {
      forall chunks: seq<string>
        ensures Streamed(low, chunks, needle) == Count(Lowered(low, Joined(chunks)), needle, 0)
      {
        StreamedIsBetween(low, chunks, needle);
        DisjointIsSome(Lowered(low, Joined(chunks)), needle, 0);
      }
    } else {
      var k: nat :| 0 < k < |needle| && needle[..k] == needle[|needle| - k..] by { HasBorder(needle); }
      CountsApart(low, needle, k);
    }
  }

  lemma HasBorder(needle: string)
    requires !Borderless(needle)
    ensures exists k: nat :: 0 < k < |needle| && needle[..k] == needle[|needle| - k..]
  {
  }

  /** The needle, then what is left of it behind a border: one disjoint match, and two when cut between them. */
  lemma CountsApart(low: char -> char, needle: string, k: nat)
    requires Lowered(low, needle) == needle && 0 < k < |needle| && needle[..k] == needle[|needle| - k..]
    ensures var chunks := [needle, needle[k..]];
            Streamed(low, chunks, needle) >= 2 && Count(Lowered(low, Joined(chunks)), needle, 0) == 1
  {
    hide Count, CountAll, At, Streamed, Joined, Lowered, Last;
    var n, rest := |needle|, needle[k..];
    TwoChunks(low, needle, rest, needle);
    LoweredParts(low, needle, k);
    OverlapsBehind(needle, k);
    OneDisjoint(needle + rest, needle);
  }

  lemma TwoChunks(low: char -> char, a: string, b: string, needle: string)
    requires needle != ""
    ensures Joined([a, b]) == a + b
    ensures Streamed(low, [a, b], needle)
         == Count(Lowered(low, a), needle, 0) + Count(Lowered(low, Last(a, |needle| - 1) + b), needle, 0)
  {
    hide Count, Lowered, Streamed, Joined, Last;
    OneChunkMore(low, [], a, needle);
    OneChunkMore(low, [a], b, needle);
    NoChunks(low, needle);
    assert [] + [a] == [a] && [a] + [b] == [a, b] && "" + a == a;
  }

  lemma OneChunkMore(low: char -> char, front: seq<string>, chunk: string, needle: string)
    requires needle != ""
    ensures Joined(front + [chunk]) == Joined(front) + chunk
    ensures Streamed(low, front + [chunk], needle)
         == Streamed(low, front, needle) + Count(Lowered(low, Last(Joined(front), |needle| - 1) + chunk), needle, 0)
  {
    hide Count, Lowered, Last;
    assert (front + [chunk])[..|front|] == front;
  }

  lemma NoChunks(low: char -> char, needle: string)
    requires needle != ""
    ensures Joined([]) == "" && Streamed(low, [], needle) == 0 && Last("", |needle| - 1) == ""
  {
    hide Count, Lowered;
  }

  lemma LoweredParts(low: char -> char, needle: string, k: nat)
    requires Lowered(low, needle) == needle && 0 < k < |needle|
    ensures Lowered(low, needle + needle[k..]) == needle + needle[k..]
    ensures var hay := Last(needle, |needle| - 1) + needle[k..]; Lowered(low, hay) == hay
  {
    assert forall i :: 0 <= i < |needle| ==> low(needle[i]) == needle[i];
  }

  lemma OverlapsBehind(needle: string, k: nat)
    requires 0 < k < |needle| && needle[..k] == needle[|needle| - k..]
    ensures var n, rest := |needle|, needle[k..];
            Count(needle, needle, 0) >= 1 && At(needle + rest, 0, needle)
            && Count(Last(needle, n - 1) + rest, needle, 0) >= 1
  {
    hide Count, At, Last;
    var head := needle[..|needle| - k];
    assert needle == head + needle[|needle| - k..];
    assert needle == needle[..k] + needle[k..];
    Bordered(head, needle[..k], needle[k..], needle);
    EndsWith(head[1..], needle);
    EndsWith("", needle);
    assert "" + needle == needle;
    StartsAt(needle, needle[k..]);
  }

  lemma Bordered(head: string, border: string, rest: string, needle: string)
    requires head != "" && needle == head + border && needle == border + rest
    ensures Last(needle, |needle| - 1) + rest == head[1..] + needle
  {
    assert needle[1..] == head[1..] + border;
    assert head[1..] + border + rest == head[1..] + (border + rest);
  }

  lemma EndsWith(front: string, needle: string)
    requires needle != ""
    ensures Count(front + needle, needle, 0) >= 1
  {
    hide Count;
    assert (front + needle)[|front|..|front| + |needle|] == needle;
    Holds(front + needle, needle, |front|);
  }

  lemma StartsAt(needle: string, rest: string)
    ensures At(needle + rest, 0, needle)
  {
    assert (needle + rest)[0..|needle|] == needle;
  }

  lemma Holds(s: string, needle: string, i: nat)
    requires needle != "" && At(s, i, needle)
    ensures Count(s, needle, 0) >= 1
  {
    hide Count;
    GreedyIsMost(s, needle, 0, [i]);
  }

  lemma OneDisjoint(s: string, needle: string)
    requires needle != "" && At(s, 0, needle) && |s| < 2 * |needle|
    ensures Count(s, needle, 0) == 1
  {
  }

  lemma NothingYet(needle: string)
    requires needle != ""
    ensures Count("", needle, 0) == 0 && CountAll("", needle, 0) == 0
  {
  }

  lemma LoweredChunk(low: char -> char, text: string, chunk: string, overlap: nat)
    ensures Lowered(low, text + chunk) == Lowered(low, text) + Lowered(low, chunk)
    ensures Lowered(low, Last(text, overlap) + chunk) == Last(Lowered(low, text), overlap) + Lowered(low, chunk)
  {
  }

  lemma CarryOn(text: string, chunk: string, overlap: nat)
    ensures Last(Last(text, overlap) + chunk, overlap) == Last(text + chunk, overlap)
  {
  }

  lemma Conclude(text: string, needle: string)
    requires needle != ""
    ensures CountAll(text, needle, 0) > 0 <==> Contains(text, needle)
    ensures Count(text, needle, 0) > 0 <==> Contains(text, needle)
    ensures Borderless(needle) ==> Count(text, needle, 0) == CountAll(text, needle, 0)
  {
    hide Count, Borderless;
    DisjointIsSome(text, needle, 0);
    if Contains(text, needle) {
      var i :| 0 <= i <= |text| && At(text, i, needle);
      GreedyIsMost(text, needle, 0, [i]);
    } else {
      AllFromLater(text, needle, 0, |text|);
    }
  }
}
