/**
  The daily archive: a session is split into chats at its context breaks, and appending it to a day keeps
  one chat per session and start, the most complete one.
*/
module Archive {
  import opened Wrappers

  datatype Exchange = Exchange(timestamp: int, body: string)
  datatype Session = Session(id: string, exchanges: seq<Exchange>, contextBreaks: seq<int>)
  datatype Chat = Chat(id: nat, sessionId: string, exchanges: seq<Exchange>, startedAt: int, endedAt: int,
                       exchangeCount: nat, summary: string)

  // ------------------------------------------------------------- splitting

  function Insert(t: int, s: seq<int>): seq<int>
  {
    if s == [] || t <= s[0] then [t] + s else [s[0]] + Insert(t, s[1..])
  }

  function Sorted(s: seq<int>): seq<int> { if s == [] then [] else Insert(s[0], Sorted(s[1..])) }

  predicate Ascending(s: seq<int>) { forall i, j :: 0 <= i < j < |s| ==> s[i] <= s[j] }

  lemma {:induction false} InsertKeeps(t: int, s: seq<int>)
    requires Ascending(s)
    ensures Ascending(Insert(t, s)) && forall x :: x in Insert(t, s) <==> x == t || x in s
  {
    if s != [] && s[0] < t {
      var rest := Insert(t, s[1..]);
      InsertKeeps(t, s[1..]);
      assert forall x :: x in s ==> x == s[0] || x in s[1..];
      forall k | 0 <= k < |rest| ensures s[0] <= rest[k] {
        assert rest[k] in rest;
        if rest[k] in s[1..] {
          var m :| 0 <= m < |s[1..]| && s[1..][m] == rest[k];
          assert s[m + 1] == rest[k];
        }
      }
    }
  }

  lemma {:induction false} SortedIs(s: seq<int>)
    ensures Ascending(Sorted(s)) && forall x :: x in Sorted(s) <==> x in s
  {
    if s != [] {
      SortedIs(s[1..]);
      InsertKeeps(s[0], Sorted(s[1..]));
    }
  }

  /** The first exchange after a moment. */
  function FirstAfter(es: seq<Exchange>, t: int): (i: Option<nat>)
    ensures i.Some? ==>
            i.value < |es| && es[i.value].timestamp > t && forall k :: 0 <= k < i.value ==> es[k].timestamp <= t
    ensures i.None? ==> forall k :: 0 <= k < |es| ==> es[k].timestamp <= t
  {
    if es == [] then None
    else if es[0].timestamp > t then Some(0)
    else match FirstAfter(es[1..], t)
         case None => None
         case Some(i) => Some(i + 1)
  }

  /** A chat starts at the front, and at the first exchange after each break that has one before it. */
  predicate IsBoundary(es: seq<Exchange>, breaks: seq<int>, i: nat) {
    i == 0 || exists t :: t in breaks && FirstAfter(es, t) == Some(i)
  }

  /** A chat as the splitter makes it, whatever its summary. */
  predicate IsChat(c: Chat, id: nat, session: Session) {
    c.id == id && c.sessionId == session.id && c.exchanges != [] && c.exchangeCount == |c.exchanges|
    && c.startedAt == c.exchanges[0].timestamp && c.endedAt == c.exchanges[|c.exchanges| - 1].timestamp
  }

  function Concat(chats: seq<Chat>): seq<Exchange>
  {
    if chats == [] then [] else Concat(chats[..|chats| - 1]) + chats[|chats| - 1].exchanges
  }

  lemma FirstAfterGrows(es: seq<Exchange>, t: int, u: int)
    requires t <= u && FirstAfter(es, u).Some?
    ensures FirstAfter(es, t).Some? && FirstAfter(es, t).value <= FirstAfter(es, u).value
  {
    hide FirstAfter;
    assert es[FirstAfter(es, u).value].timestamp > t;
  }

  predicate Increasing(bs: seq<nat>, limit: nat) {
    bs != [] && bs[0] == 0 && (forall k :: 0 <= k < |bs| ==> bs[k] < limit) && forall j, k :: 0 <= j < k < |bs| ==>
      bs[j] < bs[k]
  }

  /**
    Each start but the first is the first exchange after one of these breaks, and each break's first exchange is
    a start.
  */
  ghost predicate StartsOf(es: seq<Exchange>, breaks: seq<int>, bs: seq<nat>) {
    (forall i :: i in bs && i != 0 ==> exists t :: t in breaks && FirstAfter(es, t) == Some(i))
    && forall t :: t in breaks && FirstAfter(es, t).Some? ==> FirstAfter(es, t).value in bs
  }

  lemma NextBoundary(es: seq<Exchange>, breaks: seq<int>, n: nat, bs: seq<nat>)
    requires es != [] && n < |breaks| && Ascending(breaks) && Increasing(bs, |es|) && StartsOf(es, breaks[..n], bs)
    ensures var i := FirstAfter(es, breaks[n]);
            var next := if i.Some? && i.value > 0 && i.value !in bs then bs + [i.value] else bs;
            Increasing(next, |es|) && StartsOf(es, breaks[..n + 1], next)
  {
    hide FirstAfter;
    var i := FirstAfter(es, breaks[n]);
    assert breaks[..n + 1] == breaks[..n] + [breaks[n]];
    assert bs[0] in bs;
    if i.Some? && i.value > 0 && i.value !in bs {
      forall k | 0 <= k < |bs| ensures bs[k] < i.value {
        if bs[k] != 0 {
          assert bs[k] in bs;
          var t :| t in breaks[..n] && FirstAfter(es, t) == Some(bs[k]);
          FirstAfterGrows(es, t, breaks[n]);
          assert bs[k] != i.value;
        }
      }
    }
  }

  lemma BoundariesAre(es: seq<Exchange>, contextBreaks: seq<int>, bs: seq<nat>)
    requires es != [] && Increasing(bs, |es|) && StartsOf(es, Sorted(contextBreaks), bs)
    ensures forall i: nat :: i in bs <==> i < |es| && IsBoundary(es, contextBreaks, i)
    ensures forall j, k :: 0 <= j < k < |bs| ==> es[bs[j]].timestamp < es[bs[k]].timestamp
  {
    hide FirstAfter, Sorted;
    SortedIs(contextBreaks);
    assert bs[0] in bs;
    forall j, k | 0 <= j < k < |bs| ensures es[bs[j]].timestamp < es[bs[k]].timestamp {
      assert bs[k] in bs;
      var t :| t in Sorted(contextBreaks) && FirstAfter(es, t) == Some(bs[k]);
    }
  }

  method Boundaries(es: seq<Exchange>, contextBreaks: seq<int>) returns (boundaries: seq<nat>)
    requires es != []
    ensures Increasing(boundaries, |es|)
    ensures forall i: nat :: i in boundaries <==> i < |es| && IsBoundary(es, contextBreaks, i)
    ensures forall j, k :: 0 <= j < k < |boundaries| ==> es[boundaries[j]].timestamp < es[boundaries[k]].timestamp
  {
    hide FirstAfter, IsBoundary, StartsOf, Increasing;
    var breaks := Sorted(contextBreaks);
    SortedIs(contextBreaks);
    boundaries := [0];
    assert breaks[..0] == [];
    FirstStart(es);
    for n := 0 to |breaks|
      invariant Increasing(boundaries, |es|) && StartsOf(es, breaks[..n], boundaries)
    {
      NextBoundary(es, breaks, n, boundaries);
      var i := FirstAfter(es, breaks[n]);
      if i.Some? && i.value > 0 && i.value !in boundaries {
        boundaries := boundaries + [i.value];
      }
    }
    assert breaks[..|breaks|] == breaks;
    BoundariesAre(es, contextBreaks, boundaries);
  }

  lemma FirstStart(es: seq<Exchange>)
    requires es != []
    ensures Increasing([0], |es|) && StartsOf(es, [], [0])
  {
  }

  function EndOf(starts: seq<nat>, k: nat, size: nat): nat
    requires k < |starts|
  {
    if k + 1 < |starts| then starts[k + 1] else size
  }

  /** Chat `k` holds what lies between its start and the next. */
  predicate IsCut(session: Session, starts: seq<nat>, k: nat, c: Chat)
    requires k < |starts|
  {
    var end := EndOf(starts, k, |session.exchanges|);
    IsChat(c, k, session) && starts[k] < end <= |session.exchanges| && c.exchanges == session.exchanges[starts[k]..end]
  }

  /** The session cut at its boundaries, in order. */
  ghost predicate IsSplit(session: Session, starts: seq<nat>, chats: seq<Chat>) {
    |chats| == |starts|
    && (forall j, k :: 0 <= j < k < |starts| ==> starts[j] < starts[k])
    && (forall i: nat :: i in starts <==>
       i < |session.exchanges| && IsBoundary(session.exchanges, session.contextBreaks, i))
    && forall k :: 0 <= k < |chats| ==> IsCut(session, starts, k, chats[k])
  }

  /**
    The chats of a session are non-empty, together are the session's exchanges in order, each starts at a boundary and
    each boundary starts one, and their start times strictly increase, even when the timestamps do not.
  */
  method SplitSessionIntoChats(session: Session) returns (chats: seq<Chat>, ghost starts: seq<nat>)
    ensures |starts| == |chats| && Concat(chats) == session.exchanges
    ensures IsSplit(session, starts, chats) && forall k :: 0 <= k < |chats| ==> chats[k].summary == ""
    ensures forall j, k :: 0 <= j < k < |chats| ==> chats[j].startedAt < chats[k].startedAt
  {
    if |session.exchanges| == 0 { return [], []; }
    var boundaries := Boundaries(session.exchanges, session.contextBreaks);
    hide IsBoundary, IsCut;
    chats := ChatsBetween(session, boundaries);
    starts := boundaries;
    StartsIncrease(session, boundaries, chats);
  }

  /** The chats between these boundaries. */
  method ChatsBetween(session: Session, boundaries: seq<nat>) returns (chats: seq<Chat>)
    requires Increasing(boundaries, |session.exchanges|)
    ensures |chats| == |boundaries| && Concat(chats) == session.exchanges
    ensures forall k :: 0 <= k < |chats| ==> IsCut(session, boundaries, k, chats[k]) && chats[k].summary == ""
  {
    hide IsCut;
    var es := session.exchanges;
    chats := [];
    for b := 0 to |boundaries|
      invariant |chats| == b && Concat(chats) == es[..if b < |boundaries| then boundaries[b] else |es|]
      invariant forall k :: 0 <= k < b ==> IsCut(session, boundaries, k, chats[k]) && chats[k].summary == ""
    {
      var start := boundaries[b];
      var end := if b + 1 < |boundaries| then boundaries[b + 1] else |es|;
      var part := es[start..end];
      var chat := Chat(b, session.id, part, part[0].timestamp, part[|part| - 1].timestamp, |part|, "");
      assert (chats + [chat])[..b] == chats;
      assert es[..end] == es[..start] + part;
      CutIs(session, boundaries, b, chat);
      chats := chats + [chat];
    }
    assert es[..|es|] == es;
  }

  lemma StartsIncrease(session: Session, starts: seq<nat>, chats: seq<Chat>)
    requires |chats| == |starts| && forall k :: 0 <= k < |chats| ==> IsCut(session, starts, k, chats[k])
    requires forall k :: 0 <= k < |starts| ==> starts[k] < |session.exchanges|
    requires forall j, k :: 0 <= j < k < |starts| ==>
             session.exchanges[starts[j]].timestamp < session.exchanges[starts[k]].timestamp
    ensures forall j, k :: 0 <= j < k < |chats| ==> chats[j].startedAt < chats[k].startedAt
  {
    hide IsCut;
    forall k | 0 <= k < |chats| ensures chats[k].startedAt == session.exchanges[starts[k]].timestamp {
      CutStarts(session, starts, k, chats[k]);
    }
  }

  lemma CutIs(session: Session, starts: seq<nat>, k: nat, c: Chat)
    requires k < |starts| && starts[k] < EndOf(starts, k, |session.exchanges|) <= |session.exchanges|
             && IsChat(c, k, session)
    requires c.exchanges == session.exchanges[starts[k]..EndOf(starts, k, |session.exchanges|)]
    ensures IsCut(session, starts, k, c)
  {
  }

  lemma CutStarts(session: Session, starts: seq<nat>, k: nat, c: Chat)
    requires k < |starts| && IsCut(session, starts, k, c)
    ensures IsChat(c, k, session) && starts[k] < |session.exchanges| && c.exchanges[0] == session.exchanges[starts[k]]
  {
  }

  // ------------------------------------------------------------- upserting

  function KeyOf(c: Chat): (string, int) { (c.sessionId, c.startedAt) }

  predicate UniqueKeys(chats: seq<Chat>) { forall i, j :: 0 <= i < j < |chats| ==> KeyOf(chats[i]) != KeyOf(chats[j]) }

  /** Where a key is held, or the end. */
  function Find(chats: seq<Chat>, key: (string, int)): (i: nat)
    ensures i <= |chats| && (i < |chats| ==> KeyOf(chats[i]) == key) && forall k :: 0 <= k < i ==>
            KeyOf(chats[k]) != key
  {
    if chats == [] || KeyOf(chats[0]) == key then 0 else 1 + Find(chats[1..], key)
  }

  /**
    A map in insertion order: a new key goes last, a more complete chat takes its key's place, any other is
    dropped.
  */
  function Upsert(byKey: seq<Chat>, c: Chat): seq<Chat> {
    var i := Find(byKey, KeyOf(c));
    if i == |byKey| then byKey + [c] else if c.exchangeCount > byKey[i].exchangeCount then byKey[i := c] else byKey
  }

  function UpsertAll(byKey: seq<Chat>, chats: seq<Chat>): seq<Chat> {
    if chats == [] then byKey else Upsert(UpsertAll(byKey, chats[..|chats| - 1]), chats[|chats| - 1])
  }

  /** Nothing among `chats` is new or more complete than what is held. */
  predicate Covered(byKey: seq<Chat>, chats: seq<Chat>) { forall n :: 0 <= n < |chats| ==> Holds(byKey, chats[n]) }

  /** A chat under this one's key is held, at least as complete. */
  predicate Holds(byKey: seq<Chat>, c: Chat) {
    exists i :: 0 <= i < |byKey| && KeyOf(byKey[i]) == KeyOf(c) && byKey[i].exchangeCount >= c.exchangeCount
  }

  /** One chat per key, each the most complete of those offered, and every key offered is held. */
  ghost predicate BestOf(byKey: seq<Chat>, offered: seq<Chat>) {
    UniqueKeys(byKey) && Covered(byKey, offered) && forall i :: 0 <= i < |byKey| ==> byKey[i] in offered
  }

  lemma UpsertIsBest(byKey: seq<Chat>, offered: seq<Chat>, c: Chat)
    requires BestOf(byKey, offered)
    ensures BestOf(Upsert(byKey, c), offered + [c])
    ensures Upsert(byKey, c) == byKey <==> Covered(byKey, [c])
  {
    hide Find;
    var i, next := Find(byKey, KeyOf(c)), Upsert(byKey, c);
    assert i < |next| && KeyOf(next[i]) == KeyOf(c) && next[i].exchangeCount >= c.exchangeCount;
    assert Holds(next, c);
    CoveredNext(byKey, next, offered, c);
    assert UniqueKeys(next) && forall k :: 0 <= k < |next| ==> next[k] in offered + [c];
    HoldsAt(byKey, c, i);
    assert Covered(byKey, [c]) <==> Holds(byKey, c) by { assert [c][0] == c; }
  }

  lemma HoldsAt(byKey: seq<Chat>, c: Chat, i: nat)
    requires UniqueKeys(byKey) && i == Find(byKey, KeyOf(c))
    ensures Holds(byKey, c) <==> i < |byKey| && byKey[i].exchangeCount >= c.exchangeCount
  {
    hide Find;
  }

  lemma CoveredNext(byKey: seq<Chat>, next: seq<Chat>, offered: seq<Chat>, c: Chat)
    requires Covered(byKey, offered) && |byKey| <= |next| && Holds(next, c)
    requires forall k :: 0 <= k < |byKey| ==>
             KeyOf(next[k]) == KeyOf(byKey[k]) && next[k].exchangeCount >= byKey[k].exchangeCount
    ensures Covered(next, offered + [c])
  {
    forall n | 0 <= n < |offered| ensures Holds(next, offered[n]) {
      var k :| 0 <= k < |byKey| && KeyOf(byKey[k]) == KeyOf(offered[n])
        && byKey[k].exchangeCount >= offered[n].exchangeCount;
      assert KeyOf(next[k]) == KeyOf(offered[n]);
    }
  }

  lemma {:induction false} UpsertAllIsBest(byKey: seq<Chat>, offered: seq<Chat>, chats: seq<Chat>)
    requires BestOf(byKey, offered)
    ensures BestOf(UpsertAll(byKey, chats), offered + chats)
    ensures UpsertAll(byKey, chats) == byKey || !Covered(byKey, chats)
  {
    hide BestOf, Upsert;
    if chats == [] {
      assert offered + chats == offered;
    } else {
      var front, c := chats[..|chats| - 1], chats[|chats| - 1];
      UpsertAllIsBest(byKey, offered, front);
      UpsertIsBest(UpsertAll(byKey, front), offered + front, c);
      assert offered + front + [c] == offered + chats;
      if Covered(byKey, chats) {
        assert Covered(byKey, front) by { assert forall n :: 0 <= n < |front| ==> front[n] == chats[n]; }
        assert Covered(byKey, [c]) by { assert [c][0] == chats[|chats| - 1]; }
      }
    }
  }

  // ------------------------------------------------------------- the merge

  function InsertByStart(c: Chat, s: seq<Chat>): seq<Chat> {
    if s == [] || c.startedAt <= s[0].startedAt then [c] + s else [s[0]] + InsertByStart(c, s[1..])
  }

  /** A stable sort by start. */
  function SortByStart(s: seq<Chat>): seq<Chat> { if s == [] then [] else InsertByStart(s[0], SortByStart(s[1..])) }

  predicate ByStart(s: seq<Chat>) { forall i, j :: 0 <= i < j < |s| ==> s[i].startedAt <= s[j].startedAt }

  lemma {:induction false} InsertByStartKeeps(c: Chat, s: seq<Chat>)
    requires ByStart(s)
    ensures ByStart(InsertByStart(c, s)) && multiset(InsertByStart(c, s)) == multiset(s) + multiset{c}
  {
    if s != [] && s[0].startedAt < c.startedAt {
      var rest := InsertByStart(c, s[1..]);
      InsertByStartKeeps(c, s[1..]);
      assert s == [s[0]] + s[1..];
      StartsBefore(s[0], c, s[1..], rest);
    }
  }

  lemma StartsBefore(first: Chat, c: Chat, s: seq<Chat>, rest: seq<Chat>)
    requires multiset(rest) == multiset(s) + multiset{c} && first.startedAt <= c.startedAt
    requires forall k :: 0 <= k < |s| ==> first.startedAt <= s[k].startedAt
    ensures forall k :: 0 <= k < |rest| ==> first.startedAt <= rest[k].startedAt
  {
    forall k | 0 <= k < |rest| ensures first.startedAt <= rest[k].startedAt {
      assert rest[k] in multiset(rest);
      assert rest[k] == c || rest[k] in multiset(s);
    }
  }

  lemma {:induction false} SortByStartIs(s: seq<Chat>)
    ensures ByStart(SortByStart(s)) && multiset(SortByStart(s)) == multiset(s)
  {
    if s != [] {
      SortByStartIs(s[1..]);
      InsertByStartKeeps(s[0], SortByStart(s[1..]));
      assert s == [s[0]] + s[1..];
    }
  }

  /** The same chat but for its number. */
  predicate SameChat(a: Chat, b: Chat) { a.(id := b.id) == b }

  /** What a day holds after a merge: one chat per key, the most complete offered, numbered in start order. */
  ghost predicate IsMerged(day: seq<Chat>, offered: seq<Chat>) {
    UniqueKeys(day) && Covered(day, offered)
    && (forall i :: 0 <= i < |day| ==> day[i].id == i && exists n :: 0 <= n < |offered| && SameChat(day[i], offered[n]))
    && ByStart(day)
  }

  method MergeKeys(byKey0: seq<Chat>, chats: seq<Chat>) returns (byKey: seq<Chat>, changed: bool)
    ensures byKey == UpsertAll(byKey0, chats)
    ensures !changed ==> byKey == byKey0
    ensures changed ==> !(forall n :: 0 <= n <= |chats| ==> UpsertAll(byKey0, chats[..n]) == byKey0)
  {
    hide Find;
    byKey, changed := byKey0, false;
    for n := 0 to |chats|
      invariant byKey == UpsertAll(byKey0, chats[..n])
      invariant !changed ==> byKey == byKey0
      invariant changed ==> exists m :: 0 <= m <= n && UpsertAll(byKey0, chats[..m]) != byKey0
    {
      assert chats[..n + 1][..n] == chats[..n];
      var c := chats[n];
      var i := Find(byKey, KeyOf(c));
      ghost var before := byKey;
      if i == |byKey| || c.exchangeCount > byKey[i].exchangeCount {
        byKey := if i == |byKey| then byKey + [c] else byKey[i := c];
        assert byKey != before;
        assert !changed ==> UpsertAll(byKey0, chats[..n + 1]) != byKey0;
        changed := true;
      }
    }
    assert chats[..|chats|] == chats;
  }

  /**
    Appending to a day that exists: nothing is written when every incoming chat is already held, as completely, and the
    day held no duplicates; otherwise the day becomes the merge of all that was offered, numbered afresh.
  */
  method AppendToArchive(existing: seq<Chat>, newChats: seq<Chat>) returns (day: seq<Chat>, wrote: bool)
    ensures wrote ==> IsMerged(day, existing + newChats)
    ensures !wrote ==> day == existing
    ensures wrote <==> !(UniqueKeys(existing) && Covered(existing, newChats))
  {
    hide UpsertAll, BestOf, Covered, UniqueKeys, IsMerged;
    var byKey, _ := MergeKeys([], existing);
    NothingIsBest();
    UpsertAllIsBest([], [], existing);
    assert [] + existing == existing;
    var hadDuplicates := |byKey| != |existing|;
    KeysKept(existing);
    var after, changed := MergeKeys(byKey, newChats);
    UpsertAllIsBest(byKey, existing, newChats);
    ChangedIsUncovered(byKey, existing, newChats, changed);
    if !changed && !hadDuplicates { return existing, false; }
    var merged := SortByStart(after);
    SortByStartIs(after);
    day := [];
    for i := 0 to |merged|
      invariant |day| == i && forall k :: 0 <= k < i ==> day[k] == merged[k].(id := k)
    {
      day := day + [merged[i].(id := i)];
    }
    MergedIs(after, merged, day, existing + newChats);
    return day, true;
  }

  lemma NothingIsBest()
    ensures BestOf([], [])
  {
  }

  /** Upserting a day into nothing keeps every chat exactly when no two share a key, and then it is the day itself. */
  lemma {:induction false} KeysKept(chats: seq<Chat>)
    ensures |UpsertAll([], chats)| <= |chats|
    ensures |UpsertAll([], chats)| == |chats| <==> UniqueKeys(chats)
    ensures UniqueKeys(chats) ==> UpsertAll([], chats) == chats
  {
    if chats != [] {
      var front, c := chats[..|chats| - 1], chats[|chats| - 1];
      KeysKept(front);
      assert chats == front + [c];
      assert UniqueKeys(chats) ==> UniqueKeys(front);
      if UniqueKeys(front) {
        assert UniqueKeys(chats) <==> Find(front, KeyOf(c)) == |front|;
      }
    }
  }

  lemma ChangedIsUncovered(byKey: seq<Chat>, existing: seq<Chat>, newChats: seq<Chat>, changed: bool)
    requires BestOf(byKey, existing)
    requires !changed ==> UpsertAll(byKey, newChats) == byKey
    requires changed ==> !(forall n :: 0 <= n <= |newChats| ==> UpsertAll(byKey, newChats[..n]) == byKey)
    ensures changed <==> !Covered(byKey, newChats)
  {
    hide UpsertAll, BestOf;
    if changed {
      var n :| 0 <= n <= |newChats| && UpsertAll(byKey, newChats[..n]) != byKey;
      UpsertAllIsBest(byKey, existing, newChats[..n]);
      assert !Covered(byKey, newChats) by { CoveredFront(byKey, newChats, n); }
    } else {
      UpsertAllIsBest(byKey, existing, newChats);
      CoveredBy(byKey, existing, newChats);
    }
  }

  lemma CoveredFront(byKey: seq<Chat>, chats: seq<Chat>, n: nat)
    requires n <= |chats| && !Covered(byKey, chats[..n])
    ensures !Covered(byKey, chats)
  {
    hide Holds;
    var m :| 0 <= m < n && !Holds(byKey, chats[..n][m]);
    assert chats[..n][m] == chats[m];
  }

  lemma CoveredBy(byKey: seq<Chat>, existing: seq<Chat>, newChats: seq<Chat>)
    requires BestOf(byKey, existing + newChats)
    ensures Covered(byKey, newChats)
  {
    hide Holds;
    var all := existing + newChats;
    forall n | 0 <= n < |newChats| ensures Holds(byKey, newChats[n]) { assert all[|existing| + n] == newChats[n]; }
  }

  lemma {:induction false} CountsTwo(s: seq<Chat>, i: nat, j: nat)
    requires i < j < |s| && s[i] == s[j]
    ensures multiset(s)[s[i]] >= 2
  {
    assert s == s[..j] + s[j..];
    assert s[..j][i] in multiset(s[..j]) && s[j..][0] in multiset(s[j..]);
  }

  lemma {:induction false} CountsOnce(s: seq<Chat>, c: Chat)
    requires UniqueKeys(s)
    ensures multiset(s)[c] <= 1
  {
    if s != [] {
      assert s == [s[0]] + s[1..];
      CountsOnce(s[1..], c);
      forall m | 0 <= m < |s[1..]| ensures s[1..][m] != s[0] {
        assert KeyOf(s[0]) != KeyOf(s[m + 1]);
      }
      assert s[0] !in multiset(s[1..]);
    }
  }

  lemma UniqueInAnyOrder(a: seq<Chat>, b: seq<Chat>)
    requires UniqueKeys(a) && multiset(a) == multiset(b)
    ensures UniqueKeys(b)
  {
    forall i, j | 0 <= i < j < |b| ensures KeyOf(b[i]) != KeyOf(b[j]) {
      assert b[i] in multiset(b) && b[j] in multiset(b);
      var p :| 0 <= p < |a| && a[p] == b[i];
      var q :| 0 <= q < |a| && a[q] == b[j];
      if p == q { CountsTwo(b, i, j); }
      CountsOnce(a, b[i]);
    }
  }

  lemma MergedIs(after: seq<Chat>, merged: seq<Chat>, day: seq<Chat>, offered: seq<Chat>)
    requires BestOf(after, offered) && ByStart(merged) && multiset(merged) == multiset(after)
    requires |day| == |merged| && forall k :: 0 <= k < |day| ==> day[k] == merged[k].(id := k)
    ensures IsMerged(day, offered)
  {
    hide Covered, Holds, SameChat, ByStart;
    UniqueInAnyOrder(after, merged);
    forall i | 0 <= i < |day| ensures exists n :: 0 <= n < |offered| && SameChat(day[i], offered[n]) {
      assert merged[i] in multiset(merged);
      var n :| 0 <= n < |offered| && offered[n] == merged[i];
      Renumbered(merged[i], i);
    }
    assert ByStart(day) by { SameOrder(merged, day); }
    CoveredRenumbered(after, merged, day, offered);
    assert forall k :: 0 <= k < |day| ==> KeyOf(day[k]) == KeyOf(merged[k]);
  }

  lemma Renumbered(c: Chat, id: nat)
    ensures SameChat(c.(id := id), c)
  {
  }

  lemma SameOrder(merged: seq<Chat>, day: seq<Chat>)
    requires ByStart(merged) && |day| == |merged| && forall k :: 0 <= k < |day| ==> day[k] == merged[k].(id := k)
    ensures ByStart(day)
  {
  }

  lemma CoveredRenumbered(after: seq<Chat>, merged: seq<Chat>, day: seq<Chat>, offered: seq<Chat>)
    requires Covered(after, offered) && multiset(merged) == multiset(after)
    requires |day| == |merged| && forall k :: 0 <= k < |day| ==> day[k] == merged[k].(id := k)
    ensures Covered(day, offered)
  {
    forall n | 0 <= n < |offered| ensures Holds(day, offered[n]) {
      var k :| 0 <= k < |after| && KeyOf(after[k]) == KeyOf(offered[n])
        && after[k].exchangeCount >= offered[n].exchangeCount;
      assert after[k] in multiset(after);
      var i :| 0 <= i < |merged| && merged[i] == after[k];
      assert KeyOf(day[i]) == KeyOf(offered[n]);
    }
  }

  // ------------------------------------------------------------- what the day promises

  /** The chats of one session are already a merged day: unique keys, in start order, numbered from zero. */
  lemma FreshDayIsMerged(session: Session, chats: seq<Chat>)
    requires forall k :: 0 <= k < |chats| ==> IsChat(chats[k], k, session)
    requires forall j, k :: 0 <= j < k < |chats| ==> chats[j].startedAt < chats[k].startedAt
    ensures IsMerged(chats, chats)
  {
    forall i | 0 <= i < |chats| ensures exists n :: 0 <= n < |chats| && SameChat(chats[i], chats[n]) {
      assert SameChat(chats[i], chats[i]);
    }
    forall n | 0 <= n < |chats| ensures Holds(chats, chats[n]) {
      assert KeyOf(chats[n]) == KeyOf(chats[n]);
    }
  }

  /** Each held chat is the most complete of those offered under its key, and every key offered is held. */
  lemma MergedIsMostComplete(day: seq<Chat>, offered: seq<Chat>, i: nat, n: nat)
    requires IsMerged(day, offered) && i < |day| && n < |offered| && KeyOf(offered[n]) == KeyOf(day[i])
    ensures day[i].exchangeCount >= offered[n].exchangeCount
    ensures exists m :: 0 <= m < |offered| && SameChat(day[i], offered[m])
  {
    assert Holds(day, offered[n]);
    var k :| 0 <= k < |day| && KeyOf(day[k]) == KeyOf(offered[n]) && day[k].exchangeCount >= offered[n].exchangeCount;
    assert k == i;
  }

  /** The chats of the same session again: the same keys and sizes, whatever their summaries. */
  predicate SameSplit(a: seq<Chat>, b: seq<Chat>) {
    |a| == |b| && forall n :: 0 <= n < |a| ==> KeyOf(a[n]) == KeyOf(b[n]) && a[n].exchangeCount == b[n].exchangeCount
  }

  /** Strictly increasing lists of the same members are the same list. */
  lemma {:induction false} SameList(a: seq<nat>, b: seq<nat>)
    requires (forall j, k :: 0 <= j < k < |a| ==> a[j] < a[k]) && forall j, k :: 0 <= j < k < |b| ==> b[j] < b[k]
    requires forall i: nat :: i in a <==> i in b
    ensures a == b
  {
    if a == [] {
      SomeMember(b);
    } else {
      assert a[|a| - 1] in b;
      assert b[|b| - 1] in a;
      FrontMembers(a);
      FrontMembers(b);
      var last, front, other := a[|a| - 1], a[..|a| - 1], b[..|b| - 1];
      assert last == b[|b| - 1];
      forall i: nat | true ensures i in front <==> i in other {
        assert i in front <==> i in a && i != last;
        assert i in other <==> i in b && i != last;
      }
      SameList(front, other);
      assert a == a[..|a| - 1] + [a[|a| - 1]] && b == b[..|b| - 1] + [b[|b| - 1]];
    }
  }

  lemma FrontMembers(s: seq<nat>)
    requires s != [] && forall j, k :: 0 <= j < k < |s| ==> s[j] < s[k]
    ensures s[|s| - 1] in s && forall i: nat :: i in s ==> i <= s[|s| - 1]
    ensures forall i: nat :: i in s[..|s| - 1] <==> i in s && i != s[|s| - 1]
  {
  }

  lemma SomeMember(s: seq<nat>)
    ensures s == [] || exists i: nat :: i in s
  {
    if s != [] { assert s[0] in s; }
  }

  /** Splitting one session twice gives the same keys and sizes, so a session is recognised when it comes again. */
  lemma SplitAgain(session: Session, starts: seq<nat>, chats: seq<Chat>, startsAgain: seq<nat>, again: seq<Chat>)
    requires IsSplit(session, starts, chats) && IsSplit(session, startsAgain, again)
    ensures SameSplit(chats, again)
  {
    hide IsBoundary;
    SameList(starts, startsAgain);
    forall k | 0 <= k < |chats|
      ensures KeyOf(chats[k]) == KeyOf(again[k]) && chats[k].exchangeCount == again[k].exchangeCount
    {
      assert IsCut(session, starts, k, chats[k]) && IsCut(session, starts, k, again[k]);
    }
  }

  /** The chats of a session with their summaries, which may differ from one writing to the next. */
  method SummarisedSplit(session: Session, summarise: seq<Exchange> -> string)
    returns (chats: seq<Chat>, ghost starts: seq<nat>)
    ensures IsSplit(session, starts, chats) && forall k :: 0 <= k < |chats| ==>
            chats[k].summary == summarise(chats[k].exchanges)
    ensures forall j, k :: 0 <= j < k < |chats| ==> chats[j].startedAt < chats[k].startedAt
  {
    hide IsBoundary;
    chats, starts := SplitSessionIntoChats(session);
    chats := seq(|chats|, k requires 0 <= k < |chats| => chats[k].(summary := summarise(chats[k].exchanges)));
  }

  /** Appending a session: merged into the day when there is one, and its chats alone when there is none. */
  method AppendSession(existing: Option<seq<Chat>>, session: Session, summarise: seq<Exchange> -> string)
    returns (day: seq<Chat>, wrote: bool, ghost starts: seq<nat>, ghost chats: seq<Chat>)
    ensures IsSplit(session, starts, chats)
    ensures existing.None? ==> wrote && day == chats && IsMerged(day, chats)
    ensures existing.Some? ==> (wrote ==> IsMerged(day, existing.value + chats)) && (!wrote ==> day == existing.value)
    ensures existing.Some? ==> (wrote <==> !(UniqueKeys(existing.value) && Covered(existing.value, chats)))
  {
    hide IsBoundary, IsMerged, Covered, UniqueKeys;
    var newChats;
    newChats, starts := SummarisedSplit(session, summarise);
    chats := newChats;
    match existing
    case Some(held) => day, wrote := AppendToArchive(held, newChats);
    case None =>
      assert forall k :: 0 <= k < |newChats| ==> IsCut(session, starts, k, newChats[k]);
      FreshDayIsMerged(session, newChats);
      return newChats, true, starts, chats;
  }

  /**
    Re-appending a session is a no-op: whether there was a day or not, whether or not the first append wrote, and
    whatever the summaries turn out to be, the second append writes nothing and the day stays.
  */
  method AppendTwice(existing: Option<seq<Chat>>, session: Session, summarise: seq<Exchange> -> string,
                     summariseAgain: seq<Exchange> -> string)
    returns (once: seq<Chat>, twice: seq<Chat>, wrote: bool)
    ensures twice == once && !wrote
  {
    hide IsMerged, Covered, UniqueKeys, IsSplit;
    var first;
    ghost var starts, chats, startsAgain, again;
    once, first, starts, chats := AppendSession(existing, session, summarise);
    twice, wrote, startsAgain, again := AppendSession(Some(once), session, summariseAgain);
    SplitAgain(session, starts, chats, startsAgain, again);
    if first {
      if existing.None? { assert [] + chats == chats; }
      MergedCovers(once, if existing.Some? then existing.value else [], chats);
    }
    SameCovered(once, chats, again);
  }

  lemma MergedCovers(day: seq<Chat>, existing: seq<Chat>, newChats: seq<Chat>)
    requires IsMerged(day, existing + newChats)
    ensures UniqueKeys(day) && Covered(day, newChats)
  {
    hide Holds;
    var all := existing + newChats;
    forall n | 0 <= n < |newChats| ensures Holds(day, newChats[n]) { assert all[|existing| + n] == newChats[n]; }
  }

  lemma SameCovered(day: seq<Chat>, a: seq<Chat>, b: seq<Chat>)
    requires SameSplit(a, b) && Covered(day, a)
    ensures Covered(day, b)
  {
    forall n | 0 <= n < |b| ensures Holds(day, b[n]) { assert Holds(day, a[n]); }
  }
}
