/**
  The attempt journal: target -> client turn -> the delivery attempt on file. It is bounded by
  age, by attempts per target and by targets, and every attempt it sheds raises a high-water
  mark, so "not on file" can be told apart from "never attempted".
*/
module AttemptJournal {
  import opened Wrappers
  import opened Ids

  datatype Mode = TurnMode | SteerMode
  datatype Exit = Pending | Sent | NotSent | UnknownExit
  datatype Attempt = Attempt(bootId: string, at: int, mode: Mode, exit: Exit)

  type Rows = map<TurnId, Attempt>
  type Journal = map<Key, Rows>

  const ATTEMPT_RETENTION_MS: int := 48 * 60 * 60 * 1000
  const MAX_ATTEMPTS_PER_TARGET: nat := 256
  const MAX_ATTEMPT_TARGETS: nat := 2048

  predicate Has(j: Journal, k: Key, id: TurnId) { k in j && id in j[k] }

  predicate AtLeast(high: Option<int>, at: int) { high.Some? && high.value >= at }

  function Shed(high: Option<int>, at: int): (r: Option<int>)
    ensures AtLeast(r, at) && (high.Some? ==> AtLeast(r, high.value))
    ensures r == high || r == Some(at)
  {
    if high.None? || high.value < at then Some(at) else high
  }

  predicate Aged(a: Attempt, now: int) { now - a.at > ATTEMPT_RETENTION_MS }

  /** The high-water mark is the old one or the instant of an attempt just shed, and never below either. */
  ghost predicate HighWater(old_: Rows, kept: Rows, through: Option<int>, high: Option<int>) {
    (through.Some? ==> AtLeast(high, through.value))
    && (forall id :: id in old_ && id !in kept ==> AtLeast(high, old_[id].at))
    && (high == through || exists id :: id in old_ && id !in kept && high == Some(old_[id].at))
  }

  ghost predicate SubRows(kept: Rows, old_: Rows) { forall id :: id in kept ==> id in old_ && kept[id] == old_[id] }

  /** One target after bounding: exactly the aged go, then the oldest until 256 remain. */
  ghost predicate Trimmed(old_: Rows, now: int, kept: Rows) {
    SubRows(kept, old_)
    && |kept| <= MAX_ATTEMPTS_PER_TARGET
    && (forall id :: id in kept ==> !Aged(kept[id], now))
    && (forall id :: id in old_ && id !in kept && !Aged(old_[id], now) ==>
         |kept| == MAX_ATTEMPTS_PER_TARGET && forall other :: other in kept ==> old_[id].at <= kept[other].at)
  }

  predicate IsOldest(rows: Rows, id: TurnId)
  {
    id in rows && forall other :: other in rows ==> rows[id].at <= rows[other].at
  }

  lemma OldestOf(rows: Rows, ids: set<TurnId>) returns (oldest: TurnId)
    requires ids != {} && ids <= rows.Keys
    ensures oldest in ids && forall other :: other in ids ==> rows[oldest].at <= rows[other].at
  {
    oldest :| oldest in ids;
    var rest := ids - {oldest};
    if rest != {} {
      var next := OldestOf(rows, rest);
      if rows[next].at < rows[oldest].at { oldest := next; }
    }
  }

  lemma OldestExists(rows: Rows)
    requires rows != map[]
    ensures exists id :: IsOldest(rows, id)
  {
    assert rows.Keys != {} by { var id :| id in rows; assert id in rows.Keys; }
    var id := OldestOf(rows, rows.Keys);
    assert IsOldest(rows, id);
  }

  /** Shedding one more row keeps the high-water mark exact. */
  lemma ShedOne(old_: Rows, kept: Rows, through: Option<int>, high: Option<int>, id: TurnId)
    requires HighWater(old_, kept, through, high) && SubRows(kept, old_) && id in kept
    ensures HighWater(old_, kept - {id}, through, Shed(high, old_[id].at))
    ensures SubRows(kept - {id}, old_)
  {
    var rest, high' := kept - {id}, Shed(high, old_[id].at);
    if high' != through && high' == high {
      var w :| w in old_ && w !in kept && high == Some(old_[w].at);
      assert w !in rest;
    }
  }

  method DropAged(rows: Rows, through: Option<int>, now: int) returns (kept: Rows, high: Option<int>)
    ensures SubRows(kept, rows) && HighWater(rows, kept, through, high)
    ensures forall id :: id in rows ==> (id in kept <==> !Aged(rows[id], now))
  {
    kept, high := rows, through;
    var todo := rows.Keys;
    while todo != {}
      invariant todo <= rows.Keys
      invariant SubRows(kept, rows) && HighWater(rows, kept, through, high)
      invariant forall id :: id in rows ==> (id in kept <==> id in todo || !Aged(rows[id], now))
    {
      var id :| id in todo;
      todo := todo - {id};
      if Aged(rows[id], now) {
        ShedOne(rows, kept, through, high, id);
        kept, high := kept - {id}, Shed(high, rows[id].at);
      }
    }
  }

  method TrimRows(rows: Rows, through: Option<int>, now: int) returns (kept: Rows, high: Option<int>)
    ensures Trimmed(rows, now, kept)
    ensures HighWater(rows, kept, through, high)
  {
    kept, high := DropAged(rows, through, now);
    while |kept| > MAX_ATTEMPTS_PER_TARGET
      invariant SubRows(kept, rows) && HighWater(rows, kept, through, high)
      invariant forall id :: id in kept ==> !Aged(kept[id], now)
      invariant forall id :: id in rows && id !in kept && !Aged(rows[id], now) ==>
                  |kept| >= MAX_ATTEMPTS_PER_TARGET && forall other :: other in kept ==> rows[id].at <= kept[other].at
    {
      OldestExists(kept);
      var id :| IsOldest(kept, id);
      ShedOne(rows, kept, through, high, id);
      kept, high := kept - {id}, Shed(high, kept[id].at);
    }
  }

  /** The newest attempt of a target is at or after `at`. */
  ghost predicate NewestAtLeast(rows: Rows, at: int) { exists id :: id in rows && rows[id].at >= at }

  ghost predicate SubJournal(kept: Journal, old_: Journal) {
    forall k :: k in kept ==> k in old_ && SubRows(kept[k], old_[k])
  }

  ghost predicate WithinBounds(j: Journal) {
    |j| <= MAX_ATTEMPT_TARGETS && forall k :: k in j ==> j[k] != map[] && |j[k]| <= MAX_ATTEMPTS_PER_TARGET
  }

  ghost predicate NoneAged(j: Journal, now: int) { forall k, id :: Has(j, k, id) ==> !Aged(j[k][id], now) }

  /** Every attempt of `old_` that `kept` no longer holds is covered by the high-water mark. */
  ghost predicate Covered(old_: Journal, kept: Journal, high: Option<int>) {
    forall k, id :: Has(old_, k, id) && !Has(kept, k, id) ==> AtLeast(high, old_[k][id].at)
  }

  /** Why an attempt may be shed: too old, surplus on its target, or on a surplus target. */
  ghost predicate MayShed(old_: Journal, kept: Journal, now: int, k: Key, id: TurnId)
    requires Has(old_, k, id)
  {
    var at := old_[k][id].at;
    Aged(old_[k][id], now)
    || (k in kept && |kept[k]| == MAX_ATTEMPTS_PER_TARGET && forall other :: other in kept[k] ==>
       at <= kept[k][other].at)
    || (k !in kept && |kept| == MAX_ATTEMPT_TARGETS && forall other :: other in kept ==> NewestAtLeast(kept[other], at))
  }

  /**
    What bounding a journal does: within all three bounds, nothing altered, nothing shed without a reason or a
    trace.
  */
  ghost predicate Bounded(old_: Journal, through: Option<int>, now: int, kept: Journal, high: Option<int>) {
    SubJournal(kept, old_) && WithinBounds(kept) && NoneAged(kept, now)
    && HighMark(old_, kept, through, high)
    && (forall k, id :: Has(old_, k, id) && !Has(kept, k, id) ==> MayShed(old_, kept, now, k, id))
  }

  /** `Math.max` over a target's attempt times. */
  function NewestOf(rows: Rows): (at: int)
    requires rows != map[]
    ensures NewestAtLeast(rows, at)
    ensures forall id :: id in rows ==> rows[id].at <= at
  {
    NewestExists(rows);
    var id :| id in rows && forall other :: other in rows ==> rows[other].at <= rows[id].at;
    rows[id].at
  }

  lemma NewestExists(rows: Rows)
    requires rows != map[]
    ensures exists id :: id in rows && forall other :: other in rows ==> rows[other].at <= rows[id].at
  {
    var flipped: Rows := map id | id in rows :: rows[id].(at := -rows[id].at);
    assert flipped.Keys == rows.Keys;
    OldestExists(flipped);
    var id :| IsOldest(flipped, id);
    assert forall other :: other in rows ==> flipped[other].at == -rows[other].at;
  }

  predicate NoEmptyRows(j: Journal) { forall k :: k in j ==> j[k] != map[] }

  predicate IsStalest(j: Journal, k: Key)
    requires NoEmptyRows(j)
  {
    k in j && forall other :: other in j ==> NewestOf(j[k]) <= NewestOf(j[other])
  }

  lemma StalestExists(j: Journal)
    requires j != map[] && NoEmptyRows(j)
    ensures exists k :: IsStalest(j, k)
  {
    var newest: Rows := map k | k in j :: Attempt("", NewestOf(j[k]), TurnMode, Sent);
    assert newest.Keys == j.Keys;
    OldestExists(newest);
    var k :| IsOldest(newest, k);
    assert forall other :: other in j ==> newest[other].at == NewestOf(j[other]);
    assert IsStalest(j, k);
  }

  /** `boundAttempts`: age first, then attempts per target, then targets. */
  method BoundAttempts(attempts: Journal, through: Option<int>, now: int) returns (kept: Journal, high: Option<int>)
    ensures Bounded(attempts, through, now, kept, high)
  {
    kept, high := TrimAll(attempts, through, now);
    kept, high := DropStaleTargets(attempts, kept, through, high, now);
  }

  /** The journal's high-water mark: never below the old one or a shed attempt, and one of the two. */
  ghost predicate HighMark(old_: Journal, kept: Journal, through: Option<int>, high: Option<int>) {
    Covered(old_, kept, high)
    && (through.Some? ==> AtLeast(high, through.value))
    && (high == through || exists k, id :: ShedAt(old_, kept, k, id, high))
  }

  predicate ShedAt(old_: Journal, kept: Journal, k: Key, id: TurnId, high: Option<int>) {
    Has(old_, k, id) && !Has(kept, k, id) && high == Some(old_[k][id].at)
  }

  /** Each target of `todo` still whole, each other target trimmed, an emptied target gone. */
  ghost predicate TrimmedBut(old_: Journal, now: int, kept: Journal, todo: set<Key>) {
    SubJournal(kept, old_)
    && (forall k :: k in todo ==> k in kept && kept[k] == old_[k])
    && (forall k :: k in kept && k !in todo ==> kept[k] != map[] && Trimmed(old_[k], now, kept[k]))
    && (forall k, id :: Has(old_, k, id) && k !in kept ==> Aged(old_[k][id], now))
  }

  function CutRows(j: Journal, k: Key, rows: Rows): (r: Journal)
    ensures forall k' :: k' != k ==> (k' in r <==> k' in j) && (k' in j ==> r[k'] == j[k'])
    ensures k in r <==> rows != map[]
    ensures k in r ==> r[k] == rows
  {
    if rows != map[] then j[k := rows] else j - {k}
  }

  lemma CutCovered(old_: Journal, kept: Journal, high: Option<int>, k: Key, rows: Rows, high': Option<int>)
    requires SubJournal(kept, old_) && Covered(old_, kept, high) && k in kept
    requires SubRows(rows, kept[k]) && HighWater(kept[k], rows, high, high')
    ensures Covered(old_, CutRows(kept, k, rows), high')
    ensures SubJournal(CutRows(kept, k, rows), old_)
  {
    var kept' := CutRows(kept, k, rows);
    forall k0, id | Has(old_, k0, id) && !Has(kept', k0, id) ensures AtLeast(high', old_[k0][id].at) {
      if k0 == k && id in kept[k] {
        assert id !in rows && kept[k][id] == old_[k][id];
      } else {
        assert !Has(kept, k0, id);
      }
    }
  }

  /** Cutting one target's rows down keeps the mark exact. */
  lemma CutTarget(old_: Journal, kept: Journal, through: Option<int>, high: Option<int>, k: Key,
                  rows: Rows, high': Option<int>)
    requires SubJournal(kept, old_) && HighMark(old_, kept, through, high) && k in kept
    requires SubRows(rows, kept[k]) && HighWater(kept[k], rows, high, high')
    ensures HighMark(old_, CutRows(kept, k, rows), through, high') && SubJournal(CutRows(kept, k, rows), old_)
  {
    var kept' := CutRows(kept, k, rows);
    CutCovered(old_, kept, high, k, rows, high');
    if high' != high {
      var id :| id in kept[k] && id !in rows && high' == Some(kept[k][id].at);
      assert ShedAt(old_, kept', k, id, high');
    } else if high != through {
      var k0, id0 :| ShedAt(old_, kept, k0, id0, high);
      assert ShedAt(old_, kept', k0, id0, high');
    }
  }

  lemma NothingShed(attempts: Journal, through: Option<int>, now: int)
    ensures HighMark(attempts, attempts, through, through) && TrimmedBut(attempts, now, attempts, attempts.Keys)
  {
  }

  method TrimAll(attempts: Journal, through: Option<int>, now: int) returns (kept: Journal, high: Option<int>)
    ensures TrimmedBut(attempts, now, kept, {}) && HighMark(attempts, kept, through, high)
  {
    hide HighMark, TrimmedBut, Trimmed, HighWater;
    kept, high := attempts, through;
    NothingShed(attempts, through, now);
    var todo := attempts.Keys;
    while todo != {}
      invariant TrimmedBut(attempts, now, kept, todo) && HighMark(attempts, kept, through, high)
    {
      var k :| k in todo;
      TodoIsWhole(attempts, now, kept, todo, k);
      var rows, high' := TrimRows(kept[k], high, now);
      TrimmedNext(attempts, now, kept, todo, k, rows);
      CutTarget(attempts, kept, through, high, k, rows, high');
      todo, kept, high := todo - {k}, CutRows(kept, k, rows), high';
    }
  }

  lemma TodoIsWhole(attempts: Journal, now: int, kept: Journal, todo: set<Key>, k: Key)
    requires TrimmedBut(attempts, now, kept, todo) && k in todo
    ensures k in kept && kept[k] == attempts[k] && SubJournal(kept, attempts)
  {
  }

  lemma TrimmedNext(attempts: Journal, now: int, kept: Journal, todo: set<Key>, k: Key, rows: Rows)
    requires TrimmedBut(attempts, now, kept, todo) && k in todo && k in kept && Trimmed(kept[k], now, rows)
    ensures TrimmedBut(attempts, now, CutRows(kept, k, rows), todo - {k}) && SubRows(rows, kept[k])
  {
    assert rows == map[] ==> |rows| == 0;
  }

  /** `kept` holds some of the targets of `trimmed`, whole, and each dropped one is no fresher than any kept one. */
  ghost predicate StaleGone(trimmed: Journal, kept: Journal) {
    (forall k :: k in kept ==> k in trimmed && kept[k] == trimmed[k])
    && (forall k :: k in trimmed && k !in kept ==> |kept| >= MAX_ATTEMPT_TARGETS)
    && (forall k, id, other :: Has(trimmed, k, id) && k !in kept && other in kept ==>
       NewestAtLeast(kept[other], trimmed[k][id].at))
  }

  method DropStaleTargets(attempts: Journal, trimmed: Journal, through: Option<int>, high0: Option<int>, now: int)
    returns (kept: Journal, high: Option<int>)
    requires TrimmedBut(attempts, now, trimmed, {}) && HighMark(attempts, trimmed, through, high0)
    ensures Bounded(attempts, through, now, kept, high)
  {
    kept, high := trimmed, high0;
    while |kept| > MAX_ATTEMPT_TARGETS
      invariant StaleGone(trimmed, kept)
      invariant SubJournal(kept, attempts) && HighMark(attempts, kept, through, high)
    {
      StalestExists(kept);
      var k :| IsStalest(kept, k);
      var high' := ShedRows(kept[k], high);
      CutTarget(attempts, kept, through, high, k, map[], high');
      DropStalest(trimmed, kept, k);
      kept, high := CutRows(kept, k, map[]), high';
    }
    AllMayShed(attempts, trimmed, kept, now);
    AllBounded(attempts, trimmed, kept, now);
  }

  lemma DropStalest(trimmed: Journal, kept: Journal, k: Key)
    requires NoEmptyRows(trimmed) && NoEmptyRows(kept) && StaleGone(trimmed, kept)
    requires IsStalest(kept, k) && |kept| > MAX_ATTEMPT_TARGETS
    ensures StaleGone(trimmed, CutRows(kept, k, map[]))
    ensures |CutRows(kept, k, map[])| == |kept| - 1
  {
    var rest := CutRows(kept, k, map[]);
    assert |rest| == |kept| - 1;
    forall k0, id, other | Has(trimmed, k0, id) && k0 !in rest && other in rest
      ensures NewestAtLeast(rest[other], trimmed[k0][id].at)
    {
      if k0 == k {
        assert trimmed[k0][id].at <= NewestOf(kept[k]) <= NewestOf(kept[other]);
      }
    }
  }

  lemma AllBounded(attempts: Journal, trimmed: Journal, kept: Journal, now: int)
    requires TrimmedBut(attempts, now, trimmed, {}) && StaleGone(trimmed, kept) && |kept| <= MAX_ATTEMPT_TARGETS
    ensures WithinBounds(kept) && NoneAged(kept, now)
  {
  }

  lemma AllMayShed(attempts: Journal, trimmed: Journal, kept: Journal, now: int)
    requires TrimmedBut(attempts, now, trimmed, {}) && StaleGone(trimmed, kept) && |kept| <= MAX_ATTEMPT_TARGETS
    ensures forall k, id :: Has(attempts, k, id) && !Has(kept, k, id) ==> MayShed(attempts, kept, now, k, id)
  {
    forall k, id | Has(attempts, k, id) && !Has(kept, k, id) ensures MayShed(attempts, kept, now, k, id) {
      if k !in kept && k in trimmed && !Aged(attempts[k][id], now) {
        var newer :| newer in trimmed[k] && attempts[k][id].at <= trimmed[k][newer].at;
        assert Has(trimmed, k, newer);
        forall other | other in kept ensures NewestAtLeast(kept[other], attempts[k][id].at) {
          assert NewestAtLeast(kept[other], trimmed[k][newer].at);
        }
      }
    }
  }

  /** Shed a whole target: every row of it raises the high-water mark. */
  method ShedRows(rows: Rows, through: Option<int>) returns (high: Option<int>)
    ensures HighWater(rows, map[], through, high)
  {
    high := through;
    var kept := rows;
    while kept != map[]
      invariant SubRows(kept, rows) && HighWater(rows, kept, through, high)
      decreases |kept|
    {
      var id :| id in kept;
      ShedOne(rows, kept, through, high, id);
      kept, high := kept - {id}, Shed(high, kept[id].at);
    }
  }
}
