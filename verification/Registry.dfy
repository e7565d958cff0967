/**
  The registry as an object over a store file. A mutator works out the next state from memory and
  hands it to `Persist`; the parameter `ok` says whether the write to the file will succeed.
*/
module Registry {
  import opened Wrappers
  import opened Ids
  import opened BindingStore
  import opened AttemptJournal
  import opened RegistryState
  import opened StoreFile
  import Hydrate
  import TargetKey

  ghost predicate ValidMem(m: Mem) {
    (forall id :: id in m.records ==> m.records[id].binding.bindingId == id)
    && (forall id :: id in m.turns ==> m.turns[id] != [])
  }

  ghost predicate OpenedAs(file: File, now: int, h: Hydration, m: Mem, degraded: Option<Degradation>) {
    Hydrates(file, now, h)
    && m == (if h.Loaded? then h.mem else EmptyMem)
    && degraded == (if h.Degraded? then Some(h.reason) else None)
  }

  /** A planned mutation was carried out: refused or answered with nothing changed, or persisted. */
  ghost predicate Ran(up: bool, plan: Plan, ok: bool, m: Mem, file: File, m': Mem, file': File, res: Outcome) {
    if !up then m' == m && file' == file && res == Refused(StoreUnavailable)
    else
      match plan
      case Reject(reason) => m' == m && file' == file && res == Refused(reason)
      case Keep(b) => m' == m && file' == file && res == Bound(b)
      case Write(next, b) => Persisted(m, file, next, ok, m', file') && res == if ok then Bound(b)
        else Refused(PersistFailed)
  }

  /** Releasing the due pins was carried out: nothing due changes nothing. */
  ghost predicate ReleaseRan(m: Mem, file: File, due: map<Id, seq<Job>>, now: int, ok: bool, m': Mem, file': File) {
    if NothingDue(due) then m' == m && file' == file
    else exists next :: IsReleased(m, due, now, next) && Persisted(m, file, next, ok, m', file')
  }

  ghost predicate ReapRan(m: Mem, file: File, cfg: Config, now: int, ok: bool, m': Mem, file': File) {
    if NothingToReap(m, cfg, now) then m' == m && file' == file
    else exists next :: IsReaped(m, cfg, now, next) && Persisted(m, file, next, ok, m', file')
  }

  /** Beginning an attempt: durably on file when `recorded`, otherwise nothing changed. */
  ghost predicate BeginRan(up: bool, boot: Boot, provider: string, threadId: string, turn: TurnId,
                           mode: Mode, now: int, ok: bool,
                           m: Mem, file: File, m': Mem, file': File, recorded: bool) {
    var key := TargetKey.Make(provider, threadId);
    (recorded <==> up && TargetKey.Legal(provider, threadId) && IsTurnId(turn) && ok)
    && (!recorded ==> m' == m && file' == file)
    && (recorded ==> exists kept, high ::
          Bounded(WithAttempt(m.attempts, key, turn, Attempt(boot.bootId, now, mode, Pending)),
            m.through, now, kept, high)
          && Persisted(m, file, m.(attempts := kept, through := high), true, m', file'))
  }

  /** Settling an attempt: durable, or nothing on file to settle, when `written`. */
  ghost predicate SettleRan(up: bool, provider: string, threadId: string, turn: TurnId, exit: Exit, now: int, ok: bool,
                            m: Mem, file: File, m': Mem, file': File, written: bool) {
    var key := TargetKey.Make(provider, threadId);
    (written <==> up && TargetKey.Legal(provider, threadId) && IsTurnId(turn) && (ok || !Has(m.attempts, key, turn)))
    && (!written || !Has(m.attempts, key, turn) ==> m' == m && file' == file)
    && (written && Has(m.attempts, key, turn) ==> exists kept, high ::
          Bounded(WithExit(m.attempts, key, turn, exit), m.through, now, kept, high)
          && Persisted(m, file, m.(attempts := kept, through := high), true, m', file'))
  }

  /** The pins a create or an occupancy question on this target finds due. */
  function DueOn(m: Mem, boot: Boot, running: set<Child>, now: int, provider: string,
                 threadId: string): map<Id, seq<Job>> {
    AllDue(m, boot, running, now, Some(TargetKey.Make(provider, threadId)))
  }

  /** Creating a binding: the target's dead-boot pins first, leaving `mid`, then the attach. */
  ghost predicate CreateRan(boot: Boot, cfg: Config, a: Attach, now: int, running: set<Child>, enabled: bool,
                            okRelease: bool, ok: bool,
                            m: Mem, file: File, mid: Mem, midFile: File, plan: Plan, m': Mem,
                              file': File, res: Outcome) {
    (if enabled then ReleaseRan(m, file, DueOn(m, boot, running, now, a.provider, a.threadId), now,
      okRelease, mid, midFile)
     else mid == m && midFile == file)
    && IsCreatePlan(mid, cfg, a, now, plan) && Ran(true, plan, ok, mid, midFile, m', file', res)
  }

  function PinsOf(recs: Records): set<(Id, Job)> {
    set id, job | id in recs && job in recs[id].binding.pinnedJobs :: (id, job)
  }

  function FirstTurn(rows: seq<TurnRow>, turn: TurnId): (r: Option<TurnRow>)
    ensures r.Some? <==> HasTurn(rows, turn)
    ensures r.Some? ==> r.value in rows && r.value.turnId == turn
  {
    if rows == [] then None
    else if rows[0].turnId == turn then Some(rows[0])
    else
      var rest := FirstTurn(rows[1..], turn);
      assert HasTurn(rows, turn) ==> HasTurn(rows[1..], turn) by {
        if HasTurn(rows, turn) {
          var i :| 0 <= i < |rows| && rows[i].turnId == turn;
          assert rows[1..][i - 1].turnId == turn;
        }
      }
      rest
  }

  lemma {:induction false} ReadRecordsValid(es: seq<RawEntry>, now: int)
    ensures forall id :: id in ReadRecords(es, now) ==> ReadRecords(es, now)[id].binding.bindingId == id
  {
    if es != [] { ReadRecordsValid(es[..|es| - 1], now); }
  }

  /** The holder map of these records, when no map is carried over. */
  method RebuildTargets(records: Records, now: int) returns (targets: map<Key, Id>)
    ensures TargetsRebuilt(targets, records, now)
  {
    targets := map[];
    var todo := records.Keys;
    while todo != {}
      invariant todo <= records.Keys
      invariant forall k :: k in targets ==>
                Blocker(records, now, targets[k]) && records[targets[k]].binding.targetKey == k
      invariant forall id :: Blocker(records, now, id) && id !in todo ==> records[id].binding.targetKey in targets
    {
      var id :| id in todo;
      todo := todo - {id};
      if BlocksTarget(records[id].binding, now) { targets := targets[records[id].binding.targetKey := id]; }
    }
  }

  // ------------------------------------------------------------- releasing pins, one at a time

  ghost function DueOf(m: Mem, ids: set<Id>, boot: Boot, running: set<Child>, now: int,
                       only: Option<Key>): map<Id, seq<Job>>
    requires ids <= m.records.Keys
  {
    map id | id in ids :: DuePins(m.records[id], id, boot, running, now, only)
  }

  lemma ReleasedNone(m: Mem, now: int)
    requires ValidMem(m)
    ensures InRelease(m, map[], now, m.records, m.turns, m.attempts)
  {
    assert ReleasedRecords(m, map[], now) == m.records;
    assert ReleasedTurns(m, map[], now).Keys == m.turns.Keys;
    forall k | k in m.attempts ensures ReleasedJournal(m, map[])[k] == m.attempts[k] {}
  }

  lemma {:induction false} RowsNeverVanish(m: Mem, id: Id, rows: seq<TurnRow>, due: seq<Job>,
                                           meta: map<Job, PinMeta>, now: int)
    requires rows != []
    ensures ReleasedRows(m, id, rows, due, meta, now) != []
  {
    if due != [] { RowsNeverVanish(m, id, rows, due[..|due| - 1], meta, now); }
  }

  lemma ReleasedTurnsOne(m: Mem, done: map<Id, seq<Job>>, id: Id, due: seq<Job>, now: int)
    requires ValidMem(m) && id in m.records && id !in done
    ensures var rows := ReleasedRows(m, id, RowsOf(m.turns, id), due, m.records[id].pinMeta, now);
            ReleasedTurns(m, done[id := due], now)
              == if rows != [] then ReleasedTurns(m, done, now)[id := rows] else ReleasedTurns(m, done, now)
  {
    var done' := done[id := due];
    var rows := ReleasedRows(m, id, RowsOf(m.turns, id), due, m.records[id].pinMeta, now);
    if id in m.turns { RowsNeverVanish(m, id, m.turns[id], due, m.records[id].pinMeta, now); }
    assert RowsAfter(m, done', id, now) == rows;
    assert RowsAfter(m, done, id, now) == RowsOf(m.turns, id);
    forall other | other != id ensures RowsAfter(m, done', other, now) == RowsAfter(m, done, other, now) {
      assert RowsDue(done', other) == RowsDue(done, other);
    }
    TurnsOne(m, done, done', id, rows, now);
  }

  ghost function ReleasedRecords(m: Mem, due: map<Id, seq<Job>>, now: int): Records {
    map id | id in m.records :: Released(m.records[id], RowsDue(due, id), now)
  }

  ghost predicate InRelease(m: Mem, done: map<Id, seq<Job>>, now: int, records: Records,
                            turns: map<Id, seq<TurnRow>>, attempts: Journal) {
    records == ReleasedRecords(m, done, now) && turns == ReleasedTurns(m, done, now)
    && attempts == ReleasedJournal(m, done)
  }

  lemma DueOfOne(m: Mem, ids: set<Id>, id: Id, boot: Boot, running: set<Child>, now: int, only: Option<Key>)
    requires ids <= m.records.Keys && id in m.records
    ensures DueOf(m, ids + {id}, boot, running, now, only)
         == DueOf(m, ids, boot, running, now, only)[id := DuePins(m.records[id], id, boot, running, now, only)]
  {
  }

  lemma ReleaseComplete(m: Mem, due: map<Id, seq<Job>>, now: int, next: Mem)
    requires ValidMem(m) && InRelease(m, due, now, next.records, next.turns, next.attempts)
    requires TargetsRebuilt(next.targets, next.records, now) && next.floors == m.floors && next.through == m.through
    ensures IsReleased(m, due, now, next) && ValidMem(next)
  {
  }

  lemma NothingDueOne(done: map<Id, seq<Job>>, id: Id, due: seq<Job>)
    requires id !in done
    ensures NothingDue(done[id := due]) <==> NothingDue(done) && due == []
  {
    assert forall other :: other in done ==> done[id := due][other] == done[other];
    assert done[id := due][id] == due;
  }

  lemma ReleasedRecordsOne(m: Mem, done: map<Id, seq<Job>>, id: Id, due: seq<Job>, now: int)
    requires id in m.records && id !in done
    ensures ReleasedRecords(m, done[id := due], now)
            == ReleasedRecords(m, done, now)[id := Released(m.records[id], due, now)]
    ensures ReleasedRecords(m, done, now)[id] == m.records[id]
  {
    var r0, r1 := ReleasedRecords(m, done, now)[id := Released(m.records[id], due, now)],
      ReleasedRecords(m, done[id := due], now);
    assert forall other :: other in r1 ==> r1[other] == r0[other];
  }

  lemma TurnsOne(m: Mem, done: map<Id, seq<Job>>, done': map<Id, seq<Job>>, id: Id, rows: seq<TurnRow>, now: int)
    requires id in m.records && RowsAfter(m, done', id, now) == rows
    requires rows == [] ==> RowsAfter(m, done, id, now) == []
    requires forall other :: other != id ==> RowsAfter(m, done', other, now) == RowsAfter(m, done, other, now)
    ensures ReleasedTurns(m, done', now) == if rows != [] then ReleasedTurns(m, done, now)[id := rows]
            else ReleasedTurns(m, done, now)
  {
    hide RowsAfter;
    var t0, t1 := ReleasedTurns(m, done, now), ReleasedTurns(m, done', now);
    var t2 := if rows != [] then t0[id := rows] else t0;
    assert t1.Keys == t2.Keys;
    assert forall other :: other in t1 ==> t1[other] == t2[other];
  }

  lemma ReleasedJournalNothing(m: Mem, done: map<Id, seq<Job>>, id: Id)
    requires id !in done
    ensures ReleasedJournal(m, done[id := []]) == ReleasedJournal(m, done)
  {
    var d1 := done[id := []];
    forall k, turn | Has(m.attempts, k, turn) ensures Orphaned(m, d1, k, turn) <==> Orphaned(m, done, k, turn) {
      if Orphaned(m, d1, k, turn) {
        var i, j :| NamedBy(m, d1, i, j, k, turn);
        assert NamedBy(m, done, i, j, k, turn);
      }
      if Orphaned(m, done, k, turn) {
        var i, j :| NamedBy(m, done, i, j, k, turn);
        assert NamedBy(m, d1, i, j, k, turn);
      }
    }
    var before, after := ReleasedJournal(m, done), ReleasedJournal(m, d1);
    assert forall k :: k in after ==> after[k] == before[k];
  }

  /** What one more released job adds to the journal's changes. */
  lemma ReleasedJournalOne(m: Mem, done: map<Id, seq<Job>>, id: Id, jobs: seq<Job>, job: Job)
    requires id in m.records
    ensures ReleasedJournal(m, done[id := jobs + [job]])
         == OrphanedBy(ReleasedJournal(m, done[id := jobs]), m.records[id], job)
  {
    hide Orphaned;
    var d0, d1 := done[id := jobs], done[id := jobs + [job]];
    var before, after := ReleasedJournal(m, d0), ReleasedJournal(m, d1);
    var r := m.records[id];
    var expected := OrphanedBy(before, r, job);
    assert expected.Keys == after.Keys;
    forall k | k in after ensures after[k] == expected[k] {
      assert after[k].Keys == expected[k].Keys;
      forall turn | turn in after[k] ensures after[k][turn] == expected[k][turn] {
        OrphanedOne(m, done, id, jobs, job, k, turn);
      }
    }
  }

  /** The journal once the turn a released pin names, if its attempt is pending, reads unknown. */
  function OrphanedBy(j: Journal, r: Record, job: Job): Journal {
    if job in r.pinMeta && Has(j, r.binding.targetKey, r.pinMeta[job].clientTurnId)
       && j[r.binding.targetKey][r.pinMeta[job].clientTurnId].exit == Pending
    then WithExit(j, r.binding.targetKey, r.pinMeta[job].clientTurnId, UnknownExit) else j
  }

  lemma OrphanedOne(m: Mem, done: map<Id, seq<Job>>, id: Id, jobs: seq<Job>, job: Job, k: Key, turn: TurnId)
    requires id in m.records && Has(m.attempts, k, turn)
    ensures Orphaned(m, done[id := jobs + [job]], k, turn) <==>
        Orphaned(m, done[id := jobs], k, turn)
        || (m.attempts[k][turn].exit == Pending && job in m.records[id].pinMeta
            && k == m.records[id].binding.targetKey && turn == m.records[id].pinMeta[job].clientTurnId)
  {
    var d0, d1 := done[id := jobs], done[id := jobs + [job]];
    assert d1[id] == jobs + [job] && job in d1[id];
    if Orphaned(m, d1, k, turn) {
      var i, j :| NamedBy(m, d1, i, j, k, turn);
      if !(i == id && j == job) { assert NamedBy(m, d0, i, j, k, turn); }
    }
    if Orphaned(m, d0, k, turn) {
      var i, j :| NamedBy(m, d0, i, j, k, turn);
      assert NamedBy(m, d1, i, j, k, turn);
    }
    if m.attempts[k][turn].exit == Pending && job in m.records[id].pinMeta
       && k == m.records[id].binding.targetKey && turn == m.records[id].pinMeta[job].clientTurnId {
      assert NamedBy(m, d1, id, job, k, turn);
    }
  }

  /** The row of a turn, looked for on this binding first and then on every other of its target. */
  method FindTurnIn(m: Mem, id: Id, turn: TurnId) returns (row: Option<TurnRow>)
    ensures row.Some? <==> TurnKnown(m, id, turn)
    ensures row.Some? ==> row.value.turnId == turn
    ensures IsTurnId(turn) && HasTurn(RowsOf(m.turns, id), turn) ==> row == FirstTurn(RowsOf(m.turns, id), turn)
  {
    if !IsTurnId(turn) { return None; }
    var own := FirstTurn(RowsOf(m.turns, id), turn);
    if own.Some? { return own; }
    if id !in m.records { return None; }
    var todo := m.records.Keys - {id};
    while todo != {}
      invariant todo <= m.records.Keys
      invariant forall other :: SameTarget(m, id, other) && other !in todo ==> !HasTurn(RowsOf(m.turns, other), turn)
    {
      var other :| other in todo;
      todo := todo - {other};
      if m.records[other].binding.targetKey == m.records[id].binding.targetKey {
        var hit := FirstTurn(RowsOf(m.turns, other), turn);
        if hit.Some? {
          assert SameTarget(m, id, other);
          return hit;
        }
      }
    }
    return None;
  }

  method Release(m: Mem, boot: Boot, now: int, running: set<Child>, only: Option<Key>) returns (next: Mem, any: bool)
    requires ValidMem(m)
    ensures any <==> !NothingDue(AllDue(m, boot, running, now, only))
    ensures IsReleased(m, AllDue(m, boot, running, now, only), now, next) && ValidMem(next)
  {
    hide ReleasedTurns, ReleasedJournal, ReleasedRecords, DuePins, ValidMem;
    var nextRecords, nextTurns, nextAttempts := m.records, m.turns, m.attempts;
    any := false;
    var todo := m.records.Keys;
    ghost var seen: set<Id> := {};
    var done: map<Id, seq<Job>> := map[];
    ReleasedNone(m, now);
    while todo != {}
      invariant seen !! todo && seen + todo == m.records.Keys
      invariant done == DueOf(m, seen, boot, running, now, only)
      invariant InRelease(m, done, now, nextRecords, nextTurns, nextAttempts)
      invariant any <==> !NothingDue(done)
    {
      var id :| id in todo;
      var due := DuePins(m.records[id], id, boot, running, now, only);
      nextRecords, nextTurns, nextAttempts := ReleaseOne(m, id, due, now, nextRecords, nextTurns, nextAttempts, done);
      any := any || due != [];
      NothingDueOne(done, id, due);
      DueOfOne(m, seen, id, boot, running, now, only);
      todo, seen, done := todo - {id}, seen + {id}, done[id := due];
    }
    assert done == AllDue(m, boot, running, now, only);
    var rebuilt := RebuildTargets(nextRecords, now);
    next := Mem(nextRecords, rebuilt, m.floors, nextTurns, nextAttempts, m.through);
    ReleaseComplete(m, done, now, next);
  }

  method ReleaseOne(m: Mem, id: Id, due: seq<Job>, now: int, records0: Records, turns0: map<Id, seq<TurnRow>>,
                    attempts0: Journal, done: map<Id, seq<Job>>)
    returns (records': Records, turns': map<Id, seq<TurnRow>>, attempts': Journal)
    requires ValidMem(m) && id in m.records && id !in done
    requires InRelease(m, done, now, records0, turns0, attempts0)
    ensures InRelease(m, done[id := due], now, records', turns', attempts')
  {
    records', turns', attempts' := records0, turns0, attempts0;
    ReleasedTurnsOne(m, done, id, due, now);
    ReleasedRecordsOne(m, done, id, due, now);
    if due == [] {
      ReleasedJournalNothing(m, done, id);
      assert Released(m.records[id], due, now) == records0[id];
      assert RowsOf(m.turns, id) != [] ==> turns0[id] == RowsOf(m.turns, id);
      return;
    }
    var rows;
    rows, attempts' := ReleasePins(m, id, due, now, attempts0, done);
    if rows != [] { turns' := turns'[id := rows]; }
    records' := records'[id := Released(m.records[id], due, now)];
  }

  /** The ledger rows one binding ends up with, and the journal, once `due` is released. */
  method ReleasePins(m: Mem, id: Id, due: seq<Job>, now: int, journal: Journal, done: map<Id, seq<Job>>)
    returns (rows: seq<TurnRow>, journal': Journal)
    requires ValidMem(m) && id in m.records && id !in done
    requires journal == ReleasedJournal(m, done)
    ensures rows == ReleasedRows(m, id, RowsOf(m.turns, id), due, m.records[id].pinMeta, now)
    ensures journal' == ReleasedJournal(m, done[id := due])
  {
    var record := m.records[id];
    rows, journal' := RowsOf(m.turns, id), journal;
    ReleasedJournalNothing(m, done, id);
    for i := 0 to |due|
      invariant rows == ReleasedRows(m, id, RowsOf(m.turns, id), due[..i], record.pinMeta, now)
      invariant journal' == ReleasedJournal(m, done[id := due[..i]])
    {
      var job := due[i];
      assert due[..i + 1] == due[..i] + [job] && due[..i + 1][..i] == due[..i];
      ReleasedJournalOne(m, done, id, due[..i], job);
      if job in record.pinMeta {
        var turn := record.pinMeta[job].clientTurnId;
        var known := FindTurnIn(m, id, turn);
        if known.None? && !HasTurn(rows, turn) {
          rows := LastTurns(rows + [TurnRow(turn, DeliveryUnknown(job), now)]);
        }
        var key := record.binding.targetKey;
        if key in journal' && turn in journal'[key] && journal'[key][turn].exit == Pending {
          journal' := journal'[key := journal'[key][turn := journal'[key][turn].(exit := UnknownExit)]];
        }
      }
    }
    assert due[..|due|] == due;
  }

  // ------------------------------------------------------------- eviction and reaping

  lemma OldestDead(recs: Records, dead: set<Id>) returns (oldest: Id)
    requires dead != {} && dead <= recs.Keys
    ensures oldest in dead && forall d :: d in dead ==> recs[oldest].updatedAt <= recs[d].updatedAt
  {
    oldest :| oldest in dead;
    var rest := dead - {oldest};
    if rest != {} {
      var next := OldestDead(recs, rest);
      if recs[next].updatedAt < recs[oldest].updatedAt { oldest := next; }
    }
  }

  predicate NoneOlder(recs: Records, freed: set<Id>, dead: set<Id>)
    requires freed <= recs.Keys && dead <= recs.Keys
  {
    forall e, d :: e in freed && d in dead ==> recs[e].updatedAt <= recs[d].updatedAt
  }

  lemma FreeOne(recs: Records, freed: set<Id>, dead: set<Id>, id: Id)
    requires freed <= recs.Keys && dead <= recs.Keys && id in dead && freed !! dead
    requires NoneOlder(recs, freed, dead) && NoneOlder(recs, {id}, dead)
    ensures NoneOlder(recs, freed + {id}, dead - {id})
    ensures (freed + {id}) !! (dead - {id}) && (freed + {id}) + (dead - {id}) == freed + dead
    ensures |freed + {id}| == |freed| + 1
  {
    forall e, d | e in freed + {id} && d in dead - {id} ensures recs[e].updatedAt <= recs[d].updatedAt {
      if e == id { assert id in {id}; }
    }
  }

  /** The dead records an eviction frees, as `OldestFreed` says. */
  method EvictOldestDisposable(recs: Records, now: int, wanted: nat) returns (freed: set<Id>)
    ensures OldestFreed(recs, now, wanted, freed)
  {
    freed := {};
    var dead := Disposables(recs, now);
    ghost var all := dead;
    while |freed| < wanted && dead != {}
      invariant freed <= recs.Keys && dead <= recs.Keys
      invariant freed !! dead && freed + dead == all && |freed| <= wanted
      invariant NoneOlder(recs, freed, dead)
      decreases dead
    {
      ghost var oldest := OldestDead(recs, dead);
      assert NoneOlder(recs, {oldest}, dead);
      var id :| id in dead && NoneOlder(recs, {id}, dead);
      FreeOne(recs, freed, dead, id);
      dead, freed := dead - {id}, freed + {id};
    }
    assert |all| == |freed| + |dead|;
    assert all - freed == dead;
  }

  /** Where the new lease goes: beside `recs`, the oldest dead records evicted first when the registry is full. */
  method Room(m: Mem, cfg: Config, b: Binding, recs: Records, now: int) returns (plan: Plan)
    requires recs == Yielded(m, b.targetKey, now)
    ensures IsAttachPlan(m, cfg, b, now, plan)
  {
    if |recs| < cfg.maxRetained { return Write(Attached(m, recs, m.targets, b, now), b); }
    var freed := EvictOldestDisposable(recs, now, |recs| - cfg.maxRetained + 1);
    return EvictPlan(m, cfg, recs, freed, b, now);
  }

  /** Every committed attach is the new lease beside the yielded records less some dead ones. */
  lemma AttachParts(m: Mem, cfg: Config, b: Binding, now: int, plan: Plan)
    returns (freed: set<Id>, targets: map<Key, Id>)
    requires IsAttachPlan(m, cfg, b, now, plan)
    ensures plan.Reject? ==> plan == Reject(RegistryFull)
    ensures !plan.Reject? ==>
      var recs := Yielded(m, b.targetKey, now);
      plan == Write(Attached(m, recs - freed, targets, b, now), b)
      && freed <= Disposables(recs, now)
      && (freed == {} ==> targets == m.targets)
      && (freed != {} ==> targets == TargetsLeft(m.targets - {b.targetKey}, recs, freed))
  {
    hide Yielded, TargetsLeft, Attached, Disposables;
    var recs := Yielded(m, b.targetKey, now);
    freed, targets := {}, m.targets;
    if |recs| < cfg.maxRetained {
      assert recs - {} == recs;
    } else {
      freed :| OldestFreed(recs, now, |recs| - cfg.maxRetained + 1, freed)
      && plan == EvictPlan(m, cfg, recs, freed, b, now);
      targets := TargetsLeft(m.targets - {b.targetKey}, recs, freed);
    }
  }

  lemma YieldedValid(m: Mem, key: Key, now: int)
    requires ValidMem(m)
    ensures forall id :: id in Yielded(m, key, now) ==> Yielded(m, key, now)[id].binding.bindingId == id
  {
  }

  lemma AttachPlanValid(m: Mem, cfg: Config, b: Binding, now: int, plan: Plan)
    requires ValidMem(m) && IsAttachPlan(m, cfg, b, now, plan)
    ensures plan.Write? || plan == Reject(RegistryFull)
    ensures plan.Write? ==> ValidMem(plan.next) && plan.binding == b
  {
    hide IsAttachPlan, Yielded, TargetsLeft, Disposables;
    var freed, targets := AttachParts(m, cfg, b, now, plan);
    YieldedValid(m, b.targetKey, now);
  }

  ghost function ReapedOf(m: Mem, cfg: Config, now: int, seen: set<Id>): Records {
    map id | id in m.records && id in seen && !Reaps(m, cfg, now, id) :: Unleaked(m.records[id], cfg, now)
  }

  lemma ReapedOne(m: Mem, cfg: Config, now: int, seen: set<Id>, id: Id)
    requires id in m.records && id !in seen
    ensures ReapedOf(m, cfg, now, seen + {id})
         == if Reaps(m, cfg, now, id) then ReapedOf(m, cfg, now, seen)
            else ReapedOf(m, cfg, now, seen)[id := Unleaked(m.records[id], cfg, now)]
  {
  }

  predicate Unreaped(m: Mem, cfg: Config, now: int, id: Id)
    requires id in m.records
  {
    StalePins(m.records[id], cfg, now) == [] && !Reaps(m, cfg, now, id)
  }

  /** The records a reap leaves, and whether it changed any. */
  method ReapRecords(m: Mem, cfg: Config, now: int) returns (kept: Records, changed: bool)
    ensures kept == ReapedOf(m, cfg, now, m.records.Keys)
    ensures changed <==> !NothingToReap(m, cfg, now)
  {
    kept, changed := map[], false;
    var todo := m.records.Keys;
    ghost var seen: set<Id> := {};
    while todo != {}
      invariant seen !! todo && seen + todo == m.records.Keys
      invariant kept == ReapedOf(m, cfg, now, seen)
      invariant !changed ==> forall id :: id in seen ==> Unreaped(m, cfg, now, id)
      invariant changed ==> !NothingToReap(m, cfg, now)
    {
      var id :| id in todo;
      var stale := StalePins(m.records[id], cfg, now);
      var current := Unleaked(m.records[id], cfg, now);
      ReapedOne(m, cfg, now, seen, id);
      if IsDisposable(current, cfg, now) {
        changed := true;
      } else {
        changed := changed || stale != [];
        kept := kept[id := current];
      }
      todo, seen := todo - {id}, seen + {id};
    }
    assert seen == m.records.Keys;
  }

  class AgentSessionBindingRegistry {
    var records: Records
    var targets: map<Key, Id>
    var floors: map<Key, int>
    var turns: map<Id, seq<TurnRow>>
    var attempts: Journal
    var through: Option<int>
    /** The store file at the registry's path. */
    var disk: File
    const boot: Boot
    const cfg: Config
    const degraded: Option<Degradation>

    function Memory(): Mem reads this { Mem(records, targets, floors, turns, attempts, through) }

    /** Keyed as written; and a degraded registry holds nothing. */
    ghost predicate Valid() reads this { ValidMem(Memory()) && (degraded.Some? ==> records == map[]) }

    /** A registry over this file: what it hydrates to, or nothing and the reason. */
    constructor Open(file: File, now: int, bootId: string, cfg: Config)
      ensures Valid() && disk == file && this.cfg == cfg
      ensures exists h :: OpenedAs(file, now, h, Memory(), degraded)
      ensures boot == Boot(bootId, now, PinsOf(records))
    {
      var h := Hydrate.HydrateFile(file, now);
      var m := if h.Loaded? then h.mem else EmptyMem;
      records, targets, floors, turns, attempts, through :=
        m.records, m.targets, m.floors, m.turns, m.attempts, m.through;
      disk := file;
      boot := Boot(bootId, now, PinsOf(m.records));
      this.cfg := cfg;
      degraded := if h.Degraded? then Some(h.reason) else None;
      new;
      if h.Loaded? { ReadRecordsValid(file.root.records.value, now); }
      assert OpenedAs(file, now, h, Memory(), degraded);
    }

    predicate Available() { degraded.None? }

    /** Write `next` with the floors of the file folded in; memory follows only a write that went through. */
    method Persist(next: Mem, ok: bool) returns (failed: bool)
      requires Valid() && ValidMem(next) && Available()
      modifies this
      ensures Persisted(old(Memory()), old(disk), next, ok, Memory(), disk) && failed == !ok
      ensures Valid()
    {
      var merged := Hydrate.MergeLedger(next.floors, LedgerOf(disk));
      var entries := Hydrate.ListRecords(next.records);
      if !ok { return true; }
      disk := Parsed(Root(BINDING_STORE_VERSION, Some(entries), Some(merged), WriteTurns(next.turns),
        WriteAttempts(next.attempts), next.through));
      records, targets, floors := next.records, next.targets, merged;
      turns, attempts, through := next.turns, next.attempts, next.through;
      return false;
    }

    // ----------------------------------------------------------- reads

    method GetByTarget(key: Key, now: int) returns (b: Option<Binding>)
      ensures b.Some? <==> Available() && key in targets && Blocker(records, now, targets[key])
      ensures b.Some? ==> b.value == records[targets[key]].binding
    {
      if !Available() || key !in targets || targets[key] !in records { return None; }
      var held := records[targets[key]].binding;
      return if BlocksTarget(held, now) then Some(held) else None;
    }

    method FindTurn(id: Id, turn: TurnId) returns (row: Option<TurnRow>)
      ensures row.Some? <==> TurnKnown(Memory(), id, turn)
      ensures row.Some? ==> row.value.turnId == turn
      ensures IsTurnId(turn) && HasTurn(RowsOf(turns, id), turn) ==> row == FirstTurn(RowsOf(turns, id), turn)
    {
      row := FindTurnIn(Memory(), id, turn);
    }

    /** The journal's row and its mark. A degraded registry answers `None`: it cannot tell. */
    method AttemptFor(key: Key, turn: TurnId) returns (r: Option<(Option<Attempt>, Option<int>)>)
      ensures r.Some? <==> Available()
      ensures r.Some? ==> r.value.1 == through
      ensures r.Some? ==> r.value.0 == if Has(attempts, key, turn) then Some(attempts[key][turn]) else None
    {
      if !Available() { return None; }
      return Some((if key in attempts && turn in attempts[key] then Some(attempts[key][turn]) else None, through));
    }

    // ----------------------------------------------------------- per-binding transitions

    method NextRecord(prev: Record, b: Binding, now: int, patch: Patch) returns (record: Record)
      ensures record == Committed(prev, b, now, patch)
    {
      var pins := if patch.pinnedAt.Some? then patch.pinnedAt.value else prev.pinnedAt;
      // Losing the last pin this way is an unpin too.
      var cleared := |prev.binding.pinnedJobs| > 0 && |b.pinnedJobs| == 0;
      var lastUnpinAt := if patch.lastUnpinAt.Some? then patch.lastUnpinAt.value
        else if cleared then Some(now) else prev.lastUnpinAt;
      var terminalAt := if prev.terminalAt.Some? then prev.terminalAt else if IsTerminal(b) then Some(now) else None;
      var meta := MetaOf(if patch.pinMeta.Some? then patch.pinMeta.value else prev.pinMeta, b.pinnedJobs);
      return Record(b, prev.createdAt, now, terminalAt, lastUnpinAt, pins, meta);
    }

    method CommitBinding(prev: Record, b: Binding, now: int, patch: Patch, ok: bool) returns (res: Outcome)
      requires Valid() && Available() && b.bindingId == prev.binding.bindingId
      modifies this
      ensures Valid()
      ensures Ran(true, CommitPlan(old(Memory()), prev, b, now, patch), ok, old(Memory()),
              old(disk), Memory(), disk, res)
    {
      var pins := if patch.pinnedAt.Some? then patch.pinnedAt.value else prev.pinnedAt;
      var same := b.state == prev.binding.state && b.expiresAt == prev.binding.expiresAt
        && b.pinnedJobs == prev.binding.pinnedJobs && pins == prev.pinnedAt;
      if same && patch.journal.None? { return Bound(prev.binding); }
      var record := NextRecord(prev, b, now, patch);
      var nextTargets := targets;
      if BlocksTarget(b, now) {
        nextTargets := nextTargets[b.targetKey := b.bindingId];
      } else if b.targetKey in nextTargets && nextTargets[b.targetKey] == b.bindingId {
        nextTargets := nextTargets - {b.targetKey};
      }
      var next := WithJournal(Mem(records[b.bindingId := record], nextTargets, floors, turns, attempts, through),
        patch.journal);
      var failed := Persist(next, ok);
      return if failed then Refused(PersistFailed) else Bound(b);
    }

    method Activate(id: Id, now: int, ok: bool) returns (res: Outcome)
      requires Valid()
      modifies this
      ensures Valid()
      ensures Ran(Available(), ActivatePlan(old(Memory()), id, now), ok, old(Memory()), old(disk), Memory(), disk, res)
    {
      if !Available() { return Refused(StoreUnavailable); }
      if id !in records { return Refused(UnknownBinding); }
      var record := records[id];
      if IsExpired(record.binding, now) { return Refused(BindingExpired); }
      var next := BindingStore.Activate(record.binding);
      if next.Refused? { return next; }
      res := CommitBinding(record, next.binding, now, NoPatch, ok);
    }

    method BeginDetach(id: Id, now: int, ok: bool) returns (res: Outcome)
      requires Valid()
      modifies this
      ensures Valid()
      ensures Ran(Available(), BeginDetachPlan(old(Memory()), id, now), ok, old(Memory()),
              old(disk), Memory(), disk, res)
    {
      if !Available() { return Refused(StoreUnavailable); }
      if id !in records { return Refused(UnknownBinding); }
      res := CommitBinding(records[id], BindingStore.BeginDetach(records[id].binding), now, NoPatch, ok);
    }

    method Detach(id: Id, now: int, ok: bool) returns (res: Outcome)
      requires Valid()
      modifies this
      ensures Valid()
      ensures Ran(Available(), DetachPlan(old(Memory()), id, now), ok, old(Memory()), old(disk), Memory(), disk, res)
    {
      if !Available() { return Refused(StoreUnavailable); }
      if id !in records { return Refused(UnknownBinding); }
      var next := BindingStore.Detach(records[id].binding);
      if next.Refused? { return next; }
      res := CommitBinding(records[id], next.binding, now, NoPatch, ok);
    }

    method ForceDetach(id: Id, now: int, ok: bool) returns (res: Outcome)
      requires Valid()
      modifies this
      ensures Valid()
      ensures Ran(Available(), ForceDetachPlan(old(Memory()), id, now), ok, old(Memory()),
              old(disk), Memory(), disk, res)
    {
      if !Available() { return Refused(StoreUnavailable); }
      if id !in records { return Refused(UnknownBinding); }
      res := CommitBinding(records[id], BindingStore.ForceDetach(records[id].binding), now, NoPatch, ok);
    }

    method Renew(id: Id, ttlMs: int, now: int, ok: bool) returns (res: Outcome)
      requires Valid()
      modifies this
      ensures Valid()
      ensures Ran(Available(), RenewPlan(old(Memory()), id, ttlMs, now), ok, old(Memory()),
              old(disk), Memory(), disk, res)
    {
      if !Available() { return Refused(StoreUnavailable); }
      if id !in records { return Refused(UnknownBinding); }
      res := CommitBinding(records[id], BindingStore.Renew(records[id].binding, ttlMs, now), now, NoPatch, ok);
    }

    // ----------------------------------------------------------- pins and attempts

    method AttemptsWith(key: Key, turn: TurnId, mode: Mode, now: int) returns (kept: Journal, high: Option<int>)
      ensures Bounded(WithAttempt(attempts, key, turn, Attempt(boot.bootId, now, mode, Pending)),
              through, now, kept, high)
    {
      var rows := if key in attempts then attempts[key] else map[];
      rows := rows[turn := Attempt(boot.bootId, now, mode, Pending)];
      kept, high := BoundAttempts(attempts[key := rows], through, now);
    }

    method AttemptExitWith(key: Key, turn: TurnId, exit: Exit, now: int)
      returns (journal: Option<(Journal, Option<int>)>)
      ensures journal.Some? <==> Has(attempts, key, turn)
      ensures journal.Some? ==>
              Bounded(WithExit(attempts, key, turn, exit), through, now, journal.value.0, journal.value.1)
    {
      if key !in attempts || turn !in attempts[key] { return None; }
      var row := attempts[key][turn];
      var kept, high := BoundAttempts(attempts[key := attempts[key][turn := row.(exit := exit)]], through, now);
      return Some((kept, high));
    }

    /** Pin a job to the lease, together with the turn and the attempt it carries. */
    method Pin(id: Id, job: Job, now: int, extras: PinExtras, ok: bool) returns (res: Outcome, ghost plan: Plan)
      requires Valid()
      modifies this
      ensures Valid()
      ensures Available() ==> IsPinPlan(old(Memory()), cfg, boot, id, job, now, extras, plan)
      ensures Ran(Available(), plan, ok, old(Memory()), old(disk), Memory(), disk, res)
    {
      plan := OrElse(PinRefusal(Memory(), cfg, id, job, now), Reject(UnknownBinding));
      if !Available() { return Refused(StoreUnavailable), plan; }
      if id !in records { return Refused(UnknownBinding), plan; }
      var record := records[id];
      if !IsJobId(job) { return Refused(InvalidJobId), plan; }
      if IsTerminal(record.binding) { return Refused(TerminalState), plan; }
      if IsExpired(record.binding, now) { return Refused(BindingExpired), plan; }
      if job in record.binding.pinnedJobs { return Bound(record.binding), plan; }
      if |record.binding.pinnedJobs| >= cfg.maxPins { return Refused(TooManyPins), plan; }
      res, plan := TakePin(record, job, now, extras, ok);
    }

    method TakePin(record: Record, job: Job, now: int, extras: PinExtras, ok: bool)
      returns (res: Outcome, ghost plan: Plan)
      requires Valid() && Available()
      modifies this
      ensures Valid()
      ensures IsPinPlanFor(old(Memory()), boot, record, job, now, extras, plan)
      ensures Ran(true, plan, ok, old(Memory()), old(disk), Memory(), disk, res)
    {
      var next := BindingStore.Pin(record.binding, job);
      var meta := if extras.metaTurn.Some? && IsTurnId(extras.metaTurn.value)
                  then Some(record.pinMeta[job := PinMeta(extras.metaTurn.value, boot.bootId, None)]) else None;
      var journal := None;
      if extras.attempt.Some? && IsTurnId(extras.attempt.value.0) {
        var kept, high := AttemptsWith(record.binding.targetKey, extras.attempt.value.0, extras.attempt.value.1, now);
        journal := Some((kept, high));
      }
      var patch := Patch(Some(record.pinnedAt[job := now]), None, meta, journal);
      plan := CommitPlan(Memory(), record, next, now, patch);
      assert OpensAttempt(Memory(), record.binding.targetKey, extras.attempt, boot.bootId, now, journal);
      res := CommitBinding(record, next, now, patch, ok);
    }

    method Unpin(id: Id, job: Job, now: int, exit: Option<(TurnId, Exit)>, ok: bool)
      returns (res: Outcome, ghost plan: Plan)
      requires Valid()
      modifies this
      ensures Valid()
      ensures Available() ==> IsUnpinPlan(old(Memory()), id, job, now, exit, plan)
      ensures Ran(Available(), plan, ok, old(Memory()), old(disk), Memory(), disk, res)
    {
      plan := Reject(if id !in records then UnknownBinding else InvalidJobId);
      if !Available() { return Refused(StoreUnavailable), plan; }
      if id !in records { return Refused(UnknownBinding), plan; }
      var record := records[id];
      if !IsJobId(job) { return Refused(InvalidJobId), plan; }
      var held := job in record.binding.pinnedJobs;
      var next := BindingStore.Unpin(record.binding, job);
      var journal := None;
      if exit.Some? && IsTurnId(exit.value.0) {
        journal := AttemptExitWith(record.binding.targetKey, exit.value.0, exit.value.1, now);
      }
      var patch := Patch(Some(record.pinnedAt - {job}),
        Some(if held then Some(now) else record.lastUnpinAt), None, journal);
      plan := CommitPlan(Memory(), record, next, now, patch);
      assert SettlesAttempt(Memory(), record.binding.targetKey, exit, now, journal);
      res := CommitBinding(record, next, now, patch, ok);
    }

    /** Put an attempt on file. */
    method BeginAttempt(provider: string, threadId: string, turn: TurnId, mode: Mode, now: int, ok: bool)
      returns (recorded: bool)
      requires Valid()
      modifies this
      ensures Valid()
      ensures BeginRan(Available(), boot, provider, threadId, turn, mode, now, ok, old(Memory()), old(disk),
              Memory(), disk, recorded)
    {
      if !TargetKey.IsBindableProvider(provider) || !TargetKey.IsValidThreadId(threadId) { return false; }
      if !IsTurnId(turn) || !Available() { return false; }
      var kept, high := AttemptsWith(TargetKey.Make(provider, threadId), turn, mode, now);
      var failed := Persist(Mem(records, targets, floors, turns, kept, high), ok);
      return !failed;
    }

    /** Change the exit of an attempt on file; where there is none, nothing. */
    method SettleAttempt(provider: string, threadId: string, turn: TurnId, exit: Exit, now: int, ok: bool)
      returns (written: bool)
      requires Valid()
      modifies this
      ensures Valid()
      ensures SettleRan(Available(), provider, threadId, turn, exit, now, ok, old(Memory()), old(disk),
              Memory(), disk, written)
    {
      if !TargetKey.IsBindableProvider(provider) || !TargetKey.IsValidThreadId(threadId) { return false; }
      if !IsTurnId(turn) || !Available() { return false; }
      var journal := AttemptExitWith(TargetKey.Make(provider, threadId), turn, exit, now);
      if journal.None? { return true; }
      var failed := Persist(Mem(records, targets, floors, turns, journal.value.0, journal.value.1), ok);
      return !failed;
    }

    /** Attach a child process to a pin that carries a turn. */
    method NotePinChild(id: Id, job: Job, child: Child, ok: bool) returns (res: Outcome)
      requires Valid()
      modifies this
      ensures Valid()
      ensures Ran(Available(), NotePinChildPlan(old(Memory()), boot, id, job, child), ok, old(Memory()),
              old(disk), Memory(), disk, res)
    {
      if !Available() { return Refused(StoreUnavailable); }
      if id !in records { return Refused(UnknownBinding); }
      var record := records[id];
      if !IsJobId(job) { return Refused(InvalidJobId); }
      if !IsChild(child) || job !in record.pinMeta || job !in record.binding.pinnedJobs
        || (record.binding.bindingId, job) in boot.inherited {
        return Bound(record.binding);
      }
      var meta := record.pinMeta[job];
      var noted := records[id := record.(pinMeta := record.pinMeta[job := meta.(child := Some(child))])];
      var failed := Persist(Mem(noted, targets, floors, turns, attempts, through), ok);
      return if failed then Refused(PersistFailed) else Bound(record.binding);
    }

    /** Append a row to a binding's ledger unless the ledger has one for the turn. */
    method RecordTurn(id: Id, turn: TurnId, result: Answer, now: int, ok: bool) returns (res: Outcome)
      requires Valid()
      modifies this
      ensures Valid()
      ensures Ran(true, RecordTurnPlan(old(Memory()), id, turn, result, now), ok, old(Memory()),
              old(disk), Memory(), disk, res)
    {
      if id !in records { return Refused(UnknownBinding); }
      if !IsTurnId(turn) { return Refused(InvalidJobId); }
      var existing := RowsOf(turns, id);
      if HasTurn(existing, turn) { return Bound(records[id].binding); }
      var kept := turns[id := LastTurns(existing + [TurnRow(turn, result, now)])];
      var failed := Persist(Mem(records, targets, floors, kept, attempts, through), ok);
      return if failed then Refused(PersistFailed) else Bound(records[id].binding);
    }

    // ----------------------------------------------------------- dead-boot pins

    /**
      Carry out the release of the pins that are due. `running`: the children a probe finds alive.
    */
    method ReleaseOrphans(now: int, running: set<Child>, only: Option<Key>, ok: bool)
      requires Valid() && Available()
      modifies this
      ensures Valid()
      ensures ReleaseRan(old(Memory()), old(disk), AllDue(old(Memory()), boot, running, now, only),
              now, ok, Memory(), disk)
    {
      var next, any := Release(Memory(), boot, now, running, only);
      if !any { return; }
      var failed := Persist(next, ok);
    }

    method ReapOrphanedPins(now: int, running: set<Child>, only: Option<Key>, enabled: bool, ok: bool)
      requires Valid()
      modifies this
      ensures Valid()
      ensures !Available() || !enabled ==> Memory() == old(Memory()) && disk == old(disk)
      ensures Available() && enabled ==>
        ReleaseRan(old(Memory()), old(disk), AllDue(old(Memory()), boot, running, now, only), now, ok, Memory(), disk)
    {
      if !Available() || !enabled { return; }
      ReleaseOrphans(now, running, only, ok);
    }

    /** Is the thread occupied, once the pins due on it have been released. */
    method AttachBlocked(provider: string, threadId: string, now: int, running: set<Child>, enabled: bool, ok: bool)
      returns (blocked: bool)
      requires Valid()
      modifies this
      ensures Valid()
      ensures !Available() || !TargetKey.Legal(provider, threadId) ==>
              !blocked && Memory() == old(Memory()) && disk == old(disk)
      ensures Available() && TargetKey.Legal(provider, threadId) ==>
        var key := TargetKey.Make(provider, threadId);
        (if enabled then ReleaseRan(old(Memory()), old(disk),
          DueOn(old(Memory()), boot, running, now, provider, threadId), now, ok, Memory(), disk)
         else Memory() == old(Memory()) && disk == old(disk))
        && (blocked <==> HolderOf(Memory(), key).Some? && HolderBlocksAttach(HolderOf(Memory(), key).value, now))
    {
      if !Available() { return false; }
      if !TargetKey.IsBindableProvider(provider) || !TargetKey.IsValidThreadId(threadId) { return false; }
      var key := TargetKey.Make(provider, threadId);
      if enabled { ReapOrphanedPins(now, running, Some(key), true, ok); }
      if key !in targets { return false; }
      var id := targets[key];
      return id in records && HolderBlocksAttach(records[id], now);
    }

    // ----------------------------------------------------------- attach

    /**
      Release what is due on the target, then attach, one epoch above the floor on record. `mid` and `midDisk`
      are the state between the two.
    */
    method Create(a: Attach, now: int, running: set<Child>, enabled: bool, okRelease: bool, ok: bool)
      returns (res: Outcome, ghost mid: Mem, ghost midDisk: File, ghost plan: Plan)
      requires Valid()
      modifies this
      ensures Valid()
      ensures !Available() ==> res == Refused(StoreUnavailable)
      ensures Available() && !PreCreateOk(old(Memory()), a) ==> res == Refused(PreCreateRefusal(old(Memory()), a))
      ensures !Available() || !PreCreateOk(old(Memory()), a) ==> Memory() == old(Memory()) && disk == old(disk)
      ensures Available() && PreCreateOk(old(Memory()), a) ==>
        CreateRan(boot, cfg, a, now, running, enabled, okRelease, ok,
                  old(Memory()), old(disk), mid, midDisk, plan, Memory(), disk, res)
    {
      mid, midDisk, plan := Memory(), disk, Reject(StoreUnavailable);
      if !Available() { return Refused(StoreUnavailable), mid, midDisk, plan; }
      if !TargetKey.IsBindableProvider(a.provider) { return Refused(InvalidProvider), mid, midDisk, plan; }
      if !TargetKey.IsValidThreadId(a.threadId) { return Refused(InvalidThreadId), mid, midDisk, plan; }
      if !IsBindingId(a.bindingId) { return Refused(InvalidBindingId), mid, midDisk, plan; }
      if a.bindingId in records { return Refused(BindingIdInUse), mid, midDisk, plan; }
      if enabled { ReleaseOrphans(now, running, Some(TargetKey.Make(a.provider, a.threadId)), okRelease); }
      mid, midDisk := Memory(), disk;
      res, plan := AttachNow(a, now, ok);
    }

    method AttachNow(a: Attach, now: int, ok: bool) returns (res: Outcome, ghost plan: Plan)
      requires Valid() && Available()
      modifies this
      ensures Valid()
      ensures IsCreatePlan(old(Memory()), cfg, a, now, plan)
      ensures Ran(true, plan, ok, old(Memory()), old(disk), Memory(), disk, res)
    {
      var key := TargetKey.Make(a.provider, a.threadId);
      if key in targets && targets[key] in records && HolderBlocksAttach(records[targets[key]], now) {
        return Refused(TargetBusy), Reject(TargetBusy);
      }
      var floor := FloorOf(floors, key);
      if key !in floors && |floors| >= cfg.maxEpochTargets { return Refused(EpochLedgerFull), Reject(EpochLedgerFull); }
      var created := BindingStore.Create(a, floor, now);
      if created.Refused? { return created, Reject(created.reason); }
      var b := created.binding;
      var nextRecords := records;
      if key in targets && targets[key] in records && BlocksTarget(records[targets[key]].binding, now) {
        var holder := records[targets[key]];
        nextRecords := nextRecords[holder.binding.bindingId := Superseded(holder, now)];
      }
      var placed := Room(Memory(), cfg, b, nextRecords, now);
      AttachPlanValid(Memory(), cfg, b, now, placed);
      if placed.Reject? { return Refused(RegistryFull), placed; }
      var failed := Persist(placed.next, ok);
      return if failed then Refused(PersistFailed) else Bound(b), placed;
    }

    // ----------------------------------------------------------- reap

    /** Take the stale pins off every record, then remove the records inert for longer than their retention. */
    method Reap(now: int, ok: bool) returns (removed: set<Id>)
      requires Valid()
      modifies this
      ensures Valid()
      ensures !Available() ==> Memory() == old(Memory()) && disk == old(disk)
      ensures Available() ==> ReapRan(old(Memory()), old(disk), cfg, now, ok, Memory(), disk)
      ensures removed == if Available() && ok then old(records).Keys - records.Keys else {}
    {
      if !Available() { return {}; }
      var kept, changed := ReapRecords(Memory(), cfg, now);
      if !changed { return {}; }
      removed := records.Keys - kept.Keys;
      var rebuilt := RebuildTargets(kept, now);
      var keptTurns := map id | id in turns && id in kept :: turns[id];
      var next := Mem(kept, rebuilt, floors, keptTurns, attempts, through);
      assert IsReaped(Memory(), cfg, now, next);
      var failed := Persist(next, ok);
      if failed { removed := {}; }
    }
  }
}
