/**
  The mutations that touch many records at once: releasing dead-boot pins, reaping, attaching.
*/
module RegistryReleases {
  import opened Wrappers
  import opened Ids
  import opened BindingStore
  import opened AttemptJournal
  import opened RegistryState
  import opened StoreFile
  import opened Registry
  import opened RegistryReopen
  import opened RegistrySteps
  import TargetKey

  // ------------------------------------------------------------- records with fewer pins

  /** Dropping pins never makes a binding block. */
  lemma FewerPinsBlockLess(b: Binding, jobs: seq<Job>, now: int)
    requires |jobs| <= |b.pinnedJobs|
    ensures BlocksTarget(b.(pinnedJobs := jobs), now) ==> BlocksTarget(b, now)
  {
  }

  lemma ReleasedOk(id: Id, r: Record, due: seq<Job>, now: int)
    requires RecordOk(id, r)
    ensures RecordOk(id, Released(r, due, now)) && SameLease(r.binding, Released(r, due, now).binding)
    ensures BlocksTarget(Released(r, due, now).binding, now) ==> BlocksTarget(r.binding, now)
  {
    hide TargetKey.Make, TargetKey.Legal, IsBindingId, IsJobId, MetaOk, BlocksTarget;
    FewerPinsBlockLess(r.binding, Filter(r.binding.pinnedJobs, job => job !in due), now);
  }

  lemma UnleakedOk(id: Id, r: Record, cfg: Config, now: int)
    requires RecordOk(id, r)
    ensures RecordOk(id, Unleaked(r, cfg, now)) && SameLease(r.binding, Unleaked(r, cfg, now).binding)
    ensures BlocksTarget(Unleaked(r, cfg, now).binding, now) ==> BlocksTarget(r.binding, now)
  {
    hide TargetKey.Make, TargetKey.Legal, IsBindingId, IsJobId, MetaOk, BlocksTarget, StalePins;
    FewerPinsBlockLess(r.binding, Filter(r.binding.pinnedJobs, job => job !in StalePins(r, cfg, now)), now);
  }

  // ------------------------------------------------------------- the ledger rows a release leaves

  /** The rows a release appends to one ledger, pushed-off rows included. */
  ghost function ReleaseAppends(m: Mem, id: Id, rows: seq<TurnRow>, due: seq<Job>,
                                meta: map<Job, PinMeta>, now: int): seq<TurnRow>
    decreases |due|
  {
    if due == [] then [] else
    var front, job := due[..|due| - 1], due[|due| - 1];
    var earlier := ReleaseAppends(m, id, rows, front, meta, now);
    if job !in meta || TurnKnown(m, id, meta[job].clientTurnId)
       || HasTurn(ReleasedRows(m, id, rows, front, meta, now), meta[job].clientTurnId) then earlier
    else earlier + [TurnRow(meta[job].clientTurnId, DeliveryUnknown(job), now)]
  }

  lemma {:induction false} ReleaseIsALog(m: Mem, id: Id, rows: seq<TurnRow>, due: seq<Job>,
                                         meta: map<Job, PinMeta>, now: int)
    requires |rows| <= MAX_TURNS_PER_BINDING
    ensures ReleasedRows(m, id, rows, due, meta, now) == LastTurns(rows + ReleaseAppends(m, id, rows, due, meta, now))
  {
    hide TurnKnown, HasTurn, LastTurns;
    if due == [] {
      ShortIsKept(rows);
    } else {
      var front, job := due[..|due| - 1], due[|due| - 1];
      ReleaseIsALog(m, id, rows, front, meta, now);
      var earlier := ReleaseAppends(m, id, rows, front, meta, now);
      if job in meta {
        var row := TurnRow(meta[job].clientTurnId, DeliveryUnknown(job), now);
        LastOfLast(rows + earlier, row);
        assert rows + (earlier + [row]) == rows + earlier + [row];
      }
    }
  }

  lemma ShortIsKept(rows: seq<TurnRow>)
    requires |rows| <= MAX_TURNS_PER_BINDING
    ensures LastTurns(rows + []) == rows && LastTurns(rows) == rows
  {
    assert rows + [] == rows;
  }

  lemma LastOfLast(all: seq<TurnRow>, row: TurnRow)
    ensures LastTurns(LastTurns(all) + [row]) == LastTurns(all + [row])
  {
  }

  /** Where the newest row of a turn sits in a ledger. */
  function LastRow(rows: seq<TurnRow>, turn: TurnId): (at: nat)
    requires HasTurn(rows, turn)
    ensures at < |rows| && rows[at].turnId == turn && forall i :: at < i < |rows| ==> rows[i].turnId != turn
  {
    var last := |rows| - 1;
    if rows[last].turnId == turn then last
    else
      assert HasTurn(rows[..last], turn) by {
        var i :| 0 <= i < |rows| && rows[i].turnId == turn;
        assert rows[..last][i].turnId == turn;
      }
      LastRow(rows[..last], turn)
  }

  /** Fewer than 64 rows follow the newest row of the turn. */
  predicate RowLasts(rows: seq<TurnRow>, turn: TurnId) {
    HasTurn(rows, turn) && LastRow(rows, turn) + MAX_TURNS_PER_BINDING >= |rows|
  }

  /** Cutting a ledger to its newest 64 rows keeps a turn exactly when fewer than 64 rows follow it. */
  lemma LastsExactly(all: seq<TurnRow>, turn: TurnId)
    ensures HasTurn(LastTurns(all), turn) <==> RowLasts(all, turn)
  {
    var kept := LastTurns(all);
    var cut := |all| - |kept|;
    assert forall i :: 0 <= i < |kept| ==> kept[i] == all[i + cut];
    if RowLasts(all, turn) {
      assert kept[LastRow(all, turn) - cut].turnId == turn;
    }
    if HasTurn(kept, turn) {
      var i :| 0 <= i < |kept| && kept[i].turnId == turn;
      assert all[i + cut].turnId == turn;
    }
  }

  /** A release appends a row for each unknown turn its pins name, and none for a turn the target knows. */
  lemma {:induction false} AppendsTheUnknown(m: Mem, id: Id, rows: seq<TurnRow>, due: seq<Job>,
                                             meta: map<Job, PinMeta>, now: int, job: Job)
    requires job in due && job in meta && |rows| <= MAX_TURNS_PER_BINDING
    requires HasTurn(rows, meta[job].clientTurnId) ==> TurnKnown(m, id, meta[job].clientTurnId)
    ensures HasTurn(ReleaseAppends(m, id, rows, due, meta, now), meta[job].clientTurnId) <==>
            !TurnKnown(m, id, meta[job].clientTurnId)
  {
    hide TurnKnown, LastTurns, ReleasedRows;
    var turn := meta[job].clientTurnId;
    if TurnKnown(m, id, turn) {
      NeverAppendsKnown(m, id, rows, due, meta, now, turn);
    } else {
      var front, last := due[..|due| - 1], due[|due| - 1];
      assert due == front + [last];
      var earlier, all := ReleaseAppends(m, id, rows, front, meta, now), ReleaseAppends(m, id, rows, due, meta, now);
      assert earlier <= all;
      if HasTurn(earlier, turn) {
        var i :| 0 <= i < |earlier| && earlier[i].turnId == turn;
        assert all[i] == earlier[i];
      } else if job == last {
        ReleaseIsALog(m, id, rows, front, meta, now);
        NotInEither(rows, earlier, turn);
        assert all[|earlier|].turnId == turn;
      } else {
        AppendsTheUnknown(m, id, rows, front, meta, now, job);
      }
    }
  }

  lemma NotInEither(rows: seq<TurnRow>, more: seq<TurnRow>, turn: TurnId)
    requires !HasTurn(rows, turn) && !HasTurn(more, turn)
    ensures !HasTurn(LastTurns(rows + more), turn)
  {
    var all := rows + more;
    LastsExactly(all, turn);
    assert forall i :: |rows| <= i < |all| ==> all[i] == more[i - |rows|];
  }

  lemma {:induction false} NeverAppendsKnown(m: Mem, id: Id, rows: seq<TurnRow>, due: seq<Job>,
                                             meta: map<Job, PinMeta>, now: int, turn: TurnId)
    requires TurnKnown(m, id, turn)
    ensures !HasTurn(ReleaseAppends(m, id, rows, due, meta, now), turn)
  {
    hide TurnKnown, ReleasedRows;
    if due != [] { NeverAppendsKnown(m, id, rows, due[..|due| - 1], meta, now, turn); }
  }

  lemma {:induction false} AppendsAtMostDue(m: Mem, id: Id, rows: seq<TurnRow>, due: seq<Job>,
                                            meta: map<Job, PinMeta>, now: int)
    ensures |ReleaseAppends(m, id, rows, due, meta, now)| <= |due|
  {
    if due != [] { AppendsAtMostDue(m, id, rows, due[..|due| - 1], meta, now); }
  }

  lemma {:induction false} ReleasedRowsOk(m: Mem, id: Id, rows: seq<TurnRow>, due: seq<Job>,
                                          meta: map<Job, PinMeta>, now: int)
    requires rows == [] || RowsOk(rows)
    requires forall j :: j in meta ==> IsTurnId(meta[j].clientTurnId)
    ensures var r := ReleasedRows(m, id, rows, due, meta, now); r == [] || RowsOk(r)
  {
    hide IsTurnId, RowsOk, TurnKnown;
    if due != [] {
      var before := ReleasedRows(m, id, rows, due[..|due| - 1], meta, now);
      ReleasedRowsOk(m, id, rows, due[..|due| - 1], meta, now);
      var job := due[|due| - 1];
      if job in meta && !HasTurn(before, meta[job].clientTurnId) {
        AppendedRowsOk(before, TurnRow(meta[job].clientTurnId, DeliveryUnknown(job), now));
      }
    }
  }

  lemma MetaTurns(m: Mem, id: Id)
    requires MemOk(m)
    ensures forall j :: j in MetaAt(m, id) ==> IsTurnId(MetaAt(m, id)[j].clientTurnId)
  {
    hide IsTurnId;
    if id in m.records {
      assert RecordOk(id, m.records[id]);
      assert forall j :: j in m.records[id].pinMeta ==> MetaOk(m.records[id].pinMeta[j]);
    }
  }

  lemma RowsShort(m: Mem, id: Id)
    requires MemOk(m)
    ensures |RowsOf(m.turns, id)| <= MAX_TURNS_PER_BINDING
    ensures forall a, b :: 0 <= a < b < |RowsOf(m.turns, id)| ==>
            RowsOf(m.turns, id)[a].turnId != RowsOf(m.turns, id)[b].turnId
  {
    hide RecordsOk, FloorsOk, JournalOk, IsTurnId;
  }

  /** What a release does to one ledger. */
  lemma ReleaseLedger(m: Mem, due: map<Id, seq<Job>>, t: int, next: Mem, id: Id)
    requires MemOk(m) && IsReleased(m, due, t, next) && id in m.records
    ensures RowsOf(next.turns, id)
         == LastTurns(RowsOf(m.turns, id) + ReleaseAppends(m, id, RowsOf(m.turns, id),
           RowsDue(due, id), MetaAt(m, id), t))
  {
    hide MemOk, TargetsRebuilt, ReleasedJournal, Released, ReleasedRows, ReleaseAppends, LastTurns;
    RowsShort(m, id);
    ReleaseIsALog(m, id, RowsOf(m.turns, id), RowsDue(due, id), MetaAt(m, id), t);
    assert RowsOf(next.turns, id) == RowsAfter(m, due, id, t);
  }

  lemma ReleasedTurnsOk(m: Mem, due: map<Id, seq<Job>>, now: int)
    requires MemOk(m)
    ensures TurnsOk(ReleasedTurns(m, due, now))
  {
    hide IsTurnId, RowsOk, MemOk;
    forall id | id in ReleasedTurns(m, due, now) ensures RowsOk(ReleasedTurns(m, due, now)[id]) {
      MetaTurns(m, id);
      assert RowsOf(m.turns, id) == [] || RowsOk(RowsOf(m.turns, id)) by { MemParts(m); }
      ReleasedRowsOk(m, id, RowsOf(m.turns, id), RowsDue(due, id), MetaAt(m, id), now);
    }
  }

  // ------------------------------------------------------------- the journal a release leaves

  /** Same attempts, at the same instants: only exits differ. */
  ghost predicate SameAttempts(j: Journal, j': Journal) {
    j.Keys == j'.Keys
    && forall k :: k in j ==> j[k].Keys == j'[k].Keys && forall t :: t in j[k] ==>
       j'[k][t] == j[k][t].(exit := j'[k][t].exit)
  }

  lemma ReleasedSameAttempts(m: Mem, due: map<Id, seq<Job>>)
    ensures SameAttempts(m.attempts, ReleasedJournal(m, due))
  {
    hide Orphaned;
  }

  lemma SameSize<V>(a: map<TurnId, V>, b: map<TurnId, V>)
    requires a.Keys == b.Keys
    ensures |a| == |b| && (a == map[] <==> b == map[])
  {
    assert |a| == |a.Keys| && |b| == |b.Keys|;
    assert a == map[] <==> a.Keys == {};
    assert b == map[] <==> b.Keys == {};
  }

  lemma SameAttemptsOk(j: Journal, j': Journal)
    requires JournalOk(j) && SameAttempts(j, j')
    ensures JournalOk(j')
  {
    hide IsTurnId, TargetKey.Parse;
    assert |j| == |j.Keys| && |j'| == |j'.Keys|;
    forall k | k in j' ensures j'[k] != map[] && |j'[k]| <= MAX_ATTEMPTS_PER_TARGET { SameSize(j[k], j'[k]); }
    forall k, id | Has(j', k, id) ensures IsTurnId(id) && IsBootId(j'[k][id].bootId) { assert Has(j, k, id); }
  }

  lemma SameAttemptsKeep(m: Mem, next: Mem, now: int)
    requires SameAttempts(m.attempts, next.attempts) && next.through == m.through
    ensures JournalKeeps(m, next, now)
  {
    forall k, turn, at | at <= now && Known(m, k, turn, at) ensures Known(next, k, turn, at) {
      assert Has(m.attempts, k, turn) ==>
        Has(next.attempts, k, turn) && next.attempts[k][turn].at == m.attempts[k][turn].at;
    }
  }

  lemma ReleasedRecordsEvolve(m: Mem, due: map<Id, seq<Job>>, now: int)
    requires RecordsOk(m.records)
    ensures RecordsEvolve(m.records, ReleasedRecords(m, due, now), now) && RecordsOk(ReleasedRecords(m, due, now))
  {
    hide RecordOk, Released, BlocksTarget, SameLease;
    forall id | id in m.records
      ensures RecordOk(id, Released(m.records[id], RowsDue(due, id), now))
        && SameLease(m.records[id].binding, Released(m.records[id], RowsDue(due, id), now).binding)
        && (BlocksTarget(Released(m.records[id], RowsDue(due, id), now).binding, now) ==>
           BlocksTarget(m.records[id].binding, now))
    {
      ReleasedOk(id, m.records[id], RowsDue(due, id), now);
    }
  }

  lemma ReleaseEvolves(m: Mem, due: map<Id, seq<Job>>, now: int, next: Mem)
    requires MemOk(m) && Holders(m, now) && IsReleased(m, due, now, next)
    ensures Evolves(m, next, now)
  {
    hide RecordOk, RecordsEvolve, TurnsOk, JournalOk, Released, SameAttempts, JournalKeeps, TargetsRebuilt,
      ReleasedTurns, ReleasedJournal, FloorsOk, RecordsOk, Holders;
    assert next.records == ReleasedRecords(m, due, now);
    ReleasedRecordsEvolve(m, due, now);
    RebuiltHolders(m, next, now);
    FloorsEvolve(m, next, now);
    ReleasedTurnsOk(m, due, now);
    ReleasedSameAttempts(m, due);
    SameAttemptsOk(m.attempts, next.attempts);
    SameAttemptsKeep(m, next, now);
  }

  // ------------------------------------------------------------- reaping

  lemma ReapedRecordsEvolve(m: Mem, cfg: Config, now: int)
    requires RecordsOk(m.records)
    ensures RecordsEvolve(m.records, ReapedOf(m, cfg, now, m.records.Keys), now)
            && RecordsOk(ReapedOf(m, cfg, now, m.records.Keys))
  {
    hide RecordOk, Unleaked, BlocksTarget, SameLease;
    forall id | id in m.records
      ensures RecordOk(id, Unleaked(m.records[id], cfg, now))
        && SameLease(m.records[id].binding, Unleaked(m.records[id], cfg, now).binding)
        && (BlocksTarget(Unleaked(m.records[id], cfg, now).binding, now) ==> BlocksTarget(m.records[id].binding, now))
    {
      UnleakedOk(id, m.records[id], cfg, now);
    }
  }

  lemma ReapEvolves(m: Mem, cfg: Config, now: int, next: Mem)
    requires MemOk(m) && Holders(m, now) && IsReaped(m, cfg, now, next)
    ensures Evolves(m, next, now)
  {
    hide RecordOk, RecordsEvolve, JournalOk, Unleaked, JournalKeeps, TargetsRebuilt, FloorsOk,
      RecordsOk, Holders, RowsOk, Reaps;
    assert next.records == ReapedOf(m, cfg, now, m.records.Keys);
    ReapedRecordsEvolve(m, cfg, now);
    RebuiltHolders(m, next, now);
    FloorsEvolve(m, next, now);
    SameJournalKeeps(m, next, now);
  }

  // ------------------------------------------------------------- attaching

  /** A successful attach: the new lease beside evolved records, its epoch the target's new floor. */
  ghost predicate Attaches(m: Mem, next: Mem, b: Binding, now: int) {
    b.bindingId !in m.records && b.bindingId in next.records && next.records[b.bindingId] == FreshRecord(b, now)
    && RecordsEvolve(m.records, next.records - {b.bindingId}, now)
    && b.epoch == FloorOf(m.floors, b.targetKey) + 1
    && next.floors == m.floors[b.targetKey := b.epoch]
    && next.turns == m.turns && next.attempts == m.attempts && next.through == m.through
    && MemOk(next) && Holders(next, now)
  }

  lemma SupersededOk(id: Id, r: Record, now: int)
    requires RecordOk(id, r) && !IsPinned(r.binding)
    ensures RecordOk(id, Superseded(r, now)) && SameLease(r.binding, Superseded(r, now).binding)
    ensures !BlocksTarget(Superseded(r, now).binding, now)
  {
    hide TargetKey.Make, TargetKey.Legal, IsBindingId, IsJobId, MetaOk;
  }

  /** After the holder has yielded, nothing on the target blocks any more. */
  lemma YieldedEvolves(m: Mem, key: Key, now: int)
    requires MemOk(m) && Holders(m, now)
    requires HolderOf(m, key).Some? ==> !HolderBlocksAttach(HolderOf(m, key).value, now)
    ensures var recs := Yielded(m, key, now);
            RecordsOk(recs) && RecordsEvolve(m.records, recs, now) && recs.Keys == m.records.Keys
            && forall id :: Blocker(recs, now, id) ==> recs[id].binding.targetKey != key
  {
    hide RecordOk, BlocksTarget, SameLease, TurnsOk, JournalOk, FloorsOk;
    var recs := Yielded(m, key, now);
    if HolderOf(m, key).Some? {
      var id := m.targets[key];
      RecordAt(m, id);
      if BlocksTarget(m.records[id].binding, now) {
        SupersededOk(id, m.records[id], now);
        assert recs == m.records[id := Superseded(m.records[id], now)];
      }
    }
    assert forall r: Record :: SameLease(r.binding, r.binding) by { SelfLease(); }
    forall id | Blocker(recs, now, id) ensures recs[id].binding.targetKey != key {
      assert Blocker(m.records, now, id);
    }
  }

  lemma SelfLease()
    ensures forall r: Record :: SameLease(r.binding, r.binding)
  {
  }

  lemma FreshOk(b: Binding, now: int)
    requires ValidBinding(b) && b.pinnedJobs == [] && b.state == Staging
    ensures RecordOk(b.bindingId, FreshRecord(b, now))
  {
  }

  /** What the pure constructor promises of a fresh lease. */
  lemma CreatedBinding(a: Attach, floor: int, now: int)
    requires floor >= 0 && Create(a, floor, now).Bound?
    ensures var b := Create(a, floor, now).binding;
            ValidBinding(b) && b.pinnedJobs == [] && b.state == Staging && b.bindingId == a.bindingId
            && b.targetKey == TargetKey.Make(a.provider, a.threadId) && b.epoch == floor + 1 && BlocksTarget(b, now)
  {
  }

  lemma LeftTargets(recs: Records, targets: map<Key, Id>, freed: set<Id>, now: int, id: Id)
    requires freed <= Disposables(recs, now) && Blocker(recs, now, id)
    requires recs[id].binding.targetKey in targets && targets[recs[id].binding.targetKey] == id
    ensures recs[id].binding.targetKey in TargetsLeft(targets, recs, freed)
         && TargetsLeft(targets, recs, freed)[recs[id].binding.targetKey] == id
  {
  }

  lemma AttachHolders(m: Mem, b: Binding, now: int, freed: set<Id>, targets: map<Key, Id>, next: Mem)
    requires Holders(m, now) && b.bindingId !in m.records && BlocksTarget(b, now)
    requires var recs := Yielded(m, b.targetKey, now);
             RecordsEvolve(m.records, recs, now) && recs.Keys == m.records.Keys
             && (forall id :: Blocker(recs, now, id) ==> recs[id].binding.targetKey != b.targetKey)
             && freed <= Disposables(recs, now)
             && (freed == {} ==> targets == m.targets)
             && (freed != {} ==> targets == TargetsLeft(m.targets - {b.targetKey}, recs, freed))
             && next.records == (recs - freed)[b.bindingId := FreshRecord(b, now)]
    requires next.targets == targets[b.targetKey := b.bindingId]
    ensures Holders(next, now)
  {
    hide BlocksTarget, Yielded, TargetsLeft, Disposables;
    var recs := Yielded(m, b.targetKey, now);
    forall id | Blocker(next.records, now, id)
      ensures next.records[id].binding.targetKey in next.targets
              && next.targets[next.records[id].binding.targetKey] == id
    {
      if id != b.bindingId {
        assert Blocker(recs, now, id) && Blocker(m.records, now, id);
        var key := recs[id].binding.targetKey;
        assert m.records[id].binding.targetKey == key && m.targets[key] == id;
        if freed != {} { LeftTargets(recs, m.targets - {b.targetKey}, freed, now, id); }
      }
    }
  }

  lemma AttachEvolves(m: Mem, cfg: Config, a: Attach, now: int, plan: Plan)
    requires MemOk(m) && Holders(m, now) && PreCreateOk(m, a) && IsCreatePlan(m, cfg, a, now, plan) && plan.Write?
    ensures plan.binding.bindingId == a.bindingId && Attaches(m, plan.next, plan.binding, now)
    ensures plan.binding == Create(a, FloorOf(m.floors, TargetKey.Make(a.provider, a.threadId)), now).binding
  {
    hide MemOk, Holders, IsAttachPlan, Create, BlocksTarget, IsBindingId, TargetKey.Legal, TargetKey.Make, Attaches;
    var key := TargetKey.Make(a.provider, a.threadId);
    var floor := FloorOf(m.floors, key);
    assert floor >= 0 by { FloorsPositive(m, key); }
    CreatedBinding(a, floor, now);
    var b := Create(a, floor, now).binding;
    var freed, targets := AttachParts(m, cfg, b, now, plan);
    YieldedEvolves(m, key, now);
    AttachesNow(m, b, now, freed, targets, plan.next);
  }

  lemma FloorsPositive(m: Mem, key: Key)
    requires MemOk(m)
    ensures FloorOf(m.floors, key) >= 0
  {
    hide TargetKey.Parse, RecordsOk, TurnsOk, JournalOk;
  }

  lemma AttachesNow(m: Mem, b: Binding, now: int, freed: set<Id>, targets: map<Key, Id>, next: Mem)
    requires MemOk(m) && Holders(m, now) && b.bindingId !in m.records
    requires ValidBinding(b) && b.pinnedJobs == [] && b.state == Staging && BlocksTarget(b, now)
    requires b.epoch == FloorOf(m.floors, b.targetKey) + 1
    requires var recs := Yielded(m, b.targetKey, now);
             RecordsOk(recs) && RecordsEvolve(m.records, recs, now) && recs.Keys == m.records.Keys
             && (forall id :: Blocker(recs, now, id) ==> recs[id].binding.targetKey != b.targetKey)
             && freed <= Disposables(recs, now)
             && (freed == {} ==> targets == m.targets)
             && (freed != {} ==> targets == TargetsLeft(m.targets - {b.targetKey}, recs, freed))
             && next == Attached(m, recs - freed, targets, b, now)
    ensures Attaches(m, next, b, now)
  {
    hide Yielded, TargetsLeft, Disposables, BlocksTarget, RecordOk, RecordsOk, RecordsEvolve, ValidBinding, SameLease,
      FreshRecord, Holders, TurnsOk,
      JournalOk, FloorsOk, TargetKey.Parse;
    var recs := Yielded(m, b.targetKey, now);
    FloorsPositive(m, b.targetKey);
    FreshOk(b, now);
    AttachHolders(m, b, now, freed, targets, next);
    AttachRecords(m.records, recs, freed, b.bindingId, FreshRecord(b, now), now);
    AttachFloors(m, b, now, recs - freed, next);
  }

  lemma AttachRecords(before: Records, recs: Records, freed: set<Id>, id: Id, lease: Record, now: int)
    requires RecordsOk(recs) && RecordsEvolve(before, recs, now) && recs.Keys == before.Keys
             && id !in before && RecordOk(id, lease)
    ensures RecordsOk((recs - freed)[id := lease]) && RecordsEvolve(before, recs - freed, now)
    ensures (recs - freed)[id := lease] - {id} == recs - freed
  {
    hide RecordOk, BlocksTarget, SameLease;
  }

  lemma AttachFloors(m: Mem, b: Binding, now: int, recs: Records, next: Mem)
    requires FloorsOk(m) && ValidBinding(b) && RecordsEvolve(m.records, recs, now)
    requires b.epoch == FloorOf(m.floors, b.targetKey) + 1 && b.epoch >= 1
    requires next.records == recs[b.bindingId := FreshRecord(b, now)] && next.floors == m.floors[b.targetKey := b.epoch]
    ensures FloorsOk(next)
  {
    hide TargetKey.Parse, TargetKey.Make;
    assert TargetKey.Parse(b.targetKey).Some? by { TargetKey.ParseExact(b.targetKey, b.provider, b.threadId); }
    forall id | id in next.records
      ensures next.records[id].binding.epoch <= FloorOf(next.floors, next.records[id].binding.targetKey)
    {
      if id != b.bindingId { assert SameLease(m.records[id].binding, recs[id].binding); }
    }
  }
}
