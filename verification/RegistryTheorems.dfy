/**
  The guarantees of the binding registry, over every run: one writer per target, replay defence,
  a sound "never attempted", dead-boot pins, turn replay, and a store that always reopens.
*/
module RegistryTheorems {
  import opened Wrappers
  import opened Ids
  import opened BindingStore
  import opened AttemptJournal
  import opened RegistryState
  import opened StoreFile
  import opened Registry
  import opened RegistryReopen
  import opened RegistrySteps
  import opened RegistryReleases
  import opened RegistryRuns
  import TargetKey

  // ------------------------------------------------------------- one writer per target

  /**
    One writer per target, in every state of every run: two live bindings never share a target, each
    live binding is the one `targets` names, and the store file, opened at any later time, is never
    degraded (so never `duplicate_target`), drops nothing, and gives the same state back.
  */
  lemma OneWriterPerTarget(cfg: Config, ws: seq<World>, ops: seq<Op>, i: nat)
    requires IsRun(cfg, ws, ops) && i < |ws|
    ensures OneBlocker(ws[i].mem.records, ws[i].now) && Holders(ws[i].mem, ws[i].now)
    ensures forall t, h :: ws[i].now <= t && Hydrates(ws[i].disk, t, h) ==>
              !h.Degraded? && (h == Fresh <==> ws[i].disk == Absent)
              && (h.Loaded? ==> h.dropped == 0 && SameOnDisk(h.mem, ws[i].mem) && Holders(h.mem, t))
  {
    hide IsRun, Inv, Hydrates, SameOnDisk, Holders;
    RunInv(cfg, ws, ops, i);
    InvParts(ws[i], ws[i].now);
    HoldersAreUnique(ws[i].mem, ws[i].now);
    forall t, h | ws[i].now <= t && Hydrates(ws[i].disk, t, h)
      ensures !h.Degraded? && (h == Fresh <==> ws[i].disk == Absent)
        && (h.Loaded? ==> h.dropped == 0 && SameOnDisk(h.mem, ws[i].mem) && Holders(h.mem, t))
    {
      OpenRestores(ws[i], t, h);
    }
  }

  lemma HoldersAreUnique(m: Mem, now: int)
    requires Holders(m, now)
    ensures OneBlocker(m.records, now)
  {
  }

  /** Another binding than `id` holds `id`'s target: what looking the target up before the call would show. */
  predicate HeldByAnother(m: Mem, id: Id, now: int)
    requires id in m.records
  {
    var key := m.records[id].binding.targetKey;
    key in m.targets && m.targets[key] != id && Blocker(m.records, now, m.targets[key])
      && m.records[m.targets[key]].binding.targetKey == key
  }

  /**
    Renewing looks at no expiry, and that is the one hole in the rule: a renewal that writes keeps one
    writer per target if and only if it does not revive a lapsed lease whose target another binding holds.
  */
  lemma RenewKeepsOneWriterExactly(m: Mem, id: Id, ttlMs: int, now: int)
    requires MemOk(m) && Holders(m, now) && RenewPlan(m, id, ttlMs, now).Write?
    ensures id in m.records
    ensures OneBlocker(RenewPlan(m, id, ttlMs, now).next.records, now)
       <==> !(IsExpired(m.records[id].binding, now) && ttlMs > 0 && HeldByAnother(m, id, now))
  {
    hide MemOk;
    RecordAt(m, id);
    var b0 := m.records[id].binding;
    var b := Renew(b0, ttlMs, now);
    var next := RenewPlan(m, id, ttlMs, now).next;
    assert next.records == m.records[id := Committed(m.records[id], b, now, NoPatch)];
    assert BlocksTarget(b, now) <==> BlocksTarget(b0, now) || (IsExpired(b0, now) && ttlMs > 0);
    assert forall other :: other != id ==> (Blocker(next.records, now, other) <==> Blocker(m.records, now, other));
    if IsExpired(b0, now) && ttlMs > 0 && HeldByAnother(m, id, now) {
      var other := m.targets[b0.targetKey];
      assert Blocker(next.records, now, id) && Blocker(next.records, now, other);
    } else {
      HoldersAreUnique(m, now);
      if !HeldByAnother(m, id, now) { OthersMeanHeld(m, id, now); }
      assert Blocker(next.records, now, id) ==> forall other :: other != id && Blocker(m.records, now, other) ==>
        m.records[other].binding.targetKey != b0.targetKey;
      assert OneBlocker(next.records, now);
    }
  }

  lemma OthersMeanHeld(m: Mem, id: Id, now: int)
    requires Holders(m, now) && id in m.records && !HeldByAnother(m, id, now)
    ensures forall other :: other != id && Blocker(m.records, now, other) ==>
              m.records[other].binding.targetKey != m.records[id].binding.targetKey
  {
  }

  const SomeThread := "00000000-0000-4000-8000-000000000000"

  lemma SomeThreadIsLegal()
    ensures TargetKey.Legal("claude", SomeThread)
  {
    assert |SomeThread| == 36;
  }

  /** A lapsed lease and its successor on one thread: renewing the first gives the thread two writers. */
  lemma RenewCanStealATarget() returns (m: Mem, now: int)
    ensures MemOk(m) && Holders(m, now)
    ensures RenewPlan(m, "first", 60000, now).Write?
    ensures !OneBlocker(RenewPlan(m, "first", 60000, now).next.records, now)
  {
    hide TargetKey.Parse, TargetKey.Make, TargetKey.Legal;
    SomeThreadIsLegal();
    var key := TargetKey.Make("claude", SomeThread);
    TargetKey.ParseExact(key, "claude", SomeThread);
    var lapsed := Binding("first", "", "claude", SomeThread, key, "", "", None, 1, Active, 1000, []);
    var held := Binding("second", "", "claude", SomeThread, key, "", "", None, 2, Active, 200000, []);
    now := 100000;
    m := EmptyMem.(records := map["first" := FreshRecord(lapsed, 0), "second" := FreshRecord(held, 50000)],
                   targets := map[key := "second"], floors := map[key := 2]);
    assert RecordOk("first", FreshRecord(lapsed, 0)) && RecordOk("second", FreshRecord(held, 50000));
    assert HeldByAnother(m, "first", now);
    RenewKeepsOneWriterExactly(m, "first", 60000, now);
  }

  // ------------------------------------------------------------- replay defence

  lemma StepHistory(cfg: Config, w: World, op: Op, w': World)
    requires Inv(w) && Step(cfg, w, op, w')
    ensures w.issued <= w'.issued && w.begun <= w'.begun
    ensures forall k :: FloorOf(w.mem.floors, k) <= FloorOf(w'.mem.floors, k)
  {
    hide Inv, Proposes, Evolves, Allowed, OpenedAs, Hydrates, MemOk, Holders, LeasesOk, BegunKnown, OnDisk;
    if op.OpCrash? || w' == w.(now := w'.now) {
    } else if op.OpOpen? {
      OpenFloors(cfg, w, op, w');
    } else {
      var next :| Proposes(w.mem, cfg, w.boot, op, w'.now, next)
        && Persisted(w.mem, w.disk, next, true, w'.mem, w'.disk) && w' == Committing(w, op, w'.now, w'.mem, w'.disk);
      assert Allowed(w.mem, w.boot, op, w'.now);
      CommitHistory(cfg, w, op, w', next);
    }
  }

  lemma OpenFloors(cfg: Config, w: World, op: Op, w': World)
    requires Inv(w) && op.OpOpen? && Step(cfg, w, op, w')
    ensures w'.issued == w.issued && w'.begun == w.begun && w'.mem.floors == w.mem.floors
  {
    hide Inv, OpenedAs, CutRecords;
    OpenInv(w, op, w', cfg);
  }

  lemma CommitHistory(cfg: Config, w: World, op: Op, w': World, next: Mem)
    requires Inv(w) && w.now <= w'.now && Allowed(w.mem, w.boot, op, w'.now)
             && Proposes(w.mem, cfg, w.boot, op, w'.now, next)
    requires Persisted(w.mem, w.disk, next, true, w'.mem, w'.disk) && w' == Committing(w, op, w'.now, w'.mem, w'.disk)
    ensures w.issued <= w'.issued && w.begun <= w'.begun
    ensures forall k :: FloorOf(w.mem.floors, k) <= FloorOf(w'.mem.floors, k)
  {
    hide Inv, Proposes, Allowed, MemOk, Holders, LeasesOk, BegunKnown, OnDisk, Persisted, Begins, Issues;
    InvParts(w, w'.now);
    CommitKeeps(cfg, w, op, w', next);
    if op.OpAttach? {
      AttachRaises(cfg, w, op, w'.now, next);
    } else {
      EvolvedFloors(w.mem, next, w'.now);
    }
  }

  /** A committed mutation leaves exactly what it proposed; all but an attach evolve the state. */
  lemma CommitKeeps(cfg: Config, w: World, op: Op, w': World, next: Mem)
    requires Inv(w) && w.now <= w'.now && Allowed(w.mem, w.boot, op, w'.now)
             && Proposes(w.mem, cfg, w.boot, op, w'.now, next)
    requires Persisted(w.mem, w.disk, next, true, w'.mem, w'.disk) && w' == Committing(w, op, w'.now, w'.mem, w'.disk)
    ensures w'.mem == next && (op.OpAttach? || Evolves(w.mem, next, w'.now))
  {
    hide Proposes, Allowed, MemOk, Holders, LeasesOk, BegunKnown, OnDisk, Persisted, Begins, Issues, RecordsEvolve;
    InvParts(w, w'.now);
    if op.OpAttach? {
      AttachFloors(cfg, w, op, w'.now, next);
    } else {
      ProposalEvolves(cfg, w, op, w'.now, next);
    }
    PersistedIs(w.mem, w.disk, next, w'.mem, w'.disk);
  }

  lemma EvolvedFloors(m: Mem, next: Mem, now: int)
    requires Evolves(m, next, now)
    ensures next.floors == m.floors
  {
  }

  lemma AttachFloors(cfg: Config, w: World, op: Op, t: int, next: Mem)
    requires MemOk(w.mem) && Holders(w.mem, t) && op.OpAttach? && Proposes(w.mem, cfg, w.boot, op, t, next)
    ensures MemOk(next) && forall k :: k in w.mem.floors ==> k in next.floors && next.floors[k] >= w.mem.floors[k]
  {
    hide MemOk, Holders, IsCreatePlan, PreCreateOk, RecordsEvolve;
    var plan :| IsCreatePlan(w.mem, cfg, op.a, t, plan) && Writes(plan, next);
    AttachEvolves(w.mem, cfg, op.a, t, plan);
  }

  lemma AttachRaises(cfg: Config, w: World, op: Op, t: int, next: Mem)
    requires MemOk(w.mem) && Holders(w.mem, t) && op.OpAttach? && Proposes(w.mem, cfg, w.boot, op, t, next)
    ensures forall k :: FloorOf(w.mem.floors, k) <= FloorOf(next.floors, k)
  {
    hide MemOk, Holders, IsCreatePlan, PreCreateOk, RecordsEvolve;
    var plan :| IsCreatePlan(w.mem, cfg, op.a, t, plan) && Writes(plan, next);
    AttachEvolves(w.mem, cfg, op.a, t, plan);
  }

  /** Floors never fall and history only grows, across reaps, evictions, crashes and reopenings. */
  lemma {:induction false} FloorsNeverFall(cfg: Config, ws: seq<World>, ops: seq<Op>, i: nat, j: nat)
    requires IsRun(cfg, ws, ops) && i <= j < |ws|
    ensures ws[i].issued <= ws[j].issued && ws[i].begun <= ws[j].begun && ws[i].now <= ws[j].now
    ensures forall k :: FloorOf(ws[i].mem.floors, k) <= FloorOf(ws[j].mem.floors, k)
  {
    hide Inv, Step, FloorOf;
    if i < j {
      FloorsNeverFall(cfg, ws, ops, i, j - 1);
      RunInv(cfg, ws, ops, j - 1);
      assert Step(cfg, ws[j - 1], ops[j - 1], ws[j]);
      hide IsRun;
      StepHistory(cfg, ws[j - 1], ops[j - 1], ws[j]);
      StepClock(cfg, ws[j - 1], ops[j - 1], ws[j]);
    }
  }

  lemma StepClock(cfg: Config, w: World, op: Op, w': World)
    requires Step(cfg, w, op, w')
    ensures w.now <= w'.now
  {
  }

  /** The record a registry resolves a claim against. */
  function Lookup(m: Mem, id: Id): Option<Binding> { if id in m.records then Some(m.records[id].binding) else None }

  /** No two leases ever issued for a target share an epoch, and each is issued above every earlier one. */
  lemma EpochsStrictlyIncrease(cfg: Config, ws: seq<World>, ops: seq<Op>, i: nat, a: nat, b: nat)
    requires IsRun(cfg, ws, ops) && i < |ws| && a < b < |ws[i].issued|
    requires ws[i].issued[a].targetKey == ws[i].issued[b].targetKey
    ensures ws[i].issued[a].epoch < ws[i].issued[b].epoch
  {
    hide IsRun, MemOk, Holders, OnDisk, BegunKnown;
    RunInv(cfg, ws, ops, i);
  }

  /**
    Replay defence: a claim taken from one issued lease is accepted, in that state or any later one, only
    against that same issuance, even when its binding id has since been evicted and reused; so is a marker.
  */
  lemma ClaimsMatchOnlyTheirOwnLease(cfg: Config, ws: seq<World>, ops: seq<Op>, i: nat, j: nat, a: nat)
    requires IsRun(cfg, ws, ops) && i <= j < |ws| && a < |ws[i].issued|
    ensures var lease := ws[i].issued[a];
            var found := Lookup(ws[j].mem, lease.bindingId);
            (CheckQueuedPrompt(ClaimOf(lease), found, ws[j].now) == Ok ==> found.Some? && SameLease(lease, found.value))
            && (found.Some? ==> found.value.epoch >= 1 && lease.epoch >= 1)
            && (found.Some? && VerifyBoundTo(BoundToMarker(lease), found, ws[j].now) == Ok ==>
               SameLease(lease, found.value))
  {
    hide IsRun, Inv, IsExpired;
    FloorsNeverFall(cfg, ws, ops, i, j);
    RunInv(cfg, ws, ops, j);
    OneIssuance(ws[j], a);
  }

  lemma OneIssuance(w: World, a: nat)
    requires Inv(w) && a < |w.issued|
    ensures var lease := w.issued[a];
            var found := Lookup(w.mem, lease.bindingId);
            (CheckQueuedPrompt(ClaimOf(lease), found, w.now) == Ok ==> found.Some? && SameLease(lease, found.value))
            && lease.epoch >= 1 && (found.Some? ==> found.value.epoch >= 1)
            && (found.Some? && VerifyBoundTo(BoundToMarker(lease), found, w.now) == Ok ==>
               SameLease(lease, found.value))
  {
    hide MemOk, Holders, OnDisk, BegunKnown, IsExpired, BoundToMarker;
    var lease := w.issued[a];
    if lease.bindingId in w.mem.records {
      var b := w.mem.records[lease.bindingId].binding;
      var k :| 0 <= k < |w.issued| && SameLease(w.issued[k], b);
      assert w.issued[k].targetKey == b.targetKey && w.issued[k].epoch == b.epoch;
      MarkerInjective(lease, b);
      assert forall l ::
        0 <= l < |w.issued| && w.issued[l].targetKey == lease.targetKey && w.issued[l].epoch == lease.epoch ==> l == a;
    }
  }

  // ------------------------------------------------------------- "never attempted" is sound

  /**
    For every attempt durably begun, in every later state the journal still answers for it: an attempt at
    least as young is on file under its key, or the high-water mark has reached it. So a turn
    that is not on file, asked about above the mark, was never begun. And the journal stays within its size bounds.
  */
  lemma NeverAttemptedIsSound(cfg: Config, ws: seq<World>, ops: seq<Op>, i: nat, j: nat, b: Begun)
    requires IsRun(cfg, ws, ops) && i <= j < |ws| && b in ws[i].begun
    ensures Known(ws[j].mem, b.key, b.turn, b.at) && b.at <= ws[j].now
    ensures !Has(ws[j].mem.attempts, b.key, b.turn) ==> AtLeast(ws[j].mem.through, b.at)
    ensures WithinBounds(ws[j].mem.attempts)
  {
    hide IsRun, Holders, OnDisk, LeasesOk;
    FloorsNeverFall(cfg, ws, ops, i, j);
    RunInv(cfg, ws, ops, j);
  }

  /**
    Every mutation that writes the journal leaves it within its size bounds and without any attempt older
    than the retention, with one exception: a release of dead-boot pins turns exits without bounding
    anything, so what it writes is free of aged attempts if and only if what was there already was.
  */
  lemma JournalWritesDropTheAged(cfg: Config, m: Mem, boot: Boot, op: Op, t: int, next: Mem)
    requires MemOk(m) && Holders(m, t) && Proposes(m, cfg, boot, op, t, next)
    requires op.OpBeginAttempt? || op.OpSettleAttempt? || next.attempts != m.attempts
    ensures WithinBounds(next.attempts)
    ensures NoneAged(next.attempts, t) <==> (op.OpReleaseOrphans? ==> NoneAged(m.attempts, t))
  {
    hide TargetKey.Legal, TargetKey.Make, MemOk, Holders, IsCreatePlan, IsPinPlan, IsUnpinPlan, IsReleased,
      Transition, JournalOk, Bounded,
      NoneAged, WithinBounds;
    match op
    case OpAttach(a) => AttachKeepsJournal(m, cfg, a, t, next);
    case OpPin(b, job, extras) => PinBoundsJournal(m, cfg, boot, b, job, t, extras, next);
    case OpUnpin(b, job, settled) => UnpinBoundsJournal(m, b, job, t, settled, next);
    case OpReleaseOrphans(running, only) => ReleaseKeepsTheAged(m, AllDue(m, boot, running, t, only), t, next);
    case OpBeginAttempt(_, _, _, _) => BoundingBounds();
    case OpSettleAttempt(_, _, _, _) => BoundingBounds();
    case _ => OtherWritesKeepJournal(cfg, m, boot, op, t, next);
  }

  lemma BoundingBounds()
    ensures forall j, through, t, kept, high :: Bounded(j, through, t, kept, high) ==>
            WithinBounds(kept) && NoneAged(kept, t)
  {
    hide WithinBounds, NoneAged;
  }

  lemma OtherWritesKeepJournal(cfg: Config, m: Mem, boot: Boot, op: Op, t: int, next: Mem)
    requires op.OpActivate? || op.OpBeginDetach? || op.OpDetach? || op.OpForceDetach?
             || op.OpRenew? || op.OpNotePinChild?
             || op.OpRecordTurn? || op.OpReap?
    requires Proposes(m, cfg, boot, op, t, next)
    ensures next.attempts == m.attempts
  {
    hide IsTurnId, IsJobId, IsChild, TargetsRebuilt, Reaps, Unleaked, LastTurns, Transition;
    match op
    case OpActivate(b) => TransitionKeepsJournal(m, b, x => if IsExpired(x, t) then Refused(BindingExpired)
      else Activate(x), t);
    case OpBeginDetach(b) => TransitionKeepsJournal(m, b, x => Bound(BeginDetach(x)), t);
    case OpDetach(b) => TransitionKeepsJournal(m, b, x => Detach(x), t);
    case OpForceDetach(b) => TransitionKeepsJournal(m, b, x => Bound(ForceDetach(x)), t);
    case OpRenew(b, ttl) => TransitionKeepsJournal(m, b, x => Bound(Renew(x, ttl, t)), t);
    case _ =>
  }

  lemma TransitionKeepsJournal(m: Mem, id: Id, step: Binding -> Outcome, t: int)
    ensures Transition(m, id, step, t).Write? ==> Transition(m, id, step, t).next.attempts == m.attempts
  {
    hide Committed, BlocksTarget, Unaltered;
  }

  lemma AttachKeepsJournal(m: Mem, cfg: Config, a: Attach, t: int, next: Mem)
    requires MemOk(m) && Holders(m, t) && PreCreateOk(m, a)
    requires exists plan :: IsCreatePlan(m, cfg, a, t, plan) && Writes(plan, next)
    ensures next.attempts == m.attempts
  {
    hide MemOk, Holders, IsCreatePlan, PreCreateOk, RecordsEvolve;
    var plan :| IsCreatePlan(m, cfg, a, t, plan) && Writes(plan, next);
    AttachEvolves(m, cfg, a, t, plan);
  }

  lemma PinBoundsJournal(m: Mem, cfg: Config, boot: Boot, id: Id, job: Job, t: int, extras: PinExtras, next: Mem)
    requires exists plan :: IsPinPlan(m, cfg, boot, id, job, t, extras, plan) && Writes(plan, next)
    ensures next.attempts == m.attempts || (WithinBounds(next.attempts) && NoneAged(next.attempts, t))
  {
    hide Committed, BlocksTarget, Unaltered, IsTurnId, IsJobId, IsExpired, WithinBounds, NoneAged;
  }

  lemma UnpinBoundsJournal(m: Mem, id: Id, job: Job, t: int, settled: Option<(TurnId, Exit)>, next: Mem)
    requires exists plan :: IsUnpinPlan(m, id, job, t, settled, plan) && Writes(plan, next)
    ensures next.attempts == m.attempts || (WithinBounds(next.attempts) && NoneAged(next.attempts, t))
  {
    hide Committed, BlocksTarget, Unaltered, IsTurnId, IsJobId, WithinBounds, NoneAged;
  }

  lemma ReleaseKeepsTheAged(m: Mem, due: map<Id, seq<Job>>, t: int, next: Mem)
    requires MemOk(m) && IsReleased(m, due, t, next)
    ensures WithinBounds(next.attempts) && (NoneAged(next.attempts, t) <==> NoneAged(m.attempts, t))
  {
    hide ReleasedTurns, TargetsRebuilt, Released, RecordsOk, FloorsOk, TurnsOk, ReleasedJournal;
    ReleasedSameAttempts(m, due);
    SameAttemptsOk(m.attempts, next.attempts);
    forall k, id | Has(m.attempts, k, id) ensures Has(next.attempts, k, id)
      && next.attempts[k][id].at == m.attempts[k][id].at {}
    assert forall k, id :: Has(next.attempts, k, id) ==> Has(m.attempts, k, id);
  }

  /** A lapsed lease a dead boot left pinned by one job, which carries one turn. */
  function LeftPinned(key: Key, job: Job, turn: TurnId, at: int): Record {
    var b := Binding("lease", "", "claude", SomeThread, key, "", "", None, 1, Active, at, [job]);
    Record(b, at, at, None, None, map[job := at], map[job := PinMeta(turn, "boot", None)])
  }

  const SomeTurn: TurnId := "turn0001"

  lemma SomeNamesAreLegal()
    ensures IsTurnId(SomeTurn) && IsJobId("job") && IsJobId("job2") && IsBindingId("lease") && IsBindingId("other")
  {
    assert |SomeTurn| == 8;
  }

  const SomeKey: Key := TargetKey.Make("claude", SomeThread)

  /** One lapsed lease, still pinned by a job of a dead boot, beside this ledger and this journal. */
  function LeftBehind(r: Record, rows: seq<TurnRow>, attempts: Journal): Mem {
    Mem(map["lease" := r], map[SomeKey := "lease"], map[SomeKey := 1], if rows == [] then map[]
      else map["lease" := rows], attempts, None)
  }

  lemma LeftBehindIsOk(r: Record, rows: seq<TurnRow>, attempts: Journal, now: int)
    requires RecordOk("lease", r) && r.binding.targetKey == SomeKey && r.binding.epoch == 1
    requires (rows == [] || RowsOk(rows)) && JournalOk(attempts)
    ensures MemOk(LeftBehind(r, rows, attempts)) && Holders(LeftBehind(r, rows, attempts), now)
  {
    hide TargetKey.Parse, TargetKey.Legal, RecordOk, RowsOk, JournalOk, BlocksTarget;
    SomeThreadIsLegal();
    TargetKey.ParseExact(SomeKey, "claude", SomeThread);
  }

  lemma LeftPinnedIsOk(job: Job, turn: TurnId, at: int)
    requires IsJobId(job) && IsTurnId(turn)
    ensures RecordOk("lease", LeftPinned(SomeKey, job, turn, at))
  {
    hide TargetKey.Make, TargetKey.Legal, IsTurnId, IsJobId, IsBindingId;
    SomeThreadIsLegal();
    SomeNamesAreLegal();
  }

  lemma OneAttemptIsOk(turn: TurnId, a: Attempt)
    requires IsTurnId(turn) && IsBootId(a.bootId)
    ensures JournalOk(map[SomeKey := map[turn := a]])
  {
    hide TargetKey.Parse, IsTurnId, TargetKey.Legal;
    SomeThreadIsLegal();
    TargetKey.ParseExact(SomeKey, "claude", SomeThread);
  }

  /** What a release commits when nothing it leaves can hold a target. */
  ghost function ReleasedInto(m: Mem, due: map<Id, seq<Job>>, now: int): Mem {
    Mem(map id | id in m.records :: Released(m.records[id], RowsDue(due, id), now), map[], m.floors,
        ReleasedTurns(m, due, now), ReleasedJournal(m, due), m.through)
  }

  lemma ReleasedIntoIs(r: Record, rows: seq<TurnRow>, attempts: Journal, boot: Boot, now: int, jobs: seq<Job>)
    requires jobs == r.binding.pinnedJobs && jobs != [] && now >= r.binding.expiresAt
    requires DuePins(r, "lease", boot, {}, now, None) == jobs
    ensures var m := LeftBehind(r, rows, attempts);
            IsReleased(m, AllDue(m, boot, {}, now, None), now, ReleasedInto(m, AllDue(m, boot, {}, now, None), now))
  {
    hide ReleasedTurns, ReleasedJournal, DuePins, Released, BlocksTarget;
    var m := LeftBehind(r, rows, attempts);
    ReleasedOfAll(r, jobs, now);
  }

  lemma ReleasedOfAll(r: Record, jobs: seq<Job>, now: int)
    requires jobs == r.binding.pinnedJobs && jobs != [] && now >= r.binding.expiresAt
    ensures !BlocksTarget(Released(r, jobs, now).binding, now)
  {
    SomeMember(Released(r, jobs, now).binding.pinnedJobs);
  }

  lemma SomeMember(jobs: seq<Job>)
    ensures jobs == [] || exists j :: j in jobs
  {
    if jobs != [] { assert jobs[0] in jobs; }
  }

  /**
    A pin with its attempt, a crash, a reopening 49 hours later and a release another 31 minutes on: the
    journal is rewritten, and still holds an attempt older than 48 hours.
  */
  lemma ReleaseCanWriteTheAged() returns (m: Mem, boot: Boot, now: int, next: Mem)
    ensures MemOk(m) && Holders(m, now) && NoneAged(m.attempts, 0)
    ensures IsReleased(m, AllDue(m, boot, {}, now, None), now, next)
    ensures next.attempts != m.attempts && !NoneAged(next.attempts, now)
  {
    hide TargetKey.Parse, TargetKey.Legal, IsTurnId, IsJobId, MemOk, Holders, RecordOk, JournalOk,
      IsReleased, ReleasedTurns;
    var r, journal :=
      LeftPinned(SomeKey, "job", SomeTurn, 0), map[SomeKey := map[SomeTurn := Attempt("boot", 0, TurnMode, Pending)]];
    SomeNamesAreLegal();
    LeftPinnedIsOk("job", SomeTurn, 0);
    OneAttemptIsOk(SomeTurn, journal[SomeKey][SomeTurn]);
    boot := Boot("next", 49 * 60 * 60 * 1000, {("lease", "job")});
    now, m := boot.openedAt + PIN_ORPHAN_FENCE_MS, LeftBehind(r, [], journal);
    LeftBehindIsOk(r, [], journal, now);
    assert DuePins(r, "lease", boot, {}, now, None) == ["job"];
    ReleasedIntoIs(r, [], journal, boot, now, ["job"]);
    var due := AllDue(m, boot, {}, now, None);
    next := ReleasedInto(m, due, now);
    assert NamedBy(m, due, "lease", "job", SomeKey, SomeTurn) && Orphaned(m, due, SomeKey, SomeTurn);
    assert Has(next.attempts, SomeKey, SomeTurn) && next.attempts[SomeKey][SomeTurn].exit == UnknownExit;
    assert Aged(next.attempts[SomeKey][SomeTurn], now);
  }

  /** What a call leaves in memory once its write has succeeded. */
  function After(m: Mem, plan: Plan): Mem { if plan.Write? then plan.next else m }

  /**
    A pin that is granted leaves the attempt it carries answered for if and only if the job was not pinned
    yet or the journal already answered: pinning a held job writes nothing.
  */
  lemma PinRecordsItsAttemptUnlessHeld(m: Mem, cfg: Config, boot: Boot, id: Id, job: Job, now: int,
                                       extras: PinExtras, plan: Plan)
    requires MemOk(m) && Holders(m, now) && IsBootId(boot.bootId)
    requires IsPinPlan(m, cfg, boot, id, job, now, extras, plan) && !plan.Reject?
    requires extras.attempt.Some? && IsTurnId(extras.attempt.value.0)
    ensures id in m.records
    ensures var key, turn := m.records[id].binding.targetKey, extras.attempt.value.0;
            Known(After(m, plan), key, turn, now) <==>
              job !in m.records[id].binding.pinnedJobs || Known(m, key, turn, now)
    ensures job in m.records[id].binding.pinnedJobs ==> plan == Keep(m.records[id].binding)
  {
    hide MemOk, Holders, IsTurnId, Known, OpensAttempt, Committed;
    if job !in m.records[id].binding.pinnedJobs {
      PinAlwaysWrites(m, boot, m.records[id], job, now, extras, plan);
      PinEvolves(m, cfg, boot, id, job, now, extras, plan);
    }
  }

  /** Pinning a job that is already pinned is granted, and the attempt it carries is on no file. */
  lemma HeldPinLosesItsAttempt(cfg: Config, boot: Boot) returns (m: Mem, extras: PinExtras, plan: Plan)
    ensures MemOk(m) && Holders(m, 1000)
    ensures IsPinPlan(m, cfg, boot, "lease", "job", 1000, extras, plan) && plan.Keep?
    ensures extras.attempt == Some((SomeTurn, TurnMode)) && IsTurnId(SomeTurn)
    ensures "lease" in m.records && !Known(After(m, plan), m.records["lease"].binding.targetKey, SomeTurn, 1000)
  {
    hide TargetKey.Parse, TargetKey.Legal, IsTurnId, IsJobId, MemOk, Holders, RecordOk, JournalOk;
    SomeNamesAreLegal();
    LeftPinnedIsOk("job", SomeTurn, 0);
    var r := LeftPinned(SomeKey, "job", SomeTurn, 0);
    assert JournalOk(map[]) by { NoAttemptsIsOk(); }
    LeftBehindIsOk(r, [], map[], 1000);
    m, extras, plan := LeftBehind(r, [], map[]), PinExtras(None, Some((SomeTurn, TurnMode))), Keep(r.binding);
  }

  lemma NoAttemptsIsOk()
    ensures JournalOk(map[])
  {
  }

  lemma PinAlwaysWrites(m: Mem, boot: Boot, r: Record, job: Job, now: int, extras: PinExtras, plan: Plan)
    requires IsPinPlanFor(m, boot, r, job, now, extras, plan) && job !in r.binding.pinnedJobs && !IsTerminal(r.binding)
    ensures plan.Write?
  {
    hide OpensAttempt, Committed, IsTurnId;
    assert Pin(r.binding, job).pinnedJobs != r.binding.pinnedJobs;
  }

  // ------------------------------------------------------------- dead-boot pins

  /**
    A release drops a pin exactly when it was on disk at open, 31 minutes have passed since both the pin
    and the open, its recorded child is gone and its target is the one asked about; it drops nothing else.
  */
  lemma ReleaseDropsExactlyTheDue(m: Mem, boot: Boot, running: set<Child>, now: int, only: Option<Key>,
                                  next: Mem, id: Id, job: Job)
    requires MemOk(m) && IsReleased(m, AllDue(m, boot, running, now, only), now, next)
    requires id in m.records && job in m.records[id].binding.pinnedJobs
    ensures id in next.records
    ensures job !in next.records[id].binding.pinnedJobs <==>
              (only.Some? ==> m.records[id].binding.targetKey == only.value)
              && (id, job) in boot.inherited
              && now >= m.records[id].pinnedAt[job] + PIN_ORPHAN_FENCE_MS && now >= boot.openedAt + PIN_ORPHAN_FENCE_MS
              && !OrphanChildRunning(m.records[id], running, job)
  {
    hide TurnsOk, JournalOk, FloorsOk, ReleasedTurns, ReleasedJournal, TargetsRebuilt, ValidBinding, MetaOk,
      DuePins, Released, PinDue;
    var r := m.records[id];
    assert RecordOk(id, r);
    assert next.records[id] == Released(r, RowsDue(AllDue(m, boot, running, now, only), id), now);
    assert RowsDue(AllDue(m, boot, running, now, only), id) == DuePins(r, id, boot, running, now, only);
    ReleasedPins(r, DuePins(r, id, boot, running, now, only), now, job);
    DueIs(r, id, boot, running, now, only, job);
  }

  lemma ReleasedPins(r: Record, due: seq<Job>, now: int, job: Job)
    requires job in r.binding.pinnedJobs
    ensures job !in Released(r, due, now).binding.pinnedJobs <==> job in due
  {
  }

  lemma DueIs(r: Record, id: Id, boot: Boot, running: set<Child>, now: int, only: Option<Key>, job: Job)
    requires job in r.binding.pinnedJobs && job in r.pinnedAt
    ensures job in DuePins(r, id, boot, running, now, only) <==>
              (only.Some? ==> r.binding.targetKey == only.value) && (id, job) in boot.inherited
              && now >= r.pinnedAt[job] + PIN_ORPHAN_FENCE_MS && now >= boot.openedAt + PIN_ORPHAN_FENCE_MS
              && !OrphanChildRunning(r, running, job)
  {
  }

  /** Over a run: no release ever touches a pin of the boot that is running. */
  lemma OwnPinsAreNeverReleased(cfg: Config, ws: seq<World>, ops: seq<Op>, i: nat, running: set<Child>,
                                only: Option<Key>, next: Mem, id: Id, job: Job)
    requires IsRun(cfg, ws, ops) && i < |ws| && (id, job) in ws[i].own
    requires id in ws[i].mem.records && job in ws[i].mem.records[id].binding.pinnedJobs
    requires IsReleased(ws[i].mem, AllDue(ws[i].mem, ws[i].boot, running, ws[i].now, only), ws[i].now, next)
    ensures id in next.records && job in next.records[id].binding.pinnedJobs
  {
    hide IsRun, IsReleased, MemOk, Holders, LeasesOk, BegunKnown, OnDisk, AllDue;
    RunInv(cfg, ws, ops, i);
    InvParts(ws[i], ws[i].now);
    ReleaseDropsExactlyTheDue(ws[i].mem, ws[i].boot, running, ws[i].now, only, next, id, job);
  }

  /** A released pin that names a turn turns that turn's pending attempt into unknown, and no other attempt moves. */
  lemma ReleaseSettlesPending(m: Mem, due: map<Id, seq<Job>>, now: int, next: Mem, k: Key, turn: TurnId)
    requires IsReleased(m, due, now, next) && Has(m.attempts, k, turn)
    ensures Has(next.attempts, k, turn)
    ensures next.attempts[k][turn] ==
      if m.attempts[k][turn].exit == Pending && exists id, job :: NamedBy(m, due, id, job, k, turn)
      then m.attempts[k][turn].(exit := UnknownExit) else m.attempts[k][turn]
  {
    hide ReleasedTurns, TargetsRebuilt, Released;
  }

  /** Some other binding of the target holds the turn. */
  ghost predicate KnownBeside(m: Mem, id: Id, turn: TurnId)
    requires id in m.records
  {
    exists other :: other != id && SameTarget(m, id, other) && HasTurn(RowsOf(m.turns, other), turn)
  }

  /**
    What a released pin that names a turn leaves of it, however many pins go at once. A row is appended
    exactly when no ledger of the target knew the turn, and afterwards the target knows the turn if and only
    if another of its bindings does or fewer than 64 rows follow the newest row of it on this binding.
  */
  lemma ReleaseLeavesARecordExactly(m: Mem, boot: Boot, running: set<Child>, now: int, only: Option<Key>,
                                    next: Mem, id: Id, job: Job)
    requires MemOk(m) && Holders(m, now)
             && IsReleased(m, AllDue(m, boot, running, now, only), now, next) && id in m.records
    requires job in DuePins(m.records[id], id, boot, running, now, only) && job in m.records[id].pinMeta
    ensures var due, meta := DuePins(m.records[id], id, boot, running, now, only), m.records[id].pinMeta;
            var turn := meta[job].clientTurnId;
            var news := ReleaseAppends(m, id, RowsOf(m.turns, id), due, meta, now);
            (HasTurn(news, turn) <==> !TurnKnown(m, id, turn))
            && (TurnKnown(next, id, turn) <==> KnownBeside(m, id, turn) || RowLasts(RowsOf(m.turns, id) + news, turn))
            && (|due| <= MAX_TURNS_PER_BINDING && !TurnKnown(m, id, turn) ==> TurnKnown(next, id, turn))
  {
    hide RowsOk, JournalOk, FloorsOk, TargetsRebuilt, ReleasedJournal, ReleasedTurns, ReleasedRows, ValidBinding,
      IsTurnId, DuePins, Released, ReleaseAppends, LastTurns,
      LastRow;
    var due, meta := DuePins(m.records[id], id, boot, running, now, only), m.records[id].pinMeta;
    var turn, rows := meta[job].clientTurnId, RowsOf(m.turns, id);
    var news := ReleaseAppends(m, id, rows, due, meta, now);
    MetaTurns(m, id);
    RowsShort(m, id);
    assert HasTurn(rows, turn) ==> TurnKnown(m, id, turn);
    AppendsTheUnknown(m, id, rows, due, meta, now, job);
    assert RowsDue(AllDue(m, boot, running, now, only), id) == due;
    ReleaseLedger(m, AllDue(m, boot, running, now, only), now, next, id);
    LastsExactly(rows + news, turn);
    KnownAfterRelease(m, boot, running, now, only, next, id, job, turn);
    AppendsAtMostDue(m, id, rows, due, meta, now);
    if |due| <= MAX_TURNS_PER_BINDING && HasTurn(news, turn) { AppendedLasts(rows, news, turn); }
  }

  /** Turn ids told apart by their length. */
  function TurnOf(i: nat): TurnId { seq(8 + i, _ => 'a') }

  lemma {:induction false} TurnsOfAreLegal(i: nat)
    requires i <= 120
    ensures IsTurnId(TurnOf(i)) && |TurnOf(i)| == 8 + i
  {
  }

  function FullLedger(): seq<TurnRow>
  {
    seq(MAX_TURNS_PER_BINDING, i requires 0 <= i < MAX_TURNS_PER_BINDING => TurnRow(TurnOf(i), Answered(""), 0))
  }

  lemma FullLedgerIsOk()
    ensures RowsOk(FullLedger())
  {
    hide IsTurnId;
    var rows := FullLedger();
    forall i | 0 <= i < |rows| ensures IsTurnId(rows[i].turnId) && |rows[i].turnId| == 8 + i { TurnsOfAreLegal(i); }
  }

  /**
    A full ledger whose oldest row answers one pinned turn, and a second pin on a turn nobody knows: releasing
    both appends the second turn's row, and the first turn, which had its record, is known no longer.
  */
  lemma ReleaseCanForgetATurn() returns (m: Mem, boot: Boot, now: int, next: Mem)
    ensures MemOk(m) && Holders(m, now) && IsReleased(m, AllDue(m, boot, {}, now, None), now, next)
    ensures "lease" in m.records && "job" in DuePins(m.records["lease"], "lease", boot, {}, now, None)
    ensures "job" in m.records["lease"].pinMeta && m.records["lease"].pinMeta["job"].clientTurnId == TurnOf(0)
    ensures TurnKnown(m, "lease", TurnOf(0)) && !TurnKnown(next, "lease", TurnOf(0))
  {
    hide TargetKey.Parse, TargetKey.Legal, IsTurnId, IsJobId, MemOk, Holders, RecordOk, RowsOk, JournalOk,
      IsReleased, ReleasedTurns, LastRow,
      ReleasedRows;
    var r := TwicePinned();
    var rows := FullLedger();
    TwicePinnedIsOk();
    FullLedgerIsOk();
    NoAttemptsIsOk();
    boot, now, m :=
      Boot("next", 0, {("lease", "job"), ("lease", "job2")}), PIN_ORPHAN_FENCE_MS, LeftBehind(r, rows, map[]);
    LeftBehindIsOk(r, rows, map[], now);
    TwicePinnedIsDue(boot, now);
    ReleasedIntoIs(r, rows, map[], boot, now, ["job", "job2"]);
    next := ReleasedInto(m, AllDue(m, boot, {}, now, None), now);
    ReleaseLeavesARecordExactly(m, boot, {}, now, None, next, "lease", "job");
    OldestIsPushedOff(m, now);
  }

  function TwicePinned(): Record {
    LeftPinned(SomeKey, "job", TurnOf(0), 0)
      .(binding := LeftPinned(SomeKey, "job", TurnOf(0), 0).binding.(pinnedJobs := ["job", "job2"]),
        pinnedAt := map["job" := 0, "job2" := 0],
        pinMeta := map["job" := PinMeta(TurnOf(0), "boot", None), "job2" := PinMeta(TurnOf(64), "boot", None)])
  }

  lemma TwicePinnedIsOk()
    ensures RecordOk("lease", TwicePinned())
  {
    hide TargetKey.Make, TargetKey.Legal, IsTurnId, IsJobId, IsBindingId;
    SomeThreadIsLegal();
    SomeNamesAreLegal();
    TurnsOfAreLegal(0);
    TurnsOfAreLegal(64);
  }

  lemma TwicePinnedIsDue(boot: Boot, now: int)
    requires boot.inherited == {("lease", "job"), ("lease", "job2")} && boot.openedAt == 0 && now == PIN_ORPHAN_FENCE_MS
    ensures DuePins(TwicePinned(), "lease", boot, {}, now, None) == ["job", "job2"]
  {
    var r := TwicePinned();
    assert PinDue(r, "lease", boot, {}, now, "job") && PinDue(r, "lease", boot, {}, now, "job2");
    assert r.binding.pinnedJobs[1..] == ["job2"];
  }

  lemma OldestIsPushedOff(m: Mem, now: int)
    requires m == LeftBehind(TwicePinned(), FullLedger(), map[])
    ensures var rows, meta := RowsOf(m.turns, "lease"), TwicePinned().pinMeta;
            !KnownBeside(m, "lease", TurnOf(0)) && TurnKnown(m, "lease", TurnOf(0))
            && !RowLasts(rows + ReleaseAppends(m, "lease", rows, ["job", "job2"], meta, now), TurnOf(0))
  {
    hide IsTurnId, TargetKey.Legal, ReleasedRows;
    var rows, meta := FullLedger(), TwicePinned().pinMeta;
    forall i | 0 <= i < |rows| ensures |rows[i].turnId| == 8 + i { TurnsOfAreLegal(i); }
    TurnsOfAreLegal(0);
    TurnsOfAreLegal(64);
    assert rows[0].turnId == TurnOf(0);
    assert !TurnKnown(m, "lease", TurnOf(64));
    var news := ReleaseAppends(m, "lease", rows, ["job", "job2"], meta, now);
    AppendsTheUnknown(m, "lease", rows, ["job", "job2"], meta, now, "job2");
    var all := rows + news;
    assert forall i :: 0 < i < |rows| ==> all[i].turnId == rows[i].turnId != TurnOf(0);
    NeverAppendsKnown(m, "lease", rows, ["job", "job2"], meta, now, TurnOf(0));
    assert forall i :: |rows| <= i < |all| ==> all[i] == news[i - |rows|];
  }

  lemma AppendedLasts(rows: seq<TurnRow>, news: seq<TurnRow>, turn: TurnId)
    requires |news| <= MAX_TURNS_PER_BINDING && HasTurn(news, turn)
    ensures RowLasts(rows + news, turn)
  {
    var i :| 0 <= i < |news| && news[i].turnId == turn;
    assert (rows + news)[|rows| + i].turnId == turn;
  }

  /** After a release the target knows what this binding's ledger then holds and what its other bindings held. */
  lemma KnownAfterRelease(m: Mem, boot: Boot, running: set<Child>, now: int, only: Option<Key>, next: Mem,
                          id: Id, job: Job, turn: TurnId)
    requires MemOk(m) && Holders(m, now)
             && IsReleased(m, AllDue(m, boot, running, now, only), now, next) && id in m.records
    requires job in DuePins(m.records[id], id, boot, running, now, only) && IsTurnId(turn)
    ensures TurnKnown(next, id, turn) <==> KnownBeside(m, id, turn) || HasTurn(RowsOf(next.turns, id), turn)
  {
    hide MemOk, TargetsRebuilt, ReleasedJournal, ReleasedTurns, ReleasedRows, IsTurnId, DuePins, AllDue;
    forall other | other in m.records
      ensures other in next.records && next.records[other].binding.targetKey == m.records[other].binding.targetKey
    {
      assert next.records[other]
        == Released(m.records[other], RowsDue(AllDue(m, boot, running, now, only), other), now);
    }
    forall other | other != id && SameTarget(m, id, other) ensures RowsOf(next.turns, other) == RowsOf(m.turns, other) {
      BesideIsLeft(m, boot, running, now, only, next, id, job, other);
    }
    assert forall other :: SameTarget(next, id, other) <==> SameTarget(m, id, other);
  }

  /** The binding whose pins are due holds the target, so no other binding of it is pinned, let alone due. */
  lemma BesideIsLeft(m: Mem, boot: Boot, running: set<Child>, now: int, only: Option<Key>, next: Mem,
                     id: Id, job: Job, other: Id)
    requires MemOk(m) && Holders(m, now)
             && IsReleased(m, AllDue(m, boot, running, now, only), now, next) && id in m.records
    requires job in DuePins(m.records[id], id, boot, running, now, only)
    requires other != id && SameTarget(m, id, other)
    ensures RowsOf(next.turns, other) == RowsOf(m.turns, other)
  {
    hide MemOk, TargetsRebuilt, ReleasedJournal, IsTurnId, PinDue, ReleasedRows;
    assert Blocker(m.records, now, id);
    assert m.targets[m.records[id].binding.targetKey] == id;
    assert !IsPinned(m.records[other].binding);
    var due := AllDue(m, boot, running, now, only);
    assert RowsDue(due, other) == [];
    NothingDueLeavesRows(m, due, now, other);
    assert RowsOf(next.turns, other) == RowsAfter(m, due, other, now);
  }

  lemma NothingDueLeavesRows(m: Mem, due: map<Id, seq<Job>>, now: int, id: Id)
    requires RowsDue(due, id) == []
    ensures RowsAfter(m, due, id, now) == RowsOf(m.turns, id)
  {
  }
}
