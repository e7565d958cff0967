/**
  What each mutation of the registry keeps: well-formedness, the holder of every live binding, the
  lease each record was issued as, and what the attempt journal can still answer.
*/
module RegistrySteps {
  import opened Wrappers
  import opened Ids
  import opened BindingStore
  import opened AttemptJournal
  import opened RegistryState
  import opened StoreFile
  import opened Registry
  import opened RegistryReopen
  import TargetKey

  /** The same issued lease: only state, expiry and pins may differ. */
  predicate SameLease(a: Binding, b: Binding) {
    a.(state := b.state, expiresAt := b.expiresAt, pinnedJobs := b.pinnedJobs) == b
  }

  /** Records may go, leases may not change, and nothing that did not block starts to. */
  ghost predicate RecordsEvolve(recs: Records, recs': Records, now: int) {
    forall id :: id in recs' ==>
      id in recs && SameLease(recs[id].binding, recs'[id].binding)
      && (BlocksTarget(recs'[id].binding, now) ==> BlocksTarget(recs[id].binding, now))
  }

  /** The journal still answers for an attempt begun at `at`: it is on file, or a high-water mark covers it. */
  predicate Known(m: Mem, k: Key, turn: TurnId, at: int) {
    (Has(m.attempts, k, turn) && m.attempts[k][turn].at >= at) || AtLeast(m.through, at)
  }

  ghost predicate JournalKeeps(m: Mem, next: Mem, now: int) {
    forall k, turn, at :: at <= now && Known(m, k, turn, at) ==> Known(next, k, turn, at)
  }

  ghost predicate Evolves(m: Mem, next: Mem, now: int) {
    RecordsEvolve(m.records, next.records, now) && next.floors == m.floors
    && MemOk(next) && Holders(next, now) && JournalKeeps(m, next, now)
  }

  // ------------------------------------------------------------- holders

  lemma RebuiltHolders(m: Mem, next: Mem, now: int)
    requires Holders(m, now) && RecordsEvolve(m.records, next.records, now)
    requires TargetsRebuilt(next.targets, next.records, now)
    ensures Holders(next, now)
  {
    forall id | Blocker(next.records, now, id)
      ensures next.records[id].binding.targetKey in next.targets
              && next.targets[next.records[id].binding.targetKey] == id
    {
      var key := next.records[id].binding.targetKey;
      var held := next.targets[key];
      assert Blocker(m.records, now, id) && Blocker(m.records, now, held);
      assert m.records[held].binding.targetKey == key && m.records[id].binding.targetKey == key;
    }
  }

  lemma FloorsEvolve(m: Mem, next: Mem, now: int)
    requires FloorsOk(m) && next.floors == m.floors && RecordsEvolve(m.records, next.records, now)
    ensures FloorsOk(next)
  {
    hide TargetKey.Parse, TargetKey.Make;
    forall id | id in next.records
      ensures next.records[id].binding.epoch <= FloorOf(next.floors, next.records[id].binding.targetKey)
    {
      assert SameLease(m.records[id].binding, next.records[id].binding);
    }
  }

  // ------------------------------------------------------------- the journal

  /** Bounding keeps every answer: what it sheds raises the mark past it. */
  lemma BoundedKeeps(j: Journal, through: Option<int>, now: int, kept: Journal, high: Option<int>,
                     k: Key, turn: TurnId, at: int)
    requires Bounded(j, through, now, kept, high)
    requires (Has(j, k, turn) && j[k][turn].at >= at) || AtLeast(through, at)
    ensures (Has(kept, k, turn) && kept[k][turn].at >= at) || AtLeast(high, at)
  {
  }

  lemma OpensKeeps(m: Mem, k: Key, turn: TurnId, a: Attempt, now: int, kept: Journal, high: Option<int>, next: Mem)
    requires Bounded(WithAttempt(m.attempts, k, turn, a), m.through, now, kept, high) && a.at == now
    requires next.attempts == kept && next.through == high
    ensures JournalKeeps(m, next, now) && Known(next, k, turn, now)
  {
    var j := WithAttempt(m.attempts, k, turn, a);
    assert Has(j, k, turn) && j[k][turn] == a;
    BoundedKeeps(j, m.through, now, kept, high, k, turn, now);
    forall k', turn', at | at <= now && Known(m, k', turn', at) ensures Known(next, k', turn', at) {
      assert Has(m.attempts, k', turn') ==>
        Has(j, k', turn') && j[k'][turn'].at >= if k' == k && turn' == turn then now else m.attempts[k'][turn'].at;
      BoundedKeeps(j, m.through, now, kept, high, k', turn', at);
    }
  }

  lemma SettlesKeeps(m: Mem, k: Key, turn: TurnId, exit: Exit, now: int, kept: Journal, high: Option<int>, next: Mem)
    requires Has(m.attempts, k, turn) && Bounded(WithExit(m.attempts, k, turn, exit), m.through, now, kept, high)
    requires next.attempts == kept && next.through == high
    ensures JournalKeeps(m, next, now)
  {
    var j := WithExit(m.attempts, k, turn, exit);
    forall k', turn', at | at <= now && Known(m, k', turn', at) ensures Known(next, k', turn', at) {
      assert Has(m.attempts, k', turn') ==> Has(j, k', turn') && j[k'][turn'].at == m.attempts[k'][turn'].at;
      BoundedKeeps(j, m.through, now, kept, high, k', turn', at);
    }
  }

  /** Rows added or altered by one mutation are well-formed, so the bounded journal is. */
  lemma BoundedOk(j: Journal, through: Option<int>, now: int, kept: Journal, high: Option<int>)
    requires Bounded(j, through, now, kept, high)
    requires forall k :: k in j ==> TargetKey.Parse(k).Some?
    requires forall k, id :: Has(j, k, id) ==> IsTurnId(id) && IsBootId(j[k][id].bootId)
    ensures JournalOk(kept)
  {
    hide TargetKey.Parse, IsTurnId;
    forall k, id | Has(kept, k, id) ensures IsTurnId(id) && IsBootId(kept[k][id].bootId) {
      assert Has(j, k, id) && kept[k][id] == j[k][id];
    }
  }

  lemma OpenedOk(m: Mem, k: Key, turn: TurnId, a: Attempt, now: int, kept: Journal, high: Option<int>)
    requires JournalOk(m.attempts) && TargetKey.Parse(k).Some? && IsTurnId(turn) && IsBootId(a.bootId)
    requires Bounded(WithAttempt(m.attempts, k, turn, a), m.through, now, kept, high)
    ensures JournalOk(kept)
  {
    hide TargetKey.Parse, IsTurnId, Bounded;
    var j := WithAttempt(m.attempts, k, turn, a);
    forall k', id | Has(j, k', id) ensures IsTurnId(id) && IsBootId(j[k'][id].bootId) {
      if !(k' == k && id == turn) { assert Has(m.attempts, k', id); }
    }
    BoundedOk(j, m.through, now, kept, high);
  }

  lemma SettledOk(m: Mem, k: Key, turn: TurnId, exit: Exit, now: int, kept: Journal, high: Option<int>)
    requires JournalOk(m.attempts) && Has(m.attempts, k, turn)
    requires Bounded(WithExit(m.attempts, k, turn, exit), m.through, now, kept, high)
    ensures JournalOk(kept)
  {
    hide TargetKey.Parse, IsTurnId, Bounded;
    var j := WithExit(m.attempts, k, turn, exit);
    forall k', id | Has(j, k', id) ensures IsTurnId(id) && IsBootId(j[k'][id].bootId) {
      assert Has(m.attempts, k', id);
    }
    BoundedOk(j, m.through, now, kept, high);
  }

  // ------------------------------------------------------------- per-binding commits

  /** The journal a commit carries, if any: bounded and well-formed, and it forgets nothing it should know. */
  ghost predicate PatchKeeps(m: Mem, journal: Option<(Journal, Option<int>)>, now: int) {
    journal.Some? ==> JournalOk(journal.value.0) && JournalKeeps(m, WithJournal(m, journal), now)
  }

  lemma CommitHolders(m: Mem, id: Id, b: Binding, now: int, patch: Patch)
    requires Holders(m, now) && id in m.records && b.bindingId == id && SameLease(m.records[id].binding, b)
    requires BlocksTarget(b, now) ==> BlocksTarget(m.records[id].binding, now)
    requires CommitPlan(m, m.records[id], b, now, patch).Write?
    ensures Holders(CommitPlan(m, m.records[id], b, now, patch).next, now)
  {
    hide Committed, Unaltered;
    var next := CommitPlan(m, m.records[id], b, now, patch).next;
    assert next.records == m.records[id := Committed(m.records[id], b, now, patch)];
    assert Committed(m.records[id], b, now, patch).binding == b by { CommittedBinding(m.records[id], b, now, patch); }
    forall other | Blocker(next.records, now, other)
      ensures next.records[other].binding.targetKey in next.targets
              && next.targets[next.records[other].binding.targetKey] == other
    {
      assert Blocker(m.records, now, other);
      if BlocksTarget(b, now) { assert Blocker(m.records, now, id); }
    }
  }

  lemma CommittedBinding(r: Record, b: Binding, now: int, patch: Patch)
    ensures Committed(r, b, now, patch).binding == b
  {
  }

  lemma CommitEvolves(m: Mem, id: Id, b: Binding, now: int, patch: Patch)
    requires MemOk(m) && Holders(m, now) && id in m.records && SameLease(m.records[id].binding, b)
    requires RecordOk(id, Committed(m.records[id], b, now, patch))
    requires BlocksTarget(b, now) ==> BlocksTarget(m.records[id].binding, now)
    requires PatchKeeps(m, patch.journal, now)
    requires CommitPlan(m, m.records[id], b, now, patch).Write?
    ensures Evolves(m, CommitPlan(m, m.records[id], b, now, patch).next, now)
  {
    var r := m.records[id];
    var next := CommitPlan(m, r, b, now, patch).next;
    CommittedBinding(r, b, now, patch);
    assert b.bindingId == id;
    assert next.records == m.records[id := Committed(r, b, now, patch)];
    CommitHolders(m, id, b, now, patch);
    CommitRest(m, id, Committed(r, b, now, patch), now, patch.journal, next);
  }

  /** Replacing one record, with or without a journal, keeps the state well-formed. */
  lemma CommitRest(m: Mem, id: Id, r': Record, now: int, journal: Option<(Journal, Option<int>)>, next: Mem)
    requires MemOk(m) && id in m.records && RecordOk(id, r') && SameLease(m.records[id].binding, r'.binding)
    requires BlocksTarget(r'.binding, now) ==> BlocksTarget(m.records[id].binding, now)
    requires PatchKeeps(m, journal, now)
    requires next.records == m.records[id := r'] && next.floors == m.floors && next.turns == m.turns
    requires next.attempts == WithJournal(m, journal).attempts && next.through == WithJournal(m, journal).through
    ensures RecordsEvolve(m.records, next.records, now) && MemOk(next) && JournalKeeps(m, next, now)
  {
    hide RecordOk, TurnsOk, JournalOk, BlocksTarget;
    FloorsEvolve(m, next, now);
    forall k, turn, at | at <= now && Known(m, k, turn, at) ensures Known(next, k, turn, at) {
      assert Known(WithJournal(m, journal), k, turn, at);
    }
  }

  // ------------------------------------------------------------- the transitions

  lemma CommittedOk(id: Id, r: Record, b: Binding, now: int)
    requires RecordOk(id, r) && SameLease(r.binding, b) && b.pinnedJobs in {r.binding.pinnedJobs, []}
    ensures RecordOk(id, Committed(r, b, now, NoPatch))
  {
    hide TargetKey.Make, TargetKey.Legal, IsBindingId, IsJobId, ValidMeta;
  }

  /** Every plain transition: it changes state, expiry or drops all pins, and cannot start to block. */
  lemma TransitionEvolves(m: Mem, id: Id, step: Binding -> Outcome, now: int)
    requires MemOk(m) && Holders(m, now) && Transition(m, id, step, now).Write?
    requires var b0 := m.records[id].binding;
             step(b0).Bound? ==>
               var b := step(b0).binding;
               SameLease(b0, b) && b.pinnedJobs in {b0.pinnedJobs, []}
               && (BlocksTarget(b, now) ==> BlocksTarget(b0, now))
    ensures Evolves(m, Transition(m, id, step, now).next, now)
  {
    hide Evolves, BlocksTarget, RecordOk, CommitPlan;
    var b := step(m.records[id].binding).binding;
    CommittedOk(id, m.records[id], b, now);
    CommitEvolves(m, id, b, now, NoPatch);
  }

  lemma ActivateEvolves(m: Mem, id: Id, now: int)
    requires MemOk(m) && Holders(m, now) && ActivatePlan(m, id, now).Write?
    ensures Evolves(m, ActivatePlan(m, id, now).next, now)
  {
    hide Evolves, MemOk, Holders, CommitPlan;
    TransitionEvolves(m, id, b => if IsExpired(b, now) then Refused(BindingExpired) else Activate(b), now);
  }

  lemma DetachesEvolve(m: Mem, id: Id, now: int)
    requires MemOk(m) && Holders(m, now)
    ensures BeginDetachPlan(m, id, now).Write? ==> Evolves(m, BeginDetachPlan(m, id, now).next, now)
    ensures DetachPlan(m, id, now).Write? ==> Evolves(m, DetachPlan(m, id, now).next, now)
    ensures ForceDetachPlan(m, id, now).Write? ==> Evolves(m, ForceDetachPlan(m, id, now).next, now)
  {
    hide Evolves, MemOk, Holders, CommitPlan;
    if BeginDetachPlan(m, id, now).Write? { TransitionEvolves(m, id, b => Bound(BeginDetach(b)), now); }
    if DetachPlan(m, id, now).Write? { TransitionEvolves(m, id, b => Detach(b), now); }
    if ForceDetachPlan(m, id, now).Write? { TransitionEvolves(m, id, b => Bound(ForceDetach(b)), now); }
  }

  /** Renewing a lease that has not lapsed. */
  lemma RenewEvolves(m: Mem, id: Id, ttlMs: int, now: int)
    requires MemOk(m) && Holders(m, now) && RenewPlan(m, id, ttlMs, now).Write?
    requires !IsExpired(m.records[id].binding, now)
    ensures Evolves(m, RenewPlan(m, id, ttlMs, now).next, now)
  {
    hide Evolves, MemOk, Holders, CommitPlan;
    TransitionEvolves(m, id, b => Bound(Renew(b, ttlMs, now)), now);
  }

  // ------------------------------------------------------------- pins

  lemma PinnedOk(id: Id, r: Record, job: Job, now: int, meta: Option<map<Job, PinMeta>>,
                 journal: Option<(Journal, Option<int>)>)
    requires RecordOk(id, r) && IsJobId(job) && job !in r.binding.pinnedJobs && !IsTerminal(r.binding)
    requires meta.Some? ==>
             job in meta.value && MetaOk(meta.value[job]) && meta.value == r.pinMeta[job := meta.value[job]]
    ensures var b := Pin(r.binding, job);
            SameLease(r.binding, b)
            && RecordOk(id, Committed(r, b, now, Patch(Some(r.pinnedAt[job := now]), None, meta, journal)))
  {
    hide TargetKey.Make, TargetKey.Legal, IsBindingId, IsJobId, MetaOk;
    var b := Pin(r.binding, job);
    assert b.pinnedJobs == r.binding.pinnedJobs + [job];
    var r' := Committed(r, b, now, Patch(Some(r.pinnedAt[job := now]), None, meta, journal));
    forall j | j in r'.pinMeta ensures j in b.pinnedJobs && MetaOk(r'.pinMeta[j]) {
      if j != job { assert j in r.pinMeta ==> MetaOk(r.pinMeta[j]); }
    }
  }

  lemma UnpinnedOk(id: Id, r: Record, job: Job, now: int, last: Option<int>, journal: Option<(Journal, Option<int>)>)
    requires RecordOk(id, r)
    ensures var b := Unpin(r.binding, job);
            SameLease(r.binding, b)
            && RecordOk(id, Committed(r, b, now, Patch(Some(r.pinnedAt - {job}), Some(last), None, journal)))
  {
    hide TargetKey.Make, TargetKey.Legal, IsBindingId, IsJobId, MetaOk;
  }

  lemma OpensPatchKeeps(m: Mem, k: Key, turn: Option<(TurnId, Mode)>, bootId: string, now: int,
                        journal: Option<(Journal, Option<int>)>)
    requires MemOk(m) && TargetKey.Parse(k).Some? && IsBootId(bootId)
    requires OpensAttempt(m, k, turn, bootId, now, journal)
    ensures PatchKeeps(m, journal, now)
    ensures journal.Some? ==> Known(WithJournal(m, journal), k, turn.value.0, now)
  {
    hide TargetKey.Parse, Bounded, IsTurnId, MemOk;
    if journal.Some? {
      var a := Attempt(bootId, now, turn.value.1, Pending);
      var (kept, high) := journal.value;
      assert JournalOk(m.attempts) by { MemParts(m); }
      OpenedOk(m, k, turn.value.0, a, now, kept, high);
      MarkNeverFalls(WithAttempt(m.attempts, k, turn.value.0, a), m.through, now, kept, high);
      OpensKeeps(m, k, turn.value.0, a, now, kept, high, m.(attempts := kept, through := high));
      assert WithJournal(m, journal) == m.(attempts := kept, through := high);
    }
  }

  lemma MemParts(m: Mem)
    requires MemOk(m)
    ensures RecordsOk(m.records) && FloorsOk(m) && TurnsOk(m.turns) && JournalOk(m.attempts)
  {
  }

  /** A mark once set is never unset. */
  lemma MarkNeverFalls(j: Journal, through: Option<int>, now: int, kept: Journal, high: Option<int>)
    requires Bounded(j, through, now, kept, high)
    ensures through.Some? ==> AtLeast(high, through.value)
  {
  }

  lemma SettlesPatchKeeps(m: Mem, k: Key, turn: Option<(TurnId, Exit)>, now: int,
                          journal: Option<(Journal, Option<int>)>)
    requires MemOk(m) && SettlesAttempt(m, k, turn, now, journal)
    ensures PatchKeeps(m, journal, now)
  {
    hide TargetKey.Parse, Bounded, IsTurnId, MemOk;
    if journal.Some? {
      var (kept, high) := journal.value;
      assert JournalOk(m.attempts) by { MemParts(m); }
      SettledOk(m, k, turn.value.0, turn.value.1, now, kept, high);
      MarkNeverFalls(WithExit(m.attempts, k, turn.value.0, turn.value.1), m.through, now, kept, high);
      SettlesKeeps(m, k, turn.value.0, turn.value.1, now, kept, high, m.(attempts := kept, through := high));
      assert WithJournal(m, journal) == m.(attempts := kept, through := high);
    }
  }

  lemma KeyParses(m: Mem, id: Id)
    requires MemOk(m) && id in m.records
    ensures TargetKey.Parse(m.records[id].binding.targetKey).Some?
  {
    hide TargetKey.Parse;
    var b := m.records[id].binding;
    assert RecordOk(id, m.records[id]);
    TargetKey.ParseExact(b.targetKey, b.provider, b.threadId);
  }

  lemma PinEvolves(m: Mem, cfg: Config, boot: Boot, id: Id, job: Job, now: int, extras: PinExtras, plan: Plan)
    requires MemOk(m) && Holders(m, now) && IsBootId(boot.bootId)
    requires IsPinPlan(m, cfg, boot, id, job, now, extras, plan) && plan.Write?
    ensures id in m.records && Evolves(m, plan.next, now)
    ensures extras.attempt.Some? && IsTurnId(extras.attempt.value.0) ==>
              Known(plan.next, m.records[id].binding.targetKey, extras.attempt.value.0, now)
    ensures id in plan.next.records && job in plan.next.records[id].binding.pinnedJobs
    ensures job in plan.next.records[id].pinnedAt && plan.next.records[id].pinnedAt[job] == now
  {
    hide Evolves, MemOk, Holders, RecordOk, OpensAttempt, IsTurnId, IsJobId, CommitPlan, TargetKey.Parse;
    RecordAt(m, id);
    PinForEvolves(m, boot, id, job, now, extras, plan);
  }

  lemma PinForEvolves(m: Mem, boot: Boot, id: Id, job: Job, now: int, extras: PinExtras, plan: Plan)
    requires MemOk(m) && Holders(m, now) && IsBootId(boot.bootId) && id in m.records
             && m.records[id].binding.bindingId == id
    requires IsJobId(job) && job !in m.records[id].binding.pinnedJobs
    requires !IsTerminal(m.records[id].binding) && !IsExpired(m.records[id].binding, now)
    requires IsPinPlanFor(m, boot, m.records[id], job, now, extras, plan) && plan.Write?
    ensures Evolves(m, plan.next, now)
    ensures extras.attempt.Some? && IsTurnId(extras.attempt.value.0) ==>
              Known(plan.next, m.records[id].binding.targetKey, extras.attempt.value.0, now)
    ensures id in plan.next.records && job in plan.next.records[id].binding.pinnedJobs
    ensures job in plan.next.records[id].pinnedAt && plan.next.records[id].pinnedAt[job] == now
  {
    hide Evolves, MemOk, Holders, RecordOk, OpensAttempt, IsTurnId, IsJobId, CommitPlan,
      Committed, TargetKey.Parse, Known;
    var r := m.records[id];
    var meta := if extras.metaTurn.Some? && IsTurnId(extras.metaTurn.value)
                then Some(r.pinMeta[job := PinMeta(extras.metaTurn.value, boot.bootId, None)]) else None;
    var journal :| OpensAttempt(m, r.binding.targetKey, extras.attempt, boot.bootId, now, journal)
      && plan == CommitPlan(m, r, Pin(r.binding, job), now, Patch(Some(r.pinnedAt[job := now]), None, meta, journal));
    var patch := Patch(Some(r.pinnedAt[job := now]), None, meta, journal);
    RecordAt(m, id);
    KeyParses(m, id);
    OpensPatchKeeps(m, r.binding.targetKey, extras.attempt, boot.bootId, now, journal);
    OpensWhen(m, r.binding.targetKey, extras.attempt, boot.bootId, now, journal);
    PinnedOk(id, r, job, now, meta, journal);
    CommitEvolves(m, id, Pin(r.binding, job), now, patch);
    PinCommits(m, r, job, now, patch);
    if journal.Some? {
      SameJournalKnown(plan.next, WithJournal(m, journal), r.binding.targetKey, extras.attempt.value.0, now);
    }
  }

  lemma PinCommits(m: Mem, r: Record, job: Job, now: int, patch: Patch)
    requires job !in r.binding.pinnedJobs && !IsTerminal(r.binding) && patch.pinnedAt == Some(r.pinnedAt[job := now])
    ensures var plan := CommitPlan(m, r, Pin(r.binding, job), now, patch);
            plan.Write? && r.binding.bindingId in plan.next.records
            && plan.next.records[r.binding.bindingId] == Committed(r, Pin(r.binding, job), now, patch)
            && job in plan.next.records[r.binding.bindingId].binding.pinnedJobs
            && plan.next.records[r.binding.bindingId].pinnedAt == r.pinnedAt[job := now]
            && plan.next.attempts == WithJournal(m, patch.journal).attempts
            && plan.next.through == WithJournal(m, patch.journal).through
  {
    hide BlocksTarget;
    assert Pin(r.binding, job).pinnedJobs == r.binding.pinnedJobs + [job];
  }

  lemma SameJournalKnown(a: Mem, b: Mem, k: Key, turn: TurnId, at: int)
    requires a.attempts == b.attempts && a.through == b.through && Known(b, k, turn, at)
    ensures Known(a, k, turn, at)
  {
  }

  lemma OpensWhen(m: Mem, k: Key, turn: Option<(TurnId, Mode)>, bootId: string, now: int,
                  journal: Option<(Journal, Option<int>)>)
    requires OpensAttempt(m, k, turn, bootId, now, journal)
    ensures turn.Some? && IsTurnId(turn.value.0) <==> journal.Some?
  {
  }

  lemma RecordAt(m: Mem, id: Id)
    requires MemOk(m) && id in m.records
    ensures RecordOk(id, m.records[id]) && m.records[id].binding.bindingId == id
  {
  }

  lemma UnpinEvolves(m: Mem, id: Id, job: Job, now: int, exit: Option<(TurnId, Exit)>, plan: Plan)
    requires MemOk(m) && Holders(m, now) && IsUnpinPlan(m, id, job, now, exit, plan) && plan.Write?
    ensures Evolves(m, plan.next, now)
  {
    hide Evolves, MemOk, Holders, RecordOk, SettlesAttempt, TargetKey.Parse;
    var r := m.records[id];
    RecordAt(m, id);
    var last := if job in r.binding.pinnedJobs then Some(now) else r.lastUnpinAt;
    var journal :| SettlesAttempt(m, r.binding.targetKey, exit, now, journal)
      && plan == CommitPlan(m, r, Unpin(r.binding, job), now,
         Patch(Some(r.pinnedAt - {job}), Some(last), None, journal));
    SettlesPatchKeeps(m, r.binding.targetKey, exit, now, journal);
    UnpinnedOk(id, r, job, now, last, journal);
    CommitEvolves(m, id, Unpin(r.binding, job), now, Patch(Some(r.pinnedAt - {job}), Some(last), None, journal));
  }

  // ------------------------------------------------------------- single-field writes

  /** Replacing one record by one with the same binding leaves every holder in place. */
  lemma NoteChildEvolves(m: Mem, boot: Boot, id: Id, job: Job, child: Child, now: int)
    requires MemOk(m) && Holders(m, now) && NotePinChildPlan(m, boot, id, job, child).Write?
    ensures Evolves(m, NotePinChildPlan(m, boot, id, job, child).next, now)
  {
    hide MemOk, Holders, TargetKey.Parse, TargetKey.Make, IsBindingId, IsJobId, IsTurnId, JournalKeeps;
    RecordAt(m, id);
    var r := m.records[id];
    var r' := r.(pinMeta := r.pinMeta[job := r.pinMeta[job].(child := Some(child))]);
    var next := NotePinChildPlan(m, boot, id, job, child).next;
    assert next == m.(records := m.records[id := r']);
    assert RecordOk(id, r');
    SameJournalKeeps(m, next, now);
    CommitRest(m, id, r', now, None, next);
    SameBlockersHold(m, next, now);
  }

  lemma SameJournalKeeps(m: Mem, next: Mem, now: int)
    requires next.attempts == m.attempts && next.through == m.through
    ensures JournalKeeps(m, next, now) && PatchKeeps(m, None, now)
  {
  }

  lemma SameBlockersHold(m: Mem, next: Mem, now: int)
    requires Holders(m, now) && next.targets == m.targets && RecordsEvolve(m.records, next.records, now)
    ensures Holders(next, now)
  {
    forall id | Blocker(next.records, now, id) ensures next.records[id].binding.targetKey in next.targets
      && next.targets[next.records[id].binding.targetKey] == id
    {
      assert Blocker(m.records, now, id);
    }
  }

  /** Writing turns or the journal alone leaves the records as they are. */
  lemma LedgersEvolve(m: Mem, next: Mem, now: int)
    requires MemOk(m) && Holders(m, now) && TurnsOk(next.turns) && JournalOk(next.attempts)
             && JournalKeeps(m, next, now)
    requires next.records == m.records && next.targets == m.targets && next.floors == m.floors
    ensures Evolves(m, next, now)
  {
    hide TurnsOk, JournalOk, RecordOk, JournalKeeps;
  }

  lemma AppendedRowsOk(rows: seq<TurnRow>, row: TurnRow)
    requires rows == [] || RowsOk(rows)
    requires IsTurnId(row.turnId) && !HasTurn(rows, row.turnId)
    ensures RowsOk(LastTurns(rows + [row])) && HasTurn(LastTurns(rows + [row]), row.turnId)
  {
    hide IsTurnId;
    var all, kept := rows + [row], LastTurns(rows + [row]);
    assert forall i, j :: 0 <= i < j < |all| ==> all[i].turnId != all[j].turnId;
    assert kept[|kept| - 1] == row;
  }

  lemma RecordTurnEvolves(m: Mem, id: Id, turn: TurnId, result: Answer, now: int)
    requires MemOk(m) && Holders(m, now) && RecordTurnPlan(m, id, turn, result, now).Write?
    ensures Evolves(m, RecordTurnPlan(m, id, turn, result, now).next, now)
  {
    hide MemOk, Holders, IsTurnId, RowsOk, JournalKeeps, JournalOk, RecordsOk;
    MemParts(m);
    var next := RecordTurnPlan(m, id, turn, result, now).next;
    AppendedRowsOk(RowsOf(m.turns, id), TurnRow(turn, result, now));
    SameJournalKeeps(m, next, now);
    LedgersEvolve(m, next, now);
  }

  lemma BeginEvolves(m: Mem, k: Key, turn: TurnId, mode: Mode, bootId: string, now: int, next: Mem)
    requires MemOk(m) && Holders(m, now) && TargetKey.Parse(k).Some? && IsBootId(bootId) && IsTurnId(turn)
    requires Bounded(WithAttempt(m.attempts, k, turn, Attempt(bootId, now, mode, Pending)), m.through, now,
             next.attempts, next.through)
    requires next == m.(attempts := next.attempts, through := next.through)
    ensures Evolves(m, next, now) && Known(next, k, turn, now)
  {
    hide MemOk, Holders, TargetKey.Parse, Bounded, JournalOk, IsTurnId, JournalKeeps;
    MemParts(m);
    OpenedOk(m, k, turn, Attempt(bootId, now, mode, Pending), now, next.attempts, next.through);
    OpensKeeps(m, k, turn, Attempt(bootId, now, mode, Pending), now, next.attempts, next.through, next);
    LedgersEvolve(m, next, now);
  }

  lemma SettleEvolves(m: Mem, k: Key, turn: TurnId, exit: Exit, now: int, next: Mem)
    requires MemOk(m) && Holders(m, now) && Has(m.attempts, k, turn)
    requires Bounded(WithExit(m.attempts, k, turn, exit), m.through, now, next.attempts, next.through)
    requires next == m.(attempts := next.attempts, through := next.through)
    ensures Evolves(m, next, now)
  {
    hide MemOk, Holders, TargetKey.Parse, Bounded, JournalOk, JournalKeeps;
    MemParts(m);
    SettledOk(m, k, turn, exit, now, next.attempts, next.through);
    SettlesKeeps(m, k, turn, exit, now, next.attempts, next.through, next);
    LedgersEvolve(m, next, now);
  }
}
