/**
  Runs of the registry: any interleaving of its mutations, failed writes, crashes and reopenings
  under a clock that never goes back, and what holds in every state such a run reaches.
*/
module RegistryRuns {
  import opened Wrappers
  import opened Ids
  import opened BindingStore
  import opened AttemptJournal
  import opened RegistryState
  import opened StoreFile
  import opened Registry
  import opened RegistryReopen
  import opened RegistrySteps
  import opened RegistryReleases
  import TargetKey

  datatype Begun = Begun(key: Key, turn: TurnId, at: int)

  /**
    `mem` is the committed state: what the process holds while it is up, and what the store file says
    while it is down. `issued` and `begun` are history: every lease ever durably issued, in order, and
    every attempt ever durably begun. `own`: the pins this boot took.
  */
  datatype World = World(
    mem: Mem, disk: File, up: bool, boot: Boot, now: int, issued: seq<Binding>, begun: set<Begun>, own: set<(Id, Job)>)

  datatype Op =
    | OpAttach(a: Attach) | OpActivate(id: Id) | OpBeginDetach(id: Id) | OpDetach(id: Id) | OpForceDetach(id: Id)
    | OpRenew(id: Id, ttlMs: int) | OpPin(id: Id, job: Job, extras: PinExtras)
    | OpUnpin(id: Id, job: Job, settled: Option<(TurnId, Exit)>) | OpNotePinChild(id: Id, job: Job, child: Child)
    | OpRecordTurn(id: Id, turn: TurnId, result: Answer)
    | OpBeginAttempt(provider: string, threadId: string, turn: TurnId, mode: Mode)
    | OpSettleAttempt(provider: string, threadId: string, turn: TurnId, settledAs: Exit)
    | OpReleaseOrphans(running: set<Child>, only: Option<Key>) | OpReap
    | OpCrash | OpOpen(bootId: string)

  predicate Writes(plan: Plan, next: Mem) { plan.Write? && plan.next == next }

  /** What a mutation hands to the durable write. */
  ghost predicate Proposes(m: Mem, cfg: Config, boot: Boot, op: Op, t: int, next: Mem) {
    match op
    case OpAttach(a) =>
      PreCreateOk(m, a) && exists plan :: IsCreatePlan(m, cfg, a, t, plan) && Writes(plan, next)
    case OpActivate(id) => ActivatePlan(m, id, t).Write? && ActivatePlan(m, id, t).next == next
    case OpBeginDetach(id) => BeginDetachPlan(m, id, t).Write? && BeginDetachPlan(m, id, t).next == next
    case OpDetach(id) => DetachPlan(m, id, t).Write? && DetachPlan(m, id, t).next == next
    case OpForceDetach(id) => ForceDetachPlan(m, id, t).Write? && ForceDetachPlan(m, id, t).next == next
    case OpRenew(id, ttl) => RenewPlan(m, id, ttl, t).Write? && RenewPlan(m, id, ttl, t).next == next
    case OpPin(id, job, extras) =>
      exists plan :: IsPinPlan(m, cfg, boot, id, job, t, extras, plan) && Writes(plan, next)
    case OpUnpin(id, job, settled) =>
      exists plan :: IsUnpinPlan(m, id, job, t, settled, plan) && Writes(plan, next)
    case OpNotePinChild(id, job, child) =>
      NotePinChildPlan(m, boot, id, job, child).Write? && NotePinChildPlan(m, boot, id, job, child).next == next
    case OpRecordTurn(id, turn, result) =>
      RecordTurnPlan(m, id, turn, result, t).Write? && RecordTurnPlan(m, id, turn, result, t).next == next
    case OpBeginAttempt(p, th, turn, mode) =>
      TargetKey.Legal(p, th) && IsTurnId(turn)
      && Bounded(WithAttempt(m.attempts, TargetKey.Make(p, th), turn, Attempt(boot.bootId, t, mode, Pending)),
         m.through, t, next.attempts, next.through)
      && next == m.(attempts := next.attempts, through := next.through)
    case OpSettleAttempt(p, th, turn, settledAs) =>
      TargetKey.Legal(p, th) && Has(m.attempts, TargetKey.Make(p, th), turn)
      && Bounded(WithExit(m.attempts, TargetKey.Make(p, th), turn, settledAs), m.through, t,
         next.attempts, next.through)
      && next == m.(attempts := next.attempts, through := next.through)
    case OpReleaseOrphans(running, only) => IsReleased(m, AllDue(m, boot, running, t, only), t, next)
    case OpReap => IsReaped(m, cfg, t, next)
    case OpCrash => false
    case OpOpen(_) => false
  }

  /** The two things callers owe: a lapsed lease is not renewed, and a pin's job id is fresh to this boot. */
  predicate Allowed(m: Mem, boot: Boot, op: Op, t: int) {
    match op
    case OpRenew(id, _) => id in m.records ==> !IsExpired(m.records[id].binding, t)
    case OpPin(id, job, _) => (id, job) !in boot.inherited
    case _ => true
  }

  /** The attempt a mutation durably begins. */
  function Begins(m: Mem, op: Op, t: int): set<Begun> {
    match op
    case OpBeginAttempt(p, th, turn, _) => {Begun(TargetKey.Make(p, th), turn, t)}
    case OpPin(id, _, extras) =>
      if id in m.records && extras.attempt.Some? && IsTurnId(extras.attempt.value.0)
      then {Begun(m.records[id].binding.targetKey, extras.attempt.value.0, t)} else {}
    case _ => {}
  }

  function Issues(op: Op, next: Mem): seq<Binding> {
    if op.OpAttach? && op.a.bindingId in next.records then [next.records[op.a.bindingId].binding] else []
  }

  function Takes(op: Op): set<(Id, Job)> { if op.OpPin? then {(op.id, op.job)} else {} }

  function Committing(w: World, op: Op, t: int, mem: Mem, disk: File): World {
    World(mem, disk, true, w.boot, t, w.issued + Issues(op, mem), w.begun + Begins(w.mem, op, t), w.own + Takes(op))
  }

  ghost predicate Step(cfg: Config, w: World, op: Op, w': World) {
    w'.now >= w.now
    && match op
       case OpCrash => w' == w.(up := false, now := w'.now)
       case OpOpen(bootId) =>
         !w.up && IsBootId(bootId)
         && (exists h, degraded :: OpenedAs(w.disk, w'.now, h, w'.mem, degraded) && w'.up == degraded.None?)
         && w' == w.(mem := w'.mem, up := w'.up, now := w'.now, own := {}, boot :=
            Boot(bootId, w'.now, PinsOf(w'.mem.records)))
       case _ =>
         w.up
         && (w' == w.(now := w'.now)
             || (Allowed(w.mem, w.boot, op, w'.now)
                 && exists next :: Proposes(w.mem, cfg, w.boot, op, w'.now, next)
                      && Persisted(w.mem, w.disk, next, true, w'.mem, w'.disk)
                      && w' == Committing(w, op, w'.now, w'.mem, w'.disk)))
  }

  /** From `w`, this operation at `t` can lead to this memory and this file. */
  ghost predicate Leads(cfg: Config, w: World, op: Op, t: int, mem: Mem, disk: File) {
    exists w' :: Step(cfg, w, op, w') && w'.now == t && w'.mem == mem && w'.disk == disk
  }

  /** Carrying out a plan, refused, idempotent, failed or committed, is a step of a run. */
  lemma CallsAreSteps(cfg: Config, w: World, op: Op, plan: Plan, ok: bool, mem: Mem, disk: File, res: Outcome, t: int)
    requires w.up && w.now <= t && Allowed(w.mem, w.boot, op, t) && !op.OpCrash? && !op.OpOpen?
    requires Ran(true, plan, ok, w.mem, w.disk, mem, disk, res)
             && (plan.Write? ==> Proposes(w.mem, cfg, w.boot, op, t, plan.next))
    ensures Leads(cfg, w, op, t, mem, disk)
  {
    hide Proposes, Allowed, Leads, Encodes;
    if plan.Write? && ok {
      CommitIsAStep(cfg, w, op, t, plan.next, mem, disk);
    } else {
      NothingIsAStep(cfg, w, op, t);
    }
  }

  lemma NothingIsAStep(cfg: Config, w: World, op: Op, t: int)
    requires w.up && w.now <= t && !op.OpCrash? && !op.OpOpen?
    ensures Leads(cfg, w, op, t, w.mem, w.disk)
  {
    assert Step(cfg, w, op, w.(now := t));
  }

  lemma CommitIsAStep(cfg: Config, w: World, op: Op, t: int, next: Mem, mem: Mem, disk: File)
    requires w.up && w.now <= t && Allowed(w.mem, w.boot, op, t) && !op.OpCrash? && !op.OpOpen?
    requires Proposes(w.mem, cfg, w.boot, op, t, next) && Persisted(w.mem, w.disk, next, true, mem, disk)
    ensures Leads(cfg, w, op, t, mem, disk)
  {
    hide Proposes, Allowed, Persisted;
    assert Step(cfg, w, op, Committing(w, op, t, mem, disk));
  }

  /** So is each call whose contract has a shape of its own: attempts, releases and reaps. */
  lemma BeginIsAStep(cfg: Config, w: World, provider: string, threadId: string, turn: TurnId,
                     mode: Mode, t: int, ok: bool,
                     mem: Mem, disk: File, recorded: bool)
    requires w.up && w.now <= t
             && BeginRan(true, w.boot, provider, threadId, turn, mode, t, ok, w.mem, w.disk, mem, disk, recorded)
    ensures Leads(cfg, w, OpBeginAttempt(provider, threadId, turn, mode), t, mem, disk)
  {
    hide Leads, Persisted, Bounded, IsTurnId, TargetKey.Legal, TargetKey.Make;
    var op := OpBeginAttempt(provider, threadId, turn, mode);
    if recorded {
      var begun := WithAttempt(w.mem.attempts, TargetKey.Make(provider, threadId), turn,
        Attempt(w.boot.bootId, t, mode, Pending));
      var kept, high :| Bounded(begun, w.mem.through, t, kept, high)
        && Persisted(w.mem, w.disk, w.mem.(attempts := kept, through := high), true, mem, disk);
      CommitIsAStep(cfg, w, op, t, w.mem.(attempts := kept, through := high), mem, disk);
    } else {
      NothingIsAStep(cfg, w, op, t);
    }
  }

  lemma SettleIsAStep(cfg: Config, w: World, provider: string, threadId: string, turn: TurnId,
                      exit: Exit, t: int, ok: bool,
                      mem: Mem, disk: File, written: bool)
    requires w.up && w.now <= t
             && SettleRan(true, provider, threadId, turn, exit, t, ok, w.mem, w.disk, mem, disk, written)
    ensures Leads(cfg, w, OpSettleAttempt(provider, threadId, turn, exit), t, mem, disk)
  {
    hide Leads, Persisted, Bounded, IsTurnId, TargetKey.Legal, TargetKey.Make;
    var op := OpSettleAttempt(provider, threadId, turn, exit);
    if written && Has(w.mem.attempts, TargetKey.Make(provider, threadId), turn) {
      var settled := WithExit(w.mem.attempts, TargetKey.Make(provider, threadId), turn, exit);
      var kept, high :| Bounded(settled, w.mem.through, t, kept, high)
        && Persisted(w.mem, w.disk, w.mem.(attempts := kept, through := high), true, mem, disk);
      CommitIsAStep(cfg, w, op, t, w.mem.(attempts := kept, through := high), mem, disk);
    } else {
      NothingIsAStep(cfg, w, op, t);
    }
  }

  lemma ReleaseIsAStep(cfg: Config, w: World, running: set<Child>, only: Option<Key>, t: int,
                       ok: bool, mem: Mem, disk: File)
    requires w.up && w.now <= t
    requires ReleaseRan(w.mem, w.disk, AllDue(w.mem, w.boot, running, t, only), t, ok, mem, disk)
    ensures Leads(cfg, w, OpReleaseOrphans(running, only), t, mem, disk)
  {
    hide Leads, IsReleased, AllDue, NothingDue, Encodes;
    var op, due := OpReleaseOrphans(running, only), AllDue(w.mem, w.boot, running, t, only);
    if ok && !NothingDue(due) {
      var next :| IsReleased(w.mem, due, t, next) && Persisted(w.mem, w.disk, next, ok, mem, disk);
      CommitIsAStep(cfg, w, op, t, next, mem, disk);
    } else {
      NothingIsAStep(cfg, w, op, t);
    }
  }

  lemma ReapIsAStep(cfg: Config, w: World, t: int, ok: bool, mem: Mem, disk: File)
    requires w.up && w.now <= t && ReapRan(w.mem, w.disk, cfg, t, ok, mem, disk)
    ensures Leads(cfg, w, OpReap, t, mem, disk)
  {
    hide Leads, IsReaped, NothingToReap, Encodes;
    if ok && !NothingToReap(w.mem, cfg, t) {
      var next :| IsReaped(w.mem, cfg, t, next) && Persisted(w.mem, w.disk, next, ok, mem, disk);
      CommitIsAStep(cfg, w, OpReap, t, next, mem, disk);
    } else {
      NothingIsAStep(cfg, w, OpReap, t);
    }
  }

  /** A create is two steps: the lazy release of its target's dead-boot pins, then the attach. */
  lemma CreateIsTwoSteps(cfg: Config, w: World, a: Attach, t: int, running: set<Child>, enabled: bool,
                         okRelease: bool, ok: bool,
                         mid: Mem, midDisk: File, plan: Plan, mem: Mem, disk: File, res: Outcome)
    requires w.up && w.now <= t && PreCreateOk(w.mem, a)
    requires CreateRan(w.boot, cfg, a, t, running, enabled, okRelease, ok, w.mem, w.disk, mid,
             midDisk, plan, mem, disk, res)
    ensures exists between ::
              Step(cfg, w, OpReleaseOrphans(running, Some(TargetKey.Make(a.provider, a.threadId))), between)
              && between.mem == mid && between.disk == midDisk && Leads(cfg, between, OpAttach(a), t, mem, disk)
  {
    hide TargetKey.Make, TargetKey.Legal, AllDue, IsBindingId, ReleaseRan, IsCreatePlan, Ran;
    var only := Some(TargetKey.Make(a.provider, a.threadId));
    if enabled {
      ReleaseIsAStep(cfg, w, running, only, t, okRelease, mid, midDisk);
    } else {
      NothingIsAStep(cfg, w, OpReleaseOrphans(running, only), t);
    }
    var between :| Step(cfg, w, OpReleaseOrphans(running, only), between) && between.now == t && between.mem == mid
      && between.disk == midDisk;
    assert between.up && PreCreateOk(mid, a) by { ReleaseStepKeepsIds(cfg, w, running, only, between); }
    AttachIsAStep(cfg, between, a, t, ok, plan, mem, disk, res);
  }

  lemma ReleaseStepKeepsIds(cfg: Config, w: World, running: set<Child>, only: Option<Key>, w': World)
    requires Step(cfg, w, OpReleaseOrphans(running, only), w')
    ensures w'.up && w'.mem.records.Keys == w.mem.records.Keys
  {
    hide AllDue, Encodes, TargetsRebuilt, ReleasedTurns, ReleasedJournal, Released;
  }

  lemma AttachIsAStep(cfg: Config, w: World, a: Attach, t: int, ok: bool, plan: Plan, mem: Mem,
                      disk: File, res: Outcome)
    requires w.up && w.now <= t && PreCreateOk(w.mem, a) && IsCreatePlan(w.mem, cfg, a, t, plan)
    requires Ran(true, plan, ok, w.mem, w.disk, mem, disk, res)
    ensures Leads(cfg, w, OpAttach(a), t, mem, disk)
  {
    hide Leads, PreCreateOk, IsCreatePlan, Persisted;
    if plan.Write? { assert Writes(plan, plan.next); }
    CallsAreSteps(cfg, w, OpAttach(a), plan, ok, mem, disk, res, t);
  }

  ghost predicate IsRun(cfg: Config, ws: seq<World>, ops: seq<Op>) {
    |ws| == |ops| + 1
    && ws[0].mem == EmptyMem && ws[0].disk == Absent && !ws[0].up && ws[0].issued == []
    && ws[0].begun == {} && ws[0].own == {}
    && IsBootId(ws[0].boot.bootId)
    && forall i :: 0 <= i < |ops| ==> Step(cfg, ws[i], ops[i], ws[i + 1])
  }

  // ------------------------------------------------------------- the invariant

  /** Every record is a lease that was issued; epochs of one target strictly increase, up to its floor. */
  ghost predicate LeasesOk(m: Mem, issued: seq<Binding>) {
    (forall i :: 0 <= i < |issued| ==> 1 <= issued[i].epoch <= FloorOf(m.floors, issued[i].targetKey))
    && (forall i, j :: 0 <= i < j < |issued| && issued[i].targetKey == issued[j].targetKey ==>
       issued[i].epoch < issued[j].epoch)
    && (forall id :: id in m.records ==> exists i :: 0 <= i < |issued| && SameLease(issued[i], m.records[id].binding))
  }

  ghost predicate BegunKnown(m: Mem, begun: set<Begun>, now: int) {
    forall b :: b in begun ==> b.at <= now && Known(m, b.key, b.turn, b.at)
  }

  /** The store file says what memory says. */
  ghost predicate OnDisk(disk: File, m: Mem) {
    (disk == Absent && SameOnDisk(m, EmptyMem)) || exists written :: Encodes(disk, written) && SameOnDisk(written, m)
  }

  ghost predicate Inv(w: World) {
    MemOk(w.mem) && Holders(w.mem, w.now) && LeasesOk(w.mem, w.issued) && BegunKnown(w.mem, w.begun, w.now)
    && OnDisk(w.disk, w.mem) && w.own !! w.boot.inherited && IsBootId(w.boot.bootId)
  }

  // ------------------------------------------------------------- preservation

  lemma HoldersLater(m: Mem, now: int, later: int)
    requires Holders(m, now) && now <= later
    ensures Holders(m, later)
  {
    assert forall id :: Blocker(m.records, later, id) ==> Blocker(m.records, now, id);
  }

  /** With one writer the floors on disk are the floors in memory, so merging them changes nothing. */
  lemma MergeIsIdle(floors: map<Key, int>, ledger: map<Key, int>)
    requires forall k :: k in ledger ==> k in floors && floors[k] >= ledger[k]
    requires forall k :: k in floors ==> floors[k] >= 1
    ensures MergeFloors(floors, ledger) == floors
  {
  }

  lemma LedgerOnDisk(disk: File, m: Mem)
    requires OnDisk(disk, m)
    ensures LedgerOf(disk) == m.floors
  {
    hide Lists, CutRecords, WriteTurns, WriteAttempts;
  }

  lemma PersistedIs(m: Mem, disk: File, next: Mem, m': Mem, disk': File)
    requires OnDisk(disk, m) && Persisted(m, disk, next, true, m', disk')
    requires MemOk(next) && forall k :: k in m.floors ==> k in next.floors && next.floors[k] >= m.floors[k]
    ensures m' == next && OnDisk(disk', m')
  {
    hide Encodes, CutRecords, OnDisk, RecordsOk, TurnsOk, JournalOk, TargetKey.Parse;
    LedgerOnDisk(disk, m);
    MergeIsIdle(next.floors, m.floors);
    WrittenIsOnDisk(disk', m');
  }

  lemma WrittenIsOnDisk(disk: File, m: Mem)
    requires Encodes(disk, m)
    ensures OnDisk(disk, m)
  {
    hide Encodes, CutRecords;
    assert SameOnDisk(m, m);
  }

  lemma LeasesEvolve(m: Mem, next: Mem, issued: seq<Binding>, now: int)
    requires LeasesOk(m, issued) && RecordsEvolve(m.records, next.records, now) && next.floors == m.floors
    ensures LeasesOk(next, issued)
  {
    hide BlocksTarget;
    forall id | id in next.records
      ensures exists i :: 0 <= i < |issued| && SameLease(issued[i], next.records[id].binding)
    {
      var i :| 0 <= i < |issued| && SameLease(issued[i], m.records[id].binding);
      LeaseTransitive(issued[i], m.records[id].binding, next.records[id].binding);
    }
  }

  lemma LeaseTransitive(a: Binding, b: Binding, c: Binding)
    requires SameLease(a, b) && SameLease(b, c)
    ensures SameLease(a, c)
  {
  }

  /** What an ordinary mutation commits: the evolved state, with at most one attempt begun. */
  lemma EvolvedInv(w: World, op: Op, w': World, next: Mem)
    requires Inv(w) && !op.OpAttach? && Evolves(w.mem, next, w'.now) && w.now <= w'.now
    requires Persisted(w.mem, w.disk, next, true, w'.mem, w'.disk) && w' == Committing(w, op, w'.now, w'.mem, w'.disk)
    requires forall b :: b in Begins(w.mem, op, w'.now) ==> Known(next, b.key, b.turn, b.at)
    requires Allowed(w.mem, w.boot, op, w'.now)
    ensures Inv(w')
  {
    hide MemOk, Holders, LeasesOk, OnDisk, RecordsEvolve, Persisted, Known, IsTurnId;
    PersistedIs(w.mem, w.disk, next, w'.mem, w'.disk);
    LeasesEvolve(w.mem, next, w.issued, w'.now);
    assert w'.issued == w.issued;
    assert BegunKnown(w'.mem, w'.begun, w'.now);
  }

  lemma AttachedLeases(m: Mem, next: Mem, b: Binding, issued: seq<Binding>, now: int)
    requires LeasesOk(m, issued) && Attaches(m, next, b, now) && b.epoch >= 1
    ensures LeasesOk(next, issued + [b])
  {
    hide BlocksTarget, MemOk, Holders;
    var all := issued + [b];
    forall i | 0 <= i < |all| ensures 1 <= all[i].epoch <= FloorOf(next.floors, all[i].targetKey) {}
    forall id | id in next.records ensures exists i :: 0 <= i < |all| && SameLease(all[i], next.records[id].binding) {
      if id == b.bindingId {
        assert all[|issued|] == b && SameLease(b, b);
      } else {
        assert id in (next.records - {b.bindingId});
        var i :| 0 <= i < |issued| && SameLease(issued[i], m.records[id].binding);
        LeaseTransitive(issued[i], m.records[id].binding, next.records[id].binding);
        assert all[i] == issued[i];
      }
    }
  }

  lemma KnownSame(m: Mem, next: Mem, begun: set<Begun>, now: int, later: int)
    requires next.attempts == m.attempts && next.through == m.through && now <= later && BegunKnown(m, begun, now)
    ensures BegunKnown(next, begun, later)
  {
  }

  lemma AttachInv(cfg: Config, w: World, op: Op, w': World, next: Mem)
    requires Inv(w) && op.OpAttach? && w.now <= w'.now && Proposes(w.mem, cfg, w.boot, op, w'.now, next)
    requires Persisted(w.mem, w.disk, next, true, w'.mem, w'.disk) && w' == Committing(w, op, w'.now, w'.mem, w'.disk)
    ensures Inv(w')
  {
    hide MemOk, Holders, LeasesOk, OnDisk, Persisted, Known, IsCreatePlan, PreCreateOk, RecordsEvolve;
    HoldersLater(w.mem, w.now, w'.now);
    var plan :| IsCreatePlan(w.mem, cfg, op.a, w'.now, plan) && Writes(plan, next);
    AttachEvolves(w.mem, cfg, op.a, w'.now, plan);
    var b := plan.binding;
    FloorsPositive(w.mem, b.targetKey);
    PersistedIs(w.mem, w.disk, next, w'.mem, w'.disk);
    AttachedLeases(w.mem, next, b, w.issued, w'.now);
    assert w'.issued == w.issued + [b];
    KnownSame(w.mem, next, w.begun, w.now, w'.now);
  }

  /** Every mutation but an attach evolves the state, and the attempt it begins is on file. */
  lemma ProposalEvolves(cfg: Config, w: World, op: Op, t: int, next: Mem)
    requires MemOk(w.mem) && Holders(w.mem, t) && IsBootId(w.boot.bootId) && !op.OpAttach?
    requires Allowed(w.mem, w.boot, op, t) && Proposes(w.mem, cfg, w.boot, op, t, next)
    ensures Evolves(w.mem, next, t)
    ensures forall b :: b in Begins(w.mem, op, t) ==> Known(next, b.key, b.turn, b.at)
  {
    hide MemOk, Holders, Evolves, Known, IsPinPlan, IsUnpinPlan, IsReleased, IsReaped, CommitPlan, Bounded, IsTurnId,
      TargetKey.Parse, TargetKey.Legal, TargetKey.Make, NotePinChildPlan, RecordTurnPlan;
    match op
    case OpActivate(id) => ActivateEvolves(w.mem, id, t);
    case OpBeginDetach(id) => DetachesEvolve(w.mem, id, t);
    case OpDetach(id) => DetachesEvolve(w.mem, id, t);
    case OpForceDetach(id) => DetachesEvolve(w.mem, id, t);
    case OpRenew(id, ttl) => RenewEvolves(w.mem, id, ttl, t);
    case OpPin(id, job, extras) =>
      var plan :| IsPinPlan(w.mem, cfg, w.boot, id, job, t, extras, plan) && Writes(plan, next);
      PinEvolves(w.mem, cfg, w.boot, id, job, t, extras, plan);
    case OpUnpin(id, job, settled) =>
      var plan :| IsUnpinPlan(w.mem, id, job, t, settled, plan) && Writes(plan, next);
      UnpinEvolves(w.mem, id, job, t, settled, plan);
    case OpNotePinChild(id, job, child) => NoteChildEvolves(w.mem, w.boot, id, job, child, t);
    case OpRecordTurn(id, turn, result) => RecordTurnEvolves(w.mem, id, turn, result, t);
    case OpBeginAttempt(p, th, turn, mode) =>
      TargetKey.ParseExact(TargetKey.Make(p, th), p, th);
      BeginEvolves(w.mem, TargetKey.Make(p, th), turn, mode, w.boot.bootId, t, next);
    case OpSettleAttempt(p, th, turn, settledAs) =>
      SettleEvolves(w.mem, TargetKey.Make(p, th), turn, settledAs, t, next);
    case OpReleaseOrphans(running, only) => ReleaseEvolves(w.mem, AllDue(w.mem, w.boot, running, t, only), t, next);
    case OpReap => ReapEvolves(w.mem, cfg, t, next);
  }

  /** Two states a file cannot tell apart are equally well-formed, blocked and issued. */
  lemma SameOnDiskOk(a: Mem, b: Mem, now: int)
    requires SameOnDisk(a, b) && MemOk(b) && Holders(b, now)
    ensures MemOk(a) && Holders(a.(targets := b.targets), now)
  {
    hide TurnsOk, JournalOk, TargetKey.Parse, ValidBinding, MetaOk, BlocksTarget, CutRecords;
    forall id | id in a.records
      ensures id in b.records && a.records[id].binding == b.records[id].binding && RecordOk(id, a.records[id])
    {
      SameCut(a.records, b.records, id);
      assert RecordOk(id, b.records[id]);
    }
    assert forall id :: Blocker(a.records, now, id) ==> Blocker(b.records, now, id);
  }

  lemma SameCut(a: Records, b: Records, id: Id)
    requires CutRecords(a) == CutRecords(b) && id in a
    ensures id in b && a[id] == b[id].(pinnedAt := a[id].pinnedAt)
    ensures forall j :: j in a[id].binding.pinnedJobs ==> (j in a[id].pinnedAt <==> j in b[id].pinnedAt)
  {
    assert id in CutRecords(a) && CutRecords(a)[id] == CutRecord(a[id]);
    assert CutRecords(b)[id] == CutRecord(b[id]);
    assert CutRecord(a[id]).pinnedAt == CutRecord(b[id]).pinnedAt;
    assert a[id].binding == b[id].binding;
    forall j | j in a[id].binding.pinnedJobs ensures j in a[id].pinnedAt <==> j in b[id].pinnedAt {
      assert j in a[id].pinnedAt <==> j in CutRecord(a[id]).pinnedAt;
      assert j in b[id].pinnedAt <==> j in CutRecord(b[id]).pinnedAt;
    }
  }

  /** Opening a store this registry wrote: loaded, nothing dropped, the same state as far as a file can tell. */
  lemma OpenRestores(w: World, t: int, h: Hydration)
    requires Inv(w) && w.now <= t && Hydrates(w.disk, t, h)
    ensures h == Fresh <==> w.disk == Absent
    ensures !h.Degraded? && (h.Loaded? ==> h.dropped == 0)
    ensures var mem := if h.Loaded? then h.mem else EmptyMem;
            SameOnDisk(mem, w.mem) && MemOk(mem) && Holders(mem, t)
  {
    hide MemOk, Holders, LeasesOk, BegunKnown, Hydrates, SameOnDisk;
    HoldersLater(w.mem, w.now, t);
    FreshIffAbsent(w.disk, t, h);
    if w.disk == Absent {
      SameIsSymmetric(w.mem, EmptyMem);
      EmptyIsOk(t);
    } else {
      var written :| Encodes(w.disk, written) && SameOnDisk(written, w.mem);
      SameOnDiskOk(written, w.mem, t);
      RetargetedEncodes(w.disk, written, w.mem.targets);
      var held := written.(targets := w.mem.targets);
      assert MemOk(held) by { RetargetedOk(written, w.mem.targets); }
      ReopenUndoesPersist(held, w.disk, t, h);
      SameChain(h.mem, held, written, w.mem);
      assert MemOk(h.mem) by { SameIsSymmetric(h.mem, w.mem); SameOnDiskOk(h.mem, w.mem, t); }
    }
  }

  lemma FreshIffAbsent(file: File, t: int, h: Hydration)
    requires Hydrates(file, t, h)
    ensures h == Fresh <==> file == Absent
  {
  }

  lemma RetargetedEncodes(disk: File, m: Mem, targets: map<Key, Id>)
    requires Encodes(disk, m)
    ensures Encodes(disk, m.(targets := targets))
  {
    hide Lists, WriteTurns, WriteAttempts;
  }

  lemma RetargetedOk(m: Mem, targets: map<Key, Id>)
    requires MemOk(m)
    ensures MemOk(m.(targets := targets))
  {
    hide RecordsOk, TurnsOk, JournalOk, ValidLedger;
  }

  lemma EmptyIsOk(now: int)
    ensures MemOk(EmptyMem) && Holders(EmptyMem, now)
  {
  }

  lemma SameIsSymmetric(a: Mem, b: Mem)
    requires SameOnDisk(a, b)
    ensures SameOnDisk(b, a)
  {
  }

  lemma SameChain(a: Mem, b: Mem, c: Mem, d: Mem)
    requires SameOnDisk(a, b) && b == c.(targets := b.targets) && SameOnDisk(c, d)
    ensures SameOnDisk(a, d)
  {
    hide CutRecords;
  }

  lemma OpenInv(w: World, op: Op, w': World, cfg: Config)
    requires Inv(w) && op.OpOpen? && Step(cfg, w, op, w')
    ensures Inv(w') && w'.up && SameOnDisk(w'.mem, w.mem)
  {
    hide MemOk, Holders, LeasesOk, BegunKnown, OnDisk, Hydrates, SameOnDisk;
    var h, degraded :| OpenedAs(w.disk, w'.now, h, w'.mem, degraded) && w'.up == degraded.None?;
    OpenRestores(w, w'.now, h);
    SameHistory(w'.mem, w.mem, w.issued, w.begun, w.now, w'.now);
    SameDisk(w.disk, w'.mem, w.mem);
  }

  lemma SameHistory(a: Mem, b: Mem, issued: seq<Binding>, begun: set<Begun>, now: int, later: int)
    requires SameOnDisk(a, b) && LeasesOk(b, issued) && BegunKnown(b, begun, now) && now <= later
    ensures LeasesOk(a, issued) && BegunKnown(a, begun, later)
  {
    forall id | id in a.records ensures exists i :: 0 <= i < |issued| && SameLease(issued[i], a.records[id].binding) {
      SameCut(a.records, b.records, id);
      var i :| 0 <= i < |issued| && SameLease(issued[i], b.records[id].binding);
      assert SameLease(issued[i], a.records[id].binding);
    }
  }

  lemma SameDisk(disk: File, a: Mem, b: Mem)
    requires OnDisk(disk, b) && SameOnDisk(a, b)
    ensures OnDisk(disk, a)
  {
    hide Encodes, CutRecords;
    if disk != Absent {
      var written :| Encodes(disk, written) && SameOnDisk(written, b);
      assert SameOnDisk(written, a);
    } else if exists written :: Encodes(disk, written) && SameOnDisk(written, b) {
      NeverEncodesAbsent();
    }
  }

  lemma NeverEncodesAbsent()
    ensures forall m :: !Encodes(Absent, m)
  {
  }

  lemma IdleInv(w: World, t: int, up: bool)
    requires Inv(w) && w.now <= t
    ensures Inv(w.(now := t, up := up))
  {
    hide MemOk, LeasesOk, OnDisk, Known;
    HoldersLater(w.mem, w.now, t);
  }

  lemma StepInv(cfg: Config, w: World, op: Op, w': World)
    requires Inv(w) && Step(cfg, w, op, w')
    ensures Inv(w')
  {
    hide Inv, Proposes, Persisted, Evolves, Allowed, OpenedAs, Committing, Begins, Known;
    if op.OpCrash? {
      IdleInv(w, w'.now, false);
    } else if op.OpOpen? {
      OpenInv(w, op, w', cfg);
    } else if w' == w.(now := w'.now) {
      IdleInv(w, w'.now, w.up);
    } else {
      var next :| Proposes(w.mem, cfg, w.boot, op, w'.now, next)
        && Persisted(w.mem, w.disk, next, true, w'.mem, w'.disk) && w' == Committing(w, op, w'.now, w'.mem, w'.disk);
      if op.OpAttach? {
        AttachInv(cfg, w, op, w', next);
      } else {
        InvParts(w, w'.now);
        ProposalEvolves(cfg, w, op, w'.now, next);
        EvolvedInv(w, op, w', next);
      }
    }
  }

  lemma InvParts(w: World, t: int)
    requires Inv(w) && w.now <= t
    ensures MemOk(w.mem) && Holders(w.mem, t) && IsBootId(w.boot.bootId)
  {
    hide MemOk, LeasesOk, OnDisk, BegunKnown;
    HoldersLater(w.mem, w.now, t);
  }

  lemma {:induction false} RunInv(cfg: Config, ws: seq<World>, ops: seq<Op>, i: nat)
    requires IsRun(cfg, ws, ops) && i < |ws|
    ensures Inv(ws[i])
  {
    hide Step, Inv;
    if i == 0 {
      InitInv(ws[0]);
    } else {
      RunInv(cfg, ws, ops, i - 1);
      StepInv(cfg, ws[i - 1], ops[i - 1], ws[i]);
    }
  }

  lemma InitInv(w: World)
    requires w.mem == EmptyMem && w.disk == Absent && w.issued == [] && w.begun == {} && w.own == {}
             && IsBootId(w.boot.bootId)
    ensures Inv(w)
  {
    EmptyIsOk(w.now);
  }
}
