/**
  What the binding registry holds in memory, what it writes to disk, and what each of its
  mutations commits. A mutation is described by a `Plan`: refuse, answer without writing, or
  write one next state.
*/
module RegistryState {
  import opened Wrappers
  import opened Ids
  import opened BindingStore
  import opened AttemptJournal
  import TargetKey

  const MAX_TURNS_PER_BINDING: nat := 64
  const IDLE_LEASE_YIELD_MS: int := 90000
  const PIN_ORPHAN_FENCE_MS: int := 31 * 60000
  const BINDING_STORE_VERSION: int := 1

  datatype Child = Child(pid: int, startMs: int)
  datatype PinMeta = PinMeta(clientTurnId: TurnId, bootId: string, child: Option<Child>)

  datatype Record = Record(
    binding: Binding, createdAt: int, updatedAt: int, terminalAt: Option<int>, lastUnpinAt: Option<int>,
    pinnedAt: map<Job, int>, pinMeta: map<Job, PinMeta>)

  /** A terminal answer, replayed verbatim: the route's own, or the one an orphan release leaves. */
  datatype Answer = Answered(body: string) | DeliveryUnknown(job: Job)
  datatype TurnRow = TurnRow(turnId: TurnId, result: Answer, at: int)

  type Records = map<Id, Record>

  datatype Mem = Mem(
    records: Records, targets: map<Key, Id>, floors: map<Key, int>, turns: map<Id, seq<TurnRow>>,
    attempts: Journal, through: Option<int>)

  const EmptyMem := Mem(map[], map[], map[], map[], map[], None)

  datatype Config = Config(retentionMs: int, stalePinMs: int, maxRetained: nat, maxEpochTargets: nat, maxPins: nat)

  /** This process: its boot id, when it opened the store, and the pins that were already on disk then. */
  datatype Boot = Boot(bootId: string, openedAt: int, inherited: set<(Id, Job)>)

  // ------------------------------------------------------------- identifiers

  predicate IsTurnId(s: string) {
    8 <= |s| <= 128 && IsAlnum(s[0]) && forall i :: 0 <= i < |s| ==> IsAlnum(s[i]) || s[i] in {'_', '-'}
  }

  predicate IsJobId(s: string) {
    1 <= |s| <= 128 && IsAlnum(s[0])
    && forall i :: 0 <= i < |s| ==> IsAlnum(s[i]) || s[i] in {'.', '_', ':', '@', '-'}
  }

  predicate IsBootId(s: string) { 1 <= |s| <= 128 }

  predicate IsChild(c: Child) { c.pid > 1 && c.startMs > 0 }

  // ------------------------------------------------------------- targets

  predicate Blocker(recs: Records, now: int, id: Id) { id in recs && BlocksTarget(recs[id].binding, now) }

  /** A holder map made afresh: it has the blocked targets and no others, each held by one of its blockers. */
  ghost predicate TargetsRebuilt(targets: map<Key, Id>, recs: Records, now: int) {
    (forall k :: k in targets ==> Blocker(recs, now, targets[k]) && recs[targets[k]].binding.targetKey == k)
    && (forall id :: Blocker(recs, now, id) ==> recs[id].binding.targetKey in targets)
  }

  /** A target is never claimed by two live bindings. */
  ghost predicate OneBlocker(recs: Records, now: int) {
    forall a, b ::
      Blocker(recs, now, a) && Blocker(recs, now, b) && recs[a].binding.targetKey == recs[b].binding.targetKey ==>
      a == b
  }

  /** Unpinned and alive, a holder refuses a new attach only while younger than the idle yield. */
  predicate HolderBlocksAttach(r: Record, now: int) {
    BlocksTarget(r.binding, now) && (IsPinned(r.binding) || now - r.updatedAt < IDLE_LEASE_YIELD_MS)
  }

  // ------------------------------------------------------------- plans

  datatype Plan =
    | Reject(reason: Rejection)
    | Keep(binding: Binding)
    | Write(next: Mem, binding: Binding)

  datatype Patch = Patch(
    pinnedAt: Option<map<Job, int>>, lastUnpinAt: Option<Option<int>>, pinMeta: Option<map<Job, PinMeta>>,
    journal: Option<(Journal, Option<int>)>)

  const NoPatch := Patch(None, None, None, None)

  function OrElse<T>(o: Option<T>, default: T): T { if o.Some? then o.value else default }

  /** The metadata of these jobs and no others. */
  function MetaOf(source: map<Job, PinMeta>, jobs: seq<Job>): map<Job, PinMeta> {
    map job | job in jobs && job in source :: source[job]
  }

  function Committed(prev: Record, b: Binding, now: int, patch: Patch): Record {
    var cleared := IsPinned(prev.binding) && !IsPinned(b);
    Record(
      b, prev.createdAt, now,
      if prev.terminalAt.None? && IsTerminal(b) then Some(now) else prev.terminalAt,
      OrElse(patch.lastUnpinAt, if cleared then Some(now) else prev.lastUnpinAt),
      OrElse(patch.pinnedAt, prev.pinnedAt),
      MetaOf(OrElse(patch.pinMeta, prev.pinMeta), b.pinnedJobs))
  }

  function Unclaimed(targets: map<Key, Id>, key: Key, id: Id): map<Key, Id> {
    if key in targets && targets[key] == id then targets - {key} else targets
  }

  function WithJournal(m: Mem, journal: Option<(Journal, Option<int>)>): Mem {
    match journal
    case None => m
    case Some((attempts, through)) => m.(attempts := attempts, through := if through.Some? then through else m.through)
  }

  predicate Unaltered(prev: Record, b: Binding, patch: Patch) {
    b.state == prev.binding.state && b.expiresAt == prev.binding.expiresAt && b.pinnedJobs == prev.binding.pinnedJobs
    && OrElse(patch.pinnedAt, prev.pinnedAt) == prev.pinnedAt && patch.journal.None?
  }

  /** The shared tail of every per-binding mutation; a change that changes nothing writes nothing. */
  function CommitPlan(m: Mem, prev: Record, b: Binding, now: int, patch: Patch): Plan {
    if Unaltered(prev, b, patch) then Keep(prev.binding)
    else
      var targets := if BlocksTarget(b, now) then m.targets[b.targetKey := b.bindingId]
                     else Unclaimed(m.targets, b.targetKey, b.bindingId);
      var next := m.(records := m.records[b.bindingId := Committed(prev, b, now, patch)], targets := targets);
      Write(WithJournal(next, patch.journal), b)
  }

  function Transition(m: Mem, id: Id, step: Binding -> Outcome, now: int): Plan {
    if id !in m.records then Reject(UnknownBinding)
    else
      match step(m.records[id].binding)
      case Refused(reason) => Reject(reason)
      case Bound(b) => CommitPlan(m, m.records[id], b, now, NoPatch)
  }

  function ActivatePlan(m: Mem, id: Id, now: int): Plan {
    Transition(m, id, b => if IsExpired(b, now) then Refused(BindingExpired) else Activate(b), now)
  }

  function BeginDetachPlan(m: Mem, id: Id, now: int): Plan { Transition(m, id, b => Bound(BeginDetach(b)), now) }

  function DetachPlan(m: Mem, id: Id, now: int): Plan { Transition(m, id, b => Detach(b), now) }

  function ForceDetachPlan(m: Mem, id: Id, now: int): Plan { Transition(m, id, b => Bound(ForceDetach(b)), now) }

  function RenewPlan(m: Mem, id: Id, ttlMs: int, now: int): Plan
  {
    Transition(m, id, b => Bound(Renew(b, ttlMs, now)), now)
  }

  // ------------------------------------------------------------- pins and the journal

  function WithAttempt(j: Journal, k: Key, id: TurnId, a: Attempt): Journal {
    j[k := (if k in j then j[k] else map[])[id := a]]
  }

  function WithExit(j: Journal, k: Key, id: TurnId, exit: Exit): Journal
    requires Has(j, k, id)
  {
    j[k := j[k][id := j[k][id].(exit := exit)]]
  }

  datatype PinExtras = PinExtras(metaTurn: Option<TurnId>, attempt: Option<(TurnId, Mode)>)

  /** The journal patch of a mutation that opens an attempt: what bounding the extended journal may leave. */
  ghost predicate OpensAttempt(m: Mem, k: Key, turn: Option<(TurnId, Mode)>, bootId: string, now: int,
                               journal: Option<(Journal, Option<int>)>) {
    if turn.None? || !IsTurnId(turn.value.0) then journal.None?
    else
      var begun := WithAttempt(m.attempts, k, turn.value.0, Attempt(bootId, now, turn.value.1, Pending));
      journal.Some? && Bounded(begun, m.through, now, journal.value.0, journal.value.1)
  }

  ghost predicate SettlesAttempt(m: Mem, k: Key, turn: Option<(TurnId, Exit)>, now: int,
                                 journal: Option<(Journal, Option<int>)>) {
    if turn.None? || !IsTurnId(turn.value.0) || !Has(m.attempts, k, turn.value.0) then journal.None?
    else
      var settled := WithExit(m.attempts, k, turn.value.0, turn.value.1);
      journal.Some? && Bounded(settled, m.through, now, journal.value.0, journal.value.1)
  }

  function PinRefusal(m: Mem, cfg: Config, id: Id, job: Job, now: int): Option<Plan> {
    if id !in m.records then Some(Reject(UnknownBinding)) else
    var b := m.records[id].binding;
    if !IsJobId(job) then Some(Reject(InvalidJobId))
    else if IsTerminal(b) then Some(Reject(TerminalState))
    else if IsExpired(b, now) then Some(Reject(BindingExpired))
    else if job in b.pinnedJobs then Some(Keep(b))
    else if |b.pinnedJobs| >= cfg.maxPins then Some(Reject(TooManyPins))
    else None
  }

  ghost predicate IsPinPlan(m: Mem, cfg: Config, boot: Boot, id: Id, job: Job, now: int,
                            extras: PinExtras, plan: Plan) {
    match PinRefusal(m, cfg, id, job, now)
    case Some(refusal) => plan == refusal
    case None => IsPinPlanFor(m, boot, m.records[id], job, now, extras, plan)
  }

  /** An admitted pin: the job, its age, the turn it carries and the attempt it opens, in one commit. */
  ghost predicate IsPinPlanFor(m: Mem, boot: Boot, r: Record, job: Job, now: int, extras: PinExtras, plan: Plan) {
    var meta := if extras.metaTurn.Some? && IsTurnId(extras.metaTurn.value)
                then Some(r.pinMeta[job := PinMeta(extras.metaTurn.value, boot.bootId, None)]) else None;
    exists journal :: OpensAttempt(m, r.binding.targetKey, extras.attempt, boot.bootId, now, journal)
      && plan == CommitPlan(m, r, Pin(r.binding, job), now, Patch(Some(r.pinnedAt[job := now]), None, meta, journal))
  }

  ghost predicate IsUnpinPlan(m: Mem, id: Id, job: Job, now: int, exit: Option<(TurnId, Exit)>, plan: Plan) {
    if id !in m.records then plan == Reject(UnknownBinding)
    else if !IsJobId(job) then plan == Reject(InvalidJobId)
    else
      var r := m.records[id];
      var last := if job in r.binding.pinnedJobs then Some(now) else r.lastUnpinAt;
      exists journal :: SettlesAttempt(m, r.binding.targetKey, exit, now, journal)
        && plan == CommitPlan(m, r, Unpin(r.binding, job), now,
           Patch(Some(r.pinnedAt - {job}), Some(last), None, journal))
  }

  function NotePinChildPlan(m: Mem, boot: Boot, id: Id, job: Job, child: Child): Plan {
    if id !in m.records then Reject(UnknownBinding) else
    var r := m.records[id];
    if !IsJobId(job) then Reject(InvalidJobId)
    else if !IsChild(child) || job !in r.pinMeta || job !in r.binding.pinnedJobs
      || (r.binding.bindingId, job) in boot.inherited
    then Keep(r.binding)
    else
      var noted := r.(pinMeta := r.pinMeta[job := r.pinMeta[job].(child := Some(child))]);
      Write(m.(records := m.records[r.binding.bindingId := noted]), r.binding)
  }

  // ------------------------------------------------------------- the turn ledger

  /** The newest 64 rows. */
  function LastTurns(rows: seq<TurnRow>): (kept: seq<TurnRow>)
    ensures |kept| <= MAX_TURNS_PER_BINDING
  {
    if |rows| <= MAX_TURNS_PER_BINDING then rows else rows[|rows| - MAX_TURNS_PER_BINDING..]
  }

  function RowsOf(turns: map<Id, seq<TurnRow>>, id: Id): seq<TurnRow> { if id in turns then turns[id] else [] }

  predicate HasTurn(rows: seq<TurnRow>, turn: TurnId) { exists i :: 0 <= i < |rows| && rows[i].turnId == turn }

  predicate SameTarget(m: Mem, id: Id, other: Id)
    requires id in m.records
  {
    other in m.records && m.records[other].binding.targetKey == m.records[id].binding.targetKey
  }

  /** Some binding that shares `id`'s target has a ledger row for the turn, or `id` itself has one. */
  ghost predicate TurnKnown(m: Mem, id: Id, turn: TurnId) {
    IsTurnId(turn)
    && (HasTurn(RowsOf(m.turns, id), turn)
        || (id in m.records && exists other :: SameTarget(m, id, other) && HasTurn(RowsOf(m.turns, other), turn)))
  }

  function RecordTurnPlan(m: Mem, id: Id, turn: TurnId, result: Answer, now: int): Plan {
    if id !in m.records then Reject(UnknownBinding)
    else if !IsTurnId(turn) then Reject(InvalidJobId)
    else
      var rows := RowsOf(m.turns, id);
      if HasTurn(rows, turn) then Keep(m.records[id].binding)
      else Write(m.(turns := m.turns[id := LastTurns(rows + [TurnRow(turn, result, now)])]), m.records[id].binding)
  }

  // ------------------------------------------------------------- attach

  predicate PreCreateOk(m: Mem, a: Attach) {
    TargetKey.Legal(a.provider, a.threadId) && IsBindingId(a.bindingId) && a.bindingId !in m.records
  }

  function PreCreateRefusal(m: Mem, a: Attach): Rejection {
    if !TargetKey.IsBindableProvider(a.provider) then InvalidProvider
    else if !TargetKey.IsValidThreadId(a.threadId) then InvalidThreadId
    else if !IsBindingId(a.bindingId) then InvalidBindingId
    else BindingIdInUse
  }

  function Superseded(r: Record, now: int): Record {
    r.(binding := ForceDetach(r.binding), updatedAt := now, terminalAt := if r.terminalAt.Some? then r.terminalAt
      else Some(now))
  }

  function Disposables(recs: Records, now: int): set<Id> { set id | id in recs && !BlocksTarget(recs[id].binding, now) }

  /** Which records an eviction may free: the oldest dead ones, as many as wanted or as there are. */
  ghost predicate OldestFreed(recs: Records, now: int, wanted: nat, freed: set<Id>) {
    var dead := Disposables(recs, now);
    freed <= dead
    && |freed| == (if |dead| < wanted then |dead| else wanted)
    && forall e, d :: e in freed && d in dead - freed ==> recs[e].updatedAt <= recs[d].updatedAt
  }

  function TargetsLeft(targets: map<Key, Id>, recs: Records, freed: set<Id>): map<Key, Id> {
    map k | k in targets
    && !(targets[k] in freed && targets[k] in recs && recs[targets[k]].binding.targetKey == k) :: targets[k]
  }

  function HolderOf(m: Mem, key: Key): Option<Record> {
    if key in m.targets && m.targets[key] in m.records then Some(m.records[m.targets[key]]) else None
  }

  function FloorOf(floors: map<Key, int>, key: Key): int { if key in floors then floors[key] else 0 }

  function FreshRecord(b: Binding, now: int): Record { Record(b, now, now, None, None, map[], map[]) }

  /** The records with an idle holder of the target detached by force. */
  function Yielded(m: Mem, key: Key, now: int): Records {
    match HolderOf(m, key)
    case Some(r) => if BlocksTarget(r.binding, now) then m.records[r.binding.bindingId := Superseded(r, now)]
      else m.records
    case None => m.records
  }

  ghost predicate IsCreatePlan(m: Mem, cfg: Config, a: Attach, now: int, plan: Plan) {
    var key := TargetKey.Make(a.provider, a.threadId);
    var holder := HolderOf(m, key);
    if holder.Some? && HolderBlocksAttach(holder.value, now) then plan == Reject(TargetBusy)
    else if key !in m.floors && |m.floors| >= cfg.maxEpochTargets then plan == Reject(EpochLedgerFull)
    else
      match Create(a, FloorOf(m.floors, key), now)
      case Refused(reason) => plan == Reject(reason)
      case Bound(b) => IsAttachPlan(m, cfg, b, now, plan)
  }

  /** Commit the new binding; at the cap, only after the oldest dead records have made room. */
  ghost predicate IsAttachPlan(m: Mem, cfg: Config, b: Binding, now: int, plan: Plan) {
    var recs := Yielded(m, b.targetKey, now);
    if |recs| < cfg.maxRetained then plan == Write(Attached(m, recs, m.targets, b, now), b)
    else exists freed ::
      OldestFreed(recs, now, |recs| - cfg.maxRetained + 1, freed) && plan == EvictPlan(m, cfg, recs, freed, b, now)
  }

  function EvictPlan(m: Mem, cfg: Config, recs: Records, freed: set<Id>, b: Binding, now: int): Plan {
    if freed == {} || |recs - freed| >= cfg.maxRetained then Reject(RegistryFull)
    else Write(Attached(m, recs - freed, TargetsLeft(m.targets - {b.targetKey}, recs, freed), b, now), b)
  }

  /** The new lease beside the records that stay; the floor rises to its epoch in the same write. */
  function Attached(m: Mem, recs: Records, targets: map<Key, Id>, b: Binding, now: int): Mem {
    var floor := FloorOf(m.floors, b.targetKey);
    m.(records := recs[b.bindingId := FreshRecord(b, now)],
       targets := targets[b.targetKey := b.bindingId],
       floors := m.floors[b.targetKey := if floor > b.epoch then floor else b.epoch])
  }

  // ------------------------------------------------------------- dead-boot pins

  function Filter(jobs: seq<Job>, keep: Job -> bool): (kept: seq<Job>)
    ensures forall j :: j in kept <==> j in jobs && keep(j)
    ensures |kept| <= |jobs|
    ensures Distinct(jobs) ==> Distinct(kept)
  {
    if jobs == [] then []
    else
      var rest := Filter(jobs[1..], keep);
      assert Distinct(jobs) ==> Distinct(jobs[1..]) && jobs[0] !in jobs[1..];
      if keep(jobs[0]) then [jobs[0]] + rest else rest
  }

  /** The instant from which a pin of a dead boot may go. */
  function OrphanReleaseAt(r: Record, boot: Boot, job: Job): int {
    var pinned := if job in r.pinnedAt then r.pinnedAt[job] else r.updatedAt;
    (if pinned < boot.openedAt then boot.openedAt else pinned) + PIN_ORPHAN_FENCE_MS
  }

  /** `running`: the children the probe still finds alive. */
  predicate OrphanChildRunning(r: Record, running: set<Child>, job: Job) {
    job in r.pinMeta && r.pinMeta[job].child.Some? && r.pinMeta[job].child.value in running
  }

  predicate PinDue(r: Record, id: Id, boot: Boot, running: set<Child>, now: int, job: Job) {
    (id, job) in boot.inherited && now >= OrphanReleaseAt(r, boot, job) && !OrphanChildRunning(r, running, job)
  }

  function DuePins(r: Record, id: Id, boot: Boot, running: set<Child>, now: int, only: Option<Key>): seq<Job> {
    if only.Some? && r.binding.targetKey != only.value then []
    else Filter(r.binding.pinnedJobs, job => PinDue(r, id, boot, running, now, job))
  }

  function Released(r: Record, due: seq<Job>, now: int): Record {
    if due == [] then r else
    var b := r.binding.(pinnedJobs := Filter(r.binding.pinnedJobs, job => job !in due));
    r.(binding := b,
       pinnedAt := map job | job in r.pinnedAt && job !in due :: r.pinnedAt[job],
       pinMeta := map job | job in r.pinMeta && job !in due :: r.pinMeta[job],
       lastUnpinAt := Some(now),
       terminalAt := if r.terminalAt.None? && IsTerminal(b) then Some(now) else r.terminalAt)
  }

  /** The ledger rows of one binding once each released pin that names an unknown turn has left its record. */
  ghost function ReleasedRows(m: Mem, id: Id, rows: seq<TurnRow>, due: seq<Job>, meta: map<Job, PinMeta>,
                              now: int): (r: seq<TurnRow>)
    decreases |due|
  {
    if due == [] then rows else
    var before := ReleasedRows(m, id, rows, due[..|due| - 1], meta, now);
    var job := due[|due| - 1];
    if job !in meta || TurnKnown(m, id, meta[job].clientTurnId) || HasTurn(before, meta[job].clientTurnId) then before
    else LastTurns(before + [TurnRow(meta[job].clientTurnId, DeliveryUnknown(job), now)])
  }

  /** Released pin `job` of binding `id` names this turn on this target. */
  predicate NamedBy(m: Mem, due: map<Id, seq<Job>>, id: Id, job: Job, k: Key, turn: TurnId) {
    id in due && id in m.records && m.records[id].binding.targetKey == k
    && job in due[id] && job in m.records[id].pinMeta && m.records[id].pinMeta[job].clientTurnId == turn
  }

  /** A pending attempt whose turn a released pin names. */
  ghost predicate Orphaned(m: Mem, due: map<Id, seq<Job>>, k: Key, turn: TurnId) {
    Has(m.attempts, k, turn) && m.attempts[k][turn].exit == Pending
    && exists id, job :: NamedBy(m, due, id, job, k, turn)
  }

  ghost function ReleasedJournal(m: Mem, due: map<Id, seq<Job>>): Journal {
    map k | k in m.attempts :: map turn | turn in m.attempts[k] ::
      if Orphaned(m, due, k, turn) then m.attempts[k][turn].(exit := UnknownExit) else m.attempts[k][turn]
  }

  function AllDue(m: Mem, boot: Boot, running: set<Child>, now: int, only: Option<Key>): map<Id, seq<Job>> {
    map id | id in m.records :: DuePins(m.records[id], id, boot, running, now, only)
  }

  ghost function ReleasedTurns(m: Mem, due: map<Id, seq<Job>>, now: int): map<Id, seq<TurnRow>> {
    map id | id in m.turns.Keys + m.records.Keys && RowsAfter(m, due, id, now) != [] :: RowsAfter(m, due, id, now)
  }

  ghost function RowsAfter(m: Mem, due: map<Id, seq<Job>>, id: Id, now: int): seq<TurnRow> {
    ReleasedRows(m, id, RowsOf(m.turns, id), RowsDue(due, id), MetaAt(m, id), now)
  }

  function RowsDue(due: map<Id, seq<Job>>, id: Id): seq<Job> { if id in due then due[id] else [] }

  function MetaAt(m: Mem, id: Id): map<Job, PinMeta> { if id in m.records then m.records[id].pinMeta else map[] }

  /** What releasing the due pins of dead boots commits. */
  ghost predicate IsReleased(m: Mem, due: map<Id, seq<Job>>, now: int, next: Mem) {
    next.records == (map id | id in m.records :: Released(m.records[id], RowsDue(due, id), now))
    && next.turns == ReleasedTurns(m, due, now)
    && next.attempts == ReleasedJournal(m, due)
    && TargetsRebuilt(next.targets, next.records, now)
    && next.floors == m.floors && next.through == m.through
  }

  predicate NothingDue(due: map<Id, seq<Job>>) { forall id :: id in due ==> due[id] == [] }

  // ------------------------------------------------------------- reap

  predicate PinStale(r: Record, stalePinMs: int, now: int, job: Job)
  {
    job in r.pinnedAt && now - r.pinnedAt[job] >= stalePinMs
  }

  function StalePins(r: Record, cfg: Config, now: int): seq<Job> {
    Filter(r.binding.pinnedJobs, job => PinStale(r, cfg.stalePinMs, now, job))
  }

  function Unleaked(r: Record, cfg: Config, now: int): Record {
    var stale := StalePins(r, cfg, now);
    if stale == [] then r else
    var b := r.binding.(pinnedJobs := Filter(r.binding.pinnedJobs, job => job !in stale));
    Record(b, r.createdAt, now, if r.terminalAt.None? && IsTerminal(b) then Some(now) else r.terminalAt, Some(now),
           map job | job in r.pinnedAt && job !in stale :: r.pinnedAt[job], MetaOf(r.pinMeta, b.pinnedJobs))
  }

  function Later(at: Option<int>, other: int): Option<int> {
    if at.None? || at.value < other then Some(other) else at
  }

  /** Since when the binding has had no claim on its target, if it has none. */
  function InertSince(r: Record, now: int): Option<int> {
    if BlocksTarget(r.binding, now) then None else
    var terminal := if IsTerminal(r.binding) then Some(OrElse(r.terminalAt, r.updatedAt)) else None;
    var expired := if IsExpired(r.binding, now) then Later(terminal, r.binding.expiresAt) else terminal;
    var unpinned := if r.lastUnpinAt.Some? then Later(expired, r.lastUnpinAt.value) else expired;
    Some(OrElse(unpinned, r.updatedAt))
  }

  predicate IsDisposable(r: Record, cfg: Config, now: int) {
    InertSince(r, now).Some? && now - InertSince(r, now).value >= cfg.retentionMs
  }

  predicate Reaps(m: Mem, cfg: Config, now: int, id: Id) {
    id in m.records && IsDisposable(Unleaked(m.records[id], cfg, now), cfg, now)
  }

  predicate NothingToReap(m: Mem, cfg: Config, now: int) {
    forall id :: id in m.records ==> StalePins(m.records[id], cfg, now) == [] && !Reaps(m, cfg, now, id)
  }

  ghost predicate IsReaped(m: Mem, cfg: Config, now: int, next: Mem) {
    next.records == (map id | id in m.records && !Reaps(m, cfg, now, id) :: Unleaked(m.records[id], cfg, now))
    && TargetsRebuilt(next.targets, next.records, now)
    && next.turns == (map id | id in m.turns && id in next.records :: m.turns[id])
    && next.floors == m.floors && next.attempts == m.attempts && next.through == m.through
  }
}
