/**
  The durable store file: what a persist writes, and what opening an arbitrary file makes of it.
  Fields of the wrong JSON type are `None`; everything else a file can hold is in the type.
*/
module StoreFile {
  import opened Wrappers
  import opened Ids
  import opened BindingStore
  import opened AttemptJournal
  import opened RegistryState
  import TargetKey

  datatype RawEntry =
    | NotAnEntry
    | Entry(binding: Option<Binding>, createdAt: Option<int>, updatedAt: Option<int>, terminalAt: Option<int>,
            lastUnpinAt: Option<int>, pinnedAt: map<Job, int>, pinMeta: map<Job, PinMeta>)

  datatype RawAttempts =
    | NoAttempts
    | NotAttempts
    | Attempts(targets: map<Key, Option<map<TurnId, Option<Attempt>>>>)

  datatype Root = Root(
    version: int, records: Option<seq<RawEntry>>, ledger: Option<map<Key, int>>,
    turns: map<Id, seq<Option<TurnRow>>>, attempts: RawAttempts, through: Option<int>)

  datatype File = Absent | Unreadable | Unparseable | Parsed(root: Root)

  datatype Degradation = StoreUnreadable | StoreCorrupt | UnsupportedVersion | InvalidEpochLedger | DuplicateTarget

  datatype Hydration = Fresh | Loaded(mem: Mem, dropped: nat) | Degraded(reason: Degradation)

  // ------------------------------------------------------------- reading records

  /** The jobs without repeats, each where it first stood. */
  function Deduped(jobs: seq<Job>): (pins: seq<Job>)
    ensures Distinct(pins) && forall j :: j in pins <==> j in jobs
    ensures Distinct(jobs) ==> pins == jobs
  {
    if jobs == [] then []
    else
      var front := jobs[..|jobs| - 1];
      var job := jobs[|jobs| - 1];
      assert jobs == front + [job];
      if job in Deduped(front) then Deduped(front) else Deduped(front) + [job]
  }

  /** A binding a store may hold: legal fields, and the key its provider and thread give. */
  predicate ValidBinding(b: Binding) {
    IsBindingId(b.bindingId) && TargetKey.Legal(b.provider, b.threadId)
    && b.targetKey == TargetKey.Make(b.provider, b.threadId)
    && b.epoch >= 1 && forall j :: j in b.pinnedJobs ==> IsJobId(j)
  }

  predicate ValidEntry(e: RawEntry) { e.Entry? && e.binding.Some? && ValidBinding(e.binding.value) }

  predicate ValidMeta(p: PinMeta) { IsTurnId(p.clientTurnId) && IsBootId(p.bootId) }

  function ReadMeta(p: PinMeta): PinMeta {
    if p.child.Some? && !IsChild(p.child.value) then p.(child := None) else p
  }

  function ReadEntry(e: RawEntry, now: int): Record
    requires ValidEntry(e)
  {
    var b := e.binding.value.(pinnedJobs := Deduped(e.binding.value.pinnedJobs));
    var createdAt := OrElse(e.createdAt, now);
    var updatedAt := OrElse(e.updatedAt, createdAt);
    Record(
      b, createdAt, updatedAt,
      if e.terminalAt.Some? then e.terminalAt else if IsTerminal(b) then Some(updatedAt) else None,
      e.lastUnpinAt,
      map job | job in b.pinnedJobs :: if job in e.pinnedAt then e.pinnedAt[job] else updatedAt,
      map job | job in b.pinnedJobs && job in e.pinMeta && ValidMeta(e.pinMeta[job]) :: ReadMeta(e.pinMeta[job]))
  }

  /** The records of the first entries: invalid ones and repeated ids are dropped. */
  function ReadRecords(es: seq<RawEntry>, now: int): Records {
    if es == [] then map[]
    else
      var before, e := ReadRecords(es[..|es| - 1], now), es[|es| - 1];
      if Keeps(before, e) then before[e.binding.value.bindingId := ReadEntry(e, now)] else before
  }

  predicate Keeps(before: Records, e: RawEntry) { ValidEntry(e) && e.binding.value.bindingId !in before }

  function DroppedOf(es: seq<RawEntry>, now: int): nat {
    if es == [] then 0
    else DroppedOf(es[..|es| - 1], now) + if Keeps(ReadRecords(es[..|es| - 1], now), es[|es| - 1]) then 0 else 1
  }

  // ------------------------------------------------------------- reading the rest

  predicate ValidLedger(ledger: map<Key, int>) {
    forall k :: k in ledger ==> TargetKey.Parse(k).Some? && ledger[k] >= 1
  }

  /** The floors, raised to the epochs of the records that are kept. */
  function FoldFloors(es: seq<RawEntry>, now: int, ledger: map<Key, int>): map<Key, int> {
    if es == [] then ledger
    else
      var floors, e := FoldFloors(es[..|es| - 1], now, ledger), es[|es| - 1];
      if Keeps(ReadRecords(es[..|es| - 1], now), e)
        && e.binding.value.epoch > FloorOf(floors, e.binding.value.targetKey)
      then floors[e.binding.value.targetKey := e.binding.value.epoch] else floors
  }

  function ReadRows(rows: seq<Option<TurnRow>>): (kept: seq<TurnRow>) {
    if rows == [] then []
    else
      var row := rows[|rows| - 1];
      ReadRows(rows[..|rows| - 1]) + if row.Some? && IsTurnId(row.value.turnId) then [row.value] else []
  }

  function ReadTurns(turns: map<Id, seq<Option<TurnRow>>>): map<Id, seq<TurnRow>> {
    map id | id in turns && ReadRows(turns[id]) != [] :: LastTurns(ReadRows(turns[id]))
  }

  predicate ValidAttempt(id: TurnId, a: Option<Attempt>) { IsTurnId(id) && a.Some? && IsBootId(a.value.bootId) }

  function ReadAttemptRows(rows: map<TurnId, Option<Attempt>>): Rows {
    map id | id in rows && ValidAttempt(id, rows[id]) :: rows[id].value
  }

  predicate ReadableTarget(k: Key, rows: Option<map<TurnId, Option<Attempt>>>) {
    TargetKey.Parse(k).Some? && rows.Some?
  }

  function ReadTarget(k: Key, rows: Option<map<TurnId, Option<Attempt>>>): Rows {
    if ReadableTarget(k, rows) then ReadAttemptRows(rows.value) else map[]
  }

  function ReadTargets(ts: map<Key, Option<map<TurnId, Option<Attempt>>>>): Journal
  {
    map k | k in ts :: ReadTarget(k, ts[k])
  }

  function NonEmpty(j: Journal): Journal { map k | k in j && j[k] != map[] :: j[k] }

  function ReadAttempts(a: RawAttempts): Journal {
    match a
    case Attempts(ts) => NonEmpty(ReadTargets(ts))
    case _ => map[]
  }

  ghost predicate TargetDamaged(k: Key, rows: Option<map<TurnId, Option<Attempt>>>) {
    !ReadableTarget(k, rows) || exists id :: id in rows.value && !ValidAttempt(id, rows.value[id])
  }

  /** Was any attempt of the file unreadable? Then nothing at or before `now` may read as never attempted. */
  ghost predicate AttemptsDamaged(a: RawAttempts) {
    match a
    case NoAttempts => false
    case NotAttempts => true
    case Attempts(ts) => exists k :: k in ts && TargetDamaged(k, ts[k])
  }

  /** What opening a file yields: only a provably absent file is a fresh start. */
  ghost predicate Hydrates(file: File, now: int, h: Hydration) {
    match file
    case Absent => h == Fresh
    case Unreadable => h == Degraded(StoreUnreadable)
    case Unparseable => h == Degraded(StoreCorrupt)
    case Parsed(root) =>
      if root.version != BINDING_STORE_VERSION then h == Degraded(UnsupportedVersion)
      else if root.records.None? then h == Degraded(StoreCorrupt)
      else if root.ledger.None? || !ValidLedger(root.ledger.value) then h == Degraded(InvalidEpochLedger)
      else
        var recs := ReadRecords(root.records.value, now);
        if !OneBlocker(recs, now) then h == Degraded(DuplicateTarget)
        else
          h.Loaded? && h.dropped == DroppedOf(root.records.value, now)
          && h.mem.records == recs && TargetsRebuilt(h.mem.targets, recs, now)
          && h.mem.floors == FoldFloors(root.records.value, now, root.ledger.value)
          && h.mem.turns == ReadTurns(root.turns)
          && h.mem.attempts == ReadAttempts(root.attempts)
          && h.mem.through == if AttemptsDamaged(root.attempts) then Some(now) else root.through
  }

  // ------------------------------------------------------------- writing

  function EntryOf(r: Record): RawEntry {
    Entry(Some(r.binding), Some(r.createdAt), Some(r.updatedAt), r.terminalAt, r.lastUnpinAt, r.pinnedAt, r.pinMeta)
  }

  function EntryId(e: RawEntry): Id { if e.Entry? && e.binding.Some? then e.binding.value.bindingId else "" }

  ghost predicate DistinctIds(es: seq<RawEntry>)
  {
    forall i, j :: 0 <= i < j < |es| ==> EntryId(es[i]) != EntryId(es[j])
  }

  /** `es` lists the records, each once, in some order. */
  ghost predicate Lists(es: seq<RawEntry>, recs: Records) {
    (forall i :: 0 <= i < |es| ==> Listed(es[i], recs))
    && DistinctIds(es)
    && (forall id :: id in recs ==> exists i :: 0 <= i < |es| && es[i] == EntryOf(recs[id]))
  }

  predicate Listed(e: RawEntry, recs: Records) {
    e.Entry? && e.binding.Some? && EntryId(e) in recs && e == EntryOf(recs[EntryId(e)])
  }

  function WriteRows(rows: seq<TurnRow>): seq<Option<TurnRow>>
  {
    seq(|rows|, i requires 0 <= i < |rows| => Some(rows[i]))
  }

  function WriteAttempts(j: Journal): RawAttempts {
    if j == map[] then NoAttempts
    else Attempts(map k | k in j :: Some(map id | id in j[k] :: Some(j[k][id])))
  }

  function WriteTurns(turns: map<Id, seq<TurnRow>>): map<Id, seq<Option<TurnRow>>> {
    map id | id in turns && turns[id] != [] :: WriteRows(turns[id])
  }

  ghost predicate Encodes(file: File, m: Mem) {
    file.Parsed? && file.root.records.Some? && Lists(file.root.records.value, m.records)
    && file == Parsed(Root(BINDING_STORE_VERSION, file.root.records, Some(m.floors), WriteTurns(m.turns),
       WriteAttempts(m.attempts), m.through))
  }

  /** The floors any writer left on disk, as far as they can be read. */
  function LedgerOf(file: File): map<Key, int> {
    if file.Parsed? && file.root.ledger.Some? then file.root.ledger.value else map[]
  }

  /** `max` of the two views, per target: never below either. */
  function MergeFloors(floors: map<Key, int>, ledger: map<Key, int>): (r: map<Key, int>)
    ensures forall k :: k in floors ==> k in r && r[k] >= floors[k]
    ensures forall k :: k in ledger && ledger[k] >= 1 ==> k in r && r[k] >= ledger[k]
  {
    map k | k in floors.Keys + ledger.Keys && (k in floors || ledger[k] >= 1) ::
      if k in ledger && ledger[k] >= 1 && ledger[k] > FloorOf(floors, k) then ledger[k] else FloorOf(floors, k)
  }

  /** Persist, then commit: a durable write of `next` with the disk floors merged in, or nothing at all. */
  ghost predicate Persisted(m: Mem, file: File, next: Mem, ok: bool, m': Mem, file': File) {
    if ok then m' == next.(floors := MergeFloors(next.floors, LedgerOf(file))) && Encodes(file', m')
    else m' == m && file' == file
  }
}
