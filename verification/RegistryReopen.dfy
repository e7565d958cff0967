/**
  Reopening undoes persisting: what a store file written by this registry hydrates to.
*/
module RegistryReopen {
  import opened Wrappers
  import opened Ids
  import opened BindingStore
  import opened AttemptJournal
  import opened RegistryState
  import opened StoreFile
  import TargetKey

  // ------------------------------------------------------------- well-formed states

  predicate MetaOk(p: PinMeta) { ValidMeta(p) && (p.child.Some? ==> IsChild(p.child.value)) }

  predicate RecordOk(id: Id, r: Record) {
    ValidBinding(r.binding) && r.binding.bindingId == id && Distinct(r.binding.pinnedJobs)
    && (forall j :: j in r.binding.pinnedJobs ==> j in r.pinnedAt)
    && (forall j :: j in r.pinMeta ==> j in r.binding.pinnedJobs && MetaOk(r.pinMeta[j]))
    && (IsTerminal(r.binding) ==> r.terminalAt.Some?)
  }

  predicate RecordsOk(recs: Records) { forall id :: id in recs ==> RecordOk(id, recs[id]) }

  predicate FloorsOk(m: Mem) {
    ValidLedger(m.floors)
    && forall id :: id in m.records ==>
       m.records[id].binding.epoch <= FloorOf(m.floors, m.records[id].binding.targetKey)
  }

  predicate RowsOk(rows: seq<TurnRow>) {
    1 <= |rows| <= MAX_TURNS_PER_BINDING
    && (forall i :: 0 <= i < |rows| ==> IsTurnId(rows[i].turnId))
    && (forall i, j :: 0 <= i < j < |rows| ==> rows[i].turnId != rows[j].turnId)
  }

  predicate TurnsOk(turns: map<Id, seq<TurnRow>>) { forall id :: id in turns ==> RowsOk(turns[id]) }

  ghost predicate JournalOk(j: Journal) {
    WithinBounds(j)
    && (forall k :: k in j ==> TargetKey.Parse(k).Some?)
    && (forall k, id :: Has(j, k, id) ==> IsTurnId(id) && IsBootId(j[k][id].bootId))
  }

  ghost predicate MemOk(m: Mem) { RecordsOk(m.records) && FloorsOk(m) && TurnsOk(m.turns) && JournalOk(m.attempts) }

  /** Every live binding is the one `targets` names for its target. */
  ghost predicate Holders(m: Mem, now: int) {
    forall id :: Blocker(m.records, now, id) ==>
      m.records[id].binding.targetKey in m.targets && m.targets[m.records[id].binding.targetKey] == id
  }

  // ------------------------------------------------------------- what survives a reopen

  /** The record with the ages of pins it no longer holds forgotten. */
  function CutRecord(r: Record): Record {
    r.(pinnedAt := map j | j in r.pinnedAt && j in r.binding.pinnedJobs :: r.pinnedAt[j])
  }

  function CutRecords(recs: Records): Records { map id | id in recs :: CutRecord(recs[id]) }

  /** Two states a store file cannot tell apart. */
  predicate SameOnDisk(a: Mem, b: Mem) {
    CutRecords(a.records) == CutRecords(b.records) && a.floors == b.floors && a.turns == b.turns
    && a.attempts == b.attempts && a.through == b.through
  }

  lemma ReadBack(id: Id, r: Record, now: int)
    requires RecordOk(id, r)
    ensures ValidEntry(EntryOf(r)) && ReadEntry(EntryOf(r), now) == CutRecord(r)
  {
    var read := ReadEntry(EntryOf(r), now);
    assert read.binding == r.binding;
    assert read.pinMeta == r.pinMeta;
    assert read.pinnedAt == CutRecord(r).pinnedAt;
  }

  ghost function CutSome(recs: Records, ids: set<Id>): Records
  {
    map id | id in recs && id in ids :: CutRecord(recs[id])
  }

  lemma CutOneMore(recs: Records, ids: set<Id>, id: Id)
    requires id in recs
    ensures CutSome(recs, ids + {id}) == CutSome(recs, ids)[id := CutRecord(recs[id])]
  {
  }

  ghost function IdsOf(es: seq<RawEntry>): set<Id> { set i | 0 <= i < |es| :: EntryId(es[i]) }

  ghost predicate AllListed(es: seq<RawEntry>, recs: Records) {
    DistinctIds(es) && forall i :: 0 <= i < |es| ==> Listed(es[i], recs)
  }

  lemma LastIsNew(es: seq<RawEntry>)
    requires es != [] && DistinctIds(es)
    ensures IdsOf(es) == IdsOf(es[..|es| - 1]) + {EntryId(es[|es| - 1])}
            && EntryId(es[|es| - 1]) !in IdsOf(es[..|es| - 1])
  {
    var front := es[..|es| - 1];
    assert forall i :: 0 <= i < |front| ==> es[i] == front[i];
  }

  /** Reading a listing back yields exactly the listed records, and keeps every entry. */
  lemma {:induction false} ReadListing(es: seq<RawEntry>, recs: Records, now: int)
    requires RecordsOk(recs) && AllListed(es, recs)
    ensures ReadRecords(es, now) == CutSome(recs, IdsOf(es))
    ensures es != [] ==> Keeps(ReadRecords(es[..|es| - 1], now), es[|es| - 1])
  {
    if es == [] {
      assert IdsOf(es) == {};
    } else {
      var front, e := es[..|es| - 1], es[|es| - 1];
      assert Listed(e, recs);
      assert AllListed(front, recs) by { assert forall i :: 0 <= i < |front| ==> es[i] == front[i]; }
      ReadListing(front, recs, now);
      ReadBack(EntryId(e), recs[EntryId(e)], now);
      LastIsNew(es);
      CutOneMore(recs, IdsOf(front), EntryId(e));
    }
  }

  /** ... so nothing is dropped and no floor moves. */
  lemma {:induction false} ListingKept(es: seq<RawEntry>, recs: Records, now: int, ledger: map<Key, int>)
    requires RecordsOk(recs) && AllListed(es, recs)
    requires forall id :: id in recs ==> recs[id].binding.epoch <= FloorOf(ledger, recs[id].binding.targetKey)
    ensures DroppedOf(es, now) == 0 && FoldFloors(es, now, ledger) == ledger
  {
    if es != [] {
      var front := es[..|es| - 1];
      assert AllListed(front, recs) by { assert forall i :: 0 <= i < |front| ==> es[i] == front[i]; }
      ListingKept(front, recs, now, ledger);
      ReadListing(es, recs, now);
      assert Listed(es[|es| - 1], recs);
    }
  }

  lemma AllIdsListed(es: seq<RawEntry>, recs: Records)
    requires RecordsOk(recs) && Lists(es, recs)
    ensures forall id :: id in recs ==> id in IdsOf(es)
  {
    forall id | id in recs ensures id in IdsOf(es) {
      var i :| 0 <= i < |es| && es[i] == EntryOf(recs[id]);
      assert RecordOk(id, recs[id]) && EntryId(es[i]) == id;
    }
  }

  lemma CutAll(recs: Records, ids: set<Id>)
    requires forall id :: id in recs ==> id in ids
    ensures CutSome(recs, ids) == CutRecords(recs)
  {
  }

  lemma ReadWholeListing(es: seq<RawEntry>, m: Mem, now: int)
    requires RecordsOk(m.records) && FloorsOk(m) && Lists(es, m.records)
    ensures ReadRecords(es, now) == CutRecords(m.records) && DroppedOf(es, now) == 0
            && FoldFloors(es, now, m.floors) == m.floors
  {
    ReadListing(es, m.records, now);
    ListingKept(es, m.records, now, m.floors);
    AllIdsListed(es, m.records);
    CutAll(m.records, IdsOf(es));
  }

  lemma {:induction false} ReadWrittenRows(rows: seq<TurnRow>)
    requires forall i :: 0 <= i < |rows| ==> IsTurnId(rows[i].turnId)
    ensures ReadRows(WriteRows(rows)) == rows
  {
    if rows != [] {
      var front := rows[..|rows| - 1];
      ReadWrittenRows(front);
      assert WriteRows(rows)[..|rows| - 1] == WriteRows(front);
      assert rows == front + [rows[|rows| - 1]];
    }
  }

  lemma ReadWrittenTurns(turns: map<Id, seq<TurnRow>>)
    requires TurnsOk(turns)
    ensures ReadTurns(WriteTurns(turns)) == turns
  {
    var raw := WriteTurns(turns);
    forall id | id in turns ensures id in raw && ReadRows(raw[id]) == turns[id] {
      assert RowsOk(turns[id]);
      ReadWrittenRows(turns[id]);
    }
    assert ReadTurns(raw).Keys == turns.Keys;
  }

  function WrittenRows(rows: Rows): map<TurnId, Option<Attempt>> { map id | id in rows :: Some(rows[id]) }

  ghost predicate TargetOk(k: Key, rows: Rows) {
    TargetKey.Parse(k).Some? && rows != map[] && forall id :: id in rows ==> IsTurnId(id) && IsBootId(rows[id].bootId)
  }

  lemma TargetsAreOk(j: Journal)
    requires JournalOk(j)
    ensures forall k :: k in j ==> TargetOk(k, j[k])
  {
    forall k | k in j ensures TargetOk(k, j[k]) {
      assert forall id :: id in j[k] ==> Has(j, k, id);
    }
  }

  lemma TargetReadsBack(k: Key, rows: Rows)
    requires TargetOk(k, rows)
    ensures ReadTarget(k, Some(WrittenRows(rows))) == rows && !TargetDamaged(k, Some(WrittenRows(rows)))
  {
    assert ReadAttemptRows(WrittenRows(rows)) == rows;
  }

  lemma ReadWrittenAttempts(j: Journal)
    requires JournalOk(j)
    ensures ReadAttempts(WriteAttempts(j)) == j
    ensures !AttemptsDamaged(WriteAttempts(j))
  {
    hide TargetKey.Parse;
    if j != map[] {
      TargetsAreOk(j);
      ReadTargetsBack(j, WriteAttempts(j).targets);
    }
  }

  lemma ReadTargetsBack(j: Journal, ts: map<Key, Option<map<TurnId, Option<Attempt>>>>)
    requires ts.Keys == j.Keys
    requires forall k :: k in j ==> TargetOk(k, j[k]) && ts[k] == Some(WrittenRows(j[k]))
    ensures NonEmpty(ReadTargets(ts)) == j
    ensures !AttemptsDamaged(Attempts(ts))
  {
    hide TargetKey.Parse;
    var read := ReadTargets(ts);
    forall k | k in j ensures read[k] == j[k] && !TargetDamaged(k, ts[k]) { TargetReadsBack(k, j[k]); }
  }

  lemma CutBlocks(recs: Records, now: int)
    ensures forall id :: Blocker(CutRecords(recs), now, id) <==> Blocker(recs, now, id)
  {
  }

  /**
    Reopen undoes persist: the store file of a well-formed state in which every live binding holds its
    target opens as `loaded`, with nothing dropped, the same floors, turns and attempts, the same records
    but for the ages of pins they no longer hold, and exactly the blocking bindings holding their targets.
  */
  lemma ReopenUndoesPersist(m: Mem, file: File, now: int, h: Hydration)
    requires MemOk(m) && Holders(m, now) && Encodes(file, m) && Hydrates(file, now, h)
    ensures h.Loaded? && h.dropped == 0 && SameOnDisk(h.mem, m)
    ensures h.mem.records == CutRecords(m.records)
    ensures TargetsRebuilt(h.mem.targets, m.records, now) && Holders(h.mem, now)
    ensures forall k :: k in h.mem.targets ==> k in m.targets && m.targets[k] == h.mem.targets[k]
  {
    var es := file.root.records.value;
    ReadWholeListing(es, m, now);
    ReadWrittenTurns(m.turns);
    ReadWrittenAttempts(m.attempts);
    CutBlocks(m.records, now);
    var recs := CutRecords(m.records);
    assert OneBlocker(recs, now) by {
      forall a, b | Blocker(recs, now, a) && Blocker(recs, now, b)
        && recs[a].binding.targetKey == recs[b].binding.targetKey
        ensures a == b
      {
        assert Blocker(m.records, now, a) && Blocker(m.records, now, b);
      }
    }
    CutTwice(m.records);
    forall k | k in h.mem.targets ensures k in m.targets && m.targets[k] == h.mem.targets[k] {
      assert Blocker(m.records, now, h.mem.targets[k]);
    }
    forall id | Blocker(h.mem.records, now, id) ensures h.mem.targets[recs[id].binding.targetKey] == id {
      assert Blocker(m.records, now, id);
      assert Blocker(m.records, now, h.mem.targets[recs[id].binding.targetKey]);
    }
  }

  lemma CutTwice(recs: Records)
    ensures CutRecords(CutRecords(recs)) == CutRecords(recs)
  {
    forall id | id in recs ensures CutRecord(CutRecord(recs[id])) == CutRecord(recs[id]) {
      assert CutRecord(CutRecord(recs[id])).pinnedAt == CutRecord(recs[id]).pinnedAt;
    }
  }

  /** No record remembers the age of a pin it no longer holds. */
  predicate NoStaleAges(recs: Records) {
    forall id :: id in recs ==> forall j :: j in recs[id].pinnedAt ==> j in recs[id].binding.pinnedJobs
  }

  /** The records themselves come back unchanged exactly when none of them carries the age of a pin it dropped. */
  lemma RecordsSurviveExactly(m: Mem, file: File, now: int, h: Hydration)
    requires MemOk(m) && Holders(m, now) && Encodes(file, m) && Hydrates(file, now, h)
    ensures h.Loaded? && (h.mem.records == m.records <==> NoStaleAges(m.records))
  {
    ReopenUndoesPersist(m, file, now, h);
    CutsNothing(m.records);
  }

  lemma CutsNothing(recs: Records)
    ensures CutRecords(recs) == recs <==> NoStaleAges(recs)
  {
    if NoStaleAges(recs) {
      forall id | id in recs ensures CutRecord(recs[id]) == recs[id] {
        assert CutRecord(recs[id]).pinnedAt == recs[id].pinnedAt;
      }
    } else {
      var id, j :| id in recs && j in recs[id].pinnedAt && j !in recs[id].binding.pinnedJobs;
      assert j !in CutRecords(recs)[id].pinnedAt;
    }
  }

  /**
    Forcing a pinned binding to detach is what leaves such an age behind: the commit clears the pins, not their
    ages.
  */
  lemma ForceDetachLeavesAges(m: Mem, id: Id, job: Job, now: int)
    requires id in m.records && RecordOk(id, m.records[id]) && job in m.records[id].binding.pinnedJobs
    ensures var plan := ForceDetachPlan(m, id, now); plan.Write? && !NoStaleAges(plan.next.records)
  {
    var plan := ForceDetachPlan(m, id, now);
    assert plan.next.records[id].pinnedAt == m.records[id].pinnedAt && job in plan.next.records[id].pinnedAt;
  }

  /** A file that parses, of the version this code writes, with a list of records. */
  predicate Readable(file: File)
  {
    file.Parsed? && file.root.version == BINDING_STORE_VERSION && file.root.records.Some?
  }

  predicate HasLedger(file: File) { file.Parsed? && file.root.ledger.Some? && ValidLedger(file.root.ledger.value) }

  /** Opening fails closed, each way for its own reason, and a loaded store never lowers a floor it was given. */
  lemma OpenFailsClosed(file: File, now: int, h: Hydration)
    requires Hydrates(file, now, h)
    ensures h == Fresh <==> file == Absent
    ensures h == Degraded(StoreUnreadable) <==> file == Unreadable
    ensures h == Degraded(UnsupportedVersion) <==> file.Parsed? && file.root.version != BINDING_STORE_VERSION
    ensures h == Degraded(StoreCorrupt) <==>
              file == Unparseable
              || (file.Parsed? && file.root.version == BINDING_STORE_VERSION && file.root.records.None?)
    ensures h == Degraded(InvalidEpochLedger) <==> Readable(file) && !HasLedger(file)
    ensures h == Degraded(DuplicateTarget) <==>
              Readable(file) && HasLedger(file) && !OneBlocker(ReadRecords(file.root.records.value, now), now)
    ensures h.Loaded? ==> forall k :: k in LedgerOf(file) ==> FloorOf(h.mem.floors, k) >= LedgerOf(file)[k]
    ensures h.Loaded? ==> forall id :: id in h.mem.records ==>
              ValidBinding(h.mem.records[id].binding)
              && h.mem.records[id].binding.epoch <= FloorOf(h.mem.floors, h.mem.records[id].binding.targetKey)
    ensures h.Loaded? ==> OneBlocker(h.mem.records, now)
  {
    if h.Loaded? { FloorsFolded(file.root.records.value, now, file.root.ledger.value); }
  }

  lemma {:induction false} FloorsFolded(es: seq<RawEntry>, now: int, ledger: map<Key, int>)
    ensures forall k :: k in ledger ==> FloorOf(FoldFloors(es, now, ledger), k) >= ledger[k]
    ensures forall id :: id in ReadRecords(es, now) ==>
              ValidBinding(ReadRecords(es, now)[id].binding)
              && ReadRecords(es, now)[id].binding.epoch
                 <= FloorOf(FoldFloors(es, now, ledger), ReadRecords(es, now)[id].binding.targetKey)
  {
    if es != [] {
      var front, e := es[..|es| - 1], es[|es| - 1];
      FloorsFolded(front, now, ledger);
      assert forall k :: FloorOf(FoldFloors(es, now, ledger), k) >= FloorOf(FoldFloors(front, now, ledger), k);
    }
  }
}
