/** Hydration and its inverse, as the loops that run: reading an arbitrary store file, listing the records to write. */
module Hydrate {
  import opened Wrappers
  import opened Ids
  import opened BindingStore
  import opened AttemptJournal
  import opened RegistryState
  import opened StoreFile
  import TargetKey

  method LedgerIsValid(ledger: map<Key, int>) returns (valid: bool)
    ensures valid <==> ValidLedger(ledger)
  {
    var todo := ledger.Keys;
    while todo != {}
      invariant todo <= ledger.Keys
      invariant forall k :: k in ledger && k !in todo ==> TargetKey.Parse(k).Some? && ledger[k] >= 1
    {
      var k :| k in todo;
      todo := todo - {k};
      if TargetKey.Parse(k).None? || ledger[k] < 1 { return false; }
    }
    return true;
  }

  method LoadRecords(es: seq<RawEntry>, now: int, ledger: map<Key, int>)
    returns (records: Records, floors: map<Key, int>, dropped: nat)
    ensures records == ReadRecords(es, now) && dropped == DroppedOf(es, now) && floors == FoldFloors(es, now, ledger)
  {
    records, floors, dropped := map[], ledger, 0;
    for i := 0 to |es|
      invariant records == ReadRecords(es[..i], now)
      invariant dropped == DroppedOf(es[..i], now)
      invariant floors == FoldFloors(es[..i], now, ledger)
    {
      var e := es[i];
      assert es[..i + 1][..i] == es[..i] && es[..i + 1][i] == e;
      if !ValidEntry(e) || e.binding.value.bindingId in records {
        dropped := dropped + 1;
      } else {
        var b := e.binding.value;
        records := records[b.bindingId := ReadEntry(e, now)];
        if b.epoch > FloorOf(floors, b.targetKey) { floors := floors[b.targetKey := b.epoch]; }
      }
    }
    assert es[..|es|] == es;
  }

  /** The holder map, `None` when it would not be a map. */
  method LoadTargets(records: Records, now: int) returns (targets: Option<map<Key, Id>>)
    ensures targets.Some? <==> OneBlocker(records, now)
    ensures targets.Some? ==> TargetsRebuilt(targets.value, records, now)
  {
    var held: map<Key, Id> := map[];
    var todo := records.Keys;
    while todo != {}
      invariant todo <= records.Keys
      invariant forall k :: k in held ==>
                Blocker(records, now, held[k]) && records[held[k]].binding.targetKey == k && held[k] !in todo
      invariant forall id :: Blocker(records, now, id) && id !in todo ==>
                  records[id].binding.targetKey in held && held[records[id].binding.targetKey] == id
    {
      var id :| id in todo;
      todo := todo - {id};
      if BlocksTarget(records[id].binding, now) {
        var key := records[id].binding.targetKey;
        if key in held {
          assert Blocker(records, now, id) && Blocker(records, now, held[key]) && held[key] != id;
          return None;
        }
        held := held[key := id];
      }
    }
    return Some(held);
  }

  method LoadTurns(raw: map<Id, seq<Option<TurnRow>>>) returns (turns: map<Id, seq<TurnRow>>)
    ensures turns == ReadTurns(raw)
  {
    turns := map[];
    var todo := raw.Keys;
    while todo != {}
      invariant todo <= raw.Keys
      invariant turns == map id | id in raw && id !in todo && ReadRows(raw[id]) != [] :: LastTurns(ReadRows(raw[id]))
    {
      var id :| id in todo;
      todo := todo - {id};
      var kept := LoadRows(raw[id]);
      if |kept| > 0 { turns := turns[id := LastTurns(kept)]; }
    }
  }

  method LoadRows(rows: seq<Option<TurnRow>>) returns (kept: seq<TurnRow>)
    ensures kept == ReadRows(rows)
  {
    kept := [];
    for i := 0 to |rows|
      invariant kept == ReadRows(rows[..i])
    {
      assert rows[..i + 1][..i] == rows[..i] && rows[..i + 1][i] == rows[i];
      if rows[i].Some? && IsTurnId(rows[i].value.turnId) { kept := kept + [rows[i].value]; }
    }
    assert rows[..|rows|] == rows;
  }

  /** The targets seen so far whose rows survived. */
  ghost function Surviving(rows: Journal, seen: set<Key>): Journal
  {
    map k | k in rows && k in seen && rows[k] != map[] :: rows[k]
  }

  lemma SurvivingOne(rows: Journal, seen: set<Key>, k: Key)
    requires k in rows && k !in seen
    ensures Surviving(rows, seen + {k}) == if rows[k] != map[] then Surviving(rows, seen)[k := rows[k]]
            else Surviving(rows, seen)
  {
  }

  method LoadAttempts(raw: RawAttempts) returns (attempts: Journal, damaged: bool)
    ensures attempts == ReadAttempts(raw) && (damaged <==> AttemptsDamaged(raw))
  {
    attempts, damaged := map[], raw.NotAttempts?;
    if raw.Attempts? {
      var ts := raw.targets;
      var todo := ts.Keys;
      ghost var seen, all: Journal := {}, ReadTargets(ts);
      while todo != {}
        invariant seen !! todo && seen + todo == ts.Keys
        invariant attempts == Surviving(all, seen)
        invariant damaged ==> AttemptsDamaged(raw)
        invariant !damaged ==> forall k :: k in seen ==> !TargetDamaged(k, ts[k])
      {
        var k :| k in todo;
        var rows, bad := LoadTarget(k, ts[k]);
        damaged := damaged || bad;
        SurvivingOne(all, seen, k);
        if rows != map[] { attempts := attempts[k := rows]; }
        todo, seen := todo - {k}, seen + {k};
      }
      assert Surviving(all, seen) == ReadAttempts(raw);
    }
  }

  method LoadTarget(k: Key, raw: Option<map<TurnId, Option<Attempt>>>) returns (rows: Rows, bad: bool)
    ensures rows == ReadTarget(k, raw) && (bad <==> TargetDamaged(k, raw))
  {
    if !ReadableTarget(k, raw) { return map[], true; }
    rows, bad := LoadAttemptRows(raw.value);
  }

  method LoadAttemptRows(raw: map<TurnId, Option<Attempt>>) returns (rows: Rows, bad: bool)
    ensures rows == ReadAttemptRows(raw)
    ensures bad <==> exists id :: id in raw && !ValidAttempt(id, raw[id])
  {
    rows, bad := map[], false;
    var todo := raw.Keys;
    while todo != {}
      invariant todo <= raw.Keys
      invariant rows == map id | id in raw && id !in todo && ValidAttempt(id, raw[id]) :: raw[id].value
      invariant bad <==> exists id :: id in raw && id !in todo && !ValidAttempt(id, raw[id])
    {
      var id :| id in todo;
      todo := todo - {id};
      if ValidAttempt(id, raw[id]) { rows := rows[id := raw[id].value]; } else { bad := true; }
    }
  }

  /** Reading any store file whatever, down to the reason when it cannot be used. */
  method HydrateFile(file: File, now: int) returns (h: Hydration)
    ensures Hydrates(file, now, h)
  {
    if file.Absent? { return Fresh; }
    if file.Unreadable? { return Degraded(StoreUnreadable); }
    if file.Unparseable? { return Degraded(StoreCorrupt); }
    var root := file.root;
    if root.version != BINDING_STORE_VERSION { return Degraded(UnsupportedVersion); }
    if root.records.None? { return Degraded(StoreCorrupt); }
    if root.ledger.None? { return Degraded(InvalidEpochLedger); }
    var valid := LedgerIsValid(root.ledger.value);
    if !valid { return Degraded(InvalidEpochLedger); }
    var turns := LoadTurns(root.turns);
    var records, floors, dropped := LoadRecords(root.records.value, now, root.ledger.value);
    var targets := LoadTargets(records, now);
    if targets.None? { return Degraded(DuplicateTarget); }
    var attempts, damaged := LoadAttempts(root.attempts);
    h := Loaded(Mem(records, targets.value, floors, turns, attempts, if damaged then Some(now) else root.through),
      dropped);
  }

  method ListRecords(records: Records) returns (es: seq<RawEntry>)
    requires forall id :: id in records ==> records[id].binding.bindingId == id
    ensures Lists(es, records)
  {
    es := [];
    var todo := records.Keys;
    while todo != {}
      invariant todo <= records.Keys
      invariant forall i :: 0 <= i < |es| ==> Listed(es[i], records) && EntryId(es[i]) !in todo
      invariant DistinctIds(es)
      invariant forall id :: id in records && id !in todo ==> exists i :: 0 <= i < |es| && es[i] == EntryOf(records[id])
    {
      var id :| id in todo;
      todo := todo - {id};
      ghost var before := es;
      es := es + [EntryOf(records[id])];
      assert es[|before|] == EntryOf(records[id]);
      forall other | other in records && other !in todo
        ensures exists i :: 0 <= i < |es| && es[i] == EntryOf(records[other])
      {
        if other != id {
          var i :| 0 <= i < |before| && before[i] == EntryOf(records[other]);
          assert es[i] == EntryOf(records[other]);
        }
      }
    }
  }

  method MergeLedger(floors: map<Key, int>, ledger: map<Key, int>) returns (merged: map<Key, int>)
    ensures merged == MergeFloors(floors, ledger)
  {
    merged := floors;
    var todo := ledger.Keys;
    while todo != {}
      invariant todo <= ledger.Keys
      invariant merged.Keys == floors.Keys + (set k | k in ledger && k !in todo && ledger[k] >= 1)
      invariant forall k :: k in merged ==>
        merged[k] == if k in ledger && k !in todo && ledger[k] >= 1 && ledger[k] > FloorOf(floors, k) then ledger[k]
          else FloorOf(floors, k)
    {
      var k :| k in todo;
      todo := todo - {k};
      if ledger[k] >= 1 && ledger[k] > FloorOf(merged, k) { merged := merged[k := ledger[k]]; }
    }
    assert merged.Keys == MergeFloors(floors, ledger).Keys;
  }
}
