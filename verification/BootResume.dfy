/**
  The boot-resume gate: one object per process, over a ledger file that outlives it.
*/
module BootResume {
  import opened Wrappers
  import opened BootLedger

  // ------------------------------------------------------------- pruning, by loops

  method DropStale(entries: Entries, now: int) returns (live: Entries)
    ensures live == Unstale(entries, now)
  {
    live := entries;
    var todo := entries.Keys;
    while todo != {}
      invariant todo <= live.Keys <= entries.Keys
      invariant forall k :: k in live ==> live[k] == entries[k] && (k in todo || !IsStale(entries[k], now))
      invariant forall k :: k in entries && !IsStale(entries[k], now) ==> k in live
    {
      var k :| k in todo;
      todo := todo - {k};
      if IsStale(live[k], now) { live := live - {k}; }
    }
  }

  method LowestRanked(entries: Entries) returns (worst: Key)
    requires entries != map[]
    ensures worst in entries && forall k :: k in entries ==> Outranks(entries[k], entries[worst])
  {
    worst :| worst in entries;
    var todo := entries.Keys - {worst};
    while todo != {}
      invariant todo <= entries.Keys && worst in entries
      invariant forall k :: k in entries && k !in todo ==> Outranks(entries[k], entries[worst])
    {
      var k :| k in todo;
      todo := todo - {k};
      if !Outranks(entries[k], entries[worst]) { worst := k; }
    }
  }

  /** The loops that meet `Pruned`: first the stale entries go, then the lowest ranked, one at a time. */
  method Prune(entries: Entries, now: int) returns (kept: Entries)
    ensures Pruned(entries, now, kept)
  {
    var live := DropStale(entries, now);
    kept := live;
    while |kept| > MAX_ENTRIES
      invariant kept.Keys <= live.Keys && forall k :: k in kept ==> kept[k] == live[k]
      invariant |kept| == |live| || |kept| >= MAX_ENTRIES
      invariant |kept| == |live| ==> kept == live
      invariant |kept| <= |live|
      invariant forall a, b :: a in kept && b in live && b !in kept ==> Outranks(live[a], live[b])
      decreases |kept|
    {
      var worst := LowestRanked(kept);
      var rest := kept - {worst};
      assert kept.Keys == rest.Keys + {worst};
      assert |kept| == |kept.Keys| && |rest| == |rest.Keys|;
      kept := rest;
    }
    assert |kept| == |kept.Keys| && |live| == |live.Keys|;
  }

  /** Whether one item may be resumed, and what its entry becomes. */
  method Weigh(limit: nat, before: Option<Entry>, counts: bool, kind: string, id: string, phase: string, now: int)
    returns (d: Decision)
    ensures d == Decide(limit, before, counts, kind, id, phase, now)
  {
    var entry := before;
    var changed := false;
    if before.Some? && before.value.parked {
      if !SecondChanceDue(before.value, now) { return Refuse; }
      entry := Some(Unparked(before.value, now));
      changed := true;
    }
    if entry.Some? && entry.value.phase != phase {
      // A new phase.
      entry := Some(entry.value.(phase := phase, attempts := 0));
      changed := true;
    }
    if counts {
      var base := if entry.Some? then entry.value else NewEntry(kind, id, phase, now);
      var consecutive := base.lastAttemptAt.Some? && now - base.lastAttemptAt.value < CRASH_LOOP_WINDOW_MS;
      entry := Some(base.(attempts := if consecutive then base.attempts + 1 else 1, lastAttemptAt := Some(now)));
      changed := true;
    }
    if !changed || entry.None? { return Pass; }
    var e := entry.value.(updatedAt := Some(now));
    if e.attempts > limit {
      e := e.(parked := true, reason := Some(RESTART_LIMIT_CODE), parkedAt := Some(now));
    }
    return Note(e);
  }

  // ------------------------------------------------------------- the gate

  class LedgerGate {
    const limit: nat
    var disk: Disk
    var file: Option<Ledger>
    var intact: bool
    var opened_: bool
    var crashedBoot: Option<bool>
    var seenThisBoot: set<Key>

    ghost function State(): Gate
      reads this
    {
      Gate(disk, file, intact, opened_, crashedBoot, seenThisBoot)
    }

    /** A new process over whatever the last one left on disk. */
    constructor (limit: nat, disk: Disk)
      ensures this.limit == (if limit < 1 then 1 else limit)
      ensures State() == Gate(disk, None, false, false, None, {})
    {
      this.limit := if limit < 1 then 1 else limit;
      this.disk := disk;
      file, intact, opened_, crashedBoot, seenThisBoot := None, false, false, None, {};
    }

    method ReadLedger(io: Io)
      modifies this
      ensures State() == Load(old(State()), io)
    {
      if file.Some? { return; }
      match if io.readable then disk else Missing
      case Missing => file, intact := Some(EmptyLedger), false;
      case Corrupt =>
        if io.renamed { disk := Missing; }
        file, intact := Some(EmptyLedger), false;
      case Stored(ledger) => file, intact := Some(ledger), true;
    }

    /** Prune, then write; the answer is whether the write went through. */
    method Save(io: Io) returns (ok: bool)
      requires file.Some?
      modifies this
      ensures Saved(old(State()), io, State()) && ok == io.written
    {
      var kept := Prune(file.value.entries, io.now);
      file := Some(file.value.(entries := kept));
      if io.written { disk := Stored(file.value); }
      return io.written;
    }

    /** Does its work on the first call of a process and nothing on any other. */
    method OpenBoot(enabled: bool, io: Io)
      modifies this
      ensures OpenedBoot(old(State()), enabled, io, State())
    {
      if !enabled || opened_ { return; }
      opened_ := true;
      ReadLedger(io);
      crashedBoot := Some(intact && !file.value.clean);
      file := Some(file.value.(clean := false));
      assert State() == Opening(old(State()), io);
      var _ := Save(io);
    }

    /** May this item be resumed at this phase; opens the boot when nothing has yet. */
    method Admit(enabled: bool, io: Io, kind: string, id: string, phase: string) returns (admitted: bool)
      modifies this
      ensures Admitted(limit, old(State()), enabled, io, kind, id, phase, State(), admitted)
    {
      if !enabled { return true; }
      OpenBoot(true, io);
      ghost var g1 := State();
      ReadLedger(io);
      var key := KeyOf(kind, id);
      var before := if key in file.value.entries then Some(file.value.entries[key]) else None;
      var verdict := Weigh(limit, before, crashedBoot == Some(true) && key !in seenThisBoot, kind, id, phase, io.now);
      seenThisBoot := seenThisBoot + {key};
      if verdict.Refuse? { return false; }
      if verdict.Pass? { return true; }
      admitted := Record(io, key, before, verdict.entry);
    }

    /** Save the new entry, and put the old one back when the save fails. */
    method Record(io: Io, key: Key, before: Option<Entry>, entry: Entry) returns (admitted: bool)
      requires file.Some?
      modifies this
      ensures Recorded(old(State()), io, key, before, entry, State(), admitted)
    {
      file := Some(file.value.(entries := file.value.entries[key := entry]));
      var ok := Save(io);
      if ok { return !entry.parked; }
      var entries := file.value.entries;
      file := Some(file.value.(entries := if before.Some? then entries[key := before.value] else entries - {key}));
      return true;
    }

    /** Mark the exit clean and start the counts of this process's items over; nothing unless the boot was opened. */
    method MarkCleanShutdown(enabled: bool, io: Io)
      modifies this
      ensures MarkedClean(old(State()), enabled, io, State())
    {
      if !enabled || !opened_ { return; }
      ReadLedger(io);
      ghost var l := State();
      var entries := file.value.entries;
      var todo := seenThisBoot;
      ghost var done: set<Key> := {};
      while todo != {}
        invariant State() == l && done + todo == l.seen
        invariant entries == CleanEntries(l.file.value.entries, done, io.now)
      {
        var k :| k in todo;
        todo := todo - {k};
        if k in entries && !entries[k].parked {
          entries := entries[k := entries[k].(attempts := 0, lastAttemptAt := None, updatedAt := Some(io.now))];
        }
        done := done + {k};
      }
      file := Some(Ledger(true, entries));
      var _ := Save(io);
    }

    /** Unpark an item by hand. Memory changes whatever becomes of the write. */
    method Retry(enabled: bool, io: Io, kind: string, id: string) returns (r: Option<Entry>)
      modifies this
      ensures Retried(old(State()), enabled, io, kind, id, State(), r)
    {
      if !enabled { return None; }
      ReadLedger(io);
      var key := KeyOf(kind, id);
      if key !in file.value.entries { return None; }
      var entry := RetriedEntry(file.value.entries[key], io.now);
      file := Some(file.value.(entries := file.value.entries[key := entry]));
      var _ := Save(io);
      return Some(entry);
    }

    /** Drop the item's entry. */
    method Forget(enabled: bool, io: Io, kind: string, id: string)
      modifies this
      ensures Forgot(old(State()), enabled, io, kind, id, State())
    {
      if !enabled { return; }
      ReadLedger(io);
      var key := KeyOf(kind, id);
      if key !in file.value.entries { return; }
      file := Some(file.value.(entries := file.value.entries - {key}));
      var _ := Save(io);
    }

    method IsParked(enabled: bool, io: Io, kind: string, id: string) returns (parked: bool)
      modifies this
      ensures State() == if enabled then Load(old(State()), io) else old(State())
      ensures parked <==>
              enabled && KeyOf(kind, id) in State().file.value.entries
              && State().file.value.entries[KeyOf(kind, id)].parked
    {
      if !enabled { return false; }
      ReadLedger(io);
      var key := KeyOf(kind, id);
      return key in file.value.entries && file.value.entries[key].parked;
    }
  }
}
