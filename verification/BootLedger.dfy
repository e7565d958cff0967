/**
  The boot-resume ledger: which work a server that keeps crashing may resume again, and what each
  call on the gate does to the ledger in memory and to its file.
*/
module BootLedger {
  import opened Wrappers

  const CRASH_LOOP_WINDOW_MS: int := 30 * 60000
  const AUTO_UNPARK_AFTER_MS: int := 30 * 60000
  const MAX_ENTRIES: nat := 500
  const STALE_MS: int := 7 * 86400000
  const RESTART_LIMIT_CODE := "restart_limit"
  const MEETING_FINALIZATION := "meeting_finalization"

  type Key = string

  function KeyOf(kind: string, id: string): Key { kind + ":" + id }

  /** Instants are `None` where the file holds null or a date that does not parse. */
  datatype Entry = Entry(
    kind: string, id: string, phase: string, attempts: nat, parked: bool, reason: Option<string>, parkedAt: Option<int>,
    retriedAt: Option<int>, lastAttemptAt: Option<int>, autoRetriedAt: Option<int>, updatedAt: Option<int>)

  type Entries = map<Key, Entry>

  datatype Ledger = Ledger(clean: bool, entries: Entries)
  datatype Disk = Missing | Corrupt | Stored(ledger: Ledger)

  /** What the outside does during one call: the clock, and whether the file reads, is set aside, is written. */
  datatype Io = Io(now: int, readable: bool, renamed: bool, written: bool)

  /** One process's gate over the ledger file; `crashed` is unknown until the process has opened its boot. */
  datatype Gate = Gate(disk: Disk, file: Option<Ledger>, intact: bool, booted: bool,
                       crashed: Option<bool>, seen: set<Key>)

  const EmptyLedger := Ledger(false, map[])

  function Find(entries: Entries, key: Key): Option<Entry> { if key in entries then Some(entries[key]) else None }

  // ------------------------------------------------------------- pruning

  predicate IsStale(e: Entry, now: int) { !e.parked && (e.updatedAt.None? || now - e.updatedAt.value > STALE_MS) }

  function Time(e: Entry): int { if e.updatedAt.Some? then e.updatedAt.value else 0 }

  /** Parked first, newest first. */
  predicate Outranks(a: Entry, b: Entry) { (a.parked && !b.parked) || (a.parked == b.parked && Time(a) >= Time(b)) }

  function Unstale(entries: Entries, now: int): Entries
  {
    map k | k in entries && !IsStale(entries[k], now) :: entries[k]
  }

  /** What a prune may keep: the 500 highest ranked of the entries that are not stale. Ties are free. */
  predicate Pruned(entries: Entries, now: int, kept: Entries) {
    var live := Unstale(entries, now);
    kept.Keys <= live.Keys && (forall k :: k in kept ==> kept[k] == live[k])
    && |kept| == (if |live| <= MAX_ENTRIES then |live| else MAX_ENTRIES)
    && forall a, b :: a in kept && b in live && b !in kept ==> Outranks(live[a], live[b])
  }

  // ------------------------------------------------------------- one call each

  /** The gate with a ledger in memory: the one it has, or the file's, or an empty one when the file does not read. */
  function Load(g: Gate, io: Io): (r: Gate)
    ensures r.file.Some?
  {
    if g.file.Some? then g else
      match if io.readable then g.disk else Missing
      case Missing => g.(file := Some(EmptyLedger), intact := false)
      case Corrupt => g.(disk := if io.renamed then Missing else Corrupt, file := Some(EmptyLedger), intact := false)
      case Stored(ledger) => g.(file := Some(ledger), intact := true)
  }

  /** A save prunes memory, and the file is either the pruned ledger or what it was. */
  ghost predicate Saved(g: Gate, io: Io, g': Gate)
    requires g.file.Some?
  {
    exists kept :: Pruned(g.file.value.entries, io.now, kept)
      && var ledger := g.file.value.(entries := kept);
         g' == g.(file := Some(ledger), disk := if io.written then Stored(ledger) else g.disk)
  }

  /**
    The first use of a gate: it learns whether the process before it exited cleanly, as far as an intact file
    tells.
  */
  function Opening(g: Gate, io: Io): (r: Gate)
    ensures r.file.Some?
  {
    var l := Load(g, io);
    l.(booted := true, crashed := Some(l.intact && !l.file.value.clean), file := Some(l.file.value.(clean := false)))
  }

  ghost predicate OpenedBoot(g: Gate, enabled: bool, io: Io, g': Gate) {
    if !enabled || g.booted then g' == g else Saved(Opening(g, io), io, g')
  }

  /** Due to be unparked without being asked: meeting finalizations only, once only. */
  predicate SecondChanceDue(e: Entry, now: int) {
    e.kind == MEETING_FINALIZATION && e.autoRetriedAt.None? && e.parkedAt.Some?
    && now - e.parkedAt.value >= AUTO_UNPARK_AFTER_MS
  }

  datatype Decision = Refuse | Pass | Note(entry: Entry)

  function Unparked(e: Entry, now: int): Entry {
    e.(attempts := 0, parked := false, reason := None, parkedAt := None, lastAttemptAt := None, autoRetriedAt :=
      Some(now), updatedAt := Some(now))
  }

  function NewEntry(kind: string, id: string, phase: string, now: int): Entry {
    Entry(kind, id, phase, 0, false, None, None, None, None, None, Some(now))
  }

  /** One count more; a count too long after the last one starts again at 1. */
  function Counted(e: Entry, now: int): Entry {
    var consecutive := e.lastAttemptAt.Some? && now - e.lastAttemptAt.value < CRASH_LOOP_WINDOW_MS;
    e.(attempts := if consecutive then e.attempts + 1 else 1, lastAttemptAt := Some(now))
  }

  /** Past the limit the entry is parked. */
  function Limited(limit: nat, e: Entry, now: int): Entry {
    if e.attempts > limit
      then e.(parked := true, reason := Some(RESTART_LIMIT_CODE), parkedAt := Some(now), updatedAt := Some(now))
    else e.(updatedAt := Some(now))
  }

  /** The entry an admission starts from: a parked one is here only for its second chance; a new phase starts over. */
  function Restarted(before: Entry, phase: string, now: int): Entry {
    var e := if before.parked then Unparked(before, now) else before;
    if e.phase != phase then e.(phase := phase, attempts := 0) else e
  }

  function Decide(limit: nat, before: Option<Entry>, counts: bool, kind: string, id: string,
                  phase: string, now: int): Decision {
    match before
    case Some(b) =>
      if b.parked && !SecondChanceDue(b, now) then Refuse
      else if counts then Note(Limited(limit, Counted(Restarted(b, phase, now), now), now))
      else if b.parked || b.phase != phase then Note(Limited(limit, Restarted(b, phase, now), now))
      else Pass
    case None =>
      if counts then Note(Limited(limit, Counted(NewEntry(kind, id, phase, now), now), now)) else Pass
  }

  function Restore(entries: Entries, key: Key, before: Option<Entry>): Entries {
    match before
    case Some(b) => entries[key := b]
    case None => entries - {key}
  }

  /** What noting an entry does: saved, it decides the answer; unsaved, it is taken back and the item admitted. */
  ghost predicate Recorded(g: Gate, io: Io, key: Key, before: Option<Entry>, entry: Entry, g': Gate, admitted: bool)
    requires g.file.Some?
  {
    exists saved :: Saved(g.(file := Some(g.file.value.(entries := g.file.value.entries[key := entry]))), io, saved)
      && saved.file.Some?
      && g' == (if io.written then saved
         else saved.(file := Some(saved.file.value.(entries := Restore(saved.file.value.entries, key, before)))))
      && admitted == !(io.written && entry.parked)
  }

  /** Admission by a gate whose boot is open. */
  ghost predicate AdmittedOpen(limit: nat, g: Gate, io: Io, kind: string, id: string, phase: string,
                               g': Gate, admitted: bool) {
    var key := KeyOf(kind, id);
    var l := Load(g, io);
    var before := Find(l.file.value.entries, key);
    var marked := l.(seen := l.seen + {key});
    match Decide(limit, before, l.crashed == Some(true) && key !in l.seen, kind, id, phase, io.now)
    case Refuse => !admitted && g' == marked
    case Pass => admitted && g' == marked
    case Note(e) => Recorded(marked, io, key, before, e, g', admitted)
  }

  ghost predicate Admitted(limit: nat, g: Gate, enabled: bool, io: Io, kind: string, id: string, phase: string,
                           g': Gate, admitted: bool) {
    if !enabled then g' == g && admitted
    else exists g1 :: OpenedBoot(g, true, io, g1) && AdmittedOpen(limit, g1, io, kind, id, phase, g', admitted)
  }

  /** The entries with the counts of the seen items, unless parked, back at zero. */
  function CleanEntries(entries: Entries, seen: set<Key>, now: int): Entries {
    map k | k in entries ::
      if k in seen && !entries[k].parked then entries[k].(attempts := 0, lastAttemptAt := None, updatedAt := Some(now))
        else entries[k]
  }

  ghost predicate MarkedClean(g: Gate, enabled: bool, io: Io, g': Gate) {
    if !enabled || !g.booted then g' == g
    else
      var l := Load(g, io);
      Saved(l.(file := Some(Ledger(true, CleanEntries(l.file.value.entries, l.seen, io.now)))), io, g')
  }

  function RetriedEntry(e: Entry, now: int): Entry {
    e.(attempts := 0, parked := false, reason := None, parkedAt := None, retriedAt := Some(now), lastAttemptAt :=
      None, updatedAt := Some(now))
  }

  ghost predicate Retried(g: Gate, enabled: bool, io: Io, kind: string, id: string, g': Gate, r: Option<Entry>) {
    if !enabled then g' == g && r == None
    else
      var l := Load(g, io);
      var entries := l.file.value.entries;
      var key := KeyOf(kind, id);
      if key !in entries then g' == l && r == None
      else
        var e := RetriedEntry(entries[key], io.now);
        Saved(l.(file := Some(l.file.value.(entries := entries[key := e]))), io, g') && r == Some(e)
  }

  ghost predicate Forgot(g: Gate, enabled: bool, io: Io, kind: string, id: string, g': Gate) {
    if !enabled then g' == g
    else
      var l := Load(g, io);
      var key := KeyOf(kind, id);
      if key !in l.file.value.entries then g' == l
      else Saved(l.(file := Some(l.file.value.(entries := l.file.value.entries - {key}))), io, g')
  }

  // ------------------------------------------------------------- what a prune keeps

  function ParkedKeys(entries: Entries): set<Key> { set k | k in entries && entries[k].parked }

  lemma {:induction false} KeysCount(a: set<Key>, b: set<Key>)
    requires a <= b
    ensures |a| <= |b| && (|a| == |b| ==> a == b)
  {
    if b != {} {
      var k :| k in b;
      if k in a {
        KeysCount(a - {k}, b - {k});
      } else {
        KeysCount(a, b - {k});
      }
    }
  }

  /** No parked entry is ever pruned if and only if the ledger holds at most 500 of them. */
  lemma PruneKeepsParkedExactly(entries: Entries, now: int, kept: Entries)
    requires Pruned(entries, now, kept)
    ensures ParkedKeys(entries) <= kept.Keys <==> |ParkedKeys(entries)| <= MAX_ENTRIES
  {
    var live := Unstale(entries, now);
    var parked := ParkedKeys(entries);
    assert |kept| == |kept.Keys| && |live| == |live.Keys|;
    assert parked <= live.Keys;
    KeysCount(kept.Keys, live.Keys);
    if parked <= kept.Keys { KeysCount(parked, kept.Keys); }
    if |parked| <= MAX_ENTRIES && exists b :: b in parked && b !in kept {
      var b :| b in parked && b !in kept;
      assert kept.Keys <= parked - {b};
      KeysCount(kept.Keys, parked - {b});
      assert false;
    }
  }

  function IdOf(n: nat): Key { seq(n, _ => 'a') }

  /** `n` items with this entry, told apart by the length of their ids. */
  function Many(n: nat, e: Entry): Entries { if n == 0 then map[] else Many(n - 1, e)[IdOf(n) := e] }

  lemma {:induction false} ManyAre(n: nat, e: Entry)
    ensures |Many(n, e)| == n
    ensures forall k :: k in Many(n, e) ==> |k| <= n && Many(n, e)[k] == e
  {
    hide IdOf;
    if n > 0 {
      ManyAre(n - 1, e);
      IdLength(n);
      AddedKey(Many(n - 1, e), IdOf(n), e);
    }
  }

  lemma AddedKey(entries: Entries, key: Key, e: Entry)
    requires forall k :: k in entries ==> |k| < |key|
    ensures |entries[key := e]| == |entries| + 1
  {
    assert key !in entries;
    assert entries[key := e].Keys == entries.Keys + {key};
    assert |entries[key := e]| == |entries[key := e].Keys| && |entries| == |entries.Keys|;
  }

  /** One parked item too many: of 501, one is pruned. */
  lemma PruneCanDropAParked(n: nat, e: Entry) returns (entries: Entries, kept: Entries, lost: Key)
    requires n == MAX_ENTRIES && e.parked
    ensures Pruned(entries, 0, kept) && lost in entries && entries[lost].parked && lost !in kept
  {
    hide IdOf;
    entries, kept, lost := Many(n + 1, e), Many(n, e), IdOf(n + 1);
    ManyAre(n + 1, e);
    ManyAre(n, e);
    assert |lost| == n + 1 by { IdLength(n + 1); }
    assert Unstale(entries, 0) == entries;
  }

  lemma IdLength(n: nat)
    ensures |IdOf(n)| == n
  {
  }

  /** With at most 500 entries, pruning only drops the stale. */
  lemma SmallPruneIsUnstale(entries: Entries, now: int, kept: Entries)
    requires Pruned(entries, now, kept) && |entries| <= MAX_ENTRIES
    ensures kept == Unstale(entries, now)
  {
    var live := Unstale(entries, now);
    assert |kept| == |kept.Keys| && |live| == |live.Keys| && |entries| == |entries.Keys|;
    KeysCount(live.Keys, entries.Keys);
    KeysCount(kept.Keys, live.Keys);
  }
}
