/**
  What a crash loop comes to: boots that count only after a crash, refusals that are backed by the
  file, and the exact boots on which a crashing item is still resumed.
*/
module BootLoops {
  import opened Wrappers
  import opened BootLedger
  import opened BootRuns

  // ------------------------------------------------------------- what a crashed boot is

  /** A clean exit that reached the file. */
  predicate CleanExit(w: World, c: Call) { c.op.MarkClean? && c.enabled && w.gate.booted && c.io.written }

  predicate Unclean(disk: Disk) { disk.Stored? && !disk.ledger.clean }

  /** A process that has not opened its boot has read an unclean marker. */
  predicate ReadUnclean(g: Gate) { g.file.Some? && g.intact && !g.booted && !g.file.value.clean }

  /**
    Step `n` left an unclean marker on file, in a process that had opened its boot, and no clean exit reached
    the file since.
  */
  predicate UncleanSince(ws: seq<World>, cs: seq<Call>, upto: nat, n: nat)
    requires upto < |ws| == |cs| + 1
  {
    n < upto && ws[n].boot == ws[n + 1].boot && ws[n + 1].gate.booted && Unclean(ws[n + 1].gate.disk)
    && forall m :: n < m < upto ==> !CleanExit(ws[m], cs[m])
  }

  /** A process whose file did not read back intact holds nothing until it opens its boot. */
  predicate EmptyUntilBooted(g: Gate) { g.file.Some? && !g.intact && !g.booted ==> g.file.value.entries == map[] }

  /** What a step may do to the unclean markers. */
  predicate MarkerLaw(w: World, c: Call, w': World) {
    EmptyUntilBooted(w'.gate) && (!w'.gate.booted ==> w'.gate.crashed.None?)
    && (w'.boot == w.boot && w.gate.booted ==> w'.gate.booted)
    && (Unclean(w'.gate.disk) ==>
          (Unclean(w.gate.disk) && !CleanExit(w, c)) || (w'.boot == w.boot && w'.gate.booted) || ReadUnclean(w.gate))
    && (ReadUnclean(w'.gate) ==> w'.boot == w.boot && (ReadUnclean(w.gate) || Unclean(w.gate.disk)))
    && (w'.gate.crashed == Some(true) ==>
          w'.gate.booted && w'.boot == w.boot
          && (w.gate.crashed == Some(true) || (!w.gate.booted && (ReadUnclean(w.gate) || Unclean(w.gate.disk)))))
  }

  lemma StepMarker(limit: nat, w: World, c: Call, w': World)
    requires Step(limit, w, c, w') && EmptyUntilBooted(w.gate) && (!w.gate.booted ==> w.gate.crashed.None?)
    ensures MarkerLaw(w, c, w')
  {
    hide Saved, Decide, CleanEntries, RetriedEntry, Admitted;
    var l := Load(w.gate, c.io);
    var entries := l.file.value.entries;
    match c.op
    case OpenBoot => if c.enabled && !w.gate.booted { SavedWithin(Opening(w.gate, c.io), c.io, w'.gate); }
    case Admit(_, _, _, _) => AdmitMarker(limit, w, c, w');
    case MarkClean =>
      if c.enabled && w.gate.booted {
        SavedWithin(l.(file := Some(Ledger(true, CleanEntries(entries, l.seen, c.io.now)))), c.io, w'.gate);
      }
    case Retry(kind, id) =>
      if c.enabled && KeyOf(kind, id) in entries {
        var e := RetriedEntry(entries[KeyOf(kind, id)], c.io.now);
        SavedWithin(l.(file := Some(l.file.value.(entries := entries[KeyOf(kind, id) := e]))), c.io, w'.gate);
      }
    case Forget(kind, id) =>
      if c.enabled && KeyOf(kind, id) in entries {
        SavedWithin(l.(file := Some(l.file.value.(entries := entries - {KeyOf(kind, id)}))), c.io, w'.gate);
      }
    case _ =>
  }

  lemma AdmitMarker(limit: nat, w: World, c: Call, w': World)
    requires Step(limit, w, c, w') && c.op.Admit? && EmptyUntilBooted(w.gate)
             && (!w.gate.booted ==> w.gate.crashed.None?)
    ensures MarkerLaw(w, c, w')
  {
    hide Saved, Decide, Restore;
    if c.enabled {
      var g1 :| OpenedBoot(w.gate, true, c.io, g1)
        && AdmittedOpen(limit, g1, c.io, c.op.kind, c.op.id, c.op.phase, w'.gate, c.op.admitted);
      if !w.gate.booted { SavedWithin(Opening(w.gate, c.io), c.io, g1); }
      var key, l := KeyOf(c.op.kind, c.op.id), Load(g1, c.io);
      var before, marked := Find(l.file.value.entries, key), l.(seen := l.seen + {key});
      match Decide(limit, before, l.crashed == Some(true) && key !in l.seen, c.op.kind, c.op.id, c.op.phase, c.io.now)
      case Note(e) =>
        var noted := marked.(file := Some(l.file.value.(entries := l.file.value.entries[key := e])));
        var saved :| Saved(noted, c.io, saved) && saved.file.Some?
          && w'.gate == (if c.io.written then saved
             else saved.(file := Some(saved.file.value.(entries := Restore(saved.file.value.entries, key, before)))));
        SavedWithin(noted, c.io, saved);
      case _ =>
    }
  }

  ghost predicate MarkersExplained(ws: seq<World>, cs: seq<Call>, i: nat)
    requires i < |ws| == |cs| + 1
  {
    EmptyUntilBooted(ws[i].gate) && (!ws[i].gate.booted ==> ws[i].gate.crashed.None?)
    && (Unclean(ws[i].gate.disk) || ReadUnclean(ws[i].gate) ==> exists n: nat :: UncleanSince(ws, cs, i, n))
    && (!ws[i].gate.booted ==> forall n: nat :: UncleanSince(ws, cs, i, n) ==> ws[n].boot < ws[i].boot)
    && (forall n: nat :: UncleanSince(ws, cs, i, n) ==> ws[n].boot <= ws[i].boot)
  }

  lemma {:induction false} MarkersHold(limit: nat, ws: seq<World>, cs: seq<Call>, i: nat)
    requires IsRun(limit, ws, cs) && i < |ws|
    ensures MarkersExplained(ws, cs, i)
  {
    if i > 0 {
      MarkersHold(limit, ws, cs, i - 1);
      assert Step(limit, ws[i - 1], cs[i - 1], ws[i]);
      MarkerStep(limit, ws, cs, i - 1);
    }
  }

  lemma MarkerStep(limit: nat, ws: seq<World>, cs: seq<Call>, i: nat)
    requires |ws| == |cs| + 1 && i < |cs| && MarkersExplained(ws, cs, i) && Step(limit, ws[i], cs[i], ws[i + 1])
    ensures MarkersExplained(ws, cs, i + 1)
  {
    var w, c, w' := ws[i], cs[i], ws[i + 1];
    StepMarker(limit, w, c, w');
    SeenStays(limit, w, c, w', "");
    hide Step, CleanExit, Unclean, ReadUnclean, EmptyUntilBooted, UncleanSince;
    forall n: nat | UncleanSince(ws, cs, i + 1, n)
      ensures ws[n].boot <= w'.boot && (!w'.gate.booted ==> ws[n].boot < w'.boot)
    {
      MarkerBoots(ws, cs, i, n);
    }
    if Unclean(w'.gate.disk) || ReadUnclean(w'.gate) {
      if w'.boot == w.boot && w'.gate.booted && Unclean(w'.gate.disk) {
        assert UncleanSince(ws, cs, i + 1, i) by { NewMarker(ws, cs, i); }
      } else {
        var n: nat :| UncleanSince(ws, cs, i, n);
        assert UncleanSince(ws, cs, i + 1, n) by { MarkerKept(ws, cs, i, n); }
      }
    }
  }

  lemma NewMarker(ws: seq<World>, cs: seq<Call>, i: nat)
    requires |ws| == |cs| + 1 && i < |cs|
    requires ws[i].boot == ws[i + 1].boot && ws[i + 1].gate.booted && Unclean(ws[i + 1].gate.disk)
    ensures UncleanSince(ws, cs, i + 1, i)
  {
  }

  lemma MarkerKept(ws: seq<World>, cs: seq<Call>, i: nat, n: nat)
    requires |ws| == |cs| + 1 && i < |cs| && UncleanSince(ws, cs, i, n) && !CleanExit(ws[i], cs[i])
    ensures UncleanSince(ws, cs, i + 1, n)
  {
  }

  lemma MarkerBoots(ws: seq<World>, cs: seq<Call>, i: nat, n: nat)
    requires |ws| == |cs| + 1 && i < |cs| && UncleanSince(ws, cs, i + 1, n)
    ensures UncleanSince(ws, cs, i, n) || (n == i && ws[n].boot == ws[i + 1].boot && ws[i + 1].gate.booted)
  {
  }

  /**
    Where a crashed boot comes from: a boot is a crashed one only if an earlier process that had opened its
    boot left the marker unclean on file and no clean exit reached the file before this boot opened at `o`.
  */
  lemma {:induction false} CrashedBootsFollowACrash(limit: nat, ws: seq<World>, cs: seq<Call>, i: nat)
    returns (n: nat, o: nat)
    requires IsRun(limit, ws, cs) && i < |ws| && ws[i].gate.crashed == Some(true)
    ensures n < o < i && !ws[o].gate.booted && ws[o + 1].gate.booted
    ensures UncleanSince(ws, cs, o, n) && ws[n].boot < ws[o].boot == ws[i].boot
  {
    hide Step, UncleanSince;
    assert Step(limit, ws[i - 1], cs[i - 1], ws[i]);
    CrashedNow(limit, ws, cs, i - 1);
    hide IsRun;
    if ws[i - 1].gate.crashed == Some(true) {
      n, o := CrashedBootsFollowACrash(limit, ws, cs, i - 1);
    } else {
      o := i - 1;
      n :| UncleanSince(ws, cs, o, n) && n < o && ws[n].boot < ws[o].boot;
    }
  }

  lemma CrashedNow(limit: nat, ws: seq<World>, cs: seq<Call>, i: nat)
    requires IsRun(limit, ws, cs) && i < |cs| && ws[i + 1].gate.crashed == Some(true)
    ensures ws[i + 1].boot == ws[i].boot && ws[i + 1].gate.booted
    ensures ws[i].gate.crashed != Some(true) ==>
              !ws[i].gate.booted && exists n: nat :: UncleanSince(ws, cs, i, n) && n < i && ws[n].boot < ws[i].boot
  {
    hide CleanExit, Unclean, ReadUnclean, EmptyUntilBooted, Step;
    assert Step(limit, ws[i], cs[i], ws[i + 1]);
    MarkersHold(limit, ws, cs, i);
    hide IsRun;
    StepMarker(limit, ws[i], cs[i], ws[i + 1]);
    if ws[i].gate.crashed != Some(true) {
      var n: nat :| UncleanSince(ws, cs, i, n);
      assert n < i && ws[n].boot < ws[i].boot;
    }
  }

  // ------------------------------------------------------------- refusals

  /** Parked in memory means parked on file, with the same entry. */
  predicate ParkedBacked(g: Gate) {
    g.file.Some? ==> forall k :: k in g.file.value.entries && g.file.value.entries[k].parked ==>
      g.disk.Stored? && k in g.disk.ledger.entries && g.disk.ledger.entries[k] == g.file.value.entries[k]
  }

  predicate ParkedOnFile(g: Gate, key: Key)
  {
    g.disk.Stored? && key in g.disk.ledger.entries && g.disk.ledger.entries[key].parked
  }

  lemma SaveBacks(g: Gate, io: Io, g': Gate)
    requires g.file.Some? && Saved(g, io, g') && (io.written || ParkedBacked(g))
    ensures ParkedBacked(g')
  {
    hide Saved;
    SavedWithin(g, io, g');
  }

  lemma OpenBacks(g: Gate, enabled: bool, io: Io, g': Gate)
    requires ParkedBacked(g) && OpenedBoot(g, enabled, io, g')
    ensures ParkedBacked(g') && (enabled && !g.booted ==> g'.file.Some?)
    ensures Within(Load(g', io).file.value.entries, Load(g, io).file.value.entries)
  {
    hide Saved;
    if enabled && !g.booted {
      SaveBacks(Opening(g, io), io, g');
      SavedWithin(Opening(g, io), io, g');
    }
  }

  lemma RecordBacks(g: Gate, io: Io, key: Key, before: Option<Entry>, entry: Entry, g': Gate, admitted: bool)
    requires g.file.Some? && ParkedBacked(g) && before == Find(g.file.value.entries, key)
    requires Recorded(g, io, key, before, entry, g', admitted)
    ensures ParkedBacked(g') && (!admitted ==> io.written && entry.parked)
    ensures !admitted && |ParkedKeys(g.file.value.entries)| < MAX_ENTRIES ==> ParkedOnFile(g', key)
  {
    hide Saved;
    var noted := g.(file := Some(g.file.value.(entries := g.file.value.entries[key := entry])));
    var saved :| Saved(noted, io, saved) && saved.file.Some?
      && g' == (if io.written then saved
         else saved.(file := Some(saved.file.value.(entries := Restore(saved.file.value.entries, key, before)))));
    SavedWithin(noted, io, saved);
    if io.written && entry.parked && |ParkedKeys(g.file.value.entries)| < MAX_ENTRIES {
      NewlyParkedStays(g.file.value.entries, key, entry, noted, io, saved);
    }
  }

  lemma NewlyParkedStays(entries: Entries, key: Key, entry: Entry, noted: Gate, io: Io, saved: Gate)
    requires noted.file.Some? && noted.file.value.entries == entries[key := entry] && entry.parked
    requires Saved(noted, io, saved) && saved.file.Some? && |ParkedKeys(entries)| < MAX_ENTRIES
    ensures key in saved.file.value.entries
  {
    hide Pruned;
    var kept :| Pruned(entries[key := entry], io.now, kept) && saved.file == Some(noted.file.value.(entries := kept));
    assert ParkedKeys(entries[key := entry]) == ParkedKeys(entries) + {key};
    PruneKeepsParkedExactly(entries[key := entry], io.now, kept);
    assert key in ParkedKeys(entries[key := entry]);
  }

  lemma AdmitBacks(limit: nat, w: World, c: Call, w': World)
    requires limit >= 1 && c.op.Admit? && ParkedBacked(w.gate)
    requires Admitted(limit, w.gate, c.enabled, c.io, c.op.kind, c.op.id, c.op.phase, w'.gate, c.op.admitted)
    ensures ParkedBacked(w'.gate)
    ensures !c.op.admitted ==>
              var key, mem := KeyOf(c.op.kind, c.op.id), InMemory(w, c);
              var held := key in mem && mem[key].parked && !SecondChanceDue(mem[key], c.io.now);
              c.enabled && (held || c.io.written)
              && (held || |ParkedKeys(mem)| < MAX_ENTRIES ==> ParkedOnFile(w'.gate, key))
  {
    hide OpenedBoot, Recorded, Load;
    if c.enabled {
      var g1 :| OpenedBoot(w.gate, true, c.io, g1)
        && AdmittedOpen(limit, g1, c.io, c.op.kind, c.op.id, c.op.phase, w'.gate, c.op.admitted);
      OpenBacks(w.gate, true, c.io, g1);
      LoadBacks(g1, c.io);
      var key, l := KeyOf(c.op.kind, c.op.id), Load(g1, c.io);
      var before, marked := Find(l.file.value.entries, key), l.(seen := l.seen + {key});
      match Decide(limit, before, l.crashed == Some(true) && key !in l.seen, c.op.kind, c.op.id, c.op.phase, c.io.now)
      case Note(e) =>
        RecordBacks(marked, c.io, key, before, e, w'.gate, c.op.admitted);
        FewerParked(l.file.value.entries, InMemory(w, c));
        assert !c.op.admitted ==> !(key in l.file.value.entries && l.file.value.entries[key].parked);
      case _ =>
    }
  }

  lemma FewerParked(a: Entries, b: Entries)
    requires Within(a, b)
    ensures |ParkedKeys(a)| <= |ParkedKeys(b)|
  {
    KeysCount(ParkedKeys(a), ParkedKeys(b));
  }

  lemma LoadBacks(g: Gate, io: Io)
    requires ParkedBacked(g)
    ensures ParkedBacked(Load(g, io))
  {
  }

  lemma StepBacks(limit: nat, w: World, c: Call, w': World)
    requires limit >= 1 && Step(limit, w, c, w') && !c.op.LoseFile? && ParkedBacked(w.gate)
    ensures ParkedBacked(w'.gate)
  {
    hide Saved, OpenedBoot, Admitted;
    var l := Load(w.gate, c.io);
    LoadBacks(w.gate, c.io);
    var entries := l.file.value.entries;
    match c.op
    case OpenBoot => OpenBacks(w.gate, c.enabled, c.io, w'.gate);
    case Admit(_, _, _, _) => AdmitBacks(limit, w, c, w');
    case MarkClean =>
      if c.enabled && w.gate.booted {
        SaveBacks(l.(file := Some(Ledger(true, CleanEntries(entries, l.seen, c.io.now)))), c.io, w'.gate);
      }
    case Retry(kind, id) =>
      if c.enabled && KeyOf(kind, id) in entries {
        var e := RetriedEntry(entries[KeyOf(kind, id)], c.io.now);
        SaveBacks(l.(file := Some(l.file.value.(entries := entries[KeyOf(kind, id) := e]))), c.io, w'.gate);
      }
    case Forget(kind, id) =>
      if c.enabled && KeyOf(kind, id) in entries {
        SaveBacks(l.(file := Some(l.file.value.(entries := entries - {KeyOf(kind, id)}))), c.io, w'.gate);
      }
    case _ =>
  }

  lemma {:induction false} RunBacks(limit: nat, ws: seq<World>, cs: seq<Call>, i: nat)
    requires limit >= 1 && IsRun(limit, ws, cs) && i < |ws| && forall k :: 0 <= k < i ==> !cs[k].op.LoseFile?
    ensures ParkedBacked(ws[i].gate)
  {
    hide Step, ParkedBacked;
    if i > 0 {
      RunBacks(limit, ws, cs, i - 1);
      StepBacks(limit, ws[i - 1], cs[i - 1], ws[i]);
    } else {
      NewGateBacks(ws[0].gate.disk);
    }
  }

  lemma NewGateBacks(disk: Disk)
    ensures ParkedBacked(NewGate(disk))
  {
  }

  /**
    The gate fails open: over a ledger file that is not lost, an item is refused only if its park was
    already on record or this very call wrote it, so a call whose write fails never parks anything; and with
    fewer than 500 items parked, whatever is refused is parked on file.
  */
  lemma RefusalsAreBacked(limit: nat, ws: seq<World>, cs: seq<Call>, i: nat)
    requires limit >= 1 && IsRun(limit, ws, cs) && i < |cs| && forall k :: 0 <= k <= i ==> !cs[k].op.LoseFile?
    requires cs[i].op.Admit? && !cs[i].op.admitted
    ensures var key, mem := KeyOf(cs[i].op.kind, cs[i].op.id), InMemory(ws[i], cs[i]);
            var held := key in mem && mem[key].parked && !SecondChanceDue(mem[key], cs[i].io.now);
            cs[i].enabled && (held || cs[i].io.written)
            && (held || |ParkedKeys(mem)| < MAX_ENTRIES ==> ParkedOnFile(ws[i + 1].gate, key))
  {
    assert Step(limit, ws[i], cs[i], ws[i + 1]);
    RunBacks(limit, ws, cs, i);
    hide IsRun, Admitted, InMemory, ParkedOnFile;
    AdmitBacks(limit, ws[i], cs[i], ws[i + 1]);
  }

  // ------------------------------------------------------------- crash loops end

  /** The item whose crash loop it is, and the entry the ledger held for it before, if any. */
  datatype Item = Item(kind: string, id: string, phase: string, before: Option<Entry>)

  function ItemKey(item: Item): Key { KeyOf(item.kind, item.id) }

  /** What one crashed boot makes of the entry it finds. */
  function After(limit: nat, found: Option<Entry>, item: Item, now: int): Option<Entry> {
    match Decide(limit, found, true, item.kind, item.id, item.phase, now)
    case Note(e) => Some(e)
    case _ => found
  }

  /** The item's entry after crashed boots admitted it at these instants, once each, and nothing else touched it. */
  function Tracked(limit: nat, item: Item, ts: seq<int>): Option<Entry> {
    if ts == [] then item.before else After(limit, Tracked(limit, item, ts[..|ts| - 1]), item, ts[|ts| - 1])
  }

  /** Whether the boot that comes next, at `now`, still resumes the item. */
  predicate Resumes(limit: nat, item: Item, ts: seq<int>, now: int) {
    match Decide(limit, Tracked(limit, item, ts), true, item.kind, item.id, item.phase, now)
    case Refuse => false
    case Pass => true
    case Note(e) => !e.parked
  }

  /** The entry the first boot counts on. */
  function Base(item: Item, now: int): Entry {
    if item.before.Some? then Restarted(item.before.value, item.phase, now)
      else NewEntry(item.kind, item.id, item.phase, now)
  }

  /** What the first boot counts the item to: 1 for an item new to the ledger. */
  function FirstCount(item: Item, ts: seq<int>): nat
  {
    if ts == [] then 1 else Counted(Base(item, ts[0]), ts[0]).attempts
  }

  /** How many boots resume the item before it is parked: `limit` less what was already counted. */
  function Budget(limit: nat, item: Item, ts: seq<int>): (p: nat)
    ensures p <= limit
  {
    if FirstCount(item, ts) > limit then 0 else limit + 1 - FirstCount(item, ts)
  }

  /** A second chance is for meeting finalizations, and once. */
  predicate HasSecondChance(item: Item) {
    item.kind == MEETING_FINALIZATION && (item.before.Some? ==> item.before.value.autoRetriedAt.None?)
  }

  /** Boots `a` to `b` each come within the crash-loop window of the one before. */
  predicate Consecutive(ts: seq<int>, a: nat, b: nat) {
    forall k :: a < k <= b && k < |ts| ==> ts[k] - ts[k - 1] < CRASH_LOOP_WINDOW_MS
  }

  /** `c` is the first boot at least 30 minutes after the park on boot `p`, or past the last boot when there is none. */
  predicate IsSecondChance(p: nat, ts: seq<int>, c: nat) {
    p < c
    && (forall k :: p < k < c && k < |ts| ==> ts[k] - ts[p] < AUTO_UNPARK_AFTER_MS)
    && (c < |ts| ==> ts[c] - ts[p] >= AUTO_UNPARK_AFTER_MS)
  }

  /** The item is not parked yet and not forgotten as stale, and its counts come under 30 minutes apart. */
  predicate Spaced(limit: nat, item: Item, ts: seq<int>, c: nat) {
    var p := Budget(limit, item, ts);
    (item.before.Some? ==>
      !item.before.value.parked && item.before.value.kind == item.kind
      && (ts != [] ==> !IsStale(item.before.value, ts[0])))
    && IsSecondChance(p, ts, c) && Consecutive(ts, 0, p) && Consecutive(ts, c, c + limit)
  }

  function Plain(base: Entry, n: nat, at: int): Entry
  {
    base.(attempts := n, parked := false, lastAttemptAt := Some(at), updatedAt := Some(at))
  }

  function ParkedAt(base: Entry, n: nat, at: int): Entry {
    Plain(base, n, at).(parked := true, reason := Some(RESTART_LIMIT_CODE), parkedAt := Some(at))
  }

  /** What an entry starts its second chance as. */
  function Chance(base: Entry, at: int): Entry { base.(reason := None, parkedAt := None, autoRetriedAt := Some(at)) }

  /**
    The item's life in a crash loop, boot by boot: counted, parked, and with a second chance counted and parked
    once more.
  */
  function Expected(limit: nat, item: Item, ts: seq<int>, c: nat, n: nat): Option<Entry>
    requires n <= |ts|
  {
    if n == 0 then item.before
    else
      var base, s, p := Base(item, ts[0]), FirstCount(item, ts), Budget(limit, item, ts);
      if n <= p then Some(Plain(base, n - 1 + s, ts[n - 1]))
      else if !HasSecondChance(item) || n <= c then Some(ParkedAt(base, p + s, ts[p]))
      else if n <= c + limit then Some(Plain(Chance(base, ts[c]), n - c, ts[n - 1]))
      else if c + limit < |ts| then Some(ParkedAt(Chance(base, ts[c]), limit + 1, ts[c + limit]))
      else item.before
  }

  lemma AfterPlain(limit: nat, item: Item, base: Entry, n: nat, at: int, now: int)
    requires base.phase == item.phase && now - at < CRASH_LOOP_WINDOW_MS
    ensures After(limit, Some(Plain(base, n, at)), item, now)
         == Some(if n + 1 > limit then ParkedAt(base, n + 1, now) else Plain(base, n + 1, now))
  {
  }

  lemma AfterFirst(limit: nat, item: Item, ts: seq<int>)
    requires ts != [] && (item.before.Some? ==> !item.before.value.parked)
    ensures var base, s := Base(item, ts[0]), FirstCount(item, ts);
            s >= 1 && base.phase == item.phase
            && After(limit, item.before, item, ts[0])
            == Some(if s > limit then ParkedAt(base, s, ts[0]) else Plain(base, s, ts[0]))
  {
  }

  lemma AfterParked(limit: nat, item: Item, base: Entry, n: nat, at: int, now: int)
    requires limit >= 1 && base.phase == item.phase
    ensures var parked := Some(ParkedAt(base, n, at));
            var due := base.kind == MEETING_FINALIZATION && base.autoRetriedAt.None?
              && now - at >= AUTO_UNPARK_AFTER_MS;
            After(limit, parked, item, now) == (if due then Some(Plain(Chance(base, now), 1, now)) else parked)
  {
  }

  lemma BaseIs(item: Item, now: int)
    requires item.before.Some? ==> !item.before.value.parked && item.before.value.kind == item.kind
    ensures var base := Base(item, now); base.kind == item.kind && base.phase == item.phase
    ensures HasSecondChance(item) <==>
            Base(item, now).kind == MEETING_FINALIZATION && Base(item, now).autoRetriedAt.None?
  {
  }

  lemma ExpectedNext(limit: nat, item: Item, ts: seq<int>, c: nat, n: nat)
    requires limit >= 1 && n < |ts| && Spaced(limit, item, ts, c)
    ensures After(limit, Expected(limit, item, ts, c, n), item, ts[n]) == Expected(limit, item, ts, c, n + 1)
  {
    hide After, Plain, ParkedAt, Base, FirstCount, HasSecondChance, Chance, IsStale;
    BaseIs(item, ts[0]);
    AfterFirst(limit, item, ts);
    var base, s, p := Base(item, ts[0]), FirstCount(item, ts), Budget(limit, item, ts);
    if n == 0 {
    } else if n <= p {
      AfterPlain(limit, item, base, n - 1 + s, ts[n - 1], ts[n]);
    } else if !HasSecondChance(item) || n <= c {
      AfterParked(limit, item, base, p + s, ts[p], ts[n]);
    } else if n <= c + limit {
      ChancePhase(base, ts[c]);
      AfterPlain(limit, item, Chance(base, ts[c]), n - c, ts[n - 1], ts[n]);
    } else {
      ChancePhase(base, ts[c]);
      AfterParked(limit, item, Chance(base, ts[c]), limit + 1, ts[c + limit], ts[n]);
    }
  }

  lemma ChancePhase(base: Entry, at: int)
    ensures Chance(base, at).phase == base.phase && Chance(base, at).autoRetriedAt.Some?
  {
  }

  lemma {:induction false} TrackedIsExpected(limit: nat, item: Item, ts: seq<int>, c: nat, n: nat)
    requires limit >= 1 && n <= |ts| && Spaced(limit, item, ts, c)
    ensures Tracked(limit, item, ts[..n]) == Expected(limit, item, ts, c, n)
  {
    hide Decide, Expected, Spaced;
    if n > 0 {
      TrackedIsExpected(limit, item, ts, c, n - 1);
      assert ts[..n][..n - 1] == ts[..n - 1];
      assert ts[..n][n - 1] == ts[n - 1];
      ExpectedNext(limit, item, ts, c, n - 1);
    } else {
      ExpectedAtFirst(limit, item, ts, c);
    }
  }

  lemma ExpectedAtFirst(limit: nat, item: Item, ts: seq<int>, c: nat)
    ensures Expected(limit, item, ts, c, 0) == item.before
  {
  }

  /**
    The boots of a crash loop that still resume the item: the first of its budget, and `limit` more from its
    second chance.
  */
  predicate InBudget(limit: nat, item: Item, ts: seq<int>, c: nat, n: nat) {
    n < Budget(limit, item, ts) || (HasSecondChance(item) && c <= n < c + limit)
  }

  lemma ResumesInBudget(limit: nat, item: Item, ts: seq<int>, c: nat, n: nat)
    requires limit >= 1 && n < |ts| && Spaced(limit, item, ts, c)
    ensures Resumes(limit, item, ts[..n], ts[n]) <==> InBudget(limit, item, ts, c, n)
  {
    hide Decide, Spaced, Expected, Tracked, InBudget;
    TrackedIsExpected(limit, item, ts, c, n);
    ExpectedNext(limit, item, ts, c, n);
    DecidePass(limit, Expected(limit, item, ts, c, n), item.kind, item.id, item.phase, ts[n]);
    ParkedOutOfBudget(limit, item, ts, c, n);
  }

  lemma ParkedOutOfBudget(limit: nat, item: Item, ts: seq<int>, c: nat, n: nat)
    requires limit >= 1 && n < |ts| && Spaced(limit, item, ts, c)
    ensures Expected(limit, item, ts, c, n + 1).Some?
    ensures Expected(limit, item, ts, c, n + 1).value.parked <==> !InBudget(limit, item, ts, c, n)
  {
    hide Base, FirstCount, HasSecondChance, Chance, IsStale, Consecutive;
  }

  lemma DecidePass(limit: nat, before: Option<Entry>, kind: string, id: string, phase: string, now: int)
    ensures var d := Decide(limit, before, true, kind, id, phase, now);
            !d.Pass? && (d.Refuse? ==> before.Some? && before.value.parked)
  {
  }

  // ------------------------------------------------------------- the loop as a run of the gate

  /** The instants of the item's admissions among the first `i` calls. */
  function Times(cs: seq<Call>, key: Key, i: nat): seq<int>
    requires i <= |cs|
  {
    if i == 0 then [] else Times(cs, key, i - 1) + (if AdmitsKey(cs[i - 1], key) then [cs[i - 1].io.now] else [])
  }

  predicate AdmitsKey(c: Call, key: Key) { c.op.Admit? && KeyOf(c.op.kind, c.op.id) == key }

  /**
    The calls of a crash loop: the switch is on, reads and writes work, nothing exits cleanly, nobody retries or
    forgets the item.
  */
  predicate LoopCall(c: Call, item: Item) {
    c.enabled && c.io.readable && c.io.written && !c.op.MarkClean? && !c.op.LoseFile?
    && (c.op.Retry? || c.op.Forget? ==> KeyOf(c.op.kind, c.op.id) != ItemKey(item))
    && (AdmitsKey(c, ItemKey(item)) ==> c.op.kind == item.kind && c.op.id == item.id && c.op.phase == item.phase)
  }

  /**
    A crash loop: from a file a crashed process left, over any calls on other items, every boot that
    admits the item admits it once, and fewer than 500 items are on file.
  */
  ghost predicate IsCrashLoop(limit: nat, ws: seq<World>, cs: seq<Call>, item: Item) {
    |ws| == |cs| + 1 && ws[0].gate == NewGate(ws[0].gate.disk) && Unclean(ws[0].gate.disk)
    && Find(ws[0].gate.disk.ledger.entries, ItemKey(item)) == item.before
    && forall i :: 0 <= i < |cs| ==> Step(limit, ws[i], cs[i], ws[i + 1]) && LoopStep(ws, cs, item, i)
  }

  predicate LoopStep(ws: seq<World>, cs: seq<Call>, item: Item, i: nat)
    requires i < |cs| && |ws| == |cs| + 1
  {
    LoopCall(cs[i], item)
    && (AdmitsKey(cs[i], ItemKey(item)) ==> ItemKey(item) !in ws[i].gate.seen)
    && (ws[i].gate.disk.Stored? ==> |ws[i].gate.disk.ledger.entries| < MAX_ENTRIES)
  }

  /**
    Between calls of a crash loop, memory is what the file says, the marker is unclean, and the item's entry is
    this one.
  */
  predicate Loops(g: Gate, key: Key, e: Option<Entry>) {
    g.disk.Stored? && !g.disk.ledger.clean && Find(g.disk.ledger.entries, key) == e
    && (g.file.Some? ==> g.file.value == g.disk.ledger && g.intact)
    && (g.booted ==> g.file.Some? && g.crashed == Some(true))
  }

  /** Saving at most 500 entries keeps the item's, unless it has gone stale. */
  lemma SaveLoops(g: Gate, io: Io, g': Gate, key: Key, e: Option<Entry>)
    requires g.file.Some? && g.disk.Stored? && !g.file.value.clean && g.intact && io.written
             && (g.booted ==> g.crashed == Some(true))
    requires |g.file.value.entries| <= MAX_ENTRIES && Find(g.file.value.entries, key) == e
             && (e.Some? ==> !IsStale(e.value, io.now))
    requires Saved(g, io, g')
    ensures Loops(g', key, e) && |g'.disk.ledger.entries| <= |g.file.value.entries| && g'.seen == g.seen
            && g'.booted == g.booted
  {
    hide Pruned;
    var kept :| Pruned(g.file.value.entries, io.now, kept) && g'.disk == Stored(g.file.value.(entries := kept));
    SmallPruneIsUnstale(g.file.value.entries, io.now, kept);
    assert |kept| == |kept.Keys| && |g.file.value.entries| == |g.file.value.entries.Keys|;
    KeysCount(kept.Keys, g.file.value.entries.Keys);
  }

  lemma OpenLoops(g: Gate, io: Io, g': Gate, key: Key, e: Option<Entry>)
    requires Loops(g, key, e) && OpenedBoot(g, true, io, g') && io.readable && io.written
    requires |g.disk.ledger.entries| < MAX_ENTRIES && (e.Some? ==> !IsStale(e.value, io.now))
    ensures Loops(g', key, e) && g'.booted && |g'.disk.ledger.entries| < MAX_ENTRIES && g'.seen == g.seen
  {
    hide Saved;
    if !g.booted { SaveLoops(Opening(g, io), io, g', key, e); }
  }

  lemma OneMore(entries: Entries, key: Key, e: Entry)
    ensures |entries[key := e]| <= |entries| + 1
  {
    assert entries[key := e].Keys == entries.Keys + {key};
    assert |entries[key := e]| == |entries[key := e].Keys| && |entries| == |entries.Keys|;
  }

  /** A recorded entry of another item leaves this one's; the item's own becomes the one recorded. */
  lemma RecordLoops(g: Gate, io: Io, own: Key, before: Option<Entry>, entry: Entry, g': Gate, admitted: bool,
                    key: Key, e: Option<Entry>)
    requires Loops(g, key, e) && g.booted && g.file.Some? && io.written && |g.disk.ledger.entries| < MAX_ENTRIES
    requires Recorded(g, io, own, before, entry, g', admitted)
    requires own != key && e.Some? ==> !IsStale(e.value, io.now)
    requires own == key ==> !IsStale(entry, io.now)
    ensures Loops(g', key, if own == key then Some(entry) else e) && admitted == !entry.parked
  {
    hide Saved;
    var noted := g.(file := Some(g.file.value.(entries := g.file.value.entries[own := entry])));
    OneMore(g.file.value.entries, own, entry);
    SaveLoops(noted, io, g', key, if own == key then Some(entry) else e);
  }

  lemma DecideFresh(limit: nat, before: Option<Entry>, counts: bool, kind: string, id: string, phase: string, now: int)
    ensures var d := Decide(limit, before, counts, kind, id, phase, now); d.Note? ==> !IsStale(d.entry, now)
  {
  }

  lemma AdmitLoops(limit: nat, w: World, c: Call, w': World, item: Item, e: Option<Entry>)
    requires var key := ItemKey(item);
             c.op.Admit? && LoopCall(c, item) && Loops(w.gate, key, e) && |w.gate.disk.ledger.entries| < MAX_ENTRIES
             && (AdmitsKey(c, key) ==> key !in w.gate.seen) && (e.Some? ==> !IsStale(e.value, c.io.now))
    requires Admitted(limit, w.gate, c.enabled, c.io, c.op.kind, c.op.id, c.op.phase, w'.gate, c.op.admitted)
    ensures AdmitsKey(c, ItemKey(item)) ==>
              Loops(w'.gate, ItemKey(item), After(limit, e, item, c.io.now))
              && (c.op.admitted <==> match Decide(limit, e, true, item.kind, item.id, item.phase, c.io.now)
                                     case Refuse => false
                                     case Pass => true
                                     case Note(noted) => !noted.parked)
    ensures !AdmitsKey(c, ItemKey(item)) ==> Loops(w'.gate, ItemKey(item), e)
  {
    hide OpenedBoot, Recorded, Decide;
    var key := ItemKey(item);
    var g1 :| OpenedBoot(w.gate, true, c.io, g1)
      && AdmittedOpen(limit, g1, c.io, c.op.kind, c.op.id, c.op.phase, w'.gate, c.op.admitted);
    OpenLoops(w.gate, c.io, g1, key, e);
    var own := KeyOf(c.op.kind, c.op.id);
    var before, counts, marked := Find(g1.file.value.entries, own), own !in g1.seen, g1.(seen := g1.seen + {own});
    assert Load(g1, c.io) == g1;
    DecideFresh(limit, before, counts, c.op.kind, c.op.id, c.op.phase, c.io.now);
    match Decide(limit, before, counts, c.op.kind, c.op.id, c.op.phase, c.io.now)
    case Note(entry) => RecordLoops(marked, c.io, own, before, entry, w'.gate, c.op.admitted, key, e);
    case _ =>
  }

  /** At every call up to an admission of the item, its entry is what was tracked. */
  lemma {:induction false} LoopHolds(limit: nat, ws: seq<World>, cs: seq<Call>, item: Item, c: nat, i: nat, j: nat)
    requires limit >= 1 && IsCrashLoop(limit, ws, cs, item) && i <= j < |cs| && AdmitsKey(cs[j], ItemKey(item))
    requires Spaced(limit, item, Times(cs, ItemKey(item), |cs|), c)
    ensures Loops(ws[i].gate, ItemKey(item), Tracked(limit, item, Times(cs, ItemKey(item), i)))
    ensures var e := Tracked(limit, item, Times(cs, ItemKey(item), i)); e.Some? ==> !IsStale(e.value, cs[i].io.now)
  {
    hide Loops, LoopStep, Tracked, Spaced, IsStale, Step;
    if i > 0 {
      LoopHolds(limit, ws, cs, item, c, i - 1, j);
      assert Step(limit, ws[i - 1], cs[i - 1], ws[i]) && LoopStep(ws, cs, item, i - 1);
      LoopOn(limit, ws, cs, item, i - 1);
    } else {
      LoopStarts(limit, ws, cs, item);
    }
    YoungBefore(limit, ws, cs, item, c, i, j);
  }

  lemma LoopStarts(limit: nat, ws: seq<World>, cs: seq<Call>, item: Item)
    requires IsCrashLoop(limit, ws, cs, item)
    ensures Loops(ws[0].gate, ItemKey(item), Tracked(limit, item, []))
  {
    hide Step, LoopStep;
  }

  /** The item is admitted again before its entry can go stale. */
  lemma YoungBefore(limit: nat, ws: seq<World>, cs: seq<Call>, item: Item, c: nat, i: nat, j: nat)
    requires limit >= 1 && IsCrashLoop(limit, ws, cs, item) && i <= j < |cs| && AdmitsKey(cs[j], ItemKey(item))
    requires Spaced(limit, item, Times(cs, ItemKey(item), |cs|), c)
    ensures var e := Tracked(limit, item, Times(cs, ItemKey(item), i)); e.Some? ==> !IsStale(e.value, cs[i].io.now)
  {
    hide IsCrashLoop, Tracked, Spaced, IsStale, Expected;
    var key := ItemKey(item);
    var ts, m := Times(cs, key, |cs|), |Times(cs, key, i)|;
    NextTime(limit, ws, cs, item, i, j);
    TimesPrefix(cs, key, i, |cs|);
    TrackedIsExpected(limit, item, ts, c, m);
    assert ts[..m] == Times(cs, key, i);
    ExpectedYoung(limit, item, ts, c, m, cs[i].io.now);
  }

  lemma {:induction false} NextTime(limit: nat, ws: seq<World>, cs: seq<Call>, item: Item, i: nat, j: nat)
    requires IsCrashLoop(limit, ws, cs, item) && i <= j < |cs| && AdmitsKey(cs[j], ItemKey(item))
    ensures var ts, m := Times(cs, ItemKey(item), |cs|), |Times(cs, ItemKey(item), i)|;
            m < |ts| && cs[i].io.now <= ts[m]
    decreases j - i
  {
    hide AdmitsKey, ItemKey, LoopStep;
    var key := ItemKey(item);
    TimesPrefix(cs, key, i + 1, |cs|);
    if AdmitsKey(cs[i], key) {
      assert Times(cs, key, i + 1)[|Times(cs, key, i)|] == cs[i].io.now;
    } else {
      NextTime(limit, ws, cs, item, i + 1, j);
      assert Times(cs, key, i + 1) == Times(cs, key, i);
      assert Step(limit, ws[i], cs[i], ws[i + 1]) && Step(limit, ws[i + 1], cs[i + 1], ws[i + 2]);
      StepClocks(limit, ws[i], cs[i], ws[i + 1]);
      StepClocks(limit, ws[i + 1], cs[i + 1], ws[i + 2]);
    }
  }

  lemma StepClocks(limit: nat, w: World, c: Call, w': World)
    requires Step(limit, w, c, w')
    ensures w.now <= c.io.now == w'.now
  {
  }

  lemma ExpectedYoung(limit: nat, item: Item, ts: seq<int>, c: nat, m: nat, now: int)
    requires limit >= 1 && m < |ts| && Spaced(limit, item, ts, c) && now <= ts[m]
    ensures var e := Expected(limit, item, ts, c, m); e.Some? ==> !IsStale(e.value, now)
  {
    hide Base, FirstCount, HasSecondChance, Chance;
  }

  lemma LoopOn(limit: nat, ws: seq<World>, cs: seq<Call>, item: Item, i: nat)
    requires |ws| == |cs| + 1 && i < |cs| && Step(limit, ws[i], cs[i], ws[i + 1]) && LoopStep(ws, cs, item, i)
    requires var e := Tracked(limit, item, Times(cs, ItemKey(item), i));
             Loops(ws[i].gate, ItemKey(item), e) && (e.Some? ==> !IsStale(e.value, cs[i].io.now))
    ensures Loops(ws[i + 1].gate, ItemKey(item), Tracked(limit, item, Times(cs, ItemKey(item), i + 1)))
    ensures AdmitsKey(cs[i], ItemKey(item)) ==>
              (cs[i].op.admitted <==> Resumes(limit, item, Times(cs, ItemKey(item), i), cs[i].io.now))
  {
    hide Admitted, OpenedBoot, Retried, Forgot, After, Tracked, Loops, IsStale, Load, Decide;
    var w, c, w', key := ws[i], cs[i], ws[i + 1], ItemKey(item);
    var ts, later := Times(cs, key, i), Times(cs, key, i + 1);
    var e := Tracked(limit, item, ts);
    if AdmitsKey(c, key) {
      TrackedNext(limit, item, ts, later, c.io.now);
    } else {
      assert later == ts + [] == ts;
    }
    if c.op.Admit? {
      assert |w.gate.disk.ledger.entries| < MAX_ENTRIES by { LoopsStored(w.gate, key, e); }
      AdmitLoops(limit, w, c, w', item, e);
    } else {
      OtherLoops(limit, w, c, w', item, e);
    }
  }

  lemma TrackedNext(limit: nat, item: Item, ts: seq<int>, later: seq<int>, now: int)
    requires later == ts + [now]
    ensures Tracked(limit, item, later) == After(limit, Tracked(limit, item, ts), item, now)
  {
    hide After;
    assert later[..|later| - 1] == ts;
  }

  lemma LoopsStored(g: Gate, key: Key, e: Option<Entry>)
    requires Loops(g, key, e)
    ensures g.disk.Stored?
  {
  }

  lemma OtherLoops(limit: nat, w: World, c: Call, w': World, item: Item, e: Option<Entry>)
    requires Step(limit, w, c, w') && LoopCall(c, item) && !c.op.Admit? && Loops(w.gate, ItemKey(item), e)
    requires w.gate.disk.Stored? ==> |w.gate.disk.ledger.entries| < MAX_ENTRIES
    requires e.Some? ==> !IsStale(e.value, c.io.now)
    ensures Loops(w'.gate, ItemKey(item), e)
  {
    hide OpenedBoot, Saved, IsStale;
    var l, key := Load(w.gate, c.io), ItemKey(item);
    match c.op
    case OpenBoot => OpenLoops(w.gate, c.io, w'.gate, key, e);
    case Retry(k, o) =>
      if KeyOf(k, o) in l.file.value.entries {
        var entry := RetriedEntry(l.file.value.entries[KeyOf(k, o)], c.io.now);
        SameSize(l.file.value.entries, KeyOf(k, o), entry);
        SaveLoops(l.(file := Some(l.file.value.(entries := l.file.value.entries[KeyOf(k, o) := entry]))), c.io, w'.gate,
          key, e);
      }
    case Forget(k, o) =>
      if KeyOf(k, o) in l.file.value.entries {
        FewerLeft(l.file.value.entries, KeyOf(k, o));
        SaveLoops(l.(file := Some(l.file.value.(entries := l.file.value.entries - {KeyOf(k, o)}))), c.io, w'.gate, key,
          e);
      }
    case _ =>
  }

  lemma SameSize(entries: Entries, key: Key, e: Entry)
    requires key in entries
    ensures |entries[key := e]| == |entries|
  {
    assert entries[key := e].Keys == entries.Keys;
    assert |entries[key := e]| == |entries[key := e].Keys| && |entries| == |entries.Keys|;
  }

  lemma FewerLeft(entries: Entries, key: Key)
    ensures |entries - {key}| <= |entries|
  {
    KeysCount((entries - {key}).Keys, entries.Keys);
    assert |entries - {key}| == |(entries - {key}).Keys| && |entries| == |entries.Keys|;
  }

  lemma {:induction false} TimesPrefix(cs: seq<Call>, key: Key, i: nat, j: nat)
    requires i <= j <= |cs|
    ensures Times(cs, key, i) <= Times(cs, key, j)
  {
    if i < j { TimesPrefix(cs, key, i, j - 1); }
  }

  /**
    Crash loops end. In a crash loop whose counts come under 30 minutes apart, an item not parked before is resumed
    on its first boots, as many as the limit leaves it, and refused on every later one; only a meeting finalization
    that has not had its second chance is resumed on exactly `limit` more, from the first boot 30 minutes or more
    after its park.
  */
  lemma CrashLoopsEnd(limit: nat, ws: seq<World>, cs: seq<Call>, item: Item, c: nat, i: nat)
    requires limit >= 1 && IsCrashLoop(limit, ws, cs, item)
    requires i < |cs| && AdmitsKey(cs[i], ItemKey(item))
    requires Spaced(limit, item, Times(cs, ItemKey(item), |cs|), c)
    ensures cs[i].op.admitted <==>
            InBudget(limit, item, Times(cs, ItemKey(item), |cs|), c, |Times(cs, ItemKey(item), i)|)
    ensures item.before.None? ==> Budget(limit, item, Times(cs, ItemKey(item), |cs|)) == limit
  {
    hide Step, LoopStep, Loops, Resumes, Spaced, Tracked, InBudget, AdmitsKey;
    var key := ItemKey(item);
    var ts, n := Times(cs, key, |cs|), |Times(cs, key, i)|;
    assert Step(limit, ws[i], cs[i], ws[i + 1]) && LoopStep(ws, cs, item, i);
    LoopHolds(limit, ws, cs, item, c, i, i);
    hide IsCrashLoop;
    LoopOn(limit, ws, cs, item, i);
    TimesPrefix(cs, key, i, |cs|);
    TimesPrefix(cs, key, i + 1, |cs|);
    assert ts[..n] == Times(cs, key, i) && ts[n] == Times(cs, key, i + 1)[n] == cs[i].io.now;
    ResumesInBudget(limit, item, ts, c, n);
  }
}
