/**
  Runs of the boot-resume gate: processes that open, admit, crash and exit over one ledger file, under
  writes that may fail and a file that may be lost. Nothing is parked without a crash loop behind it.
*/
module BootRuns {
  import opened Wrappers
  import opened BootLedger

  datatype Op =
    | NewProcess | LoseFile(left: Disk) | Peek | OpenBoot | MarkClean
    | Admit(kind: string, id: string, phase: string, admitted: bool)
    | Retry(kind: string, id: string) | Forget(kind: string, id: string)

  datatype Call = Call(op: Op, enabled: bool, io: Io)

  /** `boot` numbers the processes. */
  datatype World = World(gate: Gate, now: int, boot: nat)

  function NewGate(disk: Disk): Gate { Gate(disk, None, false, false, None, {}) }

  ghost predicate Step(limit: nat, w: World, c: Call, w': World) {
    w.now <= c.io.now == w'.now
    && w'.boot == (if c.op.NewProcess? then w.boot + 1 else w.boot)
    && match c.op
       case NewProcess => w'.gate == NewGate(w.gate.disk)
       case LoseFile(left) => !left.Stored? && w'.gate == w.gate.(disk := left)
       case Peek => w'.gate == if c.enabled then Load(w.gate, c.io) else w.gate
       case OpenBoot => OpenedBoot(w.gate, c.enabled, c.io, w'.gate)
       case MarkClean => MarkedClean(w.gate, c.enabled, c.io, w'.gate)
       case Admit(kind, id, phase, admitted) => Admitted(limit, w.gate, c.enabled, c.io, kind, id,
         phase, w'.gate, admitted)
       case Retry(kind, id) => exists r :: Retried(w.gate, c.enabled, c.io, kind, id, w'.gate, r)
       case Forget(kind, id) => Forgot(w.gate, c.enabled, c.io, kind, id, w'.gate)
  }

  ghost predicate IsRun(limit: nat, ws: seq<World>, cs: seq<Call>) {
    |ws| == |cs| + 1 && !ws[0].gate.disk.Stored? && ws[0].gate == NewGate(ws[0].gate.disk)
    && forall i :: 0 <= i < |cs| ==> Step(limit, ws[i], cs[i], ws[i + 1])
  }

  // ------------------------------------------------------------- what one step does to one entry

  /** The ledger in memory, or the one on file, holds this entry. */
  predicate Held(g: Gate, key: Key, e: Entry) {
    (g.file.Some? && key in g.file.value.entries && g.file.value.entries[key] == e)
    || (g.disk.Stored? && key in g.disk.ledger.entries && g.disk.ledger.entries[key] == e)
  }

  /** The step durably counts the item, at this phase, on a crashed boot that had not counted it. */
  predicate Counts(w: World, c: Call, w': World, key: Key, phase: string) {
    c.op.Admit? && c.enabled && c.io.written && KeyOf(c.op.kind, c.op.id) == key && c.op.phase == phase
    && w'.gate.crashed == Some(true) && key !in w.gate.seen
  }

  function InMemory(w: World, c: Call): Entries { Load(w.gate, c.io).file.value.entries }

  /** The step durably starts the item over: a retry, a forget, or a clean exit of a boot that had admitted it. */
  predicate Resets(w: World, c: Call, key: Key) {
    c.enabled && c.io.written && key in InMemory(w, c)
    && match c.op
       case Retry(kind, id) => KeyOf(kind, id) == key
       case Forget(kind, id) => KeyOf(kind, id) == key
       case MarkClean => w.gate.booted && key in w.gate.seen && !InMemory(w, c)[key].parked
       case _ => false
  }

  predicate KeptFrom(w: World, c: Call, key: Key, e: Entry) { Held(w.gate, key, e) && !Resets(w, c, key) }

  predicate StartedOver(e: Entry) { e.attempts == 0 && !e.parked }

  /** `e` is what counting `before` on this step made, and the count was consecutive. */
  predicate Follows(before: Entry, e: Entry, now: int) {
    !before.parked && before.phase == e.phase && e.attempts == before.attempts + 1
    && before.lastAttemptAt.Some? && now - before.lastAttemptAt.value < CRASH_LOOP_WINDOW_MS
  }

  ghost predicate JustCounted(limit: nat, w: World, c: Call, w': World, key: Key, e: Entry) {
    Counts(w, c, w', key, e.phase) && e.lastAttemptAt == Some(c.io.now) && key in w'.gate.seen
    && (e.parked <==> e.attempts > limit) && (e.parked ==> e.parkedAt == Some(c.io.now))
    && (e.attempts == 1 || exists before :: Held(w.gate, key, before) && Follows(before, e, c.io.now))
  }

  /** Every entry of `after` was in `before`. */
  predicate Within(after: Entries, before: Entries) { forall k :: k in after ==> k in before && after[k] == before[k] }

  lemma SavedWithin(g: Gate, io: Io, g': Gate)
    requires g.file.Some? && Saved(g, io, g')
    ensures g'.file.Some? && Within(g'.file.value.entries, g.file.value.entries)
            && g'.file.value.clean == g.file.value.clean
    ensures g'.disk == if io.written then Stored(g'.file.value) else g.disk
    ensures g'.crashed == g.crashed && g'.seen == g.seen && g'.booted == g.booted && g'.intact == g.intact
  {
  }

  lemma LoadHolds(g: Gate, io: Io, key: Key, e: Entry)
    requires Held(Load(g, io), key, e)
    ensures Held(g, key, e)
  {
  }

  lemma OpenedHolds(g: Gate, enabled: bool, io: Io, g': Gate, key: Key, e: Entry)
    requires OpenedBoot(g, enabled, io, g') && Held(g', key, e)
    ensures Held(g, key, e)
  {
    hide Saved;
    if enabled && !g.booted {
      SavedWithin(Opening(g, io), io, g');
    }
  }

  lemma MarkedEntry(w: World, c: Call, w': World, key: Key, e: Entry)
    requires c.op.MarkClean? && MarkedClean(w.gate, c.enabled, c.io, w'.gate) && Held(w'.gate, key, e)
    ensures KeptFrom(w, c, key, e) || StartedOver(e)
  {
    hide Saved;
    if c.enabled && w.gate.booted {
      var l := Load(w.gate, c.io);
      SavedWithin(l.(file := Some(Ledger(true, CleanEntries(l.file.value.entries, l.seen, c.io.now)))), c.io, w'.gate);
    }
  }

  lemma RetriedEntryIs(w: World, c: Call, w': World, key: Key, e: Entry)
    requires c.op.Retry? && (exists r :: Retried(w.gate, c.enabled, c.io, c.op.kind, c.op.id, w'.gate, r))
             && Held(w'.gate, key, e)
    ensures KeptFrom(w, c, key, e) || StartedOver(e)
  {
    hide Saved;
    var l := Load(w.gate, c.io);
    var entries, own := l.file.value.entries, KeyOf(c.op.kind, c.op.id);
    if c.enabled && own in entries {
      SavedWithin(l.(file := Some(l.file.value.(entries := entries[own := RetriedEntry(entries[own], c.io.now)]))),
        c.io, w'.gate);
    }
  }

  lemma ForgottenEntry(w: World, c: Call, w': World, key: Key, e: Entry)
    requires c.op.Forget? && Forgot(w.gate, c.enabled, c.io, c.op.kind, c.op.id, w'.gate) && Held(w'.gate, key, e)
    ensures KeptFrom(w, c, key, e)
  {
    hide Saved;
    var l := Load(w.gate, c.io);
    var entries, own := l.file.value.entries, KeyOf(c.op.kind, c.op.id);
    if c.enabled && own in entries {
      SavedWithin(l.(file := Some(l.file.value.(entries := entries - {own}))), c.io, w'.gate);
    }
  }

  /** What recording does: only the item's own entry is new, and only when the write went through. */
  lemma RecordedHolds(g: Gate, io: Io, own: Key, before: Option<Entry>, entry: Entry, g': Gate,
                      admitted: bool, key: Key, e: Entry)
    requires g.file.Some? && before == Find(g.file.value.entries, own)
             && Recorded(g, io, own, before, entry, g', admitted)
    requires Held(g', key, e)
    ensures Held(g, key, e) || (io.written && key == own && e == entry)
    ensures g'.crashed == g.crashed && g'.seen == g.seen
  {
    hide Saved;
    var noted := g.(file := Some(g.file.value.(entries := g.file.value.entries[own := entry])));
    var saved :| Saved(noted, io, saved) && saved.file.Some?
      && g' == (if io.written then saved
         else saved.(file := Some(saved.file.value.(entries := Restore(saved.file.value.entries, own, before)))));
    SavedWithin(noted, io, saved);
  }

  predicate CountOf(limit: nat, before: Option<Entry>, e: Entry, phase: string, now: int) {
    e.phase == phase && e.lastAttemptAt == Some(now)
    && (e.parked <==> e.attempts > limit) && (e.parked ==> e.parkedAt == Some(now))
    && (e.attempts == 1 || (before.Some? && Follows(before.value, e, now)))
  }

  lemma DecideCounts(limit: nat, before: Option<Entry>, counts: bool, kind: string, id: string, phase: string, now: int)
    ensures var d := Decide(limit, before, counts, kind, id, phase, now);
            d.Note? ==> (!counts ==> StartedOver(d.entry)) && (counts ==> CountOf(limit, before, d.entry, phase, now))
  {
  }

  lemma AdmittedEntry(limit: nat, w: World, c: Call, w': World, key: Key, e: Entry)
    requires c.op.Admit?
             && Admitted(limit, w.gate, c.enabled, c.io, c.op.kind, c.op.id, c.op.phase, w'.gate, c.op.admitted)
    requires Held(w'.gate, key, e)
    ensures KeptFrom(w, c, key, e) || StartedOver(e) || JustCounted(limit, w, c, w', key, e)
  {
    hide Saved, Held, OpenedBoot, Load, Decide, Recorded, Follows;
    if c.enabled {
      var g1 :| OpenedBoot(w.gate, true, c.io, g1)
        && AdmittedOpen(limit, g1, c.io, c.op.kind, c.op.id, c.op.phase, w'.gate, c.op.admitted);
      OpenedSeen(w.gate, c.io, g1);
      var own, l := KeyOf(c.op.kind, c.op.id), Load(g1, c.io);
      LoadSeen(g1, c.io);
      var before, counts := Find(l.file.value.entries, own), l.crashed == Some(true) && own !in l.seen;
      DecideCounts(limit, before, counts, c.op.kind, c.op.id, c.op.phase, c.io.now);
      var marked := l.(seen := l.seen + {own});
      match Decide(limit, before, counts, c.op.kind, c.op.id, c.op.phase, c.io.now)
      case Note(entry) =>
        RecordedHolds(marked, c.io, own, before, entry, w'.gate, c.op.admitted, key, e);
        if Held(marked, key, e) {
          HeldBefore(w, c, g1, l, marked, key, e);
        } else if counts && e.attempts != 1 {
          assert Held(marked, own, before.value) by { FindHeld(marked, own); }
          HeldBefore(w, c, g1, l, marked, own, before.value);
        }
      case _ => HeldBefore(w, c, g1, l, marked, key, e);
    }
  }

  lemma FindHeld(g: Gate, key: Key)
    requires g.file.Some? && key in g.file.value.entries
    ensures Held(g, key, g.file.value.entries[key])
  {
  }

  lemma OpenedSeen(g: Gate, io: Io, g': Gate)
    requires OpenedBoot(g, true, io, g')
    ensures g'.seen == g.seen
  {
    hide Saved;
    if !g.booted { SavedWithin(Opening(g, io), io, g'); }
  }

  lemma LoadSeen(g: Gate, io: Io)
    ensures Load(g, io).seen == g.seen && Load(g, io).crashed == g.crashed
  {
  }

  lemma HeldBefore(w: World, c: Call, g1: Gate, l: Gate, marked: Gate, key: Key, e: Entry)
    requires OpenedBoot(w.gate, true, c.io, g1) && l == Load(g1, c.io) && c.op.Admit?
    requires marked == l.(seen := marked.seen) && Held(marked, key, e)
    ensures KeptFrom(w, c, key, e)
  {
    hide OpenedBoot, Load;
    LoadHolds(g1, c.io, key, e);
    OpenedHolds(w.gate, true, c.io, g1, key, e);
  }

  lemma StepEntry(limit: nat, w: World, c: Call, w': World, key: Key, e: Entry)
    requires Step(limit, w, c, w') && Held(w'.gate, key, e)
    ensures KeptFrom(w, c, key, e) || StartedOver(e) || JustCounted(limit, w, c, w', key, e)
  {
    hide OpenedBoot, MarkedClean, Admitted, Retried, Forgot, Counts, JustCounted;
    match c.op
    case MarkClean => MarkedEntry(w, c, w', key, e);
    case Retry(_, _) => RetriedEntryIs(w, c, w', key, e);
    case Forget(_, _) => ForgottenEntry(w, c, w', key, e);
    case Admit(_, _, _, _) => AdmittedEntry(limit, w, c, w', key, e);
    case OpenBoot => OpenedHolds(w.gate, c.enabled, c.io, w'.gate, key, e);
    case _ =>
  }

  // ------------------------------------------------------------- no false park

  /**
    The crash loop behind an entry: one count per attempt, each durable, each on a later crashed boot, each
    under 30 minutes after the one before, all at the entry's phase, and nothing started it over since.
  */
  ghost predicate LoopBehind(ws: seq<World>, cs: seq<Call>, upto: nat, key: Key, e: Entry, loop: seq<nat>)
    requires upto < |ws| == |cs| + 1
  {
    |loop| == e.attempts
    && (forall k :: 0 <= k < |loop| ==>
       loop[k] < upto && Counts(ws[loop[k]], cs[loop[k]], ws[loop[k] + 1], key, e.phase))
    && (forall k, l :: 0 <= k < l < |loop| ==> loop[k] < loop[l] && ws[loop[k]].boot < ws[loop[l]].boot)
    && (forall k :: 0 < k < |loop| ==> cs[loop[k]].io.now - cs[loop[k - 1]].io.now < CRASH_LOOP_WINDOW_MS)
    && (|loop| > 0 ==>
          e.lastAttemptAt == Some(cs[loop[|loop| - 1]].io.now)
          && forall n :: loop[0] <= n < upto ==> !Resets(ws[n], cs[n], key))
  }

  /** One count per boot: an entry counted in the running process is marked as seen. */
  predicate SeenThisBoot(ws: seq<World>, upto: nat, key: Key, loop: seq<nat>)
    requires upto < |ws| && forall k :: 0 <= k < |loop| ==> loop[k] < upto
  {
    forall k :: 0 <= k < |loop| ==>
      ws[loop[k]].boot < ws[upto].boot || (ws[loop[k]].boot == ws[upto].boot && key in ws[upto].gate.seen)
  }

  lemma SeenStays(limit: nat, w: World, c: Call, w': World, key: Key)
    requires Step(limit, w, c, w')
    ensures w'.boot == w.boot || w'.boot == w.boot + 1
    ensures w'.boot == w.boot && key in w.gate.seen ==> key in w'.gate.seen
  {
    hide Pruned, Decide, CleanEntries;
  }

  lemma KeptLoop(limit: nat, ws: seq<World>, cs: seq<Call>, i: nat, key: Key, e: Entry, loop: seq<nat>)
    requires |ws| == |cs| + 1 && i < |cs| && Step(limit, ws[i], cs[i], ws[i + 1])
    requires LoopBehind(ws, cs, i, key, e, loop) && SeenThisBoot(ws, i, key, loop) && !Resets(ws[i], cs[i], key)
    ensures LoopBehind(ws, cs, i + 1, key, e, loop) && SeenThisBoot(ws, i + 1, key, loop)
  {
    hide Step, Counts, Resets;
    SeenStays(limit, ws[i], cs[i], ws[i + 1], key);
  }

  lemma GrownLoop(limit: nat, ws: seq<World>, cs: seq<Call>, i: nat, key: Key, before: Entry, e: Entry, loop: seq<nat>)
    requires |ws| == |cs| + 1 && i < |cs| && Step(limit, ws[i], cs[i], ws[i + 1])
    requires LoopBehind(ws, cs, i, key, before, loop) && SeenThisBoot(ws, i, key, loop)
    requires JustCounted(limit, ws[i], cs[i], ws[i + 1], key, e) && Follows(before, e, cs[i].io.now)
    ensures LoopBehind(ws, cs, i + 1, key, e, loop + [i]) && SeenThisBoot(ws, i + 1, key, loop + [i])
  {
    hide Step, LoopBehind, SeenThisBoot, Counts, Resets;
    SeenStays(limit, ws[i], cs[i], ws[i + 1], key);
    NoResetHere(ws[i], cs[i], ws[i + 1], key, e.phase);
    CountSameBoot(limit, ws[i], cs[i], ws[i + 1], key, e.phase);
    LoopGrows(ws, cs, i, key, before, e, loop, cs[i].io.now);
    SeenGrows(ws, cs, i, key, before, loop);
  }

  lemma LoopGrows(ws: seq<World>, cs: seq<Call>, i: nat, key: Key, before: Entry, e: Entry, loop: seq<nat>, now: int)
    requires |ws| == |cs| + 1 && i < |cs| && now == cs[i].io.now && Counts(ws[i], cs[i], ws[i + 1], key, e.phase)
    requires LoopBehind(ws, cs, i, key, before, loop) && SeenThisBoot(ws, i, key, loop) && key !in ws[i].gate.seen
    requires Follows(before, e, now) && e.lastAttemptAt == Some(now) && !Resets(ws[i], cs[i], key)
    ensures LoopBehind(ws, cs, i + 1, key, e, loop + [i])
  {
    hide Counts, Resets;
    var longer := loop + [i];
    assert forall k :: 0 <= k < |loop| ==> longer[k] == loop[k];
    if |loop| > 0 { assert longer[0] == loop[0]; }
  }

  lemma SeenGrows(ws: seq<World>, cs: seq<Call>, i: nat, key: Key, before: Entry, loop: seq<nat>)
    requires |ws| == |cs| + 1 && i < |cs| && LoopBehind(ws, cs, i, key, before, loop) && SeenThisBoot(ws, i, key, loop)
    requires ws[i + 1].boot == ws[i].boot && key in ws[i + 1].gate.seen
    ensures SeenThisBoot(ws, i + 1, key, loop + [i])
  {
    hide Counts, Resets;
  }

  lemma NoResetHere(w: World, c: Call, w': World, key: Key, phase: string)
    requires Counts(w, c, w', key, phase)
    ensures !Resets(w, c, key) && key !in w.gate.seen
  {
  }

  lemma CountSameBoot(limit: nat, w: World, c: Call, w': World, key: Key, phase: string)
    requires Counts(w, c, w', key, phase) && Step(limit, w, c, w')
    ensures w'.boot == w.boot
  {
    hide Admitted;
  }

  ghost predicate Explained(limit: nat, ws: seq<World>, cs: seq<Call>, i: nat, key: Key, e: Entry)
    requires i < |ws| == |cs| + 1
  {
    (e.parked ==> e.attempts > limit && e.parkedAt == e.lastAttemptAt)
    && exists loop :: LoopBehind(ws, cs, i, key, e, loop) && SeenThisBoot(ws, i, key, loop)
  }

  lemma StartedOverExplained(limit: nat, ws: seq<World>, cs: seq<Call>, i: nat, key: Key, e: Entry)
    requires i < |ws| == |cs| + 1 && StartedOver(e)
    ensures Explained(limit, ws, cs, i, key, e)
  {
    assert LoopBehind(ws, cs, i, key, e, []) && SeenThisBoot(ws, i, key, []);
  }

  lemma FirstCountExplained(limit: nat, ws: seq<World>, cs: seq<Call>, i: nat, key: Key, e: Entry)
    requires |ws| == |cs| + 1 && i < |cs| && Step(limit, ws[i], cs[i], ws[i + 1])
    requires JustCounted(limit, ws[i], cs[i], ws[i + 1], key, e) && e.attempts == 1
    ensures Explained(limit, ws, cs, i + 1, key, e)
  {
    NoResetHere(ws[i], cs[i], ws[i + 1], key, e.phase);
    CountSameBoot(limit, ws[i], cs[i], ws[i + 1], key, e.phase);
    hide Step, Resets, Counts;
    assert LoopBehind(ws, cs, i + 1, key, e, [i]) && SeenThisBoot(ws, i + 1, key, [i]);
  }

  lemma KeptExplained(limit: nat, ws: seq<World>, cs: seq<Call>, i: nat, key: Key, e: Entry)
    requires |ws| == |cs| + 1 && i < |cs| && Step(limit, ws[i], cs[i], ws[i + 1])
    requires Explained(limit, ws, cs, i, key, e) && !Resets(ws[i], cs[i], key)
    ensures Explained(limit, ws, cs, i + 1, key, e)
  {
    hide Step, SeenThisBoot, Resets;
    var loop :| LoopBehind(ws, cs, i, key, e, loop) && SeenThisBoot(ws, i, key, loop);
    KeptLoop(limit, ws, cs, i, key, e, loop);
  }

  lemma GrownExplained(limit: nat, ws: seq<World>, cs: seq<Call>, i: nat, key: Key, before: Entry, e: Entry)
    requires |ws| == |cs| + 1 && i < |cs| && Step(limit, ws[i], cs[i], ws[i + 1])
    requires Explained(limit, ws, cs, i, key, before)
    requires JustCounted(limit, ws[i], cs[i], ws[i + 1], key, e) && Follows(before, e, cs[i].io.now)
    ensures Explained(limit, ws, cs, i + 1, key, e)
  {
    hide Step, SeenThisBoot, Counts, Follows;
    var loop :| LoopBehind(ws, cs, i, key, before, loop) && SeenThisBoot(ws, i, key, loop);
    GrownLoop(limit, ws, cs, i, key, before, e, loop);
  }

  lemma {:induction false} EntriesExplained(limit: nat, ws: seq<World>, cs: seq<Call>, i: nat, key: Key, e: Entry)
    requires IsRun(limit, ws, cs) && i < |ws| && Held(ws[i].gate, key, e)
    ensures Explained(limit, ws, cs, i, key, e)
  {
    if i > 0 {
      assert Step(limit, ws[i - 1], cs[i - 1], ws[i]);
      hide Step, LoopBehind, SeenThisBoot, Counts, Held, Resets, Follows, Explained;
      StepEntry(limit, ws[i - 1], cs[i - 1], ws[i], key, e);
      if StartedOver(e) {
        StartedOverExplained(limit, ws, cs, i, key, e);
      } else if KeptFrom(ws[i - 1], cs[i - 1], key, e) {
        EntriesExplained(limit, ws, cs, i - 1, key, e);
        KeptExplained(limit, ws, cs, i - 1, key, e);
      } else if e.attempts == 1 {
        FirstCountExplained(limit, ws, cs, i - 1, key, e);
      } else {
        var before :| Held(ws[i - 1].gate, key, before) && Follows(before, e, cs[i - 1].io.now);
        EntriesExplained(limit, ws, cs, i - 1, key, before);
        GrownExplained(limit, ws, cs, i - 1, key, before, e);
      }
    }
  }

  /**
    No false park: in every state of every run, behind each parked entry, in memory or on file, stand at
    least `limit` + 1 durable counts on distinct crashed boots, each under 30 minutes after the last, all at
    one phase, and no durable retry, forget or clean exit of a boot that admitted it came in between or since.
  */
  lemma ParkedOnlyByACrashLoop(limit: nat, ws: seq<World>, cs: seq<Call>, i: nat, key: Key, e: Entry)
    returns (loop: seq<nat>)
    requires IsRun(limit, ws, cs) && i < |ws| && Held(ws[i].gate, key, e) && e.parked
    ensures |loop| > limit && LoopBehind(ws, cs, i, key, e, loop)
  {
    assert |ws| == |cs| + 1;
    hide IsRun, Held;
    EntriesExplained(limit, ws, cs, i, key, e);
    loop :| LoopBehind(ws, cs, i, key, e, loop) && SeenThisBoot(ws, i, key, loop);
  }

  // ------------------------------------------------------------- an exit that did not reach the file

  const SomeKind := MEETING_FINALIZATION

  const Quick := Io(0, true, true, true)

  /** Saving one young entry, or none, keeps what there is. */
  lemma SmallSave(g: Gate, written: bool)
    requires g.file.Some? && |g.file.value.entries| <= 1 && forall k :: k in g.file.value.entries ==>
             !IsStale(g.file.value.entries[k], 0)
    ensures Saved(g, Quick.(written := written), if written then g.(disk := Stored(g.file.value)) else g)
  {
    assert Unstale(g.file.value.entries, 0) == g.file.value.entries;
    assert Pruned(g.file.value.entries, 0, g.file.value.entries);
    assert g.file == Some(g.file.value.(entries := g.file.value.entries));
  }

  function CountedOnce(n: nat, parked: bool): Entry {
    Entry(SomeKind, "id", "phase", n, parked, if parked then Some(RESTART_LIMIT_CODE)
      else None, if parked then Some(0) else None, None,
          Some(0), None, Some(0))
  }

  function OneEntry(e: Entry): Ledger { Ledger(false, map[KeyOf(SomeKind, "id") := e]) }

  function Opened(ledger: Ledger): Gate { Gate(Stored(ledger), Some(ledger), true, true, Some(true), {}) }

  function Admitting(admitted: bool): Call { Call(Admit(SomeKind, "id", "phase", admitted), true, Quick) }

  function LedgerWith(before: Option<Entry>): Ledger
  {
    if before.Some? then OneEntry(before.value) else Ledger(false, map[])
  }

  lemma OpeningOver(before: Option<Entry>)
    requires before.Some? ==> !IsStale(before.value, 0)
    ensures OpenedBoot(NewGate(Stored(LedgerWith(before))), true, Quick, Opened(LedgerWith(before)))
    ensures Find(LedgerWith(before).entries, KeyOf(SomeKind, "id")) == before
  {
    hide IsStale, KeyOf, Saved;
    var g1 := Opened(LedgerWith(before));
    assert Opening(NewGate(g1.disk), Quick) == g1;
    SmallSave(g1, true);
  }

  lemma RecordingOver(before: Option<Entry>, e: Entry)
    requires !IsStale(e, 0)
    ensures var key, l := KeyOf(SomeKind, "id"), Opened(LedgerWith(before));
            Recorded(l.(seen := l.seen + {key}), Quick, key, before, e, Opened(OneEntry(e)).(seen := {key}), !e.parked)
  {
    hide IsStale, KeyOf, Saved;
    var key, l := KeyOf(SomeKind, "id"), Opened(LedgerWith(before));
    var marked := l.(seen := l.seen + {key});
    var noted := marked.(file := Some(l.file.value.(entries := l.file.value.entries[key := e])));
    assert l.file.value.entries[key := e] == map[key := e];
    assert noted.file == Some(OneEntry(e));
    SmallSave(noted, true);
    assert noted.(disk := Stored(OneEntry(e))) == Opened(OneEntry(e)).(seen := {key});
  }

  /** A new process over an unclean file of at most one young entry: its first admission counts. */
  lemma CountingStep(before: Option<Entry>, e: Entry, boot: nat)
    requires Decide(1, before, true, SomeKind, "id", "phase", 0) == Note(e) && !IsStale(e, 0)
             && (before.Some? ==> !IsStale(before.value, 0))
    ensures Step(1, World(NewGate(Stored(LedgerWith(before))), 0, boot), Admitting(!e.parked),
                 World(Opened(OneEntry(e)).(seen := {KeyOf(SomeKind, "id")}), 0, boot))
  {
    hide Decide, IsStale, KeyOf, OpenedBoot, Recorded, LedgerWith;
    OpeningOver(before);
    RecordingOver(before, e);
    assert Load(Opened(LedgerWith(before)), Quick) == Opened(LedgerWith(before));
  }

  /**
    A clean exit whose write fails does not start the count over: the item is admitted on one crashed boot, that
    boot exits cleanly, and with a limit of one the next boot parks the item.
  */
  lemma ParkedAcrossACleanExit() returns (ws: seq<World>, cs: seq<Call>, i: nat)
    ensures IsRun(1, ws, cs) && i < |cs| && cs[i].op.MarkClean? && cs[i].enabled && ws[i].gate.booted
    ensures KeyOf(SomeKind, "id") in ws[i].gate.seen && ws[i].gate.disk == Stored(OneEntry(CountedOnce(1, false)))
    ensures ws[|cs|].gate.disk == Stored(OneEntry(CountedOnce(2, true)))
  {
    hide KeyOf, IsStale, Saved, Decide, Admitted;
    var key := KeyOf(SomeKind, "id");
    var first := Opened(Ledger(false, map[])).(intact := false, crashed := Some(false));
    var counted := Opened(OneEntry(CountedOnce(1, false))).(seen := {key});
    var cleaned := counted.(file := Some(Ledger(true, CleanEntries(counted.file.value.entries, {key}, 0))));
    var parked := Opened(OneEntry(CountedOnce(2, true))).(seen := {key});
    ws := [World(NewGate(Missing), 0, 0), World(first, 0, 0), World(NewGate(first.disk), 0, 1), World(counted, 0, 1),
           World(cleaned, 0, 1), World(NewGate(counted.disk), 0, 2), World(parked, 0, 2)];
    cs := [Call(OpenBoot, true, Quick), Call(NewProcess, true, Quick), Admitting(true),
      Call(MarkClean, true, Quick.(written := false)),
           Call(NewProcess, true, Quick), Admitting(false)];
    i := 3;
    CountsAre();
    SmallSave(first.(disk := Missing), true);
    CountingStep(None, CountedOnce(1, false), 1);
    assert cleaned.file.value.entries.Keys == {key};
    CleanedIsYoung(key);
    SmallSave(cleaned, false);
    CountingStep(Some(CountedOnce(1, false)), CountedOnce(2, true), 2);
  }

  lemma CleanedIsYoung(key: Key)
    ensures var entries := CleanEntries(map[key := CountedOnce(1, false)], {key}, 0);
            |entries| <= 1 && forall k :: k in entries ==> !IsStale(entries[k], 0)
  {
    var entries := CleanEntries(map[key := CountedOnce(1, false)], {key}, 0);
    assert entries == map[key := CountedOnce(1, false).(attempts := 0, lastAttemptAt := None, updatedAt := Some(0))];
  }

  lemma CountsAre()
    ensures Decide(1, None, true, SomeKind, "id", "phase", 0) == Note(CountedOnce(1, false))
    ensures Decide(1, Some(CountedOnce(1, false)), true, SomeKind, "id", "phase", 0) == Note(CountedOnce(2, true))
    ensures !IsStale(CountedOnce(1, false), 0) && !IsStale(CountedOnce(2, true), 0)
  {
  }
}
