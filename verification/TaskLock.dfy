/**
  Processes writing one tasks.md under its file lock: lock, read, check the write budget, write,
  release, with any interleaving, stall, expiry and crash. No update is lost.
*/
module TaskLock {
  import opened Wrappers
  import opened Text
  import opened TaskCheckout

  const TASK_LOCK_TTL_MS: int := 60000
  const TASK_LOCK_WRITE_BUDGET_MS: int := 5000

  /** One `file_lock` body, named by its fresh identity. `seen` is what it has read since it last wrote. */
  datatype Session =
    | Locked(seen: seq<string>)
    | Writing(seen: seq<string>, text: string, checkedAt: int)
    | Closing
    | Over

  datatype Commit = Commit(who: string, seen: seq<string>, before: string, text: string)

  /** `file` is the lock's name, `store` the lock file, `content` the tasks.md. */
  datatype World = World(file: string, now: int, store: Store, content: string,
                         sessions: map<string, Session>, log: seq<Commit>)

  datatype Event =
    | Start(who: string) | Read(who: string) | Guard(who: string, text: string) | Write(who: string) | Fail(who: string)
    | Release(who: string) | Crash(who: string)
    | OtherCheckout(id: string, user: string, exclusive: bool, ttl: int) | OtherRelease(id: string, user: string)

  /** The check before each write: still this session's lock, with the whole write budget left on it. */
  predicate GuardPasses(w: World, now: int, who: string) {
    Readable(w.store) && w.file in Live(w.store, now) && var l := Live(w.store, now)[w.file];
    l.user == who && l.expiresAt - now >= TASK_LOCK_WRITE_BUDGET_MS
  }

  function To(w: World, now: int, who: string, s: Session): World { w.(now := now, sessions := w.sessions[who := s]) }

  /**
    One event at a later instant. A session that was checked writes within the budget or not at all, which is
    what the budget assumes; an identity locks once. Other locks of the same store come and go.
  */
  predicate Step(w: World, e: Event, w': World) {
    var now := w'.now;
    w.now <= now
    && match e
       case Start(who) =>
         who !in w.sessions && !IsBlank(who)
         && var (store, r) := Checkout(w.store, now, TASK_LOCK_TTL_MS, w.file, who, true);
            w' == To(w, now, who, if r == Success then Locked([]) else Over).(store := store)
       case Read(who) =>
         who in w.sessions && w.sessions[who].Locked?
         && w' == To(w, now, who, Locked(w.sessions[who].seen + [w.content]))
       case Guard(who, text) =>
         who in w.sessions && w.sessions[who].Locked?
         && w' == To(w, now, who, if GuardPasses(w, now, who) then Writing(w.sessions[who].seen, text, now)
            else Closing)
       case Write(who) =>
         who in w.sessions && w.sessions[who].Writing? && now <= w.sessions[who].checkedAt + TASK_LOCK_WRITE_BUDGET_MS
         && var s := w.sessions[who];
            w' == To(w, now, who, Locked([])).(content := s.text, log :=
              w.log + [Commit(who, s.seen, w.content, s.text)])
       case Fail(who) =>
         who in w.sessions && (w.sessions[who].Locked? || w.sessions[who].Writing?) && w' == To(w, now, who, Closing)
       case Release(who) =>
         who in w.sessions && (w.sessions[who].Locked? || w.sessions[who].Closing?)
         && w' == To(w, now, who, Over).(store := TaskCheckout.Release(w.store, now, w.file, who).0)
       case Crash(who) => who in w.sessions && w' == To(w, now, who, Over)
       case OtherCheckout(id, user, exclusive, ttl) =>
         id != w.file && w' == w.(now := now, store := Checkout(w.store, now, ttl, id, user, exclusive).0)
       case OtherRelease(id, user) =>
         id != w.file && w' == w.(now := now, store := TaskCheckout.Release(w.store, now, id, user).0)
  }

  /** Runs start with no session open, whatever the lock store holds. */
  ghost predicate IsRun(ws: seq<World>, es: seq<Event>) {
    |ws| == |es| + 1 && ws[0].sessions == map[] && ws[0].log == [] && !IsBlank(ws[0].file)
    && forall i :: 0 <= i < |es| ==> Step(ws[i], es[i], ws[i + 1])
  }

  // ------------------------------------------------------------- the entry for the file

  /** Who the store names for the file, expired or not. */
  predicate Names(store: Store, file: string, who: string)
  {
    store.Stored? && file in store.entries && store.entries[file].user == who
  }

  /** The store names `who`, and the lock outlives the instant `until`. */
  predicate HeldUntil(store: Store, file: string, who: string, until: int) {
    Names(store, file, who) && store.entries[file].expiresAt.Some? && store.entries[file].expiresAt.value >= until
  }

  /** What a checkout does to the entry for the file: leaves it, drops it once expired, or names the caller. */
  lemma CheckoutNames(store: Store, now: int, ttl: int, id: string, user: string, exclusive: bool, file: string,
                      who: string, until: int)
    ensures var after := Checkout(store, now, ttl, id, user, exclusive).0;
            (Names(after, file, who) ==> Names(store, file, who) || (id == file && who == user))
            && (HeldUntil(store, file, who, until) && now <= until && (id != file || exclusive) ==>
               HeldUntil(after, file, who, until))
  {
    if Readable(store) && Names(store, file, who) { LiveEntry(store, now, file); }
  }

  lemma LiveEntry(store: Store, now: int, file: string)
    requires Readable(store) && store.Stored? && file in store.entries
    ensures store.entries[file].expiresAt.Some?
    ensures file in Live(store, now) <==> now <= store.entries[file].expiresAt.value
    ensures file in Live(store, now) ==> Live(store, now)[file] == LockOf(store.entries[file])
  {
  }

  lemma ReleaseNames(store: Store, now: int, id: string, user: string, file: string, who: string, until: int)
    ensures var after := TaskCheckout.Release(store, now, id, user).0;
            (Names(after, file, who) ==> Names(store, file, who))
            && (HeldUntil(store, file, who, until) && now <= until && (id != file || user != who) ==>
               HeldUntil(after, file, who, until))
  {
    if Readable(store) && Names(store, file, who) { LiveEntry(store, now, file); }
  }

  lemma CheckoutAll(store: Store, now: int, ttl: int, id: string, user: string, exclusive: bool, file: string)
    ensures var after := Checkout(store, now, ttl, id, user, exclusive).0;
            (forall who :: Names(after, file, who) ==> Names(store, file, who) || (id == file && who == user))
            && (id != file || exclusive ==>
                  forall who, until :: HeldUntil(store, file, who, until) && now <= until ==>
                    HeldUntil(after, file, who, until))
  {
    hide Checkout, Names, HeldUntil;
    var after := Checkout(store, now, ttl, id, user, exclusive).0;
    forall who ensures Names(after, file, who) ==> Names(store, file, who) || (id == file && who == user) {
      CheckoutNames(store, now, ttl, id, user, exclusive, file, who, now);
    }
    forall who, until | HeldUntil(store, file, who, until) && now <= until && (id != file || exclusive)
      ensures HeldUntil(after, file, who, until)
    {
      CheckoutNames(store, now, ttl, id, user, exclusive, file, who, until);
    }
  }

  lemma ReleaseAll(store: Store, now: int, id: string, user: string, file: string)
    ensures var after := TaskCheckout.Release(store, now, id, user).0;
            (forall who :: Names(after, file, who) ==> Names(store, file, who))
            && (forall who, until ::
                  HeldUntil(store, file, who, until) && now <= until && (id != file || who != user) ==>
                  HeldUntil(after, file, who, until))
  {
    hide TaskCheckout.Release, Names, HeldUntil;
    var after := TaskCheckout.Release(store, now, id, user).0;
    forall who ensures Names(after, file, who) ==> Names(store, file, who) {
      ReleaseNames(store, now, id, user, file, who, now);
    }
    forall who, until | HeldUntil(store, file, who, until) && now <= until && (id != file || who != user)
      ensures HeldUntil(after, file, who, until)
    {
      ReleaseNames(store, now, id, user, file, who, until);
    }
  }

  // ------------------------------------------------------------- no lost updates

  /** A session the store still names has read nothing but what the file still holds. */
  ghost predicate ReadsAreCurrent(w: World) {
    forall who ::
      who in w.sessions && Names(w.store, w.file, who) && (w.sessions[who].Locked? || w.sessions[who].Writing?) ==>
      forall i :: 0 <= i < |w.sessions[who].seen| ==> w.sessions[who].seen[i] == w.content
  }

  /** A checked session holds the lock for the rest of its write budget. */
  predicate WritersHold(w: World) {
    forall who ::
      (who in w.sessions && w.sessions[who].Writing?
       && w.now <= w.sessions[who].checkedAt + TASK_LOCK_WRITE_BUDGET_MS) ==>
      HeldUntil(w.store, w.file, who, w.sessions[who].checkedAt + TASK_LOCK_WRITE_BUDGET_MS)
  }

  /** Everything a write was computed from is the content it replaced, and each write replaced the one before. */
  predicate NothingLost(log: seq<Commit>, content: string) {
    (forall k :: 0 <= k < |log| ==> forall i :: 0 <= i < |log[k].seen| ==> log[k].seen[i] == log[k].before)
    && (forall k :: 0 < k < |log| ==> log[k].before == log[k - 1].text)
    && (|log| > 0 ==> log[|log| - 1].text == content)
  }

  ghost predicate Inv(w: World)
  {
    ReadsAreCurrent(w) && WritersHold(w) && NothingLost(w.log, w.content) && !IsBlank(w.file)
  }

  lemma GuardHolds(w: World, now: int, who: string)
    requires GuardPasses(w, now, who)
    ensures HeldUntil(w.store, w.file, who, now + TASK_LOCK_WRITE_BUDGET_MS)
  {
    LiveEntry(w.store, now, w.file);
  }

  predicate Active(w: World, who: string) { who in w.sessions && (w.sessions[who].Locked? || w.sessions[who].Writing?) }

  /** A call on the lock store that no active session loses its lock by, and that at most opens a session. */
  lemma StoreInv(w: World, w': World)
    requires Inv(w) && w.now <= w'.now && w'.file == w.file && w'.content == w.content && w'.log == w.log
    requires forall who :: Active(w', who) && w'.sessions[who] != Locked([]) ==>
               Active(w, who) && w'.sessions[who] == w.sessions[who]
               && (Names(w'.store, w.file, who) ==> Names(w.store, w.file, who))
    requires forall who, until :: Active(w', who) && w'.now <= until && HeldUntil(w.store, w.file, who, until) ==>
             HeldUntil(w'.store, w.file, who, until)
    ensures Inv(w')
  {
    hide HeldUntil, Names, NothingLost, IsBlank;
  }

  lemma StepInv(w: World, e: Event, w': World)
    requires Inv(w) && Step(w, e, w')
    ensures Inv(w')
  {
    hide Checkout, TaskCheckout.Release, GuardPasses, IsBlank, HeldUntil, Names;
    var now := w'.now;
    match e
    case Start(who) =>
      CheckoutAll(w.store, now, TASK_LOCK_TTL_MS, w.file, who, true, w.file);
      StoreInv(w, w');
    case Guard(who, text) => if GuardPasses(w, now, who) { GuardHolds(w, now, who); }
    case Write(who) => WriteInv(w, who, w');
    case Release(who) =>
      ReleaseAll(w.store, now, w.file, who, w.file);
      StoreInv(w, w');
    case OtherCheckout(id, user, exclusive, ttl) =>
      CheckoutAll(w.store, now, ttl, id, user, exclusive, w.file);
      StoreInv(w, w');
    case OtherRelease(id, user) =>
      ReleaseAll(w.store, now, id, user, w.file);
      StoreInv(w, w');
    case _ =>
  }

  lemma WriteInv(w: World, who: string, w': World)
    requires Inv(w) && Step(w, Write(who), w')
    ensures Inv(w')
  {
    hide IsBlank, HeldUntil, Names;
    HeldNames(w.store, w.file, who, w.sessions[who].checkedAt + TASK_LOCK_WRITE_BUDGET_MS);
    forall other | other != who ensures !Names(w.store, w.file, other) { NamesOne(w.store, w.file, who, other); }
  }

  lemma HeldNames(store: Store, file: string, who: string, until: int)
    requires HeldUntil(store, file, who, until)
    ensures Names(store, file, who)
  {
  }

  lemma NamesOne(store: Store, file: string, who: string, other: string)
    requires Names(store, file, who) && other != who
    ensures !Names(store, file, other)
  {
  }

  lemma {:induction false} RunInv(ws: seq<World>, es: seq<Event>, i: nat)
    requires IsRun(ws, es) && i < |ws|
    ensures Inv(ws[i])
  {
    hide Step, Inv;
    if i > 0 {
      RunInv(ws, es, i - 1);
      StepInv(ws[i - 1], es[i - 1], ws[i]);
    } else {
      FirstInv(ws[0]);
    }
  }

  lemma FirstInv(w: World)
    requires w.sessions == map[] && w.log == [] && !IsBlank(w.file)
    ensures Inv(w)
  {
  }

  /**
    No lost updates: in every run, whatever the processes do and however they stall, expire or crash, each
    committed content was computed only from reads of exactly the content it replaced, and the file is the last
    one committed.
  */
  lemma NoLostUpdates(ws: seq<World>, es: seq<Event>, i: nat)
    requires IsRun(ws, es) && i < |ws|
    ensures NothingLost(ws[i].log, ws[i].content)
  {
    hide IsRun, ReadsAreCurrent, WritersHold, NothingLost;
    RunInv(ws, es, i);
  }

  /**
    Nobody's lock is taken: a step leaves an unexpired lock on the file with its holder, unless the step is
    that holder's own release. So no process ever releases another's.
  */
  lemma OnlyTheHolderReleases(w: World, e: Event, w': World, who: string)
    requires Step(w, e, w') && Holds(w.store, w'.now, w.file, who)
    ensures Names(w'.store, w.file, who) <==> e != Release(who)
  {
    LiveEntry(w.store, w'.now, w.file);
    var now := w'.now;
    hide Checkout;
    match e
    case Start(other) => CheckoutNames(w.store, now, TASK_LOCK_TTL_MS, w.file, other, true, w.file, who, now);
    case Release(other) => if other != who { ReleaseNames(w.store, now, w.file, other, w.file, who, now); }
    case OtherCheckout(id, user, exclusive, ttl) => CheckoutNames(w.store, now, ttl, id, user,
      exclusive, w.file, who, now);
    case OtherRelease(id, user) => ReleaseNames(w.store, now, id, user, w.file, who, now);
    case _ =>
  }
}
