/**
  The lock store shared by every process that writes a tasks.md: named locks with an owner and an
  expiry, in one file that each call reads, changes and rewrites under an exclusive file lock.
*/
module TaskCheckout {
  import opened Wrappers
  import opened Text

  /** Instants in milliseconds; `None` where a timestamp does not parse or has no timezone. */
  datatype RawLock = RawLock(exactFields: bool, taskId: string, user: string,
                             lockedAt: Option<int>, expiresAt: Option<int>)

  datatype Store = Missing | Torn | Stored(entries: map<string, RawLock>)

  datatype Lock = Lock(taskId: string, user: string, lockedAt: int, expiresAt: int)

  type Locks = map<string, Lock>

  datatype CheckoutResult = Success | Conflict(held: Lock) | StoreCorrupt

  predicate IsExpired(l: Lock, now: int) { now > l.expiresAt }

  /** A stored lock is usable only with all its fields, each of its kind, and under its own key. */
  predicate ValidRaw(key: string, r: RawLock) {
    r.exactFields && !IsBlank(r.taskId) && !IsBlank(r.user) && r.taskId == key
    && r.lockedAt.Some? && r.expiresAt.Some? && r.lockedAt.value <= r.expiresAt.value
  }

  predicate Readable(store: Store) {
    match store
    case Missing => true
    case Torn => false
    case Stored(entries) => forall k :: k in entries ==> ValidRaw(k, entries[k])
  }

  function LockOf(r: RawLock): Lock
    requires r.lockedAt.Some? && r.expiresAt.Some?
  {
    Lock(r.taskId, r.user, r.lockedAt.value, r.expiresAt.value)
  }

  /** The locks a call works on: those in the store that have not expired. */
  function Live(store: Store, now: int): Locks
    requires Readable(store)
  {
    match store
    case Stored(entries) => map k | k in entries && !IsExpired(LockOf(entries[k]), now) :: LockOf(entries[k])
    case _ => map[]
  }

  function RawOf(l: Lock): RawLock { RawLock(true, l.taskId, l.user, Some(l.lockedAt), Some(l.expiresAt)) }

  function Encoded(locks: Locks): Store { Stored(map k | k in locks :: RawOf(locks[k])) }

  function Checkout(store: Store, now: int, ttl: int, id: string, user: string,
                    exclusive: bool): (Store, CheckoutResult) {
    if !Readable(store) then (store, StoreCorrupt)
    else
      var locks := Live(store, now);
      if id in locks && (locks[id].user != user || exclusive) then (Encoded(locks), Conflict(locks[id]))
      else (Encoded(locks[id := Lock(id, user, now, now + ttl)]), Success)
  }

  function Release(store: Store, now: int, id: string, user: string): (Store, CheckoutResult) {
    if !Readable(store) then (store, StoreCorrupt)
    else
      var locks := Live(store, now);
      if id !in locks then (Encoded(locks), Success)
      else if locks[id].user != user then (Encoded(locks), Conflict(locks[id]))
      else (Encoded(locks - {id}), Success)
  }

  // ------------------------------------------------------------- by loops over the store

  method EntriesFromPayload(entries: map<string, RawLock>, now: int) returns (r: Option<Locks>)
    ensures r == if Readable(Stored(entries)) then Some(Live(Stored(entries), now)) else None
  {
    var locks: Locks := map[];
    var todo := entries.Keys;
    while todo != {}
      invariant todo <= entries.Keys
      invariant forall k :: k in entries && k !in todo ==> ValidRaw(k, entries[k])
      invariant forall k :: k in locks <==> k in entries && k !in todo && !IsExpired(LockOf(entries[k]), now)
      invariant forall k :: k in locks ==> locks[k] == LockOf(entries[k])
    {
      var k :| k in todo;
      todo := todo - {k};
      if !ValidRaw(k, entries[k]) { return None; }
      if !IsExpired(LockOf(entries[k]), now) { locks := locks[k := LockOf(entries[k])]; }
    }
    assert locks == Live(Stored(entries), now);
    return Some(locks);
  }

  method PurgeExpired(locks: Locks, now: int) returns (kept: Locks)
    ensures kept == map k | k in locks && !IsExpired(locks[k], now) :: locks[k]
  {
    kept := locks;
    var todo := locks.Keys;
    while todo != {}
      invariant todo <= kept.Keys <= locks.Keys
      invariant forall k :: k in kept ==> kept[k] == locks[k] && (k in todo || !IsExpired(locks[k], now))
      invariant forall k :: k in locks && !IsExpired(locks[k], now) ==> k in kept
    {
      var k :| k in todo;
      todo := todo - {k};
      if IsExpired(kept[k], now) { kept := kept - {k}; }
    }
  }

  class TaskCheckoutManager {
    /** The lock file. */
    var store: Store

    constructor (store: Store)
      ensures this.store == store
    {
      this.store := store;
    }

    method ReadLocks(now: int) returns (r: Option<Locks>)
      ensures r == if Readable(store) then Some(Live(store, now)) else None
    {
      match store
      case Missing => return Some(map[]);
      case Torn => return None;
      case Stored(entries) => r := EntriesFromPayload(entries, now);
    }

    method Persist(locks: Locks)
      modifies this
      ensures store == Encoded(locks)
    {
      store := Stored(map k | k in locks :: RawOf(locks[k]));
    }

    method CheckOut(id: string, user: string, exclusive: bool, ttl: int, now: int) returns (r: CheckoutResult)
      modifies this
      ensures (store, r) == Checkout(old(store), now, ttl, id, user, exclusive)
    {
      var read := ReadLocks(now);
      if read.None? { return StoreCorrupt; }
      var locks := PurgeExpired(read.value, now);
      assert locks == Live(store, now);
      if id in locks {
        if locks[id].user == user && !exclusive {
          // The holder extends its own lock.
          locks := locks[id := locks[id].(lockedAt := now, expiresAt := now + ttl)];
          assert locks[id].taskId == id;
          Persist(locks);
          return Success;
        }
        r := Conflict(locks[id]);
        Persist(locks);
        return;
      }
      locks := locks[id := Lock(id, user, now, now + ttl)];
      Persist(locks);
      return Success;
    }

    method GiveBack(id: string, user: string, now: int) returns (r: CheckoutResult)
      modifies this
      ensures (store, r) == Release(old(store), now, id, user)
    {
      var read := ReadLocks(now);
      if read.None? { return StoreCorrupt; }
      var locks := PurgeExpired(read.value, now);
      assert locks == Live(store, now);
      if id !in locks {
        Persist(locks);
        return Success;
      }
      if locks[id].user != user {
        r := Conflict(locks[id]);
        Persist(locks);
        return;
      }
      locks := locks - {id};
      Persist(locks);
      return Success;
    }

    /** Read-only: never writes the store. `None` is a store that needs repair. */
    method IsLocked(id: string, now: int) returns (r: Option<Option<Lock>>)
      ensures r == if !Readable(store) then None
                   else Some(if id in Live(store, now) then Some(Live(store, now)[id]) else None)
    {
      var read := ReadLocks(now);
      if read.None? { return None; }
      var locks := PurgeExpired(read.value, now);
      assert locks == Live(store, now);
      return Some(if id in locks then Some(locks[id]) else None);
    }
  }

  // ------------------------------------------------------------- what the store promises

  /** Someone's unexpired lock on `id`. */
  predicate Holds(store: Store, now: int, id: string, user: string) {
    Readable(store) && id in Live(store, now) && Live(store, now)[id].user == user
  }

  /** A store this manager wrote reads back as what it wrote, less what has expired since. */
  lemma WrittenReadsBack(locks: Locks, now: int)
    requires forall k :: k in locks ==> ValidRaw(k, RawOf(locks[k]))
    ensures Readable(Encoded(locks))
    ensures Live(Encoded(locks), now) == map k | k in locks && !IsExpired(locks[k], now) :: locks[k]
  {
    assert forall k :: k in locks ==> LockOf(RawOf(locks[k])) == locks[k];
  }

  lemma LiveIsValid(store: Store, now: int)
    requires Readable(store)
    ensures forall k :: k in Live(store, now) ==>
            ValidRaw(k, RawOf(Live(store, now)[k])) && !IsExpired(Live(store, now)[k], now)
  {
  }

  /** The lock on `id` is the same in both stores at this instant, or in neither. */
  predicate SameLock(a: Store, b: Store, at: int, id: string)
    requires Readable(a) && Readable(b)
  {
    (id in Live(a, at) <==> id in Live(b, at)) && (id in Live(a, at) ==> Live(a, at)[id] == Live(b, at)[id])
  }

  lemma LiveLater(store: Store, now: int, later: int)
    requires Readable(store) && now <= later
    ensures Live(store, later) == map k | k in Live(store, now)
            && !IsExpired(Live(store, now)[k], later) :: Live(store, now)[k]
  {
  }

  /**
    An exclusive checkout succeeds exactly when nobody holds the lock, and the caller then holds it for
    the whole TTL; every other unexpired lock, and a lock already held, is left as it was.
  */
  lemma ExclusiveCheckout(store: Store, now: int, ttl: int, id: string, user: string, later: int)
    requires Readable(store) && ttl >= 0 && !IsBlank(id) && !IsBlank(user) && now <= later
    ensures var (after, r) := Checkout(store, now, ttl, id, user, true);
            Readable(after)
            && (r == Success <==> id !in Live(store, now))
            && (r == Success ==> (Holds(after, later, id, user) <==> later <= now + ttl))
            && (forall k :: k != id || r != Success ==> SameLock(after, store, later, k))
  {
    hide IsBlank, Readable, Live, Encoded;
    var locks := Live(store, now);
    LiveIsValid(store, now);
    LiveLater(store, now, later);
    assert ValidRaw(id, RawOf(Lock(id, user, now, now + ttl)));
    WrittenReadsBack(locks, later);
    WrittenReadsBack(locks[id := Lock(id, user, now, now + ttl)], later);
  }

  /** A release gives back the caller's own lock and no other. */
  lemma ReleaseIsOwn(store: Store, now: int, id: string, user: string, later: int)
    requires Readable(store) && now <= later
    ensures var (after, r) := Release(store, now, id, user);
            Readable(after) && !Holds(after, later, id, user)
            && (forall k :: k != id || !Holds(store, now, id, user) ==> SameLock(after, store, later, k))
  {
    hide IsBlank, Readable, Live, Encoded, ValidRaw;
    var locks := Live(store, now);
    LiveIsValid(store, now);
    LiveLater(store, now, later);
    WrittenReadsBack(locks, later);
    WrittenReadsBack(locks - {id}, later);
  }

  /** A store that does not read back grants nothing and is never cleared. */
  lemma CorruptStoreFailsClosed(store: Store, now: int, ttl: int, id: string, user: string, exclusive: bool)
    ensures Checkout(store, now, ttl, id, user, exclusive) == (store, StoreCorrupt) <==> !Readable(store)
    ensures Release(store, now, id, user) == (store, StoreCorrupt) <==> !Readable(store)
  {
  }
}
