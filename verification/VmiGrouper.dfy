/** The grouper's two tables: reference-counted lock objects, and cached PVC owners that expire. */
module VmiCache {
  import opened AttachmentTypes

  type Key = string

  const CLEAN_INTERVAL := 300 * 1_000_000_000

  datatype Entry = Entry(vmiKey: Key, expiresAt: Time, found: bool)

  /** `cleaned` is when expired entries were last swept, if ever. */
  datatype Cache = Cache(entries: map<Key, Entry>, cleaned: Option<Time>)

  function Lookup(entries: map<Key, Entry>, pvc: Key, now: Time): Option<Entry> {
    if pvc in entries && !(now > entries[pvc].expiresAt) then Some(entries[pvc]) else None
  }

  function Sweep(entries: map<Key, Entry>, now: Time): map<Key, Entry> {
    map p | p in entries && !(now > entries[p].expiresAt) :: entries[p]
  }

  function Store(c: Cache, ttl: int, pvc: Key, vmiKey: Key, found: bool, now: Time): Cache {
    var due := c.cleaned.None? || now - c.cleaned.value > CLEAN_INTERVAL;
    var kept := if due then Sweep(c.entries, now) else c.entries;
    Cache(kept[pvc := Entry(vmiKey, now + ttl, found)], if due then Some(now) else c.cleaned)
  }

  /** The owner of a PVC, from the cache or else from the API, which may find none. */
  function Resolve(c: Cache, ttl: int, pvc: Key, api: Option<Key>, now: Time): (Cache, Key) {
    match Lookup(c.entries, pvc, now)
    case Some(e) => (c, if e.found then e.vmiKey else "")
    case None =>
      var vmi := if api.Some? then api.value else "";
      (Store(c, ttl, pvc, vmi, api.Some?, now), vmi)
  }

  /** Sweeping is invisible: it changes no lookup from now on. */
  lemma SweepInvisible(entries: map<Key, Entry>, now: Time, pvc: Key, at: Time)
    requires now <= at
    ensures Lookup(Sweep(entries, now), pvc, at) == Lookup(entries, pvc, at)
  {}

  /** A stored answer is seen by that PVC until the time to live is over, and by no other. */
  lemma StoreSeen(c: Cache, ttl: int, pvc: Key, vmiKey: Key, found: bool, now: Time, other: Key, at: Time)
    requires now <= at
    ensures Lookup(Store(c, ttl, pvc, vmiKey, found, now).entries, other, at)
         == if other != pvc then Lookup(c.entries, other, at)
            else if at <= now + ttl then Some(Entry(vmiKey, now + ttl, found)) else None
  {
    SweepInvisible(c.entries, now, other, at);
  }

  // ---- answers are never older than the time to live ----

  datatype Ask = Ask(pvc: Key, api: Option<Key>, at: Time)

  function After(ttl: int, asks: seq<Ask>): Cache {
    if asks == [] then Cache(map[], None)
    else
      var last := asks[|asks| - 1];
      Resolve(After(ttl, asks[..|asks| - 1]), ttl, last.pvc, last.api, last.at).0
  }

  /** Ask `i` read the API, and said what `e` holds. */
  ghost predicate Source(ttl: int, asks: seq<Ask>, i: nat, pvc: Key, e: Entry) {
    && i < |asks| && asks[i].pvc == pvc && e.expiresAt == asks[i].at + ttl
    && e.found == asks[i].api.Some? && e.vmiKey == (if asks[i].api.Some? then asks[i].api.value else "")
  }

  lemma {:induction false} EntriesHaveSources(ttl: int, asks: seq<Ask>)
    ensures forall pvc :: pvc in After(ttl, asks).entries ==>
              exists i :: Source(ttl, asks, i, pvc, After(ttl, asks).entries[pvc])
  {
    if asks != [] {
      var init, last := asks[..|asks| - 1], asks[|asks| - 1];
      EntriesHaveSources(ttl, init);
      var was, now' := After(ttl, init).entries, After(ttl, asks).entries;
      forall pvc | pvc in now' ensures exists i :: Source(ttl, asks, i, pvc, now'[pvc]) {
        if pvc in was && now'[pvc] == was[pvc] {
          var i: nat :| Source(ttl, init, i, pvc, was[pvc]);
          assert Source(ttl, asks, i, pvc, now'[pvc]);
        } else {
          assert Source(ttl, asks, |asks| - 1, pvc, now'[pvc]);
        }
      }
    }
  }

  /** Whatever was asked before, an answer is what the API said of that PVC at most the time to live ago. */
  lemma AnswersAreFresh(ttl: int, asks: seq<Ask>, next: Ask)
    requires ttl >= 0
    ensures var answer := Resolve(After(ttl, asks), ttl, next.pvc, next.api, next.at).1;
            exists i :: 0 <= i <= |asks| &&
              var said := (asks + [next])[i];
              && said.pvc == next.pvc && next.at - said.at <= ttl
              && answer == (if said.api.Some? then said.api.value else "")
  {
    EntriesHaveSources(ttl, asks);
    match Lookup(After(ttl, asks).entries, next.pvc, next.at)
    case Some(e) =>
      var i: nat :| Source(ttl, asks, i, next.pvc, e);
      assert (asks + [next])[i] == asks[i];
    case None =>
      assert (asks + [next])[|asks|] == next;
  }
}

module VmiGroupers {
  import opened AttachmentTypes
  import opened VmiCache
  import Locks = VmiLocks

  class VmiLock {
    var refCount: int

    constructor ()
      ensures refCount == 0
    {
      refCount := 0;
    }
  }

  class VmiGrouper {
    var locks: map<Key, VmiLock>
    var cache: map<Key, Entry>
    var cacheClean: Option<Time>
    const cacheTTL: int

    /** No two keys share a lock object. */
    ghost predicate Valid()
      reads this
    {
      forall k, h :: k in locks && h in locks && k != h ==> locks[k] != locks[h]
    }

    ghost function Counts(): map<Key, int>
      reads this, locks.Values
    {
      map k | k in locks :: locks[k].refCount
    }

    constructor (ttl: int)
      ensures Valid() && Counts() == map[] && cache == map[] && cacheClean == None
      ensures cacheTTL == if ttl <= 0 then 60 * 1_000_000_000 else ttl
    {
      locks, cache, cacheClean := map[], map[], None;
      cacheTTL := if ttl <= 0 then 60 * 1_000_000_000 else ttl;
    }

    /** The section of getOrCreateLock under the table's mutex: the key's one object, counted once more. */
    method GetOrCreateLock(k: Key) returns (lock: VmiLock)
      requires Valid()
      modifies this`locks, locks.Values
      ensures Valid() && Counts() == Locks.Acquired(old(Counts()), k)
      ensures k in locks && lock == locks[k] && locks - {k} == old(locks) - {k}
      ensures if k in old(locks) then lock == old(locks[k]) else fresh(lock)
    {
      if k in locks {
        lock := locks[k];
      } else {
        lock := new VmiLock();
        locks := locks[k := lock];
      }
      lock.refCount := lock.refCount + 1;
    }

    /** The section of releaseLock: one count less, and no entry when none is left. */
    method ReleaseLock(k: Key)
      requires Valid()
      modifies this`locks, locks.Values
      ensures Valid() && Counts() == Locks.Released(old(Counts()), k)
      ensures locks == old(locks) || locks == old(locks) - {k}
    {
      if k !in locks {
        return;
      }
      var lock := locks[k];
      lock.refCount := lock.refCount - 1;
      if lock.refCount <= 0 {
        locks := locks - {k};
      }
    }

    method CleanExpiredLocked(now: Time)
      modifies this`cache
      ensures cache == Sweep(old(cache), now)
    {
      var before := cache;
      var todo := cache.Keys;
      while todo != {}
        invariant todo <= before.Keys
        invariant cache == map p | p in before && (p in todo || !(now > before[p].expiresAt)) :: before[p]
        decreases todo
      {
        var p :| p in todo;
        todo := todo - {p};
        if now > cache[p].expiresAt {
          cache := cache - {p};
        }
      }
    }

    method SetCache(pvc: Key, vmiKey: Key, found: bool, now: Time)
      modifies this`cache, this`cacheClean
      ensures Cache(cache, cacheClean) == Store(Cache(old(cache), old(cacheClean)), cacheTTL, pvc, vmiKey, found, now)
    {
      if cacheClean.None? || now - cacheClean.value > CLEAN_INTERVAL {
        CleanExpiredLocked(now);
        cacheClean := Some(now);
      }
      cache := cache[pvc := Entry(vmiKey, now + cacheTTL, found)];
    }

    method ResolveVMIForPVC(pvc: Key, api: Option<Key>, now: Time) returns (vmiKey: Key)
      modifies this`cache, this`cacheClean
      ensures (Cache(cache, cacheClean), vmiKey) == Resolve(Cache(old(cache), old(cacheClean)), cacheTTL, pvc, api, now)
    {
      if pvc in cache && !(now > cache[pvc].expiresAt) {
        return if cache[pvc].found then cache[pvc].vmiKey else "";
      }
      vmiKey := if api.Some? then api.value else "";
      SetCache(pvc, vmiKey, api.Some?, now);
    }
  }
}
