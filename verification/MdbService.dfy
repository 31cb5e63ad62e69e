/** The path cache as the program keeps it: an LRU cache object, index and subscription
    tables that are edited in place, the two tables of threads that are filling a key or
    creating a subscription, and a queue of clean-ups. The methods that look a key up,
    register and unregister a thread, join, store or give back a subscription and
    publish a path are proved to be the regions of the transition system: in whatever
    state of the system the guarded part is that of the object, the region leads to the
    object's new state and to the place in the program that the method returns. Cleaning
    a key up, resizing and collecting invalidated keys are proved to compute the
    functions that the remaining regions consist of. What a bus call answers, and in
    which order a hash set yields its elements, are parameters. The eviction callback
    runs while the cache is between two states, which is why filing and unfiling are
    separate methods with contracts of their own. */
module MdbService {
  import opened MdbIndex
  import opened MdbRegions
  import opened LruCache
  import P = MdbProtocol
  import R = Recency

  datatype Existing = Joined | MustCreate | MustWait

  /** What `process_pending_cleanup` does to the subscriptions when nothing comes
      in between, and the bus matches it removes. */
  function DrainAll(w: Watches, tasks: seq<Watch>): (Watches, seq<nat>) {
    if tasks == [] then (w, [])
    else
      var (before, ids) := DrainAll(w, tasks[..|tasks| - 1]);
      var (after, more) := DecreaseRefcount(before, SubKey(tasks[|tasks| - 1]));
      (after, ids + more)
  }

  /** Storing an entry, with what its evictions leave to be released. */
  function Insert(c: PathCache, key: string, e: Entry): (PathCache, seq<Watch>) {
    var (kept, evicted) := R.Put(c.entries, c.max, key, e);
    (MdbRegions.AddToIndices(MdbRegions.OnCacheEvict(c.(entries := kept), evicted), key, e), WatchesOf(evicted))
  }

  lemma UpdateInserts(c: PathCache, key: string, e: Entry)
    requires !R.Has(c.entries, key)
    ensures UpdateCacheAndIndices(c, key, e) == Insert(c, key, e)
  {
  }

  /** A replacement unfiles the old entry and evicts nothing. */
  lemma UpdateReplaces(c: PathCache, key: string, e: Entry)
    requires R.Has(c.entries, key) && !ShouldSkipUpdate(R.Lookup(c.entries, key), e)
    ensures var old_ := R.Lookup(c.entries, key);
            var (c', more) := Insert(MdbRegions.RemoveFromIndices(CacheGet(c, key), key, old_), key, e);
            more == [] && UpdateCacheAndIndices(c, key, e) == (c', [WatchOf(old_)])
  {
    EraseTouched(c.entries, key);
  }

  predicate InvalidatedBy(c: PathCache, key: string, changed: seq<string>) {
    && R.Has(c.entries, key)
    && var e := R.Lookup(c.entries, key); AnyFilterPropertyChanged(e.filterKeys, changed, e.ignoreCase)
  }

  lemma CollectStep(c: PathCache, keys: seq<string>, changed: seq<string>, found: seq<string>)
    requires keys != []
    ensures var hit := InvalidatedBy(c, keys[0], changed);
            var (c', rest) := CollectInvalidated(CacheGet(c, keys[0]), keys[1..], changed);
            && CollectInvalidated(c, keys, changed).0 == c'
            && found + CollectInvalidated(c, keys, changed).1 == (if hit then found + [keys[0]] else found) + rest
  {
  }

  /** Looking a key up a second time changes nothing more. */
  lemma LookupTwice(c: PathCache, key: string, ignoreCase: bool)
    ensures var (c', path) := MdbRegions.TryGetCachedPath(c, key, ignoreCase);
            MdbRegions.TryGetCachedPath(c', key, ignoreCase) == (c', path)
  {
    if R.Has(c.entries, key) {
      var r := R.Touch(c.entries, key);
      assert r[0].0 == key && R.IndexOf(r, key) == 0;
      assert [r[0]] + r[1..] == r;
      assert R.Erase(r, key) == r[1..];
    }
  }

  class MdbService {
    const cache: LruCache<string, Entry>
    var subscriptionIndex: Index
    var serviceIndex: Index
    var creatingCacheEntries: map<string, nat>
    var subscriptions: map<string, Subscription>
    var creatingSubscriptions: map<string, nat>
    var pendingCleanup: seq<Watch>

    ghost predicate Valid()
      reads this, cache
    {
      cache.Valid()
    }

    /** What the cache mutex guards. */
    ghost function Cached(): PathCache
      reads this, cache
    {
      PathCache(cache.Contents(), cache.maxSize, subscriptionIndex, serviceIndex, creatingCacheEntries)
    }

    /** What the subscriptions mutex guards. */
    ghost function Watched(): Watches
      reads this
    {
      Watches(subscriptions, creatingSubscriptions)
    }

    constructor ()
      ensures Valid() && fresh(cache) && Cached() == EMPTY_CACHE && Watched() == NO_WATCHES && pendingCleanup == []
    {
      cache := new LruCache<string, Entry>(400);
      subscriptionIndex, serviceIndex, creatingCacheEntries := map[], map[], map[];
      subscriptions, creatingSubscriptions, pendingCleanup := map[], map[], [];
    }

    method AddToIndices(key: string, e: Entry)
      modifies this`subscriptionIndex, this`serviceIndex
      ensures Cached() == MdbRegions.AddToIndices(old(Cached()), key, e)
    {
      var subKey := SubKey(WatchOf(e));
      if subKey !in subscriptionIndex { subscriptionIndex := subscriptionIndex[subKey := {}]; }
      subscriptionIndex := subscriptionIndex[subKey := subscriptionIndex[subKey] + {key}];
      if e.service != "" {
        if e.service !in serviceIndex { serviceIndex := serviceIndex[e.service := {}]; }
        serviceIndex := serviceIndex[e.service := serviceIndex[e.service] + {key}];
      }
    }

    method RemoveFromIndices(key: string, e: Entry)
      modifies this`subscriptionIndex, this`serviceIndex
      ensures Cached() == MdbRegions.RemoveFromIndices(old(Cached()), key, e)
    {
      var subKey := SubKey(WatchOf(e));
      if subKey in subscriptionIndex {
        subscriptionIndex := subscriptionIndex[subKey := subscriptionIndex[subKey] - {key}];
        if subscriptionIndex[subKey] == {} { subscriptionIndex := subscriptionIndex - {subKey}; }
      }
      if e.service != "" && e.service in serviceIndex {
        serviceIndex := serviceIndex[e.service := serviceIndex[e.service] - {key}];
        if serviceIndex[e.service] == {} { serviceIndex := serviceIndex - {e.service}; }
      }
    }

    /** The eviction callback, for each entry the cache reports. */
    method OnCacheEvict(evicted: seq<(string, Entry)>)
      modifies this`subscriptionIndex, this`serviceIndex, this`pendingCleanup
      ensures Cached() == MdbRegions.OnCacheEvict(old(Cached()), evicted)
      ensures pendingCleanup == old(pendingCleanup) + WatchesOf(evicted)
    {
      ghost var start := Cached();
      var i := 0;
      while i < |evicted|
        invariant i <= |evicted|
        invariant MdbRegions.OnCacheEvict(start, evicted) == MdbRegions.OnCacheEvict(Cached(), evicted[i..])
        invariant old(pendingCleanup) + WatchesOf(evicted) == pendingCleanup + WatchesOf(evicted[i..])
      {
        assert evicted[i..][1..] == evicted[i + 1..];
        RemoveFromIndices(evicted[i].0, evicted[i].1);
        pendingCleanup := pendingCleanup + [WatchOf(evicted[i].1)];
        i := i + 1;
      }
    }

    method CleanupCacheEntryLocked(key: string)
      requires Valid()
      modifies this`subscriptionIndex, this`serviceIndex, this`pendingCleanup, cache
      ensures Valid()
      ensures var (c, more) := CleanupCacheEntry(old(Cached()), key);
              Cached() == c && pendingCleanup == old(pendingCleanup) + more
    {
      var hit, val := cache.Get(key);
      if !hit { return; }
      var _ := cache.Erase(key);
      RemoveFromIndices(key, val[0]);
      pendingCleanup := pendingCleanup + [WatchOf(val[0])];
    }

    method HandleOldCacheEntry(key: string, old_: Entry, e: Entry)
      modifies this`subscriptionIndex, this`serviceIndex, this`pendingCleanup
      ensures Cached() == MdbRegions.RemoveFromIndices(old(Cached()), key, old_)
      ensures pendingCleanup == old(pendingCleanup) + [WatchOf(old_)]
    {
      RemoveFromIndices(key, old_);
      if old_.path == e.path && old_.iface == e.iface {
        pendingCleanup := pendingCleanup + [Watch(e.path, e.iface)];
      } else {
        pendingCleanup := pendingCleanup + [Watch(old_.path, old_.iface)];
      }
    }

    method UpdateCacheAndIndicesLocked(key: string, e: Entry)
      requires Valid()
      modifies this`subscriptionIndex, this`serviceIndex, this`pendingCleanup, cache
      ensures Valid()
      ensures var (c, more) := UpdateCacheAndIndices(old(Cached()), key, e);
              Cached() == c && pendingCleanup == old(pendingCleanup) + more
    {
      var hit, val := cache.Get(key);
      if hit {
        if ShouldSkipUpdate(val[0], e) {
          pendingCleanup := pendingCleanup + [WatchOf(e)];
          return;
        }
        HandleOldCacheEntry(key, val[0], e);
      }
      InsertLocked(key, e);
      if hit { UpdateReplaces(old(Cached()), key, e); } else { UpdateInserts(old(Cached()), key, e); }
    }

    method InsertLocked(key: string, e: Entry)
      requires Valid()
      modifies this`subscriptionIndex, this`serviceIndex, this`pendingCleanup, cache
      ensures Valid()
      ensures var (c, more) := Insert(old(Cached()), key, e);
              Cached() == c && pendingCleanup == old(pendingCleanup) + more
    {
      var evicted := cache.Put(key, e);
      OnCacheEvict(evicted);
      AddToIndices(key, e);
    }

    method TryGetCachedPath(key: string, ignoreCase: bool) returns (path: seq<string>)
      requires Valid()
      modifies cache
      ensures Valid() && (Cached(), path) == MdbRegions.TryGetCachedPath(old(Cached()), key, ignoreCase)
    {
      var hit, val := cache.Get(key);
      path := if hit && (ignoreCase || !val[0].ignoreCase) then [val[0].path] else [];
    }

    /** One round of `wait_or_start_creation` and what its caller does under the same
        lock: returns the cached path, registers the thread as the one that fills the
        key, gives up, or goes on waiting. */
    method LookupRound(t: nat, req: P.Request, waits: nat, timeUp: bool) returns (pc: P.Pc, path: seq<string>)
      requires Valid()
      modifies cache, this`creatingCacheEntries
      ensures Valid() && path == MdbRegions.TryGetCachedPath(old(Cached()), P.CacheKey(req), req.ignoreCase).1
      ensures forall s: P.State :: t < |s.threads| && s.cache == old(Cached()) ==>
                P.RunLookup(s, t, req, waits, timeUp) == P.Goto(s.(cache := Cached()), t, pc)
    {
      var key := P.CacheKey(req);
      path := TryGetCachedPath(key, req.ignoreCase);
      ghost var c := Cached();
      assert (c, path) == MdbRegions.TryGetCachedPath(old(Cached()), key, req.ignoreCase);
      if path != [] {
        LookupTwice(old(Cached()), key, req.ignoreCase);
        path := TryGetCachedPath(key, req.ignoreCase);
        assert Cached() == c;
        pc := P.Idle;
      } else if key !in creatingCacheEntries {
        creatingCacheEntries := creatingCacheEntries[key := t];
        pc := P.Query(req);
      } else if waits >= P.MAX_WAIT_ATTEMPTS || timeUp {
        pc := P.DirectCall(req);
      } else {
        pc := P.AwaitKey(req, waits + 1);
      }
      hide MdbRegions.TryGetCachedPath, R.Has, R.Touch;
      assert (Cached(), pc) == P.LookupLeads(old(Cached()), t, req, waits, timeUp);
    }

    /** Ends the registration of a filling thread, if it is still its own. */
    method StopFilling(t: nat, key: string)
      requires Valid()
      modifies this`creatingCacheEntries
      ensures Valid() && Cached() == P.StopCreating(old(Cached()), key, t)
    {
      if key in creatingCacheEntries && creatingCacheEntries[key] == t {
        creatingCacheEntries := creatingCacheEntries - {key};
      }
    }

    /** Caches a verified path and ends the registration under one lock; what has to be
        released is queued for the thread. */
    method Publish(t: nat, req: P.Request, target: P.Target) returns (pc: P.Pc)
      requires Valid() && pendingCleanup == []
      modifies this`subscriptionIndex, this`serviceIndex, this`pendingCleanup, this`creatingCacheEntries, cache
      ensures Valid() && pc == P.Drain(pendingCleanup)
      ensures forall s: P.State :: t < |s.threads| && s.cache == old(Cached()) ==>
                P.RunPublish(s, t, req, target) == P.Goto(s.(cache := Cached()), t, pc)
    {
      UpdateCacheAndIndicesLocked(P.CacheKey(req), P.TargetEntry(req, target));
      ghost var more := UpdateCacheAndIndices(old(Cached()), P.CacheKey(req), P.TargetEntry(req, target)).1;
      assert pendingCleanup == more by { assert [] + more == more; }
      StopFilling(t, P.CacheKey(req));
      pc := P.Drain(pendingCleanup);
    }

    /** A query that ended without a path to cache. */
    method FinishQuery(t: nat, req: P.Request) returns (pc: P.Pc)
      requires Valid()
      modifies this`creatingCacheEntries
      ensures Valid()
      ensures forall s: P.State :: t < |s.threads| && s.cache == old(Cached()) ==>
                P.RunFinish(s, t, req) == P.Goto(s.(cache := Cached()), t, pc)
    {
      StopFilling(t, P.CacheKey(req));
      pc := P.Idle;
    }

    method SetMaxCacheSizeLocked(n: nat)
      requires Valid()
      modifies this`subscriptionIndex, this`serviceIndex, this`pendingCleanup, cache
      ensures Valid()
      ensures var (c, more) := SetMaxCacheSize(old(Cached()), n);
              Cached() == c && pendingCleanup == old(pendingCleanup) + more
    {
      var evicted := cache.SetMaxSize(n);
      OnCacheEvict(evicted);
    }

    method Invalidates(key: string, changed: seq<string>) returns (hit: bool)
      requires Valid()
      modifies cache
      ensures Valid() && Cached() == CacheGet(old(Cached()), key)
      ensures hit <==> InvalidatedBy(old(Cached()), key, changed)
    {
      var found, val := cache.Get(key);
      hit := found && AnyFilterPropertyChanged(val[0].filterKeys, changed, val[0].ignoreCase);
    }

    /** The keys of a bucket whose filter names a changed property; each key is
        looked up, which moves it to the front. */
    method CollectInvalidatedLocked(keys: seq<string>, changed: seq<string>) returns (hits: seq<string>)
      requires Valid()
      modifies cache
      ensures Valid() && (Cached(), hits) == CollectInvalidated(old(Cached()), keys, changed)
    {
      ghost var start := Cached();
      hits := [];
      var i := 0;
      while i < |keys|
        invariant Valid() && i <= |keys|
        invariant CollectInvalidated(start, keys, changed).0 == CollectInvalidated(Cached(), keys[i..], changed).0
        invariant CollectInvalidated(start, keys, changed).1
               == hits + CollectInvalidated(Cached(), keys[i..], changed).1
      {
        assert keys[i..][1..] == keys[i + 1..];
        ghost var before, found := Cached(), hits;
        var hit := Invalidates(keys[i], changed);
        if hit { hits := hits + [keys[i]]; }
        CollectStep(before, keys[i..], changed, found);
        i := i + 1;
      }
      assert keys[i..] == [] && hits + [] == hits;
    }

    /** Gives one reference back; returns the matches to remove outside the lock. */
    method DecreaseSubscriptionRefcount(watch: Watch) returns (ids: seq<nat>)
      modifies this`subscriptions
      ensures (Watched(), ids) == DecreaseRefcount(old(Watched()), SubKey(watch))
    {
      var key := SubKey(watch);
      ids := [];
      if key !in subscriptions || subscriptions[key].refs == 0 { return; }
      var sub := subscriptions[key];
      subscriptions := subscriptions[key := sub.(refs := sub.refs - 1)];
      if subscriptions[key].refs == 0 {
        subscriptions := subscriptions - {key};
        if sub.removedMatch > 0 { ids := ids + [sub.removedMatch]; }
        if sub.changedMatch > 0 { ids := ids + [sub.changedMatch]; }
        LiveIdsOfTwo(sub.removedMatch, sub.changedMatch);
        assert ids == LiveIds([sub.removedMatch, sub.changedMatch]);
        assert subscriptions == old(subscriptions) - {key};
      }
    }

    /** One round of the wait loop: join an existing subscription, wait for its creator,
        or leave it to the caller to create it. */
    method TryIncrementOnce(key: string, waits: nat) returns (r: Existing)
      modifies this`subscriptions
      ensures r == if key in old(subscriptions) then Joined
                   else if key !in creatingSubscriptions || waits >= P.MAX_WAIT_ATTEMPTS then MustCreate else MustWait
      ensures subscriptions == if r == Joined then
                                 var sub := old(subscriptions)[key];
                                 old(subscriptions)[key := sub.(refs := sub.refs + 1)]
                               else old(subscriptions)
    {
      if key in subscriptions {
        subscriptions := subscriptions[key := subscriptions[key].(refs := subscriptions[key].refs + 1)];
        return Joined;
      }
      r := if key !in creatingSubscriptions || waits >= P.MAX_WAIT_ATTEMPTS then MustCreate else MustWait;
    }

    /** `setup_signal_watch` up to its first release of the mutex: joins, registers the
        thread as the creator, or goes on waiting. */
    method SubscribeRound(t: nat, req: P.Request, target: P.Target, waits: nat) returns (pc: P.Pc)
      modifies this`subscriptions, this`creatingSubscriptions
      ensures forall s: P.State :: t < |s.threads| && s.watches == old(Watched()) ==>
                P.RunSubscribe(s, t, req, target, waits) == P.Goto(s.(watches := Watched()), t, pc)
    {
      var key := SubKey(P.TargetWatch(req, target));
      var r := TryIncrementOnce(key, waits);
      match r
      case Joined => pc := P.Verify(req, target);
      case MustWait => pc := P.Subscribe(req, target, waits + 1);
      case MustCreate =>
        creatingSubscriptions := creatingSubscriptions[key := t];
        pc := P.AddRemovedMatch(req, target);
    }

    /** Ends the registration of a creator, if it is still its own. */
    method StopCreatingSubscription(t: nat, key: string)
      modifies this`creatingSubscriptions
      ensures Watched() == P.StopCreatingSub(old(Watched()), key, t)
    {
      if key in creatingSubscriptions && creatingSubscriptions[key] == t {
        creatingSubscriptions := creatingSubscriptions - {key};
      }
    }

    /** Stores a created subscription over whatever is there. */
    method StoreSubscription(t: nat, req: P.Request, target: P.Target, removed: nat, changed: nat) returns (pc: P.Pc)
      modifies this`subscriptions, this`creatingSubscriptions
      ensures forall s: P.State :: t < |s.threads| && s.watches == old(Watched()) ==>
                P.RunStoreSub(s, t, req, target, removed, changed) == P.Goto(s.(watches := Watched()), t, pc)
    {
      var key := SubKey(P.TargetWatch(req, target));
      subscriptions := subscriptions[key := Subscription(removed, changed, 1)];
      StopCreatingSubscription(t, key);
      pc := P.Verify(req, target);
    }

    /** A creation that failed. */
    method AbandonSubscription(t: nat, req: P.Request, target: P.Target) returns (pc: P.Pc)
      modifies this`creatingSubscriptions
      ensures forall s: P.State :: t < |s.threads| && s.watches == old(Watched()) ==>
                P.RunAbandon(s, t, req, target) == P.Goto(s.(watches := Watched()), t, pc)
    {
      StopCreatingSubscription(t, SubKey(P.TargetWatch(req, target)));
      pc := P.Finish(req);
    }

    /** The second answer differed: the reference taken before it is given back. */
    method ReleaseUnverified(t: nat, req: P.Request, target: P.Target) returns (pc: P.Pc)
      modifies this`subscriptions
      ensures forall s: P.State :: t < |s.threads| && s.watches == old(Watched()) ==>
                P.Goto(s.(watches := Watched()), t, pc) == P.RunDecrease(s, t, P.TargetWatch(req, target), P.Finish(req))
    {
      var ids := DecreaseSubscriptionRefcount(P.TargetWatch(req, target));
      pc := if ids == [] then P.Finish(req) else P.RemoveMatches(ids, P.Finish(req));
    }

    /** Empties the queue, giving back one reference for each task in order. */
    method ProcessPendingCleanup() returns (ids: seq<nat>)
      modifies this`subscriptions, this`pendingCleanup
      ensures pendingCleanup == []
      ensures (Watched(), ids) == DrainAll(old(Watched()), old(pendingCleanup))
    {
      var tasks := pendingCleanup;
      pendingCleanup := [];
      ids := [];
      var i := 0;
      while i < |tasks|
        invariant i <= |tasks| && pendingCleanup == []
        invariant (Watched(), ids) == DrainAll(old(Watched()), tasks[..i])
      {
        assert tasks[..i + 1][..i] == tasks[..i];
        var more := DecreaseSubscriptionRefcount(tasks[i]);
        ids := ids + more;
        i := i + 1;
      }
      assert tasks[..i] == tasks;
    }
  }

  lemma LiveIdsOfTwo(a: nat, b: nat)
    ensures LiveIds([a, b]) == (if a > 0 then [a] else []) + (if b > 0 then [b] else [])
  {
    assert [a, b][1..] == [b] && [b][1..] == [];
    assert LiveIds([b]) == if b > 0 then [b] else [] by { assert LiveIds([]) == []; }
  }

  /** Draining a queue takes from every count what the queue holds on it, when the
      counts cover the queue. */
  lemma {:induction false} DrainTakesHolds(w: Watches, tasks: seq<Watch>, x: string)
    requires forall s :: TaskHolds(tasks, s) <= RefsOf(w, s)
    ensures RefsOf(DrainAll(w, tasks).0, x) == RefsOf(w, x) - TaskHolds(tasks, x)
  {
    if tasks != [] {
      var front, last := tasks[..|tasks| - 1], tasks[|tasks| - 1];
      forall s ensures TaskHolds(tasks, s) == TaskHolds(front, s) + One(SubKey(last) == s) {
        assert front + [last] == tasks;
        TaskHoldsConcat(front, [last], s);
        OneTask(last, s);
      }
      DrainTakesHolds(w, front, x);
      DrainTakesHolds(w, front, SubKey(last));
      DecreaseTakesOne(DrainAll(w, front).0, SubKey(last));
    }
  }
}
