/** The lock-protected regions of the MDB path cache. */
module MdbRegions {
  // Each is a function from the state that its mutex guards to the state it leaves.

  import opened Recency
  import opened MdbIndex

  // ---- the region guarded by the cache mutex ----

  /** `creating` sends a cache key to the thread that is filling it. */
  datatype PathCache = PathCache(entries: Entries, max: nat, subIndex: Index, svcIndex: Index,
                                 creating: map<string, nat>)

  const EMPTY_CACHE := PathCache([], 400, map[], map[], map[])

  ghost predicate CacheOk(c: PathCache) {
    && Distinct(c.entries)
    && (c.max > 0 ==> |c.entries| <= c.max)
    && Agrees(c.subIndex, c.entries, BySubscription)
    && Agrees(c.svcIndex, c.entries, ByService)
  }

  function AddToIndices(c: PathCache, key: string, e: Entry): PathCache {
    c.(subIndex := FileUnder(c.subIndex, TagOf(BySubscription, e), key),
       svcIndex := FileUnder(c.svcIndex, TagOf(ByService, e), key))
  }

  function RemoveFromIndices(c: PathCache, key: string, e: Entry): PathCache {
    c.(subIndex := Unfile(c.subIndex, TagOf(BySubscription, e), key),
       svcIndex := Unfile(c.svcIndex, TagOf(ByService, e), key))
  }

  /** The eviction callback, once for each evicted entry. */
  function OnCacheEvict(c: PathCache, evicted: Entries): PathCache
    decreases |evicted|
  {
    if evicted == [] then c
    else OnCacheEvict(RemoveFromIndices(c, evicted[0].0, evicted[0].1), evicted[1..])
  }

  function CacheGet(c: PathCache, key: string): PathCache {
    c.(entries := Touch(c.entries, key))
  }

  predicate ShouldSkipUpdate(old_: Entry, e: Entry) {
    old_.path == e.path && old_.iface == e.iface && (old_.ignoreCase == e.ignoreCase || !old_.ignoreCase)
  }

  /** Stores a verified path; the result is also what must be released later. */
  function UpdateCacheAndIndices(c: PathCache, key: string, e: Entry): (PathCache, seq<Watch>) {
    if Has(c.entries, key) then
      var old_ := Lookup(c.entries, key);
      var c1 := CacheGet(c, key);
      if ShouldSkipUpdate(old_, e) then
        (c1, [WatchOf(e)])
      else
        var c2 := RemoveFromIndices(c1, key, old_);
        (AddToIndices(c2.(entries := Put(c2.entries, c.max, key, e).0), key, e), [WatchOf(old_)])
    else
      var (kept, evicted) := Put(c.entries, c.max, key, e);
      (AddToIndices(OnCacheEvict(c.(entries := kept), evicted), key, e), WatchesOf(evicted))
  }

  function CleanupCacheEntry(c: PathCache, key: string): (PathCache, seq<Watch>) {
    if !Has(c.entries, key) then (c, [])
    else
      var e := Lookup(c.entries, key);
      (RemoveFromIndices(c.(entries := Erase(Touch(c.entries, key), key)), key, e), [WatchOf(e)])
  }

  function SetMaxCacheSize(c: PathCache, n: nat): (PathCache, seq<Watch>) {
    var (kept, evicted) := Shrink(c.entries, n);
    (OnCacheEvict(c.(entries := kept, max := n), evicted), WatchesOf(evicted))
  }

  /** A hit needs an entry at least as permissive about case as the request. */
  function TryGetCachedPath(c: PathCache, key: string, ignoreCase: bool): (PathCache, seq<string>) {
    if !Has(c.entries, key) then (c, [])
    else
      var e := Lookup(c.entries, key);
      (CacheGet(c, key), if ignoreCase || !e.ignoreCase then [e.path] else [])
  }

  function LowerChar(ch: char): char {
    if 'A' <= ch <= 'Z' then ch - 'A' + 'a' else ch
  }

  predicate MatchPropertyName(prop: string, filterKey: string, ignoreCase: bool) {
    if !ignoreCase then prop == filterKey
    else |prop| == |filterKey| && forall i :: 0 <= i < |prop| ==> LowerChar(prop[i]) == LowerChar(filterKey[i])
  }

  predicate AnyFilterPropertyChanged(filterKeys: seq<string>, changed: seq<string>, ignoreCase: bool) {
    exists i, j :: 0 <= i < |filterKeys| && 0 <= j < |changed| && MatchPropertyName(changed[j], filterKeys[i], ignoreCase)
  }

  /** Looks every key of a bucket up, in the order the hash set yields them, and
      keeps those whose filter names a changed property. */
  function CollectInvalidated(c: PathCache, keys: seq<string>, changed: seq<string>): (PathCache, seq<string>)
    decreases |keys|
  {
    if keys == [] then (c, [])
    else
      var (c', rest) := CollectInvalidated(CacheGet(c, keys[0]), keys[1..], changed);
      (c', (if Has(c.entries, keys[0]) &&
               var e := Lookup(c.entries, keys[0]); AnyFilterPropertyChanged(e.filterKeys, changed, e.ignoreCase)
            then [keys[0]] else []) + rest)
  }

  // ---- the region guarded by the subscriptions mutex ----

  datatype Subscription = Subscription(removedMatch: nat, changedMatch: nat, refs: nat)

  /** `creating` sends a subscription key to the thread that is creating it. */
  datatype Watches = Watches(subs: map<string, Subscription>, creating: map<string, nat>)

  const NO_WATCHES := Watches(map[], map[])

  function RefsOf(w: Watches, s: string): nat {
    if s in w.subs then w.subs[s].refs else 0
  }

  function LiveIds(ids: seq<nat>): seq<nat> {
    if ids == [] then [] else (if ids[0] > 0 then [ids[0]] else []) + LiveIds(ids[1..])
  }

  /** Gives one reference back; the last one takes the subscription out of the map
      and leaves its bus matches to be removed outside the lock. */
  function DecreaseRefcount(w: Watches, s: string): (Watches, seq<nat>) {
    if s !in w.subs || w.subs[s].refs == 0 then (w, [])
    else
      var sub := w.subs[s];
      if sub.refs == 1 then (w.(subs := w.subs - {s}), LiveIds([sub.removedMatch, sub.changedMatch]))
      else (w.(subs := w.subs[s := sub.(refs := sub.refs - 1)]), [])
  }

  // ---- what the cache regions keep ----

  lemma TouchBucket(r: Entries, key: string, which: Which, tag: string)
    requires Distinct(r)
    ensures Bucket(Touch(r, key), which, tag) == Bucket(r, which, tag)
  {
    if Has(r, key) {
      var i := IndexOf(r, key);
      var t := Touch(r, key);
      assert t[1..] == RemoveAt(r, i) && t[0] == r[i];
      BucketRemove(r, i, which, tag);
      BucketIs(r, which, tag, key);
      if TagOf(which, r[i].1) != [tag] { TagFromBucket(r, i, which, tag); }
    }
  }

  lemma TouchHolds(r: Entries, key: string, s: string)
    ensures CacheHolds(Touch(r, key), s) == CacheHolds(r, s)
  {
    if Has(r, key) {
      var i := IndexOf(r, key);
      assert Touch(r, key)[1..] == RemoveAt(r, i) && Touch(r, key)[0] == r[i];
      HoldsRemove(r, i, s);
    }
  }

  /** A lookup reorders the entries and changes nothing else. */
  lemma TouchKeepsCache(c: PathCache, key: string)
    requires CacheOk(c)
    ensures CacheOk(CacheGet(c, key))
  {
    TouchKeeps(c.entries, key);
    forall which, tag ensures Bucket(Touch(c.entries, key), which, tag) == Bucket(c.entries, which, tag) {
      TouchBucket(c.entries, key, which, tag);
    }
  }

  /** Taking one entry out of the cache and out of the indices. */
  lemma RemoveKeepsCache(c: PathCache, i: nat)
    requires CacheOk(c) && i < |c.entries|
    ensures var (key, e) := c.entries[i];
            && CacheOk(RemoveFromIndices(c.(entries := RemoveAt(c.entries, i)), key, e))
            && !Has(RemoveAt(c.entries, i), key)
  {
    LookupAt(c.entries, i);
    EraseKeeps(c.entries, c.entries[i].0);
    AgreesRemove(c.subIndex, c.entries, BySubscription, i);
    AgreesRemove(c.svcIndex, c.entries, ByService, i);
  }

  /** Adding an entry under a new key, with room for it. */
  lemma AddKeepsCache(c: PathCache, key: string, e: Entry)
    requires CacheOk(c) && !Has(c.entries, key) && (c.max > 0 ==> |c.entries| < c.max)
    ensures var c' := AddToIndices(c.(entries := [(key, e)] + c.entries), key, e);
            && CacheOk(c') && Has(c'.entries, key) && Lookup(c'.entries, key) == e
  {
    ConsKeeps(c.entries, key, e);
    AgreesAdd(c.subIndex, c.entries, BySubscription, key, e);
    AgreesAdd(c.svcIndex, c.entries, ByService, key, e);
  }

  lemma ConsHolds(r: Entries, key: string, e: Entry, s: string)
    ensures CacheHolds([(key, e)] + r, s) == CacheHolds(r, s) + One(SubKey(WatchOf(e)) == s)
  {
    assert ([(key, e)] + r)[1..] == r;
  }

  lemma OneTask(w: Watch, s: string)
    ensures TaskHolds([w], s) == One(SubKey(w) == s)
  {
  }

  function WithoutLast(c: PathCache): PathCache
    requires c.entries != []
  {
    var last := |c.entries| - 1;
    RemoveFromIndices(c.(entries := RemoveAt(c.entries, last)), c.entries[last].0, c.entries[last].1)
  }

  /** Resizing below the size evicts the tail and then resizes the rest. */
  lemma ResizeStep(c: PathCache, n: nat)
    requires n > 0 && |c.entries| > n
    ensures SetMaxCacheSize(c, n).0 == SetMaxCacheSize(WithoutLast(c), n).0
  {
    var last := |c.entries| - 1;
    assert RemoveAt(c.entries, last) == c.entries[..last];
    var (kept, evicted) := Shrink(c.entries[..last], n);
    EvictStep(c.(entries := kept, max := n), c.entries[last], evicted);
  }

  lemma EvictStep(c: PathCache, kv: (string, Entry), evicted: Entries)
    ensures OnCacheEvict(c, [kv] + evicted) == OnCacheEvict(RemoveFromIndices(c, kv.0, kv.1), evicted)
  {
    assert ([kv] + evicted)[1..] == evicted;
  }

  lemma WithoutLastKeepsCache(c: PathCache)
    requires CacheOk(c) && c.entries != []
    ensures CacheOk(WithoutLast(c))
  {
    RemoveKeepsCache(c, |c.entries| - 1);
  }

  lemma NothingToEvict(c: PathCache, n: nat)
    requires CacheOk(c) && (n == 0 || |c.entries| <= n)
    ensures CacheOk(SetMaxCacheSize(c, n).0)
  {
    assert SetMaxCacheSize(c, n).0 == c.(max := n);
  }

  /** Evicting from the tail, entry by entry, keeps the indices in step. */
  lemma {:induction false} ShrinkKeepsCache(c: PathCache, n: nat)
    requires CacheOk(c)
    ensures CacheOk(SetMaxCacheSize(c, n).0)
    decreases |c.entries|
  {
    if n > 0 && |c.entries| > n {
      WithoutLastKeepsCache(c);
      ResizeStep(c, n);
      var c1 := WithoutLast(c);
      ShrinkKeepsCache(c1, n);
    } else {
      NothingToEvict(c, n);
    }
  }

  /** No hold is lost when entries are evicted: each passes to a clean-up task. */
  lemma {:induction false} ShrinkHolds(r: Entries, n: nat, s: string)
    ensures CacheHolds(r, s) == CacheHolds(Shrink(r, n).0, s) + TaskHolds(WatchesOf(Shrink(r, n).1), s)
    decreases |r|
  {
    if n > 0 && |r| > n {
      var last := |r| - 1;
      HoldsRemove(r, last, s);
      assert RemoveAt(r, last) == r[..last];
      ShrinkHolds(r[..last], n, s);
      var evicted := Shrink(r[..last], n).1;
      assert ([r[last]] + evicted)[1..] == evicted;
      var ws := WatchesOf([r[last]] + evicted);
      assert ws == [WatchOf(r[last].1)] + WatchesOf(evicted);
      assert ws[1..] == WatchesOf(evicted);
    }
  }

  lemma EvictKeepsRest(c: PathCache, evicted: Entries)
    ensures var c' := OnCacheEvict(c, evicted);
            c'.entries == c.entries && c'.max == c.max && c'.creating == c.creating
    decreases |evicted|
  {
  }

  // No hold is lost by a region: what an entry held passes to a clean-up task.

  lemma ResizeHolds(c: PathCache, n: nat, s: string)
    ensures CacheHolds(c.entries, s) == CacheHolds(SetMaxCacheSize(c, n).0.entries, s) + TaskHolds(SetMaxCacheSize(c, n).1, s)
  {
    ShrinkHolds(c.entries, n, s);
    var (kept, evicted) := Shrink(c.entries, n);
    EvictKeepsRest(c.(entries := kept, max := n), evicted);
  }

  lemma CleanupHolds(c: PathCache, key: string, s: string)
    ensures CacheHolds(c.entries, s)
         == CacheHolds(CleanupCacheEntry(c, key).0.entries, s) + TaskHolds(CleanupCacheEntry(c, key).1, s)
  {
    if Has(c.entries, key) {
      var t, e := Touch(c.entries, key), Lookup(c.entries, key);
      TouchHolds(c.entries, key, s);
      EraseTouched(c.entries, key);
      assert t == [(key, e)] + t[1..];
      ConsHolds(t[1..], key, e, s);
      OneTask(WatchOf(e), s);
    }
  }

  lemma {:induction false} CollectHolds(c: PathCache, keys: seq<string>, changed: seq<string>, s: string)
    ensures CacheHolds(CollectInvalidated(c, keys, changed).0.entries, s) == CacheHolds(c.entries, s)
    decreases |keys|
  {
    if keys != [] {
      TouchHolds(c.entries, keys[0], s);
      CollectHolds(CacheGet(c, keys[0]), keys[1..], changed, s);
    }
  }

  // No region that edits entries and indices touches who is filling which key.

  lemma UpdateKeepsCreating(c: PathCache, key: string, e: Entry)
    ensures UpdateCacheAndIndices(c, key, e).0.creating == c.creating
  {
    var (kept, evicted) := Put(c.entries, c.max, key, e);
    EvictKeepsRest(c.(entries := kept), evicted);
  }

  lemma ResizeKeepsCreating(c: PathCache, n: nat)
    ensures SetMaxCacheSize(c, n).0.creating == c.creating
  {
    var (kept, evicted) := Shrink(c.entries, n);
    EvictKeepsRest(c.(entries := kept, max := n), evicted);
  }

  lemma CleanupKeepsCreating(c: PathCache, key: string)
    ensures CleanupCacheEntry(c, key).0.creating == c.creating
  {
  }

  lemma {:induction false} CollectKeepsCreating(c: PathCache, keys: seq<string>, changed: seq<string>)
    ensures CollectInvalidated(c, keys, changed).0.creating == c.creating
    decreases |keys|
  {
    if keys != [] { CollectKeepsCreating(CacheGet(c, keys[0]), keys[1..], changed); }
  }

  lemma ResizeKeepsCache(c: PathCache, n: nat)
    requires CacheOk(c)
    ensures CacheOk(SetMaxCacheSize(c, n).0)
  {
    ShrinkKeepsCache(c, n);
  }

  /** Removing a key leaves the indices in step with the entries that stay. */
  lemma CleanupKeepsCache(c: PathCache, key: string)
    requires CacheOk(c)
    ensures var c' := CleanupCacheEntry(c, key).0; CacheOk(c') && !Has(c'.entries, key)
  {
    if Has(c.entries, key) {
      TouchKeepsCache(c, key);
      EraseTouched(c.entries, key);
      RemoveKeepsCache(CacheGet(c, key), 0);
    }
  }

  lemma {:induction false} CollectKeepsCache(c: PathCache, keys: seq<string>, changed: seq<string>)
    requires CacheOk(c)
    ensures var c' := CollectInvalidated(c, keys, changed).0;
            && CacheOk(c') && c'.subIndex == c.subIndex && c'.svcIndex == c.svcIndex
            && KeySet(c'.entries) == KeySet(c.entries)
    decreases |keys|
  {
    if keys != [] {
      TouchKeepsCache(c, keys[0]);
      TouchKeeps(c.entries, keys[0]);
      CollectKeepsCache(CacheGet(c, keys[0]), keys[1..], changed);
    }
  }

  // ---- storing a verified path ----

  /** The key is absent: at most one entry is evicted to make room. */
  lemma InsertKeepsCache(c: PathCache, key: string, e: Entry)
    requires CacheOk(c) && !Has(c.entries, key)
    ensures var c' := UpdateCacheAndIndices(c, key, e).0;
            && CacheOk(c') && Has(c'.entries, key) && Lookup(c'.entries, key) == e
            && c'.creating == c.creating && c'.max == c.max
  {
    if c.max > 0 && |c.entries| >= c.max {
      var last := |c.entries| - 1;
      var kv := c.entries[last];
      var kept := c.entries[..last];
      RemoveKeepsCache(c, last);
      EvictKeeps(c.entries);
      assert RemoveAt(c.entries, last) == kept;
      AddKeepsCache(RemoveFromIndices(c.(entries := kept), kv.0, kv.1), key, e);
      EvictStep(c.(entries := [(key, e)] + kept), kv, []);
      assert [kv] + [] == [kv];
    } else {
      AddKeepsCache(c, key, e);
    }
  }

  /** The key is present with another path, interface or case rule. */
  lemma ReplaceKeepsCache(c: PathCache, key: string, e: Entry)
    requires CacheOk(c) && Has(c.entries, key) && !ShouldSkipUpdate(Lookup(c.entries, key), e)
    ensures var c' := UpdateCacheAndIndices(c, key, e).0;
            && CacheOk(c') && Has(c'.entries, key) && Lookup(c'.entries, key) == e
            && c'.creating == c.creating && c'.max == c.max
  {
    var c1 := CacheGet(c, key);
    TouchKeepsCache(c, key);
    TouchKeeps(c.entries, key);
    RemoveKeepsCache(c1, 0);
    var c2 := RemoveFromIndices(c1.(entries := RemoveAt(c1.entries, 0)), key, Lookup(c.entries, key));
    AddKeepsCache(c2, key, e);
    assert IndexOf(c1.entries, key) == 0;
  }

  /** Whatever the branch, the indices and the bound stay in order and the key ends
      up bound to the new path and interface. */
  lemma UpdateKeepsCache(c: PathCache, key: string, e: Entry)
    requires CacheOk(c)
    ensures var c' := UpdateCacheAndIndices(c, key, e).0;
            && CacheOk(c') && c'.max == c.max
            && Has(c'.entries, key) && WatchOf(Lookup(c'.entries, key)) == WatchOf(e)
  {
    if !Has(c.entries, key) {
      InsertKeepsCache(c, key, e);
    } else if ShouldSkipUpdate(Lookup(c.entries, key), e) {
      TouchKeepsCache(c, key);
      TouchKeeps(c.entries, key);
    } else {
      ReplaceKeepsCache(c, key, e);
    }
  }

  /** The hold the caller brings and those of the entries before are those of the
      entries and the clean-up tasks after. */
  lemma UpdateHolds(c: PathCache, key: string, e: Entry, s: string)
    ensures CacheHolds(c.entries, s) + One(SubKey(WatchOf(e)) == s)
         == CacheHolds(UpdateCacheAndIndices(c, key, e).0.entries, s)
            + TaskHolds(UpdateCacheAndIndices(c, key, e).1, s)
  {
    if Has(c.entries, key) {
      ReplaceHolds(c, key, e, s);
    } else {
      InsertHolds(c, key, e, s);
    }
  }

  lemma ReplaceShape(c: PathCache, key: string, e: Entry)
    requires Has(c.entries, key)
    ensures var rest := Erase(c.entries, key); var old_ := Lookup(c.entries, key);
            UpdateCacheAndIndices(c, key, e).0.entries == [(key, if ShouldSkipUpdate(old_, e) then old_ else e)] + rest
    ensures WatchOf(Lookup(c.entries, key)) == UpdateCacheAndIndices(c, key, e).1[0]
    ensures |UpdateCacheAndIndices(c, key, e).1| == 1
  {
    EraseTouched(c.entries, key);
  }

  lemma ReplaceHolds(c: PathCache, key: string, e: Entry, s: string)
    requires Has(c.entries, key)
    ensures CacheHolds(c.entries, s) + One(SubKey(WatchOf(e)) == s)
         == CacheHolds(UpdateCacheAndIndices(c, key, e).0.entries, s)
            + TaskHolds(UpdateCacheAndIndices(c, key, e).1, s)
  {
    var rest := Erase(c.entries, key);
    var old_ := Lookup(c.entries, key);
    ReplaceShape(c, key, e);
    TouchHolds(c.entries, key, s);
    ConsHolds(rest, key, old_, s);
    ConsHolds(rest, key, e, s);
    var tasks := UpdateCacheAndIndices(c, key, e).1;
    assert tasks == [WatchOf(old_)];
    OneTask(WatchOf(old_), s);
  }

  lemma InsertHolds(c: PathCache, key: string, e: Entry, s: string)
    requires !Has(c.entries, key)
    ensures CacheHolds(c.entries, s) + One(SubKey(WatchOf(e)) == s)
         == CacheHolds(UpdateCacheAndIndices(c, key, e).0.entries, s)
            + TaskHolds(UpdateCacheAndIndices(c, key, e).1, s)
  {
    var (kept, evicted) := Put(c.entries, c.max, key, e);
    EvictKeepsRest(c.(entries := kept), evicted);
    if evicted != [] {
      var last := |c.entries| - 1;
      HoldsRemove(c.entries, last, s);
      assert RemoveAt(c.entries, last) == c.entries[..last];
      ConsHolds(c.entries[..last], key, e, s);
      assert WatchesOf(evicted) == [WatchOf(c.entries[last].1)];
      OneTask(WatchOf(c.entries[last].1), s);
    } else {
      ConsHolds(c.entries, key, e, s);
    }
  }

  lemma EraseTouched(r: Entries, key: string)
    requires Has(r, key)
    ensures Has(Touch(r, key), key) && Erase(Touch(r, key), key) == Touch(r, key)[1..]
  {
    assert Touch(r, key)[0].0 == key;
  }

  /** One give-back takes exactly one from the count, if there is one to take. */
  lemma DecreaseTakesOne(w: Watches, s: string)
    ensures var w' := DecreaseRefcount(w, s).0;
            && (forall x :: RefsOf(w', x) == RefsOf(w, x) - One(x == s && RefsOf(w, s) > 0))
            && w'.creating == w.creating
            && (forall x :: x in w'.subs ==> x in w.subs)
            && ((forall x :: x in w.subs ==> w.subs[x].refs > 0) ==> forall x :: x in w'.subs ==> w'.subs[x].refs > 0)
  {
  }
}
