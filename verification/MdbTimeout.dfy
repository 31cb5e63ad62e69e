/** A run in which a wait for a subscription times out. */
module MdbTimeout {
  // Two threads then create the same subscription, the second store forgets the reference
  // of the first, and a cached path ends up with nothing watching it.

  import opened Recency
  import opened MdbIndex
  import opened MdbRegions
  import opened MdbProtocol
  import opened MdbSafety
  import opened MdbConservation
  import opened MdbRuns

  const A := Request("i", "a", false, [])
  const B := Request("i", "b", false, [])
  const T := Target("p", "")
  const X := SubKey(TargetWatch(A, T))

  ghost predicate Reachable(n: nat, s: State) {
    exists script :: Leads(Init(n), script, s)
  }

  lemma LeadsOn(n: nat, script: Script, b: State, t: nat, a: Action, c: State)
    requires Leads(Init(n), script, b) && t < |b.threads| && Step(b, t, a) == [c]
    ensures Leads(Init(n), script + [(t, a)], c)
  {
    var more := script + [(t, a)];
    assert more[..|more| - 1] == script;
    assert RunFrom(Init(n), more) == Step(b, t, a);
  }

  lemma Go(n: nat, b: State, t: nat, a: Action, c: State)
    requires Reachable(n, b) && t < |b.threads| && Step(b, t, a) == [c]
    ensures Reachable(n, c)
  {
    var script :| Leads(Init(n), script, b);
    LeadsOn(n, script, b, t, a, c);
  }

  lemma Answered(n: nat, b: State, t: nat, a: Action, c: State, m: Move)
    requires Reachable(n, b) && t < |b.threads| && Answer(b.threads[t], a, b.live) == [m]
    requires c.cache == b.cache && c.watches == b.watches
    requires c.live == m.live && c.threads == b.threads[t := m.pc]
    ensures Reachable(n, c)
  {
    Go(n, b, t, a, c);
  }

  lemma Start(n: nat)
    ensures Reachable(n, Init(n))
  {
    assert Leads(Init(n), [], Init(n));
  }

  lemma KeysDiffer()
    ensures CacheKey(A) != CacheKey(B) && SubKey(TargetWatch(B, T)) == X
  {
    assert CacheKey(A)[2] == 'a' && CacheKey(B)[2] == 'b';
  }

  /** Thread 0 is creating the subscription; thread 1 has waited `waits` times. */
  function Waiting(waits: nat): State {
    State(EMPTY_CACHE.(creating := map[CacheKey(A) := 0, CacheKey(B) := 1]), Watches(map[], map[X := 0]),
          [AddRemovedMatch(A, T), Subscribe(B, T, waits)], {})
  }

  lemma ReachSubscribe(t: nat, req: Request, threads: seq<Pc>, creating: map<string, nat>, w: Watches)
    requires t < |threads| && threads[t] == Idle && CacheKey(req) !in creating
    requires Reachable(2, State(EMPTY_CACHE.(creating := creating), w, threads, {}))
    ensures Reachable(2, State(EMPTY_CACHE.(creating := creating[CacheKey(req) := t]), w,
                               threads[t := Subscribe(req, T, 0)], {}))
  {
    var s := State(EMPTY_CACHE.(creating := creating), w, threads, {});
    Go(2, s, t, Begin(GetPath(req, true)), Goto(s, t, AwaitKey(req, 0)));
    var s1 := Goto(s, t, AwaitKey(req, 0));
    var s2 := Goto(s.(cache := s.cache.(creating := creating[CacheKey(req) := t])), t, Query(req));
    assert Step(s1, t, Run) == [RunLookup(s1, t, req, 0, false)];
    assert RunLookup(s1, t, req, 0, false) == s2;
    Go(2, s1, t, Run, s2);
    Answered(2, s2, t, Reply("p", ""), Goto(s2, t, Subscribe(req, T, 0)), Move(Subscribe(req, T, 0), {}));
    assert Goto(s2, t, Subscribe(req, T, 0)).threads == threads[t := Subscribe(req, T, 0)];
  }

  lemma RunsSubscribe(s: State, t: nat, req: Request, waits: nat)
    requires Reachable(2, s) && t < |s.threads| && s.threads[t] == Subscribe(req, T, waits)
    ensures Reachable(2, RunSubscribe(s, t, req, T, waits))
  {
    Go(2, s, t, Run, RunSubscribe(s, t, req, T, waits));
  }

  lemma RunsStore(s: State, t: nat, req: Request, removed: nat, changed: nat)
    requires Reachable(2, s) && t < |s.threads| && s.threads[t] == StoreSub(req, T, removed, changed)
    ensures Reachable(2, RunStoreSub(s, t, req, T, removed, changed))
  {
    Go(2, s, t, Run, RunStoreSub(s, t, req, T, removed, changed));
  }

  lemma RunsPublish(s: State, t: nat, req: Request)
    requires Reachable(2, s) && t < |s.threads| && s.threads[t] == Publish(req, T)
    ensures Reachable(2, RunPublish(s, t, req, T))
  {
    Go(2, s, t, Run, RunPublish(s, t, req, T));
  }

  lemma RunsUnverified(s: State, t: nat, req: Request)
    requires Reachable(2, s) && t < |s.threads| && s.threads[t] == Unverified(req, T)
    ensures Reachable(2, RunDecrease(s, t, TargetWatch(req, T), Finish(req)))
  {
    Go(2, s, t, Run, RunDecrease(s, t, TargetWatch(req, T), Finish(req)));
  }

  lemma ReachWaiting()
    ensures Reachable(2, Waiting(0))
  {
    Start(2);
    KeysDiffer();
    assert Init(2).threads == [Idle, Idle];
    ReachSubscribe(0, A, [Idle, Idle], map[], NO_WATCHES);
    var c := EMPTY_CACHE.(creating := map[CacheKey(A) := 0]);
    var s := State(c, NO_WATCHES, [Subscribe(A, T, 0), Idle], {});
    var w := Watches(map[], map[X := 0]);
    assert map[][X := 0] == map[X := 0] && map[][CacheKey(A) := 0] == map[CacheKey(A) := 0];
    assert [Idle, Idle][0 := Subscribe(A, T, 0)] == [Subscribe(A, T, 0), Idle];
    RunsSubscribe(s, 0, A, 0);
    assert RunSubscribe(s, 0, A, T, 0).threads == [AddRemovedMatch(A, T), Idle];
    ReachSubscribe(1, B, [AddRemovedMatch(A, T), Idle], map[CacheKey(A) := 0], w);
    assert [AddRemovedMatch(A, T), Idle][1 := Subscribe(B, T, 0)] == Waiting(0).threads;
    assert map[CacheKey(A) := 0][CacheKey(B) := 1] == Waiting(0).cache.creating;
  }

  lemma {:induction false} WaitOn(waits: nat)
    requires waits <= MAX_WAIT_ATTEMPTS
    ensures Reachable(2, Waiting(waits))
  {
    KeysDiffer();
    if waits == 0 {
      ReachWaiting();
    } else {
      WaitOn(waits - 1);
      RunsSubscribe(Waiting(waits - 1), 1, B, waits - 1);
      assert RunSubscribe(Waiting(waits - 1), 1, B, T, waits - 1).threads == Waiting(waits).threads;
    }
  }

  /** Both threads now create the subscription. */
  const BOTH := State(EMPTY_CACHE.(creating := map[CacheKey(A) := 0, CacheKey(B) := 1]), Watches(map[], map[X := 1]),
                      [AddRemovedMatch(A, T), AddRemovedMatch(B, T)], {})

  lemma ReachBoth()
    ensures Reachable(2, BOTH)
  {
    KeysDiffer();
    WaitOn(MAX_WAIT_ATTEMPTS);
    var s := Waiting(MAX_WAIT_ATTEMPTS);
    RunsSubscribe(s, 1, B, MAX_WAIT_ATTEMPTS);
    assert RunSubscribe(s, 1, B, T, MAX_WAIT_ATTEMPTS).threads == BOTH.threads;
    assert RunSubscribe(s, 1, B, T, MAX_WAIT_ATTEMPTS).watches.creating == BOTH.watches.creating;
  }

  /** Thread `t` creates and stores the subscription, over whatever is there. */
  lemma ReachStored(s: State, t: nat, req: Request, removed: nat, changed: nat)
    requires Reachable(2, s) && t < |s.threads| && s.threads[t] == AddRemovedMatch(req, T)
    requires removed > 0 && changed > 0 && removed != changed && removed !in s.live && changed !in s.live
    ensures var s' := RunStoreSub(s, t, req, T, removed, changed);
            Reachable(2, s'.(live := s.live + {removed} + {changed}))
  {
    var s1 := Goto(s.(live := s.live + {removed}), t, AddChangedMatch(req, T, removed));
    Answered(2, s, t, Match(removed), s1, Move(AddChangedMatch(req, T, removed), s.live + {removed}));
    var s2 := Goto(s.(live := s1.live + {changed}), t, StoreSub(req, T, removed, changed));
    assert s2.threads == s1.threads[t := StoreSub(req, T, removed, changed)];
    Answered(2, s1, t, Match(changed), s2, Move(StoreSub(req, T, removed, changed), s1.live + {changed}));
    RunsStore(s2, t, req, removed, changed);
    assert RunStoreSub(s2, t, req, T, removed, changed).threads == s.threads[t := Verify(req, T)];
  }

  const FIRST_STORED := State(BOTH.cache, Watches(map[X := Subscription(1, 2, 1)], map[X := 1]),
                              [Verify(A, T), AddRemovedMatch(B, T)], {1, 2})

  lemma ReachFirstStored()
    ensures Reachable(2, FIRST_STORED)
  {
    ReachBoth();
    ReachStored(BOTH, 0, A, 1, 2);
    assert {} + {1} + {2} == {1, 2};
    var s := RunStoreSub(BOTH, 0, A, T, 1, 2);
    assert s.threads == FIRST_STORED.threads;
    assert s.watches == FIRST_STORED.watches by {
      assert map[][X := Subscription(1, 2, 1)] == map[X := Subscription(1, 2, 1)];
    }
  }

  /** Thread 0 has verified and cached the path. */
  const CACHED := PathCache([(CacheKey(A), TargetEntry(A, T))], 400, map[X := {CacheKey(A)}], map[], map[CacheKey(B) := 1])

  lemma PublishFirst()
    ensures UpdateCacheAndIndices(BOTH.cache, CacheKey(A), TargetEntry(A, T)) == (CACHED.(creating := BOTH.cache.creating), [])
    ensures StopCreating(CACHED.(creating := BOTH.cache.creating), CacheKey(A), 0) == CACHED
  {
    KeysDiffer();
    var c, e, key := BOTH.cache, TargetEntry(A, T), CacheKey(A);
    assert !Has(c.entries, key);
    assert Put(c.entries, c.max, key, e).0 == [(key, e)] by { assert [(key, e)] + [] == [(key, e)]; }
    assert Put(c.entries, c.max, key, e).1 == [];
    assert TagOf(BySubscription, e) == [X] && TagOf(ByService, e) == [];
    assert FileUnder(map[], [X], key) == map[X := {key}] by { assert {} + {key} == {key}; }
    assert FileUnder(map[], [], key) == map[];
    assert c.creating - {key} == CACHED.creating;
  }

  const FIRST_DONE := State(CACHED, FIRST_STORED.watches, [Drain([]), AddRemovedMatch(B, T)], {1, 2})

  lemma ReachFirstDone()
    ensures Reachable(2, FIRST_DONE)
  {
    ReachFirstStored();
    PublishFirst();
    var s := Goto(FIRST_STORED, 0, Publish(A, T));
    Answered(2, FIRST_STORED, 0, Reply("p", ""), s, Move(Publish(A, T), {1, 2}));
    RunsPublish(s, 0, A);
    assert RunPublish(s, 0, A, T).threads == FIRST_DONE.threads;
  }

  const SECOND_STORED := State(CACHED, Watches(map[X := Subscription(3, 4, 1)], map[]),
                               [Drain([]), Verify(B, T)], {1, 2, 3, 4})

  lemma ReachSecondStored()
    ensures Reachable(2, SECOND_STORED)
  {
    KeysDiffer();
    ReachFirstDone();
    ReachStored(FIRST_DONE, 1, B, 3, 4);
    assert {1, 2} + {3} + {4} == {1, 2, 3, 4};
    var s := RunStoreSub(FIRST_DONE, 1, B, T, 3, 4);
    assert s.threads == SECOND_STORED.threads;
    assert s.watches == SECOND_STORED.watches by {
      assert map[X := Subscription(1, 2, 1)][X := Subscription(3, 4, 1)] == map[X := Subscription(3, 4, 1)];
      assert map[X := 1] - {X} == map[];
    }
  }

  /** Thread 1 has failed to verify, and given back its reference, the last one. */
  const UNWATCHED := State(CACHED, NO_WATCHES, [Drain([]), RemoveMatches([3, 4], Finish(B))], {1, 2, 3, 4})

  lemma ReachUnwatched()
    ensures Reachable(2, UNWATCHED)
  {
    KeysDiffer();
    ReachSecondStored();
    var s := Goto(SECOND_STORED, 1, Unverified(B, T));
    Answered(2, SECOND_STORED, 1, Reply("q", ""), s, Move(Unverified(B, T), s.live));
    RunsUnverified(s, 1, B);
    assert LiveIds([3, 4]) == [3, 4] by { assert LiveIds([4]) == [4] by { assert LiveIds([]) == []; } }
    assert map[X := Subscription(3, 4, 1)] - {X} == map[];
    assert DecreaseRefcount(s.watches, X) == (NO_WATCHES, [3, 4]);
    assert RunDecrease(s, 1, TargetWatch(B, T), Finish(B)).threads == UNWATCHED.threads;
  }

  /** With a time-out the guarantee fails: a reachable state caches a path whose
      subscription does not exist, while its bus matches 1 and 2 stay registered. */
  lemma TimeoutLeavesPathUnwatched()
    ensures Reachable(2, UNWATCHED) && !Conserved(UNWATCHED)
    ensures UNWATCHED.cache.entries[0].1.path == "p"
    ensures SubKey(WatchOf(UNWATCHED.cache.entries[0].1)) !in UNWATCHED.watches.subs
  {
    ReachUnwatched();
    if Conserved(UNWATCHED) {
      CachedEntriesAreWatched(UNWATCHED, 0);
    }
  }
}
