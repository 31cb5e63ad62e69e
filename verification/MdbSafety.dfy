/** What holds in every run of the MDB path cache. */
module MdbSafety {
  // In every state of every run, wait time-outs included, the indices agree with the
  // cache, a key is filled by one thread at a time, and no thread waits for more than
  // MAX_WAIT_ATTEMPTS rounds.

  import opened Recency
  import opened MdbIndex
  import opened MdbRegions
  import opened MdbProtocol

  /** The cache key a thread is filling, from registration to removal. */
  function FlightKey(pc: Pc): (r: seq<string>)
    ensures |r| <= 1
  {
    match pc
    case Query(req) => [CacheKey(req)]
    case Subscribe(req, _, _) => [CacheKey(req)]
    case AddRemovedMatch(req, _) => [CacheKey(req)]
    case AddChangedMatch(req, _, _) => [CacheKey(req)]
    case AbandonWatch(req, _, _) => [CacheKey(req)]
    case StoreSub(req, _, _, _) => [CacheKey(req)]
    case Verify(req, _) => [CacheKey(req)]
    case Unverified(req, _) => [CacheKey(req)]
    case Publish(req, _) => [CacheKey(req)]
    case Finish(req) => [CacheKey(req)]
    case RemoveMatches(_, next) => FlightKey(next)
    case _ => []
  }

  /** The subscription key a thread is creating. */
  function BuildKey(pc: Pc): (r: seq<string>)
    ensures |r| <= 1
  {
    match pc
    case AddRemovedMatch(req, target) => [SubKey(TargetWatch(req, target))]
    case AddChangedMatch(req, target, _) => [SubKey(TargetWatch(req, target))]
    case AbandonWatch(req, target, _) => [SubKey(TargetWatch(req, target))]
    case StoreSub(req, target, _, _) => [SubKey(TargetWatch(req, target))]
    case RemoveMatches(_, next) => BuildKey(next)
    case _ => []
  }

  function WaitsOf(pc: Pc): nat {
    match pc
    case AwaitKey(_, waits) => waits
    case Subscribe(_, _, waits) => waits
    case RemoveMatches(_, next) => WaitsOf(next)
    case _ => 0
  }

  /** Each key being filled is registered to the very thread that fills it, and no
      registration outlives its thread's work. */
  ghost predicate SingleFlight(s: State) {
    && (forall t :: 0 <= t < |s.threads| && FlightKey(s.threads[t]) != [] ==>
          var k := FlightKey(s.threads[t])[0]; k in s.cache.creating && s.cache.creating[k] == t)
    && (forall k :: k in s.cache.creating ==>
          var t := s.cache.creating[k]; t < |s.threads| && FlightKey(s.threads[t]) == [k])
  }

  /** A registration to create a subscription is never stale. */
  ghost predicate BuildersOwned(s: State) {
    forall k :: k in s.watches.creating ==>
      var t := s.watches.creating[k]; t < |s.threads| && BuildKey(s.threads[t]) == [k]
  }

  ghost predicate WaitsBounded(s: State) {
    forall t :: 0 <= t < |s.threads| ==> WaitsOf(s.threads[t]) <= MAX_WAIT_ATTEMPTS
  }

  ghost predicate Safe(s: State) {
    CacheOk(s.cache) && SingleFlight(s) && BuildersOwned(s) && WaitsBounded(s)
  }

  // ---- the cache part ----

  lemma LookupKeepsCache(s: State, t: nat, req: Request, waits: nat, timeUp: bool)
    requires t < |s.threads| && CacheOk(s.cache)
    ensures CacheOk(RunLookup(s, t, req, waits, timeUp).cache)
  {
    TouchKeepsCache(s.cache, CacheKey(req));
  }

  lemma StartKeepsCache(s: State, t: nat, call: Call)
    requires t < |s.threads| && CacheOk(s.cache) && StartCall(s, t, call) != []
    ensures CacheOk(StartCall(s, t, call)[0].cache)
  {
    match call
    case PropertiesChanged(_, _, changed, order) => CollectKeepsCache(s.cache, order, changed);
    case Resize(max) => ResizeKeepsCache(s.cache, max);
    case _ =>
  }

  lemma SweepKeepsCache(s: State, t: nat, a: Action, keys: seq<string>, pending: seq<Watch>, path: string,
                        ifaces: seq<string>)
    requires t < |s.threads| && CacheOk(s.cache) && RunSweep(s, t, a, keys, pending, path, ifaces) != []
    ensures CacheOk(RunSweep(s, t, a, keys, pending, path, ifaces)[0].cache)
  {
    if keys != [] { CleanupKeepsCache(s.cache, keys[0]); }
  }

  lemma PublishKeepsCache(s: State, t: nat, req: Request, target: Target)
    requires t < |s.threads| && CacheOk(s.cache)
    ensures CacheOk(RunPublish(s, t, req, target).cache)
  {
    UpdateKeepsCache(s.cache, CacheKey(req), TargetEntry(req, target));
  }

  predicate TouchesEntries(pc: Pc) {
    pc.Idle? || pc.AwaitKey? || pc.Publish? || pc.Sweep?
  }

  lemma OtherRegionsKeepCache(s: State, t: nat, a: Action)
    requires t < |s.threads| && Region(s, t, a) != [] && !TouchesEntries(s.threads[t])
    ensures Region(s, t, a)[0].cache == s.cache.(creating := Region(s, t, a)[0].cache.creating)
  {
  }

  lemma OtherRegionKeepsCache(s: State, t: nat, a: Action)
    requires t < |s.threads| && CacheOk(s.cache) && Region(s, t, a) != [] && !TouchesEntries(s.threads[t])
    ensures CacheOk(Region(s, t, a)[0].cache)
  {
    OtherRegionsKeepCache(s, t, a);
  }

  lemma TouchingRegionKeepsCache(s: State, t: nat, a: Action)
    requires t < |s.threads| && CacheOk(s.cache) && Region(s, t, a) != [] && TouchesEntries(s.threads[t])
    ensures CacheOk(Region(s, t, a)[0].cache)
  {
    var pc := s.threads[t];
    if pc.Idle? {
      StartKeepsCache(s, t, a.call);
    } else if pc.AwaitKey? {
      LookupKeepsCache(s, t, pc.req, pc.waits, a.GiveUp?);
    } else if pc.Publish? {
      PublishKeepsCache(s, t, pc.req, pc.target);
    } else {
      SweepKeepsCache(s, t, a, pc.keys, pc.pending, pc.path, pc.ifaces);
    }
  }

  /** Index agreement survives every step of every thread. */
  lemma StepKeepsCache(s: State, t: nat, a: Action)
    requires t < |s.threads| && CacheOk(s.cache) && Step(s, t, a) != []
    ensures CacheOk(Step(s, t, a)[0].cache)
  {
    if Answer(s.threads[t], a, s.live) == [] {
      if TouchesEntries(s.threads[t]) {
        TouchingRegionKeepsCache(s, t, a);
      } else {
        OtherRegionKeepsCache(s, t, a);
      }
    }
  }

  // ---- who is registered ----

  lemma AnswerKeepsKeys(pc: Pc, a: Action, live: set<nat>)
    requires Answer(pc, a, live) != []
    ensures var pc' := Answer(pc, a, live)[0].pc;
            FlightKey(pc') == FlightKey(pc) && BuildKey(pc') == BuildKey(pc) && WaitsOf(pc') <= WaitsOf(pc)
  {
  }

  /** A region either leaves its thread's flight alone, starts one for a key nobody
      fills, or ends it. */
  ghost predicate FlightChange(s: State, t: nat, s': State)
    requires t < |s.threads| && t < |s'.threads|
  {
    var before, after := FlightKey(s.threads[t]), FlightKey(s'.threads[t]);
    || (after == before && s'.cache.creating == s.cache.creating)
    || (before == [] && after != [] && after[0] !in s.cache.creating
        && s'.cache.creating == s.cache.creating[after[0] := t])
    || (before != [] && after == [] && s'.cache.creating == s.cache.creating - {before[0]})
  }

  lemma StartFlight(s: State, t: nat, call: Call)
    requires t < |s.threads| && s.threads[t] == Idle && StartCall(s, t, call) != []
    ensures var s' := StartCall(s, t, call)[0];
            |s'.threads| == |s.threads| && FlightKey(s'.threads[t]) == [] && s'.cache.creating == s.cache.creating
  {
    match call
    case PropertiesChanged(_, _, changed, order) => CollectKeepsCreating(s.cache, order, changed);
    case Resize(max) => ResizeKeepsCreating(s.cache, max);
    case _ =>
  }

  lemma SweepFlight(s: State, t: nat, a: Action, keys: seq<string>, pending: seq<Watch>, path: string,
                    ifaces: seq<string>)
    requires t < |s.threads| && RunSweep(s, t, a, keys, pending, path, ifaces) != []
    ensures var s' := RunSweep(s, t, a, keys, pending, path, ifaces)[0];
            |s'.threads| == |s.threads| && FlightKey(s'.threads[t]) == [] && s'.cache.creating == s.cache.creating
  {
    if keys != [] { CleanupKeepsCreating(s.cache, keys[0]); }
  }

  lemma LookupFlight(s: State, t: nat, req: Request, waits: nat, timeUp: bool)
    requires t < |s.threads| && s.threads[t] == AwaitKey(req, waits)
    ensures FlightChange(s, t, RunLookup(s, t, req, waits, timeUp))
  {
  }

  lemma PublishFlight(s: State, t: nat, req: Request, target: Target)
    requires t < |s.threads| && s.threads[t] == Publish(req, target)
    requires CacheKey(req) in s.cache.creating && s.cache.creating[CacheKey(req)] == t
    ensures FlightChange(s, t, RunPublish(s, t, req, target))
  {
    UpdateKeepsCreating(s.cache, CacheKey(req), TargetEntry(req, target));
  }

  lemma RegionFlight(s: State, t: nat, a: Action)
    requires t < |s.threads| && Region(s, t, a) != []
    requires FlightKey(s.threads[t]) != [] ==>
               var k := FlightKey(s.threads[t])[0]; k in s.cache.creating && s.cache.creating[k] == t
    ensures |Region(s, t, a)[0].threads| == |s.threads| && FlightChange(s, t, Region(s, t, a)[0])
  {
    match s.threads[t]
    case Idle => StartFlight(s, t, a.call);
    case AwaitKey(req, waits) => LookupFlight(s, t, req, waits, a.GiveUp?);
    case Publish(req, target) => PublishFlight(s, t, req, target);
    case Sweep(keys, pending, path, ifaces) => SweepFlight(s, t, a, keys, pending, path, ifaces);
    case _ =>
  }

  lemma FlightChangeKeeps(s: State, t: nat, s': State)
    requires t < |s.threads| == |s'.threads| && SingleFlight(s) && FlightChange(s, t, s')
    requires forall u :: 0 <= u < |s.threads| && u != t ==> s'.threads[u] == s.threads[u]
    ensures SingleFlight(s')
  {
  }

  lemma StepKeepsFlights(s: State, t: nat, a: Action)
    requires t < |s.threads| && SingleFlight(s) && Step(s, t, a) != []
    ensures SingleFlight(Step(s, t, a)[0])
  {
    var s' := Step(s, t, a)[0];
    StepMovesOne(s, t, a);
    assert FlightChange(s, t, s') by {
      if Answer(s.threads[t], a, s.live) == [] {
        RegionFlight(s, t, a);
      } else {
        AnswerKeepsKeys(s.threads[t], a, s.live);
      }
    }
    FlightChangeKeeps(s, t, s');
  }

  /** A region registers its thread as a creator, ends its registration if it is
      still its own, or touches neither. */
  ghost predicate BuildChange(s: State, t: nat, s': State)
    requires t < |s.threads| && t < |s'.threads|
  {
    var before, after := BuildKey(s.threads[t]), BuildKey(s'.threads[t]);
    || (after == before && s'.watches.creating == s.watches.creating)
    || (before == [] && after != [] && s'.watches.creating == s.watches.creating[after[0] := t])
    || (before != [] && after == []
        && s'.watches.creating == StopCreatingSub(s.watches, before[0], t).creating)
  }

  lemma StartWatches(s: State, t: nat, call: Call)
    requires t < |s.threads| && s.threads[t] == Idle && StartCall(s, t, call) != []
    ensures var s' := StartCall(s, t, call)[0];
            && |s'.threads| == |s.threads| && s'.watches == s.watches
            && BuildKey(s'.threads[t]) == [] && WaitsOf(s'.threads[t]) == 0
  {
  }

  lemma RegionBuild(s: State, t: nat, a: Action)
    requires t < |s.threads| && Region(s, t, a) != []
    ensures |Region(s, t, a)[0].threads| == |s.threads| && BuildChange(s, t, Region(s, t, a)[0])
  {
    match s.threads[t]
    case Idle => StartWatches(s, t, a.call);
    case _ =>
  }

  lemma BuildChangeKeeps(s: State, t: nat, s': State)
    requires t < |s.threads| == |s'.threads| && BuildersOwned(s) && BuildChange(s, t, s')
    requires forall u :: 0 <= u < |s.threads| && u != t ==> s'.threads[u] == s.threads[u]
    ensures BuildersOwned(s')
  {
  }

  lemma StepKeepsBuilders(s: State, t: nat, a: Action)
    requires t < |s.threads| && BuildersOwned(s) && Step(s, t, a) != []
    ensures BuildersOwned(Step(s, t, a)[0])
  {
    var s' := Step(s, t, a)[0];
    StepMovesOne(s, t, a);
    assert BuildChange(s, t, s') by {
      if Answer(s.threads[t], a, s.live) == [] {
        RegionBuild(s, t, a);
      } else {
        AnswerKeepsKeys(s.threads[t], a, s.live);
      }
    }
    BuildChangeKeeps(s, t, s');
  }

  lemma RegionWaits(s: State, t: nat, a: Action)
    requires t < |s.threads| && Region(s, t, a) != [] && WaitsOf(s.threads[t]) <= MAX_WAIT_ATTEMPTS
    ensures |Region(s, t, a)[0].threads| == |s.threads|
    ensures WaitsOf(Region(s, t, a)[0].threads[t]) <= MAX_WAIT_ATTEMPTS
  {
    match s.threads[t]
    case Idle => StartWatches(s, t, a.call);
    case _ =>
  }

  lemma StepKeepsWaits(s: State, t: nat, a: Action)
    requires t < |s.threads| && WaitsBounded(s) && Step(s, t, a) != []
    ensures WaitsBounded(Step(s, t, a)[0])
  {
    StepMovesOne(s, t, a);
    if Answer(s.threads[t], a, s.live) == [] {
      RegionWaits(s, t, a);
    } else {
      AnswerKeepsKeys(s.threads[t], a, s.live);
    }
  }

  lemma StepKeepsSafe(s: State, t: nat, a: Action)
    requires t < |s.threads| && Safe(s) && Step(s, t, a) != []
    ensures Safe(Step(s, t, a)[0])
  {
    StepKeepsCache(s, t, a);
    StepKeepsFlights(s, t, a);
    StepKeepsBuilders(s, t, a);
    StepKeepsWaits(s, t, a);
  }

  /** Every reachable state is safe, whatever the interleaving. */
  lemma {:induction false} EveryRunIsSafe(n: nat, script: Script, s: State)
    requires Leads(Init(n), script, s)
    ensures Safe(s) && |s.threads| == n
    decreases |script|
  {
    if script != [] {
      var (t, a) := script[|script| - 1];
      LeadsLast(Init(n), script, s);
      var b :| Leads(Init(n), script[..|script| - 1], b) && t < |b.threads| && Step(b, t, a) == [s];
      EveryRunIsSafe(n, script[..|script| - 1], b);
      StepKeepsSafe(b, t, a);
      StepMovesOne(b, t, a);
    }
  }

  /** At most one thread is filling a given cache key, in every run. */
  lemma OneThreadFillsAKey(n: nat, script: Script, s: State, t: nat, u: nat)
    requires Leads(Init(n), script, s) && t < n && u < n
    requires |s.threads| == n && FlightKey(s.threads[t]) != [] && FlightKey(s.threads[t]) == FlightKey(s.threads[u])
    ensures t == u
  {
    EveryRunIsSafe(n, script, s);
    assert s.cache.creating[FlightKey(s.threads[t])[0]] == t;
    assert s.cache.creating[FlightKey(s.threads[u])[0]] == u;
  }
}
