/** Conservation of subscription references. */
module MdbConservation {
  // The count of a subscription is the number of cached entries, pending clean-ups and
  // in-flight threads that hold it. A step breaks that exactly when it overwrites a
  // subscription that is in use.

  import opened Recency
  import opened MdbIndex
  import opened MdbRegions
  import opened MdbProtocol
  import opened MdbSafety

  /** The references a thread holds on subscription `x`: one between taking it and
      passing it on, and one for each clean-up it still has to do. */
  function HoldsOf(pc: Pc, x: string): nat {
    match pc
    case Verify(req, target) => One(SubKey(TargetWatch(req, target)) == x)
    case Unverified(req, target) => One(SubKey(TargetWatch(req, target)) == x)
    case Publish(req, target) => One(SubKey(TargetWatch(req, target)) == x)
    case RemoveMatches(_, next) => HoldsOf(next, x)
    case Drain(tasks) => TaskHolds(tasks, x)
    case Sweep(_, pending, _, _) => TaskHolds(pending, x)
    case _ => 0
  }

  function ThreadHolds(threads: seq<Pc>, x: string): nat {
    if threads == [] then 0 else HoldsOf(threads[0], x) + ThreadHolds(threads[1..], x)
  }

  ghost predicate Balanced(s: State, x: string) {
    RefsOf(s.watches, x) == CacheHolds(s.cache.entries, x) + ThreadHolds(s.threads, x)
  }

  ghost predicate Conserved(s: State) {
    && (forall x :: Balanced(s, x))
    && (forall x :: x in s.watches.subs ==> s.watches.subs[x].refs > 0)
  }

  lemma {:induction false} ThreadHoldsUpdate(threads: seq<Pc>, t: nat, pc: Pc, x: string)
    requires t < |threads|
    ensures ThreadHolds(threads[t := pc], x) + HoldsOf(threads[t], x) == ThreadHolds(threads, x) + HoldsOf(pc, x)
  {
    var after := threads[t := pc];
    if t > 0 {
      ThreadHoldsUpdate(threads[1..], t - 1, pc, x);
      assert after[1..] == threads[1..][t - 1 := pc];
    } else {
      assert after[1..] == threads[1..];
    }
  }

  lemma {:induction false} OneThreadHolds(threads: seq<Pc>, t: nat, x: string)
    requires t < |threads|
    ensures HoldsOf(threads[t], x) <= ThreadHolds(threads, x)
  {
    if t > 0 { OneThreadHolds(threads[1..], t - 1, x); }
  }

  // ---- what one step does to the account of `x` ----

  /** The step changes the count of `x` by as much as it changes the holds on it. */
  ghost predicate Neutral(s: State, t: nat, s': State, x: string)
    requires t < |s.threads| == |s'.threads|
  {
    RefsOf(s'.watches, x) + CacheHolds(s.cache.entries, x) + HoldsOf(s.threads[t], x)
    == RefsOf(s.watches, x) + CacheHolds(s'.cache.entries, x) + HoldsOf(s'.threads[t], x)
  }

  /** The step by which a creator stores over a subscription that is in use. */
  ghost predicate OverwritesLive(s: State, t: nat, a: Action)
    requires t < |s.threads|
  {
    && s.threads[t].StoreSub? && a.Run?
    && SubKey(TargetWatch(s.threads[t].req, s.threads[t].target)) in s.watches.subs
  }

  lemma AnswerHolds(pc: Pc, a: Action, live: set<nat>, x: string)
    requires Answer(pc, a, live) != []
    ensures HoldsOf(Answer(pc, a, live)[0].pc, x) == HoldsOf(pc, x)
  {
  }

  lemma ResizeNeutral(s: State, t: nat, max: nat, x: string)
    requires t < |s.threads| && s.threads[t] == Idle
    ensures var (c, pending) := SetMaxCacheSize(s.cache, max);
            Neutral(s, t, Goto(s.(cache := c), t, Drain(pending)), x)
  {
    ResizeHolds(s.cache, max, x);
  }

  lemma CollectNeutral(s: State, t: nat, order: seq<string>, changed: seq<string>, x: string)
    requires t < |s.threads| && s.threads[t] == Idle
    ensures var (c, keys) := CollectInvalidated(s.cache, order, changed);
            Neutral(s, t, Goto(s.(cache := c), t, Sweep(keys, [], "", [])), x)
  {
    CollectHolds(s.cache, order, changed, x);
  }

  lemma StartNeutral(s: State, t: nat, call: Call, x: string)
    requires t < |s.threads| && s.threads[t] == Idle && StartCall(s, t, call) != []
    ensures var s' := StartCall(s, t, call)[0];
            |s'.threads| == |s.threads| && s'.watches == s.watches && Neutral(s, t, s', x)
  {
    match call
    case PropertiesChanged(_, _, changed, order) => CollectNeutral(s, t, order, changed, x);
    case Resize(max) => ResizeNeutral(s, t, max, x);
    case _ =>
  }

  lemma LookupNeutral(s: State, t: nat, req: Request, waits: nat, timeUp: bool, x: string)
    requires t < |s.threads| && s.threads[t] == AwaitKey(req, waits)
    ensures var s' := RunLookup(s, t, req, waits, timeUp);
            s'.watches == s.watches && Neutral(s, t, s', x)
  {
    TouchHolds(s.cache.entries, CacheKey(req), x);
    var s' := RunLookup(s, t, req, waits, timeUp);
    assert CacheHolds(s'.cache.entries, x) == CacheHolds(s.cache.entries, x);
    assert HoldsOf(s'.threads[t], x) == 0;
  }

  lemma PublishNeutral(s: State, t: nat, req: Request, target: Target, x: string)
    requires t < |s.threads| && s.threads[t] == Publish(req, target)
    ensures var s' := RunPublish(s, t, req, target);
            s'.watches == s.watches && Neutral(s, t, s', x)
  {
    var e := TargetEntry(req, target);
    UpdateHolds(s.cache, CacheKey(req), e, x);
    assert WatchOf(e) == TargetWatch(req, target);
  }

  lemma CleanNeutral(s: State, t: nat, keys: seq<string>, pending: seq<Watch>, path: string,
                     ifaces: seq<string>, x: string)
    requires t < |s.threads| && s.threads[t] == Sweep(keys, pending, path, ifaces) && keys != []
    ensures var (c, more) := CleanupCacheEntry(s.cache, keys[0]);
            Neutral(s, t, Goto(s.(cache := c), t, Sweep(keys[1..], pending + more, path, ifaces)), x)
  {
    CleanupHolds(s.cache, keys[0], x);
    TaskHoldsConcat(pending, CleanupCacheEntry(s.cache, keys[0]).1, x);
  }

  lemma SweepNeutral(s: State, t: nat, a: Action, keys: seq<string>, pending: seq<Watch>, path: string,
                     ifaces: seq<string>, x: string)
    requires t < |s.threads| && s.threads[t] == Sweep(keys, pending, path, ifaces)
    requires RunSweep(s, t, a, keys, pending, path, ifaces) != []
    ensures var s' := RunSweep(s, t, a, keys, pending, path, ifaces)[0];
            |s'.threads| == |s.threads| && s'.watches == s.watches && Neutral(s, t, s', x)
  {
    if keys != [] { CleanNeutral(s, t, keys, pending, path, ifaces, x); }
  }

  /** Giving a reference back is neutral when there is one to give back. */
  lemma DecreaseNeutral(s: State, t: nat, watch: Watch, next: Pc, x: string)
    requires t < |s.threads| && RefsOf(s.watches, SubKey(watch)) > 0
    requires HoldsOf(s.threads[t], x) == HoldsOf(next, x) + One(SubKey(watch) == x)
    ensures Neutral(s, t, RunDecrease(s, t, watch, next), x)
  {
    DecreaseTakesOne(s.watches, SubKey(watch));
  }

  lemma SubscribeNeutral(s: State, t: nat, req: Request, target: Target, waits: nat, x: string)
    requires t < |s.threads| && s.threads[t] == Subscribe(req, target, waits)
    ensures Neutral(s, t, RunSubscribe(s, t, req, target, waits), x)
  {
  }

  lemma StoreNeutral(s: State, t: nat, req: Request, target: Target, removed: nat, changed: nat, x: string)
    requires t < |s.threads| && s.threads[t] == StoreSub(req, target, removed, changed)
    requires SubKey(TargetWatch(req, target)) !in s.watches.subs
    ensures Neutral(s, t, RunStoreSub(s, t, req, target, removed, changed), x)
  {
  }

  /** The subscription whose reference the thread gives back in its next region. */
  function GivesBack(pc: Pc): seq<string> {
    match pc
    case Unverified(req, target) => [SubKey(TargetWatch(req, target))]
    case Drain(tasks) => if tasks == [] then [] else [SubKey(tasks[0])]
    case _ => []
  }

  lemma RegionNeutral(s: State, t: nat, a: Action, x: string)
    requires t < |s.threads| && Region(s, t, a) != [] && !OverwritesLive(s, t, a)
    requires GivesBack(s.threads[t]) != [] ==> RefsOf(s.watches, GivesBack(s.threads[t])[0]) > 0
    ensures |Region(s, t, a)[0].threads| == |s.threads| && Neutral(s, t, Region(s, t, a)[0], x)
  {
    match s.threads[t]
    case Idle => StartNeutral(s, t, a.call, x);
    case AwaitKey(req, waits) => LookupNeutral(s, t, req, waits, a.GiveUp?, x);
    case Subscribe(req, target, waits) => SubscribeNeutral(s, t, req, target, waits, x);
    case StoreSub(req, target, removed, changed) => StoreNeutral(s, t, req, target, removed, changed, x);
    case Unverified(req, target) => DecreaseNeutral(s, t, TargetWatch(req, target), Finish(req), x);
    case Publish(req, target) => PublishNeutral(s, t, req, target, x);
    case Drain(tasks) => if tasks != [] { DecreaseNeutral(s, t, tasks[0], Drain(tasks[1..]), x); }
    case Sweep(keys, pending, path, ifaces) => SweepNeutral(s, t, a, keys, pending, path, ifaces, x);
    case _ =>
  }

  /** In a conserved state, whatever a thread holds has a positive count. */
  lemma HeldIsCounted(s: State, t: nat, x: string)
    requires t < |s.threads| && Conserved(s) && HoldsOf(s.threads[t], x) > 0
    ensures RefsOf(s.watches, x) > 0
  {
    OneThreadHolds(s.threads, t, x);
    assert Balanced(s, x);
  }

  lemma StepNeutral(s: State, t: nat, a: Action, x: string)
    requires t < |s.threads| && Conserved(s) && Step(s, t, a) != []
    requires !OverwritesLive(s, t, a)
    ensures |Step(s, t, a)[0].threads| == |s.threads| && Neutral(s, t, Step(s, t, a)[0], x)
  {
    if Answer(s.threads[t], a, s.live) == [] {
      var back := GivesBack(s.threads[t]);
      if back != [] { HeldIsCounted(s, t, back[0]); }
      RegionNeutral(s, t, a, x);
    } else {
      AnswerHolds(s.threads[t], a, s.live, x);
    }
  }

  lemma NeutralKeepsBalance(s: State, t: nat, s': State, x: string)
    requires t < |s.threads| == |s'.threads| && Balanced(s, x) && Neutral(s, t, s', x)
    requires forall u :: 0 <= u < |s.threads| && u != t ==> s'.threads[u] == s.threads[u]
    ensures Balanced(s', x)
  {
    ThreadHoldsUpdate(s.threads, t, s'.threads[t], x);
    assert s'.threads == s.threads[t := s'.threads[t]];
  }

  /** No subscription stays in the map without a reference. */
  lemma StepKeepsCountsPositive(s: State, t: nat, a: Action)
    requires t < |s.threads| && Step(s, t, a) != []
    requires forall x :: x in s.watches.subs ==> s.watches.subs[x].refs > 0
    ensures forall x :: x in Step(s, t, a)[0].watches.subs ==> Step(s, t, a)[0].watches.subs[x].refs > 0
  {
    if Answer(s.threads[t], a, s.live) == [] {
      match s.threads[t]
      case Idle => StartWatches(s, t, a.call);
      case Unverified(req, target) => DecreaseTakesOne(s.watches, SubKey(TargetWatch(req, target)));
      case Drain(tasks) => if tasks != [] { DecreaseTakesOne(s.watches, SubKey(tasks[0])); }
      case _ =>
    }
  }

  /** Overwriting a subscription in use forgets the references it had. */
  lemma OverwriteBreaks(s: State, t: nat, a: Action)
    requires t < |s.threads| && Conserved(s) && OverwritesLive(s, t, a)
    ensures Step(s, t, a) != [] && !Conserved(Step(s, t, a)[0])
  {
    var pc := s.threads[t];
    var x := SubKey(TargetWatch(pc.req, pc.target));
    var s' := Step(s, t, a)[0];
    assert Balanced(s, x) && RefsOf(s.watches, x) > 0;
    assert s' == RunStoreSub(s, t, pc.req, pc.target, pc.removedMatch, pc.changedMatch);
    ThreadHoldsUpdate(s.threads, t, s'.threads[t], x);
    assert RefsOf(s'.watches, x) == 1;
    assert !Balanced(s', x);
  }

  /** Exactly one kind of step breaks conservation. */
  lemma StepConservesIff(s: State, t: nat, a: Action)
    requires t < |s.threads| && Conserved(s) && Step(s, t, a) != []
    ensures Conserved(Step(s, t, a)[0]) <==> !OverwritesLive(s, t, a)
  {
    if OverwritesLive(s, t, a) {
      OverwriteBreaks(s, t, a);
    } else {
      var s' := Step(s, t, a)[0];
      StepMovesOne(s, t, a);
      StepKeepsCountsPositive(s, t, a);
      forall x ensures Balanced(s', x) {
        StepNeutral(s, t, a, x);
        NeutralKeepsBalance(s, t, s', x);
      }
    }
  }
}
