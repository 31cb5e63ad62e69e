/** The matches registered on the bus, and who is to remove them. */
module MdbMatches {
  // A registered match belongs to one stored subscription, or to one thread that has yet
  // to store it or to remove it. A step breaks that exactly when it stores over a
  // subscription with matches, or when the bus fails to remove some.

  import opened MdbIndex
  import opened MdbRegions
  import opened MdbProtocol
  import opened MdbSafety
  import opened MdbConservation
  import opened MdbRuns

  function Occurs(ids: seq<nat>, x: nat): nat {
    if ids == [] then 0 else One(ids[0] == x) + Occurs(ids[1..], x)
  }

  /** How often a thread has match `x` to store or to remove. */
  function IdsOf(pc: Pc, x: nat): nat {
    match pc
    case AddChangedMatch(_, _, removed) => One(removed == x)
    case StoreSub(_, _, removed, changed) => One(removed == x) + One(changed == x)
    case AbandonWatch(_, _, drop) => Occurs(drop, x)
    case RemoveMatches(ids, next) => Occurs(ids, x) + IdsOf(next, x)
    case _ => 0
  }

  function ThreadIds(threads: seq<Pc>, x: nat): nat {
    if threads == [] then 0 else IdsOf(threads[0], x) + ThreadIds(threads[1..], x)
  }

  predicate Keeps(sub: Subscription, x: nat) {
    sub.removedMatch == x || sub.changedMatch == x
  }

  function Keepers(w: Watches, x: nat): set<string> {
    set k | k in w.subs && Keeps(w.subs[k], x)
  }

  /** A match has one keeper if it is registered, and none otherwise. */
  ghost predicate OneKeeper(s: State, x: nat) {
    |Keepers(s.watches, x)| + ThreadIds(s.threads, x) == One(x in s.live)
  }

  /** The two matches of a subscription differ. */
  ghost predicate TwoMatches(w: Watches) {
    forall k :: k in w.subs ==> w.subs[k].removedMatch == 0 || w.subs[k].removedMatch != w.subs[k].changedMatch
  }

  ghost predicate Matched(s: State) {
    && (forall x: nat :: x > 0 ==> OneKeeper(s, x))
    && TwoMatches(s.watches) && 0 !in s.live
  }

  lemma {:induction false} ThreadIdsUpdate(threads: seq<Pc>, t: nat, pc: Pc, x: nat)
    requires t < |threads|
    ensures ThreadIds(threads[t := pc], x) + IdsOf(threads[t], x) == ThreadIds(threads, x) + IdsOf(pc, x)
  {
    var after := threads[t := pc];
    if t > 0 {
      ThreadIdsUpdate(threads[1..], t - 1, pc, x);
      assert after[1..] == threads[1..][t - 1 := pc];
    } else {
      assert after[1..] == threads[1..];
    }
  }

  lemma {:induction false} OneThreadIds(threads: seq<Pc>, t: nat, x: nat)
    requires t < |threads|
    ensures IdsOf(threads[t], x) <= ThreadIds(threads, x)
  {
    if t > 0 { OneThreadIds(threads[1..], t - 1, x); }
  }

  // ---- the steps that lose a match ----

  predicate HasMatch(ids: seq<nat>) {
    ids != [] && (ids[0] > 0 || HasMatch(ids[1..]))
  }

  /** The bus does not remove the matches it is asked to remove. */
  predicate FailsToRemove(pc: Pc, a: Action) {
    a.Threw? && ((pc.AbandonWatch? && HasMatch(pc.drop)) || (pc.RemoveMatches? && HasMatch(pc.ids)))
  }

  predicate OverwritesMatches(s: State, t: nat, a: Action)
    requires t < |s.threads|
  {
    && s.threads[t].StoreSub? && a.Run?
    && var k := SubKey(TargetWatch(s.threads[t].req, s.threads[t].target));
    && k in s.watches.subs && (s.watches.subs[k].removedMatch > 0 || s.watches.subs[k].changedMatch > 0)
  }

  predicate LosesMatch(s: State, t: nat, a: Action)
    requires t < |s.threads|
  {
    FailsToRemove(s.threads[t], a) || OverwritesMatches(s, t, a)
  }

  lemma {:induction false} NoMatchNoId(ids: seq<nat>, x: nat)
    requires x > 0 && !HasMatch(ids)
    ensures Occurs(ids, x) == 0
  {
    if ids != [] { NoMatchNoId(ids[1..], x); }
  }

  lemma {:induction false} SomeMatch(ids: seq<nat>) returns (x: nat)
    requires HasMatch(ids)
    ensures x > 0 && Occurs(ids, x) > 0
  {
    if ids[0] > 0 { x := ids[0]; } else { x := SomeMatch(ids[1..]); }
  }

  lemma LiveIdsOccur(a: nat, b: nat, x: nat)
    requires x > 0
    ensures Occurs(LiveIds([a]), x) == One(a == x)
    ensures Occurs(LiveIds([a, b]), x) == One(a == x) + One(b == x)
  {
    assert [a][1..] == [] && [a, b][1..] == [b] && [b][1..] == [];
    assert LiveIds([]) == [];
    assert LiveIds([b]) == if b > 0 then [b] else [];
    assert Occurs([], x) == 0;
    assert [a] + [b] == [a, b];
  }

  // ---- answers of the bus ----

  lemma AnswerIsEven(pc: Pc, a: Action, live: set<nat>, x: nat)
    requires x > 0 && Answer(pc, a, live) != [] && !FailsToRemove(pc, a)
    requires IdsOf(pc, x) <= One(x in live)
    ensures var m := Answer(pc, a, live)[0];
            IdsOf(m.pc, x) + One(x in live) == IdsOf(pc, x) + One(x in m.live)
  {
    match pc
    case AddChangedMatch(_, _, removed) => if a.Threw? { LiveIdsOccur(removed, 0, x); }
    case AbandonWatch(_, _, drop) => if a.Threw? { NoMatchNoId(drop, x); }
    case RemoveMatches(ids, next) => if a.Threw? { NoMatchNoId(ids, x); }
    case _ =>
  }

  lemma AnswerLoses(pc: Pc, a: Action, live: set<nat>) returns (x: nat)
    requires Answer(pc, a, live) != [] && FailsToRemove(pc, a)
    ensures x > 0 && Answer(pc, a, live)[0].live == live && IdsOf(Answer(pc, a, live)[0].pc, x) < IdsOf(pc, x)
  {
    x := SomeMatch(if pc.AbandonWatch? then pc.drop else pc.ids);
    assert IdsOf(AbandonWatch(Request("", "", false, []), Target("", ""), []), x) == 0;
  }

  lemma AnswerKeepsZero(pc: Pc, a: Action, live: set<nat>)
    requires 0 !in live && Answer(pc, a, live) != []
    ensures 0 !in Answer(pc, a, live)[0].live
  {
  }

  // ---- regions ----

  /** The subscriptions gain as many matches as the thread passes on, and the other way
      round. */
  ghost predicate Even(s: State, t: nat, s': State, x: nat)
    requires t < |s.threads| == |s'.threads|
  {
    && s'.live == s.live
    && |Keepers(s'.watches, x)| + IdsOf(s'.threads[t], x) == |Keepers(s.watches, x)| + IdsOf(s.threads[t], x)
  }

  lemma DecreaseKeepers(w: Watches, key: string, x: nat)
    requires x > 0 && TwoMatches(w)
    ensures var (w', ids) := DecreaseRefcount(w, key);
            |Keepers(w', x)| + Occurs(ids, x) == |Keepers(w, x)| && TwoMatches(w')
  {
    var (w', ids) := DecreaseRefcount(w, key);
    if key in w.subs && w.subs[key].refs == 1 {
      var sub := w.subs[key];
      LiveIdsOccur(sub.removedMatch, sub.changedMatch, x);
      assert Keepers(w', x) == Keepers(w, x) - {key};
    } else {
      assert Keepers(w', x) == Keepers(w, x);
    }
  }

  lemma DecreaseIsEven(s: State, t: nat, watch: Watch, next: Pc, x: nat)
    requires t < |s.threads| && x > 0 && TwoMatches(s.watches) && IdsOf(s.threads[t], x) == IdsOf(next, x)
    ensures Even(s, t, RunDecrease(s, t, watch, next), x) && TwoMatches(RunDecrease(s, t, watch, next).watches)
  {
    DecreaseKeepers(s.watches, SubKey(watch), x);
    hide DecreaseRefcount, Keepers, TwoMatches;
  }

  lemma SubscribeIsEven(s: State, t: nat, req: Request, target: Target, waits: nat, x: nat)
    requires t < |s.threads| && s.threads[t] == Subscribe(req, target, waits) && TwoMatches(s.watches)
    ensures Even(s, t, RunSubscribe(s, t, req, target, waits), x)
    ensures TwoMatches(RunSubscribe(s, t, req, target, waits).watches)
  {
    assert Keepers(RunSubscribe(s, t, req, target, waits).watches, x) == Keepers(s.watches, x);
  }

  lemma KeepersStored(w: Watches, key: string, sub: Subscription, x: nat, k: string)
    requires key in w.subs ==> !Keeps(w.subs[key], x)
    ensures k in Keepers(w.(subs := w.subs[key := sub]), x) <==> k in Keepers(w, x) || (k == key && Keeps(sub, x))
    ensures key !in Keepers(w, x)
  {
    hide Keeps;
  }

  lemma StoreKeepers(w: Watches, key: string, sub: Subscription, x: nat)
    requires key in w.subs ==> !Keeps(w.subs[key], x)
    ensures |Keepers(w.(subs := w.subs[key := sub]), x)| == |Keepers(w, x)| + One(Keeps(sub, x))
  {
    hide Keepers, Keeps;
    var before, after := Keepers(w, x), Keepers(w.(subs := w.subs[key := sub]), x);
    forall k: string ensures key !in before && (k in after <==> k in before || (k == key && Keeps(sub, x))) {
      KeepersStored(w, key, sub, x, k);
    }
    assert after == before + if Keeps(sub, x) then {key} else {};
  }

  lemma StoreIsEven(s: State, t: nat, req: Request, target: Target, removed: nat, changed: nat, x: nat)
    requires t < |s.threads| && s.threads[t] == StoreSub(req, target, removed, changed) && x > 0
    requires IdsOf(s.threads[t], x) <= 1 && !OverwritesMatches(s, t, Run)
    ensures Even(s, t, RunStoreSub(s, t, req, target, removed, changed), x)
  {
    var key, sub := SubKey(TargetWatch(req, target)), Subscription(removed, changed, 1);
    var s' := RunStoreSub(s, t, req, target, removed, changed);
    StoreKeepers(s.watches, key, sub, x);
    assert Keepers(s'.watches, x) == Keepers(s.watches.(subs := s.watches.subs[key := sub]), x);
    hide Keepers;
  }

  lemma StoreLoses(s: State, t: nat, req: Request, target: Target, removed: nat, changed: nat, x: nat)
    requires t < |s.threads| && s.threads[t] == StoreSub(req, target, removed, changed) && x > 0
    requires var k := SubKey(TargetWatch(req, target)); k in s.watches.subs && Keeps(s.watches.subs[k], x)
    requires OneKeeper(s, x)
    ensures var s' := RunStoreSub(s, t, req, target, removed, changed); s'.live == s.live && !OneKeeper(s', x)
  {
    var key, s' := SubKey(TargetWatch(req, target)), RunStoreSub(s, t, req, target, removed, changed);
    OneThreadIds(s.threads, t, x);
    ThreadIdsUpdate(s.threads, t, Verify(req, target), x);
    assert key in Keepers(s.watches, x);
    assert |Keepers(s.watches, x)| == 1 + |Keepers(s.watches, x) - {key}|;
    assert Keepers(s'.watches, x) == Keepers(s.watches, x) - {key};
  }

  lemma StoreKeepsTwo(s: State, t: nat, req: Request, target: Target, removed: nat, changed: nat)
    requires Matched(s) && t < |s.threads| && s.threads[t] == StoreSub(req, target, removed, changed)
    ensures TwoMatches(RunStoreSub(s, t, req, target, removed, changed).watches)
  {
    if removed > 0 {
      assert OneKeeper(s, removed);
      OneThreadIds(s.threads, t, removed);
    }
  }

  /** Regions that leave the subscriptions alone do not touch matches either. */
  lemma OtherIsEven(s: State, t: nat, a: Action, x: nat)
    requires t < |s.threads| && Region(s, t, a) != []
    requires var pc := s.threads[t]; !pc.Subscribe? && !pc.StoreSub? && !pc.Unverified? && !pc.Drain?
    ensures var s' := Region(s, t, a)[0];
            && |s'.threads| == |s.threads| && s'.live == s.live && s'.watches.subs == s.watches.subs
            && IdsOf(s'.threads[t], x) == IdsOf(s.threads[t], x)
  {
    var pc := s.threads[t];
    if pc.Idle? { StartWatches(s, t, a.call); }
  }

  lemma RegionIsEven(s: State, t: nat, a: Action, x: nat)
    requires t < |s.threads| && Matched(s) && x > 0 && Region(s, t, a) != [] && !LosesMatch(s, t, a)
    ensures |Region(s, t, a)[0].threads| == |s.threads| && Even(s, t, Region(s, t, a)[0], x)
    ensures TwoMatches(Region(s, t, a)[0].watches)
  {
    var pc := s.threads[t];
    if pc.Subscribe? {
      SubscribeIsEven(s, t, pc.req, pc.target, pc.waits, x);
    } else if pc.StoreSub? {
      assert OneKeeper(s, x);
      OneThreadIds(s.threads, t, x);
      StoreIsEven(s, t, pc.req, pc.target, pc.removedMatch, pc.changedMatch, x);
      StoreKeepsTwo(s, t, pc.req, pc.target, pc.removedMatch, pc.changedMatch);
    } else if pc.Unverified? {
      DecreaseIsEven(s, t, TargetWatch(pc.req, pc.target), Finish(pc.req), x);
    } else if pc.Drain? {
      if pc.tasks != [] { DecreaseIsEven(s, t, pc.tasks[0], Drain(pc.tasks[1..]), x); }
    } else {
      OtherIsEven(s, t, a, x);
      assert Keepers(Region(s, t, a)[0].watches, x) == Keepers(s.watches, x);
    }
  }

  // ---- steps ----

  lemma StepKeepsKeeper(s: State, t: nat, a: Action, x: nat)
    requires t < |s.threads| && Matched(s) && x > 0 && Step(s, t, a) != [] && !LosesMatch(s, t, a)
    ensures OneKeeper(Step(s, t, a)[0], x)
  {
    var s' := Step(s, t, a)[0];
    assert OneKeeper(s, x);
    OneThreadIds(s.threads, t, x);
    StepMovesOne(s, t, a);
    assert s'.threads == s.threads[t := s'.threads[t]];
    ThreadIdsUpdate(s.threads, t, s'.threads[t], x);
    if Answer(s.threads[t], a, s.live) != [] {
      AnswerIsEven(s.threads[t], a, s.live, x);
    } else {
      RegionIsEven(s, t, a, x);
    }
  }

  lemma StepKeepsMatched(s: State, t: nat, a: Action)
    requires t < |s.threads| && Matched(s) && Step(s, t, a) != [] && !LosesMatch(s, t, a)
    ensures Matched(Step(s, t, a)[0])
  {
    forall x: nat | x > 0 ensures OneKeeper(Step(s, t, a)[0], x) { StepKeepsKeeper(s, t, a, x); }
    if Answer(s.threads[t], a, s.live) != [] {
      AnswerKeepsZero(s.threads[t], a, s.live);
    } else {
      RegionIsEven(s, t, a, 1);
    }
  }

  lemma FailureBreaks(s: State, t: nat, a: Action)
    requires t < |s.threads| && Matched(s) && Step(s, t, a) != [] && FailsToRemove(s.threads[t], a)
    ensures !Matched(Step(s, t, a)[0])
  {
    assert Answer(s.threads[t], a, s.live) != [];
    var x := AnswerLoses(s.threads[t], a, s.live);
    ThreadIdsUpdate(s.threads, t, Answer(s.threads[t], a, s.live)[0].pc, x);
    assert OneKeeper(s, x);
    assert !OneKeeper(Step(s, t, a)[0], x);
  }

  lemma OverwriteLoses(s: State, t: nat, a: Action)
    requires t < |s.threads| && Matched(s) && Step(s, t, a) != [] && OverwritesMatches(s, t, a)
    ensures !Matched(Step(s, t, a)[0])
  {
    var pc := s.threads[t];
    var sub := s.watches.subs[SubKey(TargetWatch(pc.req, pc.target))];
    var x := if sub.removedMatch > 0 then sub.removedMatch else sub.changedMatch;
    assert OneKeeper(s, x);
    StoreLoses(s, t, pc.req, pc.target, pc.removedMatch, pc.changedMatch, x);
    assert Step(s, t, a)[0] == RunStoreSub(s, t, pc.req, pc.target, pc.removedMatch, pc.changedMatch);
  }

  /** Exactly two kinds of step lose a match. */
  lemma StepMatchesIff(s: State, t: nat, a: Action)
    requires t < |s.threads| && Matched(s) && Step(s, t, a) != []
    ensures Matched(Step(s, t, a)[0]) <==> !LosesMatch(s, t, a)
  {
    if FailsToRemove(s.threads[t], a) {
      FailureBreaks(s, t, a);
    } else if OverwritesMatches(s, t, a) {
      OverwriteLoses(s, t, a);
    } else {
      StepKeepsMatched(s, t, a);
    }
  }

  // ---- runs ----

  ghost predicate NeverLoses(s: State, script: Script) {
    forall i, b :: 0 <= i < |script| && At(s, script, i, b) && script[i].0 < |b.threads| ==>
      !LosesMatch(b, script[i].0, script[i].1)
  }

  ghost predicate MatchedThroughout(s: State, script: Script) {
    forall i, b :: At(s, script, i, b) ==> Matched(b)
  }

  lemma InitMatched(n: nat)
    ensures Matched(Init(n))
  {
    forall x: nat | x > 0 ensures OneKeeper(Init(n), x) {
      IdleIds(n, x);
      assert Keepers(NO_WATCHES, x) == {};
    }
  }

  lemma {:induction false} IdleIds(n: nat, x: nat)
    ensures ThreadIds(seq(n, _ => Idle), x) == 0
  {
    if n > 0 {
      IdleIds(n - 1, x);
      assert seq(n, _ => Idle)[1..] == seq(n - 1, _ => Idle);
    }
  }

  lemma {:induction false} MatchedAt(n: nat, script: Script, i: nat, b: State)
    requires NeverLoses(Init(n), script) && At(Init(n), script, i, b)
    ensures Matched(b)
    decreases i
  {
    if i == 0 {
      InitMatched(n);
      assert script[..0] == [];
    } else {
      AtExists(Init(n), script[..i], b, i - 1);
      var a :| At(Init(n), script[..i], i - 1, a);
      assert script[..i][..i - 1] == script[..i - 1];
      assert At(Init(n), script, i - 1, a);
      AtStep(Init(n), script, i - 1, a, b);
      MatchedAt(n, script, i - 1, a);
      StepMatchesIff(a, script[i - 1].0, script[i - 1].1);
    }
  }

  /** In every state of a run each registered match has one keeper, if and only if no step
      of the run loses a match. */
  lemma RunMatchesIff(n: nat, script: Script, s: State)
    requires Leads(Init(n), script, s)
    ensures MatchedThroughout(Init(n), script) <==> NeverLoses(Init(n), script)
  {
    var z := Init(n);
    if NeverLoses(z, script) {
      forall i, b | At(z, script, i, b) ensures Matched(b) { MatchedAt(n, script, i, b); }
    }
    if MatchedThroughout(z, script) {
      forall i, b | 0 <= i < |script| && At(z, script, i, b) && script[i].0 < |b.threads|
        ensures !LosesMatch(b, script[i].0, script[i].1)
      {
        AtExists(z, script, s, i + 1);
        var c :| At(z, script, i + 1, c);
        AtStep(z, script, i, b, c);
        assert Matched(b) && Matched(c);
        StepMatchesIff(b, script[i].0, script[i].1);
      }
    }
  }

  ghost predicate BusRemoves(s: State, script: Script) {
    forall i, b :: 0 <= i < |script| && At(s, script, i, b) && script[i].0 < |b.threads| ==>
      !FailsToRemove(b.threads[script[i].0], script[i].1)
  }

  /** If no wait times out and the bus removes what it is asked to remove, no match is
      ever lost, whatever else fails. */
  lemma MatchedWithoutTimeouts(n: nat, script: Script, s: State)
    requires Leads(Init(n), script, s) && NeverTimesOut(Init(n), script) && BusRemoves(Init(n), script)
    ensures MatchedThroughout(Init(n), script) && Matched(s)
  {
    var z := Init(n);
    forall i, b | 0 <= i < |script| && At(z, script, i, b) && script[i].0 < |b.threads|
      ensures !LosesMatch(b, script[i].0, script[i].1)
    {
      ExclusiveAt(n, script, i, b);
    }
    RunMatchesIff(n, script, s);
    assert script[..|script|] == script;
    assert At(z, script, |script|, s);
  }

  // ---- what that gives ----

  lemma KeptIsRegistered(s: State, k: string, x: nat)
    requires Matched(s) && k in s.watches.subs && Keeps(s.watches.subs[k], x) && x > 0
    ensures x in s.live
  {
    assert OneKeeper(s, x) && k in Keepers(s.watches, x);
  }

  /** The matches of every cached path are registered on the bus. */
  lemma CachedMatchesAreRegistered(s: State, i: nat)
    requires Conserved(s) && Matched(s) && i < |s.cache.entries|
    ensures var x := SubKey(WatchOf(s.cache.entries[i].1));
            && x in s.watches.subs
            && LiveSet(s.watches.subs[x].removedMatch) <= s.live && LiveSet(s.watches.subs[x].changedMatch) <= s.live
  {
    CachedEntriesAreWatched(s, i);
    var x := SubKey(WatchOf(s.cache.entries[i].1));
    var sub := s.watches.subs[x];
    if sub.removedMatch > 0 { KeptIsRegistered(s, x, sub.removedMatch); }
    if sub.changedMatch > 0 { KeptIsRegistered(s, x, sub.changedMatch); }
  }

  /** With all threads idle, nothing is registered but the matches of the stored
      subscriptions. */
  lemma NothingLeaks(s: State, x: nat)
    requires Matched(s) && forall t :: 0 <= t < |s.threads| ==> s.threads[t] == Idle
    ensures x in s.live <==> x > 0 && exists k :: k in s.watches.subs && Keeps(s.watches.subs[k], x)
  {
    if x > 0 {
      assert OneKeeper(s, x);
      AllIdle(s.threads, x);
      if x in s.live {
        assert Keepers(s.watches, x) != {};
        var k :| k in Keepers(s.watches, x);
      } else {
        assert Keepers(s.watches, x) == {};
        assert forall k :: k in s.watches.subs && Keeps(s.watches.subs[k], x) ==> k in Keepers(s.watches, x);
      }
    }
  }

  lemma {:induction false} AllIdle(threads: seq<Pc>, x: nat)
    requires forall t :: 0 <= t < |threads| ==> threads[t] == Idle
    ensures ThreadIds(threads, x) == 0
  {
    if threads != [] { AllIdle(threads[1..], x); }
  }
}
