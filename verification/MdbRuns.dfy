/** When references are conserved throughout a run. */
module MdbRuns {
  // And what that gives every cached path.

  import opened Recency
  import opened MdbIndex
  import opened MdbRegions
  import opened MdbProtocol
  import opened MdbSafety
  import opened MdbConservation

  /** The state a run is in before its step `i`. */
  ghost predicate At(s: State, script: Script, i: nat, b: State) {
    i <= |script| && Leads(s, script[..i], b)
  }

  lemma {:induction false} AtExists(s: State, script: Script, s': State, i: nat)
    requires Leads(s, script, s') && i <= |script|
    ensures exists b :: At(s, script, i, b)
    decreases |script|
  {
    if i == |script| {
      assert script[..i] == script;
      assert At(s, script, i, s');
    } else {
      LeadsLast(s, script, s');
      var front := script[..|script| - 1];
      var b :| Leads(s, front, b);
      AtExists(s, front, b, i);
      var c :| At(s, front, i, c);
      assert front[..i] == script[..i];
      assert At(s, script, i, c);
    }
  }

  lemma AtStep(s: State, script: Script, i: nat, b: State, c: State)
    requires i < |script| && At(s, script, i, b) && At(s, script, i + 1, c)
    ensures script[i].0 < |b.threads| && Step(b, script[i].0, script[i].1) == [c]
  {
    assert script[..i + 1][..i] == script[..i];
    LeadsLast(s, script[..i + 1], c);
  }

  // ---- conservation over runs ----

  /** No step of the run overwrites a subscription in use. */
  ghost predicate NeverOverwrites(s: State, script: Script) {
    forall i, b :: 0 <= i < |script| && At(s, script, i, b) && script[i].0 < |b.threads| ==>
      !OverwritesLive(b, script[i].0, script[i].1)
  }

  ghost predicate ConservedThroughout(s: State, script: Script) {
    forall i, b :: At(s, script, i, b) ==> Conserved(b)
  }

  lemma InitConserved(n: nat)
    ensures Conserved(Init(n))
  {
    forall x ensures Balanced(Init(n), x) { IdleHolds(n, x); }
  }

  lemma {:induction false} IdleHolds(n: nat, x: string)
    ensures ThreadHolds(seq(n, _ => Idle), x) == 0
  {
    if n > 0 {
      IdleHolds(n - 1, x);
      assert seq(n, _ => Idle)[1..] == seq(n - 1, _ => Idle);
    }
  }

  lemma {:induction false} ConservedAt(n: nat, script: Script, i: nat, b: State)
    requires NeverOverwrites(Init(n), script) && At(Init(n), script, i, b)
    ensures Conserved(b)
    decreases i
  {
    if i == 0 {
      InitConserved(n);
      assert script[..0] == [];
    } else {
      AtExists(Init(n), script[..i], b, i - 1);
      var a :| At(Init(n), script[..i], i - 1, a);
      assert script[..i][..i - 1] == script[..i - 1];
      assert At(Init(n), script, i - 1, a);
      AtStep(Init(n), script, i - 1, a, b);
      ConservedAt(n, script, i - 1, a);
      StepConservesIff(a, script[i - 1].0, script[i - 1].1);
    }
  }

  /** References are conserved in every state of a run if and only if none of its
      steps stores over a subscription in use. */
  lemma RunConservesIff(n: nat, script: Script, s: State)
    requires Leads(Init(n), script, s)
    ensures ConservedThroughout(Init(n), script) <==> NeverOverwrites(Init(n), script)
  {
    var z := Init(n);
    if NeverOverwrites(z, script) {
      forall i, b | At(z, script, i, b) ensures Conserved(b) { ConservedAt(n, script, i, b); }
    }
    if ConservedThroughout(z, script) {
      forall i, b | 0 <= i < |script| && At(z, script, i, b) && script[i].0 < |b.threads|
        ensures !OverwritesLive(b, script[i].0, script[i].1)
      {
        AtExists(z, script, s, i + 1);
        var c :| At(z, script, i + 1, c);
        AtStep(z, script, i, b, c);
        assert Conserved(b) && Conserved(c);
        StepConservesIff(b, script[i].0, script[i].1);
      }
    }
  }

  // ---- runs without a wait time-out ----

  /** The step by which a thread stops waiting for another creator. */
  ghost predicate TimesOut(s: State, t: nat, a: Action)
    requires t < |s.threads|
  {
    var pc := s.threads[t];
    pc.Subscribe? && a.Run? && SubscriptionTimesOut(s, pc.req, pc.target, pc.waits)
  }

  ghost predicate NeverTimesOut(s: State, script: Script) {
    forall i, b :: 0 <= i < |script| && At(s, script, i, b) && script[i].0 < |b.threads| ==>
      !TimesOut(b, script[i].0, script[i].1)
  }

  /** Whoever creates a subscription is registered for it, and it does not exist. */
  ghost predicate Exclusive(s: State) {
    forall t :: 0 <= t < |s.threads| && BuildKey(s.threads[t]) != [] ==>
      var k := BuildKey(s.threads[t])[0];
      k in s.watches.creating && s.watches.creating[k] == t && k !in s.watches.subs
  }

  /** Keys enter the subscription map only through their creator. */
  ghost predicate SubsChange(s: State, t: nat, s': State)
    requires t < |s.threads| && t < |s'.threads|
  {
    var before, after := BuildKey(s.threads[t]), BuildKey(s'.threads[t]);
    || (after == before && s'.watches.creating == s.watches.creating && s'.watches.subs.Keys <= s.watches.subs.Keys)
    || (before == [] && after != [] && after[0] !in s.watches.subs && after[0] !in s.watches.creating
        && s'.watches.creating == s.watches.creating[after[0] := t] && s'.watches.subs == s.watches.subs)
    || (before != [] && after == [] && s'.watches.creating == s.watches.creating - {before[0]}
        && s'.watches.subs.Keys <= s.watches.subs.Keys + {before[0]})
  }

  /** The regions that neither begin nor end a creation. */
  lemma QuietRegionSubs(s: State, t: nat, a: Action)
    requires t < |s.threads| && Region(s, t, a) != []
    requires var pc := s.threads[t]; pc.Idle? || pc.Unverified? || pc.Drain?
    ensures |Region(s, t, a)[0].threads| == |s.threads| && SubsChange(s, t, Region(s, t, a)[0])
  {
    match s.threads[t]
    case Idle => StartWatches(s, t, a.call);
    case Unverified(req, target) => DecreaseTakesOne(s.watches, SubKey(TargetWatch(req, target)));
    case Drain(tasks) => if tasks != [] { DecreaseTakesOne(s.watches, SubKey(tasks[0])); }
  }

  lemma RegionSubs(s: State, t: nat, a: Action)
    requires t < |s.threads| && Region(s, t, a) != [] && !TimesOut(s, t, a)
    requires BuildKey(s.threads[t]) != [] ==>
               var k := BuildKey(s.threads[t])[0]; k in s.watches.creating && s.watches.creating[k] == t
    ensures |Region(s, t, a)[0].threads| == |s.threads| && SubsChange(s, t, Region(s, t, a)[0])
  {
    var pc := s.threads[t];
    if pc.Idle? || pc.Unverified? || pc.Drain? { QuietRegionSubs(s, t, a); }
  }

  lemma SubsChangeKeeps(s: State, t: nat, s': State)
    requires t < |s.threads| == |s'.threads| && Exclusive(s) && SubsChange(s, t, s')
    requires forall u :: 0 <= u < |s.threads| && u != t ==> s'.threads[u] == s.threads[u]
    ensures Exclusive(s')
  {
  }

  lemma StepKeepsExclusive(s: State, t: nat, a: Action)
    requires t < |s.threads| && Exclusive(s) && Step(s, t, a) != [] && !TimesOut(s, t, a)
    ensures Exclusive(Step(s, t, a)[0])
  {
    var s' := Step(s, t, a)[0];
    StepMovesOne(s, t, a);
    assert SubsChange(s, t, s') by {
      if Answer(s.threads[t], a, s.live) == [] {
        RegionSubs(s, t, a);
      } else {
        AnswerKeepsKeys(s.threads[t], a, s.live);
      }
    }
    SubsChangeKeeps(s, t, s');
  }

  lemma {:induction false} ExclusiveAt(n: nat, script: Script, i: nat, b: State)
    requires NeverTimesOut(Init(n), script) && At(Init(n), script, i, b)
    ensures Exclusive(b)
    decreases i
  {
    if i == 0 {
      assert script[..0] == [];
    } else {
      AtExists(Init(n), script[..i], b, i - 1);
      var a :| At(Init(n), script[..i], i - 1, a);
      assert script[..i][..i - 1] == script[..i - 1];
      assert At(Init(n), script, i - 1, a);
      AtStep(Init(n), script, i - 1, a, b);
      ExclusiveAt(n, script, i - 1, a);
      StepKeepsExclusive(a, script[i - 1].0, script[i - 1].1);
    }
  }

  /** If no wait for a subscription times out, references are conserved throughout,
      whatever the interleaving. */
  lemma ConservedWithoutTimeouts(n: nat, script: Script, s: State)
    requires Leads(Init(n), script, s) && NeverTimesOut(Init(n), script)
    ensures ConservedThroughout(Init(n), script) && Conserved(s)
  {
    var z := Init(n);
    forall i, b | 0 <= i < |script| && At(z, script, i, b) && script[i].0 < |b.threads|
      ensures !OverwritesLive(b, script[i].0, script[i].1)
    {
      ExclusiveAt(n, script, i, b);
    }
    RunConservesIff(n, script, s);
    assert script[..|script|] == script;
    assert At(z, script, |script|, s);
  }

  lemma {:induction false} EntryHolds(r: Entries, i: nat)
    requires i < |r|
    ensures CacheHolds(r, SubKey(WatchOf(r[i].1))) > 0
  {
    HoldsRemove(r, i, SubKey(WatchOf(r[i].1)));
  }

  /** Every cached path is watched: its subscription exists and counts it. */
  lemma CachedEntriesAreWatched(s: State, i: nat)
    requires Conserved(s) && i < |s.cache.entries|
    ensures var x := SubKey(WatchOf(s.cache.entries[i].1)); x in s.watches.subs && s.watches.subs[x].refs > 0
  {
    var x := SubKey(WatchOf(s.cache.entries[i].1));
    EntryHolds(s.cache.entries, i);
    assert Balanced(s, x);
  }

  /** A subscription leaves the map only when nothing holds it any more. */
  lemma NoneRemovedEarly(s: State, t: nat, a: Action, x: string)
    requires t < |s.threads| && Conserved(s) && Step(s, t, a) != [] && !OverwritesLive(s, t, a)
    requires x in s.watches.subs && x !in Step(s, t, a)[0].watches.subs
    ensures var s' := Step(s, t, a)[0];
            CacheHolds(s'.cache.entries, x) == 0 && forall u :: 0 <= u < |s'.threads| ==> HoldsOf(s'.threads[u], x) == 0
  {
    var s' := Step(s, t, a)[0];
    StepConservesIff(s, t, a);
    assert Balanced(s', x);
    forall u | 0 <= u < |s'.threads| ensures HoldsOf(s'.threads[u], x) == 0 { OneThreadHolds(s'.threads, u, x); }
  }
}
