/** Properties that relate different moments of one run of the MDB path cache. */
module MdbHistory {
  import opened Recency
  import opened MdbIndex
  import opened MdbRegions
  import opened MdbProtocol
  import opened MdbSafety
  import opened MdbConservation
  import opened MdbRuns

  /** Thread `t` is at `pc` in every state from `lo` to `hi` of the run. */
  ghost predicate Stays(s: State, script: Script, t: nat, pc: Pc, lo: nat, hi: nat) {
    forall m, c :: lo <= m <= hi && At(s, script, m, c) ==> t < |c.threads| && c.threads[t] == pc
  }

  /** At step `k` the bus answered `target.path` to the second GetPath of `t`. */
  ghost predicate VerifiedAt(s: State, script: Script, t: nat, req: Request, target: Target, k: nat) {
    && k < |script| && script[k].0 == t && script[k].1.Reply? && script[k].1.path == target.path
    && exists b :: At(s, script, k, b) && t < |b.threads| && b.threads[t] == Verify(req, target)
  }

  /** At step `j` thread `t` took its reference: it joined the subscription or stored
      the one it had created. */
  ghost predicate SubscribedAt(s: State, script: Script, t: nat, req: Request, target: Target, j: nat) {
    && j < |script| && script[j] == (t, Run)
    && exists b :: At(s, script, j, b) && t < |b.threads|
         && (b.threads[t].Subscribe? || b.threads[t].StoreSub?) && b.threads[t].req == req && b.threads[t].target == target
  }

  lemma AtUnique(s: State, script: Script, i: nat, b: State, c: State)
    requires At(s, script, i, b) && At(s, script, i, c)
    ensures b == c
  {
    assert [b][0] == [c][0];
  }

  lemma AtStart(n: nat, script: Script, c: State, t: nat)
    requires At(Init(n), script, 0, c) && t < n
    ensures t < |c.threads| && c.threads[t] == Idle
  {
    assert script[..0] == [];
  }

  lemma AtBefore(s: State, script: Script, i: nat, c: State) returns (b: State)
    requires 0 < i && At(s, script, i, c)
    ensures At(s, script, i - 1, b) && script[i - 1].0 < |b.threads| && Step(b, script[i - 1].0, script[i - 1].1) == [c]
  {
    LeadsLast(s, script[..i], c);
    b :| Leads(s, script[..i][..i - 1], b);
    assert script[..i][..i - 1] == script[..i - 1];
    AtStep(s, script, i - 1, b, c);
  }

  lemma StaysExtend(s: State, script: Script, t: nat, pc: Pc, lo: nat, i: nat, c: State)
    requires 0 < i && lo <= i && At(s, script, i, c) && t < |c.threads| && c.threads[t] == pc
    requires lo < i ==> Stays(s, script, t, pc, lo, i - 1)
    ensures Stays(s, script, t, pc, lo, i)
  {
    forall m, d | lo <= m <= i && At(s, script, m, d) ensures t < |d.threads| && d.threads[t] == pc {
      if m == i { AtUnique(s, script, i, c, d); }
    }
  }

  // ---- how a thread gets to publish ----

  lemma IntoPublish(b: State, t: nat, u: nat, a: Action, req: Request, target: Target)
    requires u < |b.threads| && t < |b.threads| && Step(b, u, a) != []
    requires t < |Step(b, u, a)[0].threads| && Step(b, u, a)[0].threads[t] == Publish(req, target)
    requires b.threads[t] != Publish(req, target) && FinishesLegally(b.threads[u])
    ensures u == t && b.threads[t] == Verify(req, target) && a.Reply? && a.path == target.path
  {
    StepMovesOne(b, u, a);
    if b.threads[u].Idle? && a.Begin? { StartIntoHold(b, u, a.call); }
  }

  lemma IntoVerify(b: State, t: nat, u: nat, a: Action, req: Request, target: Target)
    requires u < |b.threads| && t < |b.threads| && Step(b, u, a) != []
    requires t < |Step(b, u, a)[0].threads| && Step(b, u, a)[0].threads[t] == Verify(req, target)
    requires b.threads[t] != Verify(req, target) && FinishesLegally(b.threads[u])
    ensures u == t && a == Run && (b.threads[t].Subscribe? || b.threads[t].StoreSub?)
    ensures b.threads[t].req == req && b.threads[t].target == target
  {
    StepMovesOne(b, u, a);
    if b.threads[u].Idle? && a.Begin? { StartIntoHold(b, u, a.call); }
  }

  lemma StartIntoHold(b: State, t: nat, call: Call)
    requires t < |b.threads| && StartCall(b, t, call) != []
    ensures var pc := StartCall(b, t, call)[0].threads[t]; pc.AwaitKey? || pc.DirectCall? || pc.Sweep? || pc.Drain?
  {
  }

  /** Match removal only ever resumes a clean-up or the end of a query. */
  ghost predicate FinishesLegally(pc: Pc) {
    pc.RemoveMatches? ==> pc.next.Finish? || pc.next.Drain?
  }

  lemma StepKeepsLegal(b: State, t: nat, u: nat, a: Action)
    requires u < |b.threads| && t < |b.threads| && Step(b, u, a) != []
    requires FinishesLegally(b.threads[t]) && FinishesLegally(b.threads[u])
    ensures t < |Step(b, u, a)[0].threads| && FinishesLegally(Step(b, u, a)[0].threads[t])
  {
    StepMovesOne(b, u, a);
    if b.threads[u].Idle? && a.Begin? { StartIntoHold(b, u, a.call); }
  }

  lemma {:induction false} LegalAt(n: nat, script: Script, i: nat, c: State, t: nat)
    requires At(Init(n), script, i, c) && t < n
    ensures |c.threads| == n && FinishesLegally(c.threads[t])
    decreases i
  {
    if i == 0 {
      assert script[..0] == [];
    } else {
      var b := AtBefore(Init(n), script, i, c);
      LegalAt(n, script, i - 1, b, t);
      LegalAt(n, script, i - 1, b, script[i - 1].0);
      StepKeepsLegal(b, t, script[i - 1].0, script[i - 1].1);
      StepMovesOne(b, script[i - 1].0, script[i - 1].1);
    }
  }

  lemma {:induction false} PublishWasVerified(n: nat, script: Script, i: nat, c: State, t: nat, req: Request, target: Target)
    returns (k: nat)
    requires At(Init(n), script, i, c) && t < n && t < |c.threads| && c.threads[t] == Publish(req, target)
    ensures k < i && VerifiedAt(Init(n), script, t, req, target, k)
    ensures Stays(Init(n), script, t, Publish(req, target), k + 1, i)
    decreases i
  {
    if i == 0 {
      AtStart(n, script, c, t);
      assert false;
    }
    var b := AtBefore(Init(n), script, i, c);
    var (u, a) := script[i - 1];
    LegalAt(n, script, i - 1, b, t);
    LegalAt(n, script, i - 1, b, u);
    if b.threads[t] == Publish(req, target) {
      k := PublishWasVerified(n, script, i - 1, b, t, req, target);
    } else {
      k := i - 1;
      IntoPublish(b, t, u, a, req, target);
    }
    StaysExtend(Init(n), script, t, Publish(req, target), k + 1, i, c);
  }

  lemma {:induction false} VerifyWasSubscribed(n: nat, script: Script, i: nat, c: State, t: nat, req: Request, target: Target)
    returns (j: nat)
    requires At(Init(n), script, i, c) && t < n && t < |c.threads| && c.threads[t] == Verify(req, target)
    ensures j < i && SubscribedAt(Init(n), script, t, req, target, j)
    ensures Stays(Init(n), script, t, Verify(req, target), j + 1, i)
    decreases i
  {
    if i == 0 {
      AtStart(n, script, c, t);
      assert false;
    }
    var b := AtBefore(Init(n), script, i, c);
    var (u, a) := script[i - 1];
    LegalAt(n, script, i - 1, b, t);
    LegalAt(n, script, i - 1, b, u);
    if b.threads[t] == Verify(req, target) {
      j := VerifyWasSubscribed(n, script, i - 1, b, t, req, target);
    } else {
      j := i - 1;
      IntoVerify(b, t, u, a, req, target);
    }
    StaysExtend(Init(n), script, t, Verify(req, target), j + 1, i, c);
  }

  /** The thread holds the subscription of `target` from step `j` up to step `i`. */
  ghost predicate HeldBetween(s: State, script: Script, t: nat, req: Request, target: Target, j: nat, i: nat) {
    forall m, c :: j < m <= i && At(s, script, m, c) ==>
      && t < |c.threads| && HoldsOf(c.threads[t], SubKey(TargetWatch(req, target))) == 1
      && (ConservedThroughout(s, script) ==> SubKey(TargetWatch(req, target)) in c.watches.subs)
  }

  /** Subscribe before verify: a path about to be cached was returned by a GetPath
      call made after its subscription was taken, and the thread has held that
      subscription ever since; in a conserving run it has existed ever since. */
  lemma SubscribedBeforeVerified(n: nat, script: Script, i: nat, c: State, t: nat, req: Request, target: Target)
    returns (j: nat, k: nat)
    requires At(Init(n), script, i, c) && t < n && t < |c.threads| && c.threads[t] == Publish(req, target)
    ensures j < k < i
    ensures SubscribedAt(Init(n), script, t, req, target, j)
    ensures VerifiedAt(Init(n), script, t, req, target, k)
    ensures HeldBetween(Init(n), script, t, req, target, j, i)
  {
    var z := Init(n);
    k := PublishWasVerified(n, script, i, c, t, req, target);
    var b :| At(z, script, k, b) && t < |b.threads| && b.threads[t] == Verify(req, target);
    j := VerifyWasSubscribed(n, script, k, b, t, req, target);
    forall m, d | j < m <= i && At(z, script, m, d)
      ensures t < |d.threads| && HoldsOf(d.threads[t], SubKey(TargetWatch(req, target))) == 1
      ensures ConservedThroughout(z, script) ==> SubKey(TargetWatch(req, target)) in d.watches.subs
    {
      assert d.threads[t] == if m <= k then Verify(req, target) else Publish(req, target);
      if ConservedThroughout(z, script) { HeldIsCounted(d, t, SubKey(TargetWatch(req, target))); }
    }
  }

  /** What publishing then stores is that very path. */
  lemma PublishStoresTarget(b: State, t: nat, req: Request, target: Target)
    requires t < |b.threads| && Safe(b) && b.threads[t] == Publish(req, target)
    ensures var r := Step(b, t, Run)[0].cache.entries;
            Has(r, CacheKey(req)) && WatchOf(Lookup(r, CacheKey(req))) == TargetWatch(req, target)
  {
    UpdateKeepsCache(b.cache, CacheKey(req), TargetEntry(req, target));
    UpdateKeepsCreating(b.cache, CacheKey(req), TargetEntry(req, target));
  }

  // ---- waiting is bounded ----

  function StepsBy(script: Script, t: nat, lo: nat, hi: nat): nat
    requires lo <= hi <= |script|
  {
    if lo == hi then 0 else StepsBy(script, t, lo, hi - 1) + One(script[hi - 1].0 == t)
  }

  /** Thread `t` waits for another thread throughout, always for the same thing. */
  ghost predicate Waits(s: State, script: Script, t: nat, lo: nat, hi: nat) {
    || (forall m, c :: lo <= m <= hi && At(s, script, m, c) ==> t < |c.threads| && c.threads[t].AwaitKey?)
    || (forall m, c :: lo <= m <= hi && At(s, script, m, c) ==> t < |c.threads| && c.threads[t].Subscribe?)
  }

  lemma WaitStep(b: State, t: nat, u: nat, a: Action)
    requires u < |b.threads| && t < |b.threads| && Step(b, u, a) != []
    requires t < |Step(b, u, a)[0].threads|
    requires var c := Step(b, u, a)[0];
             (b.threads[t].AwaitKey? && c.threads[t].AwaitKey?) || (b.threads[t].Subscribe? && c.threads[t].Subscribe?)
    ensures WaitsOf(Step(b, u, a)[0].threads[t]) == WaitsOf(b.threads[t]) + One(u == t)
  {
    StepMovesOne(b, u, a);
  }

  lemma {:induction false} WaitsCountSteps(n: nat, script: Script, t: nat, lo: nat, hi: nat, b: State, c: State)
    requires lo <= hi && At(Init(n), script, lo, b) && At(Init(n), script, hi, c)
    requires t < |b.threads| && t < |c.threads| && Waits(Init(n), script, t, lo, hi)
    ensures WaitsOf(c.threads[t]) == WaitsOf(b.threads[t]) + StepsBy(script, t, lo, hi)
    decreases hi
  {
    if lo == hi {
      AtUnique(Init(n), script, lo, b, c);
    } else {
      var d := AtBefore(Init(n), script, hi, c);
      assert At(Init(n), script, hi - 1, d);
      WaitsCountSteps(n, script, t, lo, hi - 1, b, d);
      WaitStep(d, t, script[hi - 1].0, script[hi - 1].1);
    }
  }

  /** However the run interleaves, a thread that keeps waiting takes at most
      MAX_WAIT_ATTEMPTS steps before it stops waiting. */
  lemma WaitingIsBounded(n: nat, script: Script, s: State, t: nat, lo: nat, hi: nat)
    requires Leads(Init(n), script, s) && lo <= hi <= |script| && t < n && Waits(Init(n), script, t, lo, hi)
    ensures StepsBy(script, t, lo, hi) <= MAX_WAIT_ATTEMPTS
  {
    AtExists(Init(n), script, s, lo);
    AtExists(Init(n), script, s, hi);
    var b :| At(Init(n), script, lo, b);
    var c :| At(Init(n), script, hi, c);
    EveryRunIsSafe(n, script[..lo], b);
    EveryRunIsSafe(n, script[..hi], c);
    WaitsCountSteps(n, script, t, lo, hi, b, c);
  }
}
