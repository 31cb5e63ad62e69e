/** Exactly when stopping a timer is final. */
module TimerFinal {
  import opened TimerRuns
  import opened TimerStop

  /** No callback armed before a returned stop is running. */
  ghost predicate Final(s: State) {
    forall i, g: nat :: 0 <= i < |s.stops| && s.stops[i].Returned? && g < s.stops[i].generation ==> !CallbackOf(s, g)
  }

  /** The promise is kept, whatever happens short of arming the timer again. */
  ghost predicate StaysFinal(s: State) {
    forall t: State :: Reaches(NoArming, s, t) ==> Final(t)
  }

  // ---- the condition ----

  predicate Entrant(pc: Pc) {
    pc == Armed || pc == Entering || pc == Locked || pc == Checked
  }

  /** A handler that is in its callback, or can still pass both checks if the flag is
      cleared: only the youngest can. */
  predicate Able(s: State, g: nat) {
    CallbackOf(s, g) || (g == s.generation && g in s.handlers && Entrant(s.handlers[g]))
  }

  /** The active flag is set while a callback runs. Of two handlers that are able to run,
      neither can end before it has armed the timer again. */
  ghost predicate Orderly(s: State) {
    && (forall g: nat :: g in s.handlers && UnderWay(s.handlers[g]) ==> s.active)
    && (forall g: nat, h: nat :: g != h && Able(s, g) && Able(s, h) ==> Stuck(s.handlers[g]))
  }

  // ---- it suffices ----

  /** Without arming, no further handler becomes able to run, and one that has to arm
      before it can end does not get further than that. */
  lemma AbleShrinks(s: State, a: Action, h: nat)
    requires Loose(s) && Step(s, a) != [] && Allows(NoArming, a) && Able(Step(s, a)[0], h)
    ensures Able(s, h) && (Stuck(s.handlers[h]) ==> Stuck(Step(s, a)[0].handlers[h]))
  {
    if Moves(a) {
      if h == a.g { MoverShrinks(s, a); } else { HandlerStep(s, a); }
      hide Step;
    }
  }

  lemma MoverShrinks(s: State, a: Action)
    requires Loose(s) && Step(s, a) != [] && Moves(a) && Able(Step(s, a)[0], a.g)
    ensures a.g in s.handlers && Able(s, a.g) && (Stuck(s.handlers[a.g]) ==> Stuck(Step(s, a)[0].handlers[a.g]))
  {
    hide Loose;
  }

  lemma EndsAlone(s: State, e: nat, g: nat)
    requires Orderly(s) && MayEnd(s, e) && CallbackOf(s, g)
    ensures g == e
  {
    assert Able(s, e) && Able(s, g);
  }

  lemma StepKeepsActive(s: State, a: Action, g: nat)
    requires Orderly(s) && Step(s, a) != [] && Allows(NoArming, a)
    requires g in Step(s, a)[0].handlers && UnderWay(Step(s, a)[0].handlers[g])
    ensures Step(s, a)[0].active
  {
    if a.End? { EndsAlone(s, a.g, g); }
  }

  lemma StepKeepsOrderly(s: State, a: Action)
    requires Loose(s) && Orderly(s) && Step(s, a) != [] && Allows(NoArming, a)
    ensures Orderly(Step(s, a)[0])
  {
    var t := Step(s, a)[0];
    forall g: nat | g in t.handlers && UnderWay(t.handlers[g]) ensures t.active {
      StepKeepsActive(s, a, g);
    }
    forall g: nat, h: nat | g != h && Able(t, g) && Able(t, h) ensures Stuck(t.handlers[g]) {
      AbleShrinks(s, a, g);
      AbleShrinks(s, a, h);
    }
  }

  lemma ReturnFinds(s: State, i: nat, g: nat)
    requires Loose(s) && Orderly(s) && Step(s, Return(i)) != []
    ensures !CallbackOf(s, g)
  {
  }

  lemma StepKeepsFinal(s: State, a: Action)
    requires Loose(s) && Orderly(s) && Final(s) && Step(s, a) != [] && Allows(NoArming, a)
    ensures Final(Step(s, a)[0])
  {
    var t := Step(s, a)[0];
    StopsChange(s, a);
    forall i, g: nat | 0 <= i < |t.stops| && t.stops[i].Returned? && g < t.stops[i].generation
      ensures !CallbackOf(t, g)
    {
      if CallbackOf(t, g) {
        if a == Return(i) {
          ReturnFinds(s, i, g);
        } else {
          AbleShrinks(s, a, g);
        }
      }
    }
  }

  lemma {:induction false} RunKeepsFinal(s: State, script: seq<Action>)
    requires Loose(s) && Orderly(s) && Final(s) && AllowsAll(NoArming, script) && Run(s, script) != []
    ensures Final(Run(s, script)[0])
    decreases |script|
  {
    if script != [] {
      assert Allows(NoArming, script[0]);
      StepKeepsLoose(s, script[0]);
      StepKeepsOrderly(s, script[0]);
      StepKeepsFinal(s, script[0]);
      RunKeepsFinal(Step(s, script[0])[0], script[1..]);
    }
  }

  lemma OrderlyStaysFinal(s: State)
    requires Loose(s) && Orderly(s) && Final(s)
    ensures StaysFinal(s)
  {
    forall t: State | Reaches(NoArming, s, t) ensures Final(t) {
      var script: seq<Action> :| AllowsAll(NoArming, script) && Run(s, script) == [t];
      RunKeepsFinal(s, script);
    }
  }

  // ---- it is needed ----

  function StepsAhead(pc: Pc): nat {
    if pc == Armed then 3 else if pc == Entering then 2 else if pc == Locked then 1 else 0
  }

  /** The youngest handler, with nobody in its way and the flag clear, gets in. */
  lemma {:induction false} YoungestEnters(s: State, g: nat) returns (t: State)
    requires Loose(s) && g == s.generation && g in s.handlers && Entrant(s.handlers[g]) && !s.cancelled
    requires s.lock == Free || s.lock == Held(g)
    ensures Reaches(NoArming, s, t) && GoOn(s, t) && At(t, g, Running)
    decreases StepsAhead(s.handlers[g])
  {
    if s.handlers[g] == Checked {
      t := Enters(NoArming, s, g);
    } else {
      var mid := NextIn(s, g);
      t := YoungestEnters(mid, g);
      Onward(NoArming, s, mid, t);
    }
  }

  lemma NextIn(s: State, g: nat) returns (t: State)
    requires Loose(s) && g == s.generation && g in s.handlers && Entrant(s.handlers[g]) && !s.cancelled
    requires (s.lock == Free || s.lock == Held(g)) && s.handlers[g] != Checked
    ensures Reaches(NoArming, s, t) && GoOn(s, t) && g in t.handlers && Entrant(t.handlers[g]) && !t.cancelled
    ensures (t.lock == Free || t.lock == Held(g)) && StepsAhead(t.handlers[g]) < StepsAhead(s.handlers[g])
  {
    var a := if s.handlers[g] == Armed then Expire(g) else if s.handlers[g] == Entering then Lock(g) else CheckFlag(g);
    t := Step(s, a)[0];
    Takes(NoArming, s, a, t);
    StepKeepsLoose(s, a);
  }

  /** Whoever is in its way leaves the mutex, and somebody starts the timer. */
  lemma AbleEnters(s: State, g: nat) returns (t: State)
    requires Loose(s) && Able(s, g)
    ensures Reaches(NoArming, s, t) && GoOn(s, t) && CallbackOf(t, g)
    ensures if CallbackOf(s, g) then t == s else t.handlers[g] == Running
  {
    if CallbackOf(s, g) {
      Stays(NoArming, s);
      t := s;
    } else {
      var free := s;
      Stays(NoArming, s);
      if s.lock.Held? && s.lock != Held(g) { free := MutexFrees(NoArming, s); }
      var clear := free.(cancelled := false);
      Takes(NoArming, free, Uncancel, clear);
      t := YoungestEnters(clear, g);
      Onward(NoArming, s, free, clear);
      Onward(NoArming, s, clear, t);
    }
  }

  lemma NotFinal(s: State, t: State, i: nat, h: nat)
    requires Reaches(NoArming, s, t) && i < |t.stops| && t.stops[i].Returned? && h < t.stops[i].generation
    requires CallbackOf(t, h)
    ensures !StaysFinal(s)
  {
  }

  lemma BothEnter(s: State, g: nat, h: nat) returns (t: State)
    requires Loose(s) && g != h && Able(s, g) && Able(s, h) && !Stuck(s.handlers[g])
    ensures Reaches(NoArming, s, t) && GoOn(s, t) && CallbackOf(t, g) && CallbackOf(t, h) && !Stuck(t.handlers[g])
  {
    var mid := AbleEnters(s, g);
    assert Able(mid, h);
    t := AbleEnters(mid, h);
    GoOnOn(s, mid, t);
    Onward(NoArming, s, mid, t);
  }

  lemma TwoAbleBreak(s: State, g: nat, h: nat)
    requires Loose(s) && g != h && Able(s, g) && Able(s, h) && !Stuck(s.handlers[g])
    ensures !StaysFinal(s)
  {
    var mid := BothEnter(s, g, h);
    assert h <= mid.generation;
    BeginsStop(NoArming, mid);
    var begun, i := Begun(mid), |s.stops|;
    assert CallbackOf(begun, g) && !Stuck(begun.handlers[g]) && CallbackOf(begun, h);
    var t := TwoCallbacks(NoArming, begun, g, h, i);
    hide Reaches, Loose;
    Onward(NoArming, s, mid, begun);
    Onward(NoArming, s, begun, t);
    NotFinal(s, t, i, h);
  }

  lemma ClearFlagBreaks(s: State, g: nat)
    requires Loose(s) && CallbackOf(s, g) && !s.active && forall h: nat :: !At(s, h, Passed)
    ensures !StaysFinal(s)
  {
    BeginsStop(NoArming, s);
    var begun, i := Begun(s), |s.stops|;
    assert CallbackOf(begun, g);
    var t := FlagIsClear(NoArming, begun, g, i);
    Onward(NoArming, s, begun, t);
    NotFinal(s, t, i, g);
  }

  lemma PassedIsAble(s: State, h: nat)
    requires At(s, h, Passed)
    ensures Able(s, h) && !Stuck(s.handlers[h])
  {
  }

  lemma DisorderBreaks(s: State)
    requires Loose(s) && !Orderly(s)
    ensures !StaysFinal(s)
  {
    if g: nat, h: nat :| g != h && Able(s, g) && Able(s, h) && !Stuck(s.handlers[g]) {
      TwoAbleBreak(s, g, h);
    } else {
      var g: nat :| g in s.handlers && UnderWay(s.handlers[g]) && !s.active;
      assert Able(s, g);
      forall h: nat ensures !At(s, h, Passed) {
        if At(s, h, Passed) { PassedIsAble(s, h); }
      }
      ClearFlagBreaks(s, g);
    }
  }

  /** When a stop is final, at every moment of every run: the promise is kept so far, and
      will be kept whatever happens short of arming the timer, if and only if the state is
      orderly. */
  lemma StaysFinalIff(script: seq<Action>, s: State)
    requires Run(IDLE, script) == [s]
    ensures StaysFinal(s) <==> Final(s) && Orderly(s)
  {
    RunKeepsLoose(IDLE, script);
    if Orderly(s) {
      if Final(s) { OrderlyStaysFinal(s); }
    } else {
      DisorderBreaks(s);
    }
    if StaysFinal(s) {
      Stays(NoArming, s);
    }
  }

  // ---- whole runs ----

  /** The promise stays kept from every moment of a run. */
  ghost predicate FinalThroughout(s: State, script: seq<Action>)
    decreases |script|
  {
    && StaysFinal(s)
    && (script != [] && Step(s, script[0]) != [] ==> FinalThroughout(Step(s, script[0])[0], script[1..]))
  }

  lemma OneIsAble(s: State, g: nat, h: nat)
    requires Inv(s) && Able(s, g) && Able(s, h)
    ensures g == h
  {
  }

  lemma QuietIsOrderly(s: State)
    requires Inv(s)
    ensures Orderly(s)
  {
    forall g: nat, h: nat | Able(s, g) && Able(s, h) ensures g == h {
      OneIsAble(s, g, h);
    }
  }

  /** Arming the timer while a callback runs breaks the promise, of whatever kind the
      timer is and whoever arms it. */
  lemma ArmingAmidBreaks(s: State, a: Action)
    requires Loose(s) && Step(s, a) != [] && !QuietStep(s, a)
    ensures !StaysFinal(Step(s, a)[0])
  {
    var t := Step(s, a)[0];
    var g: nat :| g in s.handlers && InCallback(s.handlers[g]);
    StepKeepsLoose(s, a);
    assert Able(t, g) && Able(t, t.generation) && t.handlers[t.generation] == Armed;
    TwoAbleBreak(t, t.generation, g);
  }

  lemma {:induction false} QuietIffFrom(s: State, script: seq<Action>)
    requires Loose(s) && Inv(s) && Settled(s) && Run(s, script) != []
    ensures QuietRun(s, script) <==> FinalThroughout(s, script)
    decreases |script|
  {
    QuietIsOrderly(s);
    OrderlyStaysFinal(s);
    if script != [] {
      var a, next := script[0], Step(s, script[0])[0];
      if QuietStep(s, a) {
        StepKeepsLoose(s, a);
        StepKeepsInv(s, a);
        StepKeepsSettled(s, a);
        QuietIffFrom(next, script[1..]);
      } else {
        ArmingAmidBreaks(s, a);
        assert !FinalThroughout(next, script[1..]);
      }
    }
  }

  /** A stop is final at every moment of a run if and only if the run never arms the
      timer during a callback. */
  lemma FinalIffQuiet(script: seq<Action>)
    requires Run(IDLE, script) != []
    ensures QuietRun(IDLE, script) <==> FinalThroughout(IDLE, script)
  {
    QuietIffFrom(IDLE, script);
  }
}
