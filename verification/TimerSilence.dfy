/** Exactly when a stop silences a timer. */
module TimerSilence {
  import opened TimerRuns
  import opened TimerStop

  /** No callback of any age is running. */
  ghost predicate Silent(s: State) {
    forall g: nat :: !CallbackOf(s, g)
  }

  predicate HasReturned(s: State, i: nat) {
    i < |s.stops| && s.stops[i].Returned?
  }

  /** A stop begun now, once it has returned, leaves the timer silent for as long as
      nobody starts it from outside. */
  ghost predicate StopSilences(s: State) {
    forall t: State :: Reaches(NoStart, Begun(s), t) && HasReturned(t, |s.stops|) ==> Silent(t)
  }

  // ---- the condition ----

  /** Handler `g` will start its timer again, and clear the flag in doing so, even if
      the flag is set now: it has found both checks passed, or the first, with the
      second still to pass. */
  predicate Committed(s: State, g: nat) {
    At(s, g, Restarting) || (At(s, g, Rechecking) && s.generation == g)
  }

  /** A handler that is in its callback, or gets there even if the flag is set now. */
  predicate Live(s: State, g: nat) {
    CallbackOf(s, g) || (At(s, g, Checked) && s.generation == g)
  }

  /** No handler is bound to restart, at most one is live, and the active flag is set
      while a callback runs. */
  ghost predicate Calm(s: State) {
    && (forall g: nat :: !Committed(s, g))
    && (forall g: nat, h: nat :: Live(s, g) && Live(s, h) ==> g == h)
    && (forall g: nat :: g in s.handlers && UnderWay(s.handlers[g]) ==> s.active)
  }

  // ---- it suffices ----

  /** What stop `i` has achieved so far. A handler may still arm the timer once more,
      but nothing that is armed from now on passes the flag. */
  ghost predicate Quelled(s: State, i: nat) {
    && s.cancelled && i < |s.stops|
    && (forall g: nat :: g in s.handlers ==> g <= s.generation && s.handlers[g] != Restarting)
    && (forall g: nat :: g in s.handlers && s.handlers[g] == Rechecking ==> g < s.generation)
    && (forall g: nat :: g in s.handlers && HoldsLock(s.handlers[g]) ==> s.lock == Held(g))
    && (forall g: nat :: g in s.handlers && UnderWay(s.handlers[g]) ==> s.active)
    && (forall g: nat, h: nat :: CallbackOf(s, g) && CallbackOf(s, h) ==> g == h)
    && (forall g: nat, h: nat :: CallbackOf(s, g) && At(s, h, Checked) ==> h < s.generation)
    && (!s.stops[i].Cancelling? ==>
         s.stops[i].generation <= s.generation && forall g: nat :: At(s, g, Checked) ==> g < s.stops[i].generation)
    && (s.stops[i].Returned? ==> Silent(s))
  }

  lemma BeginQuells(s: State)
    requires Loose(s) && Calm(s)
    ensures Quelled(Begun(s), |s.stops|)
  {
    var t := Begun(s);
    forall g: nat ensures !Committed(s, g) && CallbackOf(t, g) == CallbackOf(s, g) && At(t, g, Checked) == At(s, g, Checked) {}
    forall g: nat | g in s.handlers
      ensures s.handlers[g] != Restarting && (s.handlers[g] == Rechecking ==> g < s.generation)
    {
      assert !Committed(s, g);
    }
    forall g: nat, h: nat | CallbackOf(t, g) && CallbackOf(t, h) ensures g == h {
      assert Live(s, g) && Live(s, h);
    }
    forall g: nat, h: nat | CallbackOf(t, g) && At(t, h, Checked) ensures h < s.generation {
      NotBoth(s, g, h);
    }
  }

  lemma NotBoth(s: State, g: nat, h: nat)
    requires Loose(s) && Calm(s) && CallbackOf(s, g) && At(s, h, Checked)
    ensures h < s.generation
  {
    assert Live(s, g) && (s.generation == h ==> Live(s, h));
  }

  /** Handlers that go on outside the callback, and not past the flag. */
  lemma ExpireKeepsQuelled(s: State, g: nat, i: nat)
    requires Quelled(s, i) && At(s, g, Armed)
    ensures Quelled(Move(s, g, Entering), i)
  {
    var t := Move(s, g, Entering);
    forall h: nat ensures CallbackOf(t, h) == CallbackOf(s, h) && (At(t, h, Checked) ==> At(s, h, Checked)) {}
  }

  lemma LockKeepsQuelled(s: State, g: nat, i: nat)
    requires Quelled(s, i) && At(s, g, Entering) && s.lock == Free
    ensures Quelled(Move(s, g, Locked).(lock := Held(g)), i)
  {
    var t := Move(s, g, Locked).(lock := Held(g));
    forall h: nat ensures CallbackOf(t, h) == CallbackOf(s, h) && (At(t, h, Checked) ==> At(s, h, Checked)) {}
  }

  lemma UnlockKeepsQuelled(s: State, g: nat, i: nat)
    requires Quelled(s, i) && (At(s, g, Locked) || At(s, g, Checked))
    ensures Quelled(Move(s, g, Gone).(lock := Free), i)
  {
    var t := Move(s, g, Gone).(lock := Free);
    assert s.lock == Held(g);
    forall h: nat | h in t.handlers ensures !HoldsLock(t.handlers[h]) {}
    forall h: nat ensures CallbackOf(t, h) == CallbackOf(s, h) && (At(t, h, Checked) ==> At(s, h, Checked)) {}
  }

  lemma EntryKeepsQuelled(s: State, a: Action, i: nat)
    requires Quelled(s, i) && Step(s, a) != [] && IsEntry(a)
    ensures Quelled(Step(s, a)[0], i)
  {
    assert s.cancelled;
    hide Quelled;
    match a
    case Expire(g) => ExpireKeepsQuelled(s, g, i);
    case Lock(g) => LockKeepsQuelled(s, g, i);
    case CheckFlag(g) => UnlockKeepsQuelled(s, g, i);
  }

  lemma CheckKeepsQuelled(s: State, g: nat, i: nat)
    requires Quelled(s, i) && Step(s, CheckGeneration(g)) != []
    ensures Quelled(Step(s, CheckGeneration(g))[0], i)
  {
    assert At(s, g, Checked);
    if s.generation == g {
      EnterKeepsQuelled(s, g, i);
    } else {
      UnlockKeepsQuelled(s, g, i);
    }
    hide Quelled;
  }

  lemma EnterKeepsQuelled(s: State, g: nat, i: nat)
    requires Quelled(s, i) && At(s, g, Checked) && s.generation == g
    ensures Quelled(Move(s, g, Passed), i)
  {
    var t := Move(s, g, Passed);
    forall h: nat ensures !CallbackOf(s, h) && (CallbackOf(t, h) ==> h == g) {}
    forall h: nat ensures !At(t, h, Checked) { assert At(s, h, Checked) ==> h == g; }
  }

  lemma CallbackKeepsQuelled(s: State, a: Action, i: nat)
    requires Quelled(s, i) && Step(s, a) != []
    requires a.Begin? || a.RecheckFlag? || a.RecheckGeneration? || a.RestartFlag? || a.End?
    ensures Quelled(Step(s, a)[0], i)
  {
    var t := Step(s, a)[0];
    assert CallbackOf(s, a.g) && !a.RestartFlag?;
    if a.End? {
      OutKeepsQuelled(s, a.g, i);
    } else {
      OnKeepsQuelled(s, a.g, if a.Begin? then Running else Leaving, t.lock, i);
    }
    hide Quelled;
  }

  lemma OnKeepsQuelled(s: State, g: nat, pc: Pc, lock: Mutex, i: nat)
    requires Quelled(s, i) && CallbackOf(s, g) && lock == if s.handlers[g] == Passed then Free else s.lock
    requires pc == Running || pc == Leaving
    ensures Quelled(Move(s, g, pc).(active := true, lock := lock), i)
  {
    var t := Move(s, g, pc).(active := true, lock := lock);
    forall h: nat ensures CallbackOf(t, h) == CallbackOf(s, h) && At(t, h, Checked) == At(s, h, Checked) {}
  }

  lemma OutKeepsQuelled(s: State, g: nat, i: nat)
    requires Quelled(s, i) && MayEnd(s, g)
    ensures Quelled(Move(s, g, Gone).(active := false), i)
  {
    var t := Move(s, g, Gone).(active := false);
    assert CallbackOf(s, g);
    forall h: nat ensures !CallbackOf(t, h) && At(t, h, Checked) == At(s, h, Checked) {
      assert CallbackOf(s, h) ==> h == g;
    }
    forall h: nat | h in t.handlers ensures !UnderWay(t.handlers[h]) { assert !CallbackOf(t, h); }
  }

  lemma ArmKeepsQuelled(s: State, g: nat, i: nat)
    requires Quelled(s, i) && Step(s, RestartArm(g)) != []
    ensures Quelled(Step(s, RestartArm(g))[0], i)
  {
    var t := Step(s, RestartArm(g))[0];
    forall h: nat ensures (CallbackOf(t, h) ==> CallbackOf(s, h)) && (At(t, h, Checked) ==> At(s, h, Checked)) {}
    assert CallbackOf(s, g);
  }

  /** The steps of those who stop the timer. */
  predicate IsOutside(a: Action) {
    a.BeginStop? || a.Bump? || a.Return?
  }

  lemma OutsideKeepsQuelled(s: State, a: Action, i: nat)
    requires Quelled(s, i) && Step(s, a) != [] && IsOutside(a)
    ensures Quelled(Step(s, a)[0], i)
  {
    var t := Step(s, a)[0];
    forall h: nat ensures CallbackOf(t, h) == CallbackOf(s, h) && At(t, h, Checked) == At(s, h, Checked) {}
    if a == Return(i) {
      forall h: nat ensures !CallbackOf(t, h) {}
    }
  }

  lemma StepKeepsQuelled(s: State, a: Action, i: nat)
    requires Quelled(s, i) && Step(s, a) != [] && Allows(NoStart, a)
    ensures Quelled(Step(s, a)[0], i)
  {
    if IsEntry(a) {
      EntryKeepsQuelled(s, a, i);
    } else if a.CheckGeneration? {
      CheckKeepsQuelled(s, a.g, i);
    } else if a.RestartArm? {
      ArmKeepsQuelled(s, a.g, i);
    } else if IsOutside(a) {
      OutsideKeepsQuelled(s, a, i);
    } else {
      CallbackKeepsQuelled(s, a, i);
    }
  }

  lemma {:induction false} RunKeepsQuelled(s: State, script: seq<Action>, i: nat)
    requires Quelled(s, i) && AllowsAll(NoStart, script) && Run(s, script) != []
    ensures Quelled(Run(s, script)[0], i)
    decreases |script|
  {
    if script != [] {
      assert Allows(NoStart, script[0]);
      StepKeepsQuelled(s, script[0], i);
      RunKeepsQuelled(Step(s, script[0])[0], script[1..], i);
    }
  }

  lemma CalmIsSilenced(s: State)
    requires Loose(s) && Calm(s)
    ensures StopSilences(s)
  {
    BeginQuells(s);
    forall t: State | Reaches(NoStart, Begun(s), t) && HasReturned(t, |s.stops|) ensures Silent(t) {
      var script: seq<Action> :| AllowsAll(NoStart, script) && Run(Begun(s), script) == [t];
      RunKeepsQuelled(Begun(s), script, |s.stops|);
    }
  }

  // ---- it is needed ----

  lemma NotSilenced(s: State, t: State, h: nat)
    requires Reaches(NoStart, Begun(s), t) && HasReturned(t, |s.stops|) && CallbackOf(t, h)
    ensures !StopSilences(s)
  {
    assert !Silent(t);
  }

  /** The second check is passed, and the stop moves the generation on. */
  lemma PassesCheck(s: State, g: nat, i: nat) returns (t: State)
    requires Loose(s) && Committed(s, g) && i < |s.stops| && s.stops[i].Cancelling?
    ensures Reaches(NoStart, s, t) && Loose(t) && At(t, g, Restarting) && t.lock != Held(t.generation)
    ensures |t.stops| == |s.stops| && t.stops[i].Waiting?
  {
    var mid := s;
    Stays(NoStart, s);
    if !At(s, g, Restarting) {
      mid := Move(s, g, Restarting);
      Takes(NoStart, s, RecheckGeneration(g), mid);
      StepKeepsLoose(s, RecheckGeneration(g));
    }
    t := Bumped(mid, i);
    BumpsOn(NoStart, mid, i);
    Onward(NoStart, s, mid, t);
  }

  lemma RestartsClear(s: State, g: nat) returns (t: State)
    requires Loose(s) && At(s, g, Restarting) && s.lock == Free
    ensures Reaches(NoStart, s, t) && t.stops == s.stops && At(t, g, Leaving) && g != t.generation
    ensures t.lock == Free && !t.cancelled && At(t, t.generation, Armed)
  {
    var mid := Move(s, g, Rearming).(cancelled := false);
    ClearsFlag(NoStart, s, g);
    t := ArmsAgain(mid, g);
    hide Reaches, Loose;
    Onward(NoStart, s, mid, t);
  }

  lemma EndsClear(s: State, g: nat, i: nat) returns (t: State)
    requires At(s, g, Leaving) && g != s.generation && s.lock == Free && !s.cancelled && At(s, s.generation, Armed)
    requires i < |s.stops| && s.stops[i].Waiting?
    ensures Reaches(NoStart, s, t) && HasReturned(t, i)
    ensures t.lock == Free && !t.cancelled && At(t, t.generation, Armed)
  {
    var ended := Move(s, g, Gone).(active := false);
    t := Back(ended, i);
    Takes(NoStart, s, End(g), ended);
    ThenTakes(NoStart, s, ended, Return(i), t);
  }

  /** The handler arms the timer with the flag clear, and the stop returns. */
  lemma RestartsAndReturns(s: State, g: nat, i: nat) returns (t: State)
    requires Loose(s) && At(s, g, Restarting) && s.lock == Free && i < |s.stops| && s.stops[i].Waiting?
    ensures Reaches(NoStart, s, t) && HasReturned(t, i)
    ensures t.lock == Free && !t.cancelled && At(t, t.generation, Armed)
  {
    var mid := RestartsClear(s, g);
    t := EndsClear(mid, g, i);
    hide Reaches, Loose;
    Onward(NoStart, s, mid, t);
  }

  lemma Fires(s: State, n: nat) returns (t: State)
    requires At(s, n, Armed) && s.lock == Free && !s.cancelled && s.generation == n
    ensures Reaches(NoStart, s, t) && CallbackOf(t, n) && t.stops == s.stops
  {
    HandlerFires(s, n);
    t := Move(s, n, Running).(active := true);
    assert AllowsAll(NoStart, Fire(n));
  }

  /** A committed handler restarts whatever has been stopped since, and its next callback
      runs after the stop has returned. */
  lemma CommittedBreaks(s: State, g: nat)
    requires Loose(s) && Committed(s, g)
    ensures !StopSilences(s)
  {
    var begun, i := Begun(s), |s.stops|;
    BeginsStop(NoStart, s);
    var s1 := PassesCheck(begun, g, i);
    var s2 := MutexFrees(NoStart, s1);
    var s3 := RestartsAndReturns(s2, g, i);
    var t := Fires(s3, s3.generation);
    hide Reaches, Loose, GoOn;
    Onward(NoStart, begun, s1, s2);
    Onward(NoStart, begun, s2, s3);
    Onward(NoStart, begun, s3, t);
    NotSilenced(s, t, s3.generation);
  }

  lemma LiveEnters(s: State, g: nat) returns (t: State)
    requires Loose(s) && Live(s, g)
    ensures Reaches(NoStart, s, t) && GoOn(s, t) && CallbackOf(t, g)
    ensures if CallbackOf(s, g) then t == s else true
  {
    if CallbackOf(s, g) {
      Stays(NoStart, s);
      t := s;
    } else {
      t := Enters(NoStart, s, g);
    }
  }

  lemma BothEnter(s: State, g: nat, h: nat) returns (t: State)
    requires Loose(s) && g != h && Live(s, g) && Live(s, h)
    ensures Reaches(NoStart, s, t) && GoOn(s, t) && CallbackOf(t, g) && CallbackOf(t, h)
  {
    var mid := LiveEnters(s, g);
    assert Live(mid, h);
    t := LiveEnters(mid, h);
    GoOnOn(s, mid, t);
    Onward(NoStart, s, mid, t);
  }

  /** Of two live handlers one ends, and the stop returns during the other's callback. */
  lemma TwoLiveBreak(s: State, g: nat, h: nat)
    requires Loose(s) && g != h && Live(s, g) && Live(s, h)
    ensures !StopSilences(s)
  {
    var begun, i := Begun(s), |s.stops|;
    BeginsStop(NoStart, s);
    assert Live(begun, g) && Live(begun, h);
    var mid := BothEnter(begun, g, h);
    var t := TwoCallbacks(NoStart, mid, g, h, i);
    Onward(NoStart, begun, mid, t);
    NotSilenced(s, t, h);
  }

  /** With the flag clear under a running callback the stop does not wait for it. */
  lemma ClearFlagBreaks(s: State, g: nat)
    requires Loose(s) && CallbackOf(s, g) && !s.active && forall h: nat :: !At(s, h, Passed)
    ensures !StopSilences(s)
  {
    var begun, i := Begun(s), |s.stops|;
    BeginsStop(NoStart, s);
    assert CallbackOf(begun, g);
    var t := FlagIsClear(NoStart, begun, g, i);
    NotSilenced(s, t, g);
  }

  lemma PassedIsLive(s: State, h: nat)
    requires At(s, h, Passed)
    ensures Live(s, h)
  {
  }

  lemma UnrestBreaks(s: State)
    requires Loose(s) && !Calm(s)
    ensures !StopSilences(s)
  {
    if g: nat :| Committed(s, g) {
      CommittedBreaks(s, g);
    } else if g: nat, h: nat :| g != h && Live(s, g) && Live(s, h) {
      TwoLiveBreak(s, g, h);
    } else {
      var g: nat :| g in s.handlers && UnderWay(s.handlers[g]) && !s.active;
      assert Live(s, g);
      forall h: nat ensures !At(s, h, Passed) {
        if At(s, h, Passed) { PassedIsLive(s, h); }
      }
      ClearFlagBreaks(s, g);
    }
  }

  /** When a stop silences the timer until somebody starts it from outside, at every
      moment of every run: exactly when the timer is calm. */
  lemma StopSilencesIff(script: seq<Action>, s: State)
    requires Run(IDLE, script) == [s]
    ensures StopSilences(s) <==> Calm(s)
  {
    RunKeepsLoose(IDLE, script);
    if Calm(s) { CalmIsSilenced(s); } else { UnrestBreaks(s); }
  }

  /** In a run that never arms the timer during a callback only a committed handler
      disturbs it. */
  lemma QuietIsCalmIff(s: State)
    requires Inv(s)
    ensures Calm(s) <==> forall g: nat :: !Committed(s, g)
  {
    forall g: nat, h: nat | Live(s, g) && Live(s, h) ensures g == h {
      OneIsLive(s, g, h);
    }
  }

  lemma OneIsLive(s: State, g: nat, h: nat)
    requires Inv(s) && Live(s, g) && Live(s, h)
    ensures g == h
  {
  }

  // ---- two periods at once ----

  const AGAIN := State(false, 2, true, Free, map[1 := Leaving, 2 := Armed], [])
  const OVERLAP := State(false, 2, true, Free, map[1 := Leaving, 2 := Running], [])

  lemma ArmsInItsCallback()
    ensures Run(FIRED, [RecheckFlag(1), RecheckGeneration(1), RestartFlag(1), RestartArm(1)]) == [AGAIN]
  {
    var script := [RecheckFlag(1), RecheckGeneration(1), RestartFlag(1), RestartArm(1)];
    var s1, s2 := Move(FIRED, 1, Rechecking), Move(FIRED, 1, Restarting);
    var s3 := Move(FIRED, 1, Rearming);
    MoveTwice(FIRED, 1, Rechecking, Restarting);
    MoveTwice(FIRED, 1, Restarting, Rearming);
    MoveTwice(FIRED, 1, Rearming, Leaving);
    assert Step(FIRED, RecheckFlag(1)) == [s1] && Step(s1, RecheckGeneration(1)) == [s2];
    assert Step(s2, RestartFlag(1)) == [s3];
    assert Step(s3, RestartArm(1)) == [AGAIN] by {
      assert map[1 := Running][1 := Leaving][2 := Armed] == map[1 := Leaving, 2 := Armed];
    }
    hide Step;
    RunStep(FIRED, script, s1);
    RunStep(s1, script[1..], s2);
    RunStep(s2, script[1..][1..], s3);
    RunStep(s3, script[1..][1..][1..], AGAIN);
    assert Run(AGAIN, []) == [AGAIN];
  }

  lemma FiresAgain()
    ensures Run(AGAIN, Fire(2)) == [OVERLAP]
  {
    HandlerFires(AGAIN, 2);
    assert map[1 := Leaving, 2 := Armed][2 := Running] == map[1 := Leaving, 2 := Running];
    hide Run, Fire;
  }

  lemma ReachesOverlap()
    ensures exists script :: Run(IDLE, script) == [OVERLAP]
  {
    StartsAndFires();
    ArmsInItsCallback();
    FiresAgain();
    hide Run, Step, Fire;
    var first := [Uncancel, Arm] + Fire(1);
    var second := [RecheckFlag(1), RecheckGeneration(1), RestartFlag(1), RestartArm(1)];
    RunConcat(IDLE, first, second, FIRED);
    RunConcat(IDLE, first + second, Fire(2), AGAIN);
  }

  /** A repeating timer whose next callback begins before the last has cleared the active
      flag: no handler is committed, and yet a stop begun then does not silence it. */
  lemma OverlapIsNotSilenced()
    ensures exists script :: Run(IDLE, script) == [OVERLAP]
    ensures (forall g: nat :: !Committed(OVERLAP, g)) && !StopSilences(OVERLAP)
  {
    ReachesOverlap();
    var script :| Run(IDLE, script) == [OVERLAP];
    RunKeepsLoose(IDLE, script);
    assert Live(OVERLAP, 1) && Live(OVERLAP, 2);
    hide Run;
    TwoLiveBreak(OVERLAP, 1, 2);
  }
}
