/** A timer and those who stop it, as a transition system. */
module TimerStop {
  // Callbacks run on other threads than `start` and `stop`. A step is one access to an
  // atomic, or the taking of the mutex, or what is done under it up to the next access to
  // an atomic.

  /** Where the handler of one `start` is. It is inside the callback from the moment
      it has passed both checks until it has cleared the active flag. A repeating timer
      reads the flag and the generation once more when its function is over, and then
      starts itself again: it clears the flag and moves the generation on. `Leaving` has
      only `end_callback` before it. */
  datatype Pc =
    | Armed | Entering | Locked | Checked | Passed | Running
    | Rechecking | Restarting | Rearming | Leaving | Gone

  /** A thread in `stop(true)`; `generation` is the one its increment produced. */
  datatype Stop = Cancelling | Waiting(generation: nat) | Returned(generation: nat)

  /** The handler, by its generation, that holds the mutex across steps. */
  datatype Mutex = Free | Held(generation: nat)

  datatype State = State(cancelled: bool, generation: nat, active: bool, lock: Mutex, handlers: map<nat, Pc>,
                         stops: seq<Stop>)

  datatype Action =
    | Uncancel                 // `start`: the flag is cleared
    | Arm                      // `start`: the generation moves on and a handler waits
    | Expire(g: nat)           // a handler that is dropped before it takes the mutex stays `Armed`
    | Lock(g: nat)
    | CheckFlag(g: nat)        // `begin_callback`, under the mutex
    | CheckGeneration(g: nat)
    | Begin(g: nat)
    | RecheckFlag(g: nat)      // a repeating timer, after its callback
    | RecheckGeneration(g: nat)
    | RestartFlag(g: nat)      // its own `start`
    | RestartArm(g: nat)
    | End(g: nat)              // `end_callback`
    | BeginStop
    | Bump(i: nat)
    | Return(i: nat)

  const IDLE := State(true, 0, false, Free, map[], [])

  function Move(s: State, g: nat, pc: Pc): State {
    s.(handlers := s.handlers[g := pc])
  }

  predicate At(s: State, g: nat, pc: Pc) {
    g in s.handlers && s.handlers[g] == pc
  }

  /** A single-shot timer ends without another look at the flag. */
  predicate MayEnd(s: State, g: nat) {
    At(s, g, Running) || At(s, g, Leaving)
  }

  function ArmNext(s: State): State {
    s.(generation := s.generation + 1, handlers := s.handlers[s.generation + 1 := Armed])
  }

  /** The state after a step, or nothing if it cannot be taken. */
  function Step(s: State, a: Action): (r: seq<State>)
    ensures |r| <= 1
  {
    match a
    case Uncancel => [s.(cancelled := false)]
    case Arm => [ArmNext(s)]
    case Expire(g) => if At(s, g, Armed) then [Move(s, g, Entering)] else []
    case Lock(g) => if At(s, g, Entering) && s.lock == Free then [Move(s, g, Locked).(lock := Held(g))] else []
    case CheckFlag(g) =>
      if !At(s, g, Locked) then []
      else if s.cancelled then [Move(s, g, Gone).(lock := Free)]
      else [Move(s, g, Checked)]
    case CheckGeneration(g) =>
      if !At(s, g, Checked) then []
      else if s.generation != g then [Move(s, g, Gone).(lock := Free)]
      else [Move(s, g, Passed)]
    case Begin(g) => if At(s, g, Passed) then [Move(s, g, Running).(active := true, lock := Free)] else []
    case RecheckFlag(g) =>
      if At(s, g, Running) then [Move(s, g, if s.cancelled then Leaving else Rechecking)] else []
    case RecheckGeneration(g) =>
      if At(s, g, Rechecking) then [Move(s, g, if s.generation == g then Restarting else Leaving)] else []
    case RestartFlag(g) => if At(s, g, Restarting) then [Move(s, g, Rearming).(cancelled := false)] else []
    case RestartArm(g) => if At(s, g, Rearming) then [ArmNext(Move(s, g, Leaving))] else []
    case End(g) => if MayEnd(s, g) && s.lock == Free then [Move(s, g, Gone).(active := false)] else []
    case BeginStop => [s.(cancelled := true, stops := s.stops + [Cancelling])]
    case Bump(i) =>
      if i < |s.stops| && s.stops[i].Cancelling? then
        [s.(generation := s.generation + 1, stops := s.stops[i := Waiting(s.generation + 1)])]
      else []
    case Return(i) =>
      if i < |s.stops| && s.stops[i].Waiting? && s.lock == Free && !s.active then
        [s.(stops := s.stops[i := Returned(s.stops[i].generation)])]
      else []
  }

  function Run(s: State, script: seq<Action>): (r: seq<State>)
    ensures |r| <= 1
    decreases |script|
  {
    if script == [] then [s]
    else
      var next := Step(s, script[0]);
      if next == [] then [] else Run(next[0], script[1..])
  }

  // ---- the callback of a handler ----

  predicate UnderWay(pc: Pc) {
    pc == Running || pc == Rechecking || pc == Restarting || pc == Rearming || pc == Leaving
  }

  predicate InCallback(pc: Pc) {
    pc == Passed || UnderWay(pc)
  }

  predicate CallbackOf(s: State, g: nat) {
    g in s.handlers && InCallback(s.handlers[g])
  }

  /** No step arms the timer while a callback is running. */
  ghost predicate QuietStep(s: State, a: Action) {
    (a.Arm? || a.RestartArm?) ==> forall g: nat :: g in s.handlers ==> !InCallback(s.handlers[g])
  }

  ghost predicate QuietRun(s: State, script: seq<Action>)
    decreases |script|
  {
    script != [] ==>
      QuietStep(s, script[0]) &&
      (Step(s, script[0]) != [] ==> QuietRun(Step(s, script[0])[0], script[1..]))
  }

  predicate HoldsLock(pc: Pc) {
    pc == Locked || pc == Checked || pc == Passed
  }

  /** The handler in its callback is the youngest one; the mutex has one holder; the
      active flag is set just while a callback runs outside the mutex. */
  ghost predicate Inv(s: State) {
    && (forall g: nat :: g in s.handlers ==> g <= s.generation)
    && (forall g: nat :: g in s.handlers && HoldsLock(s.handlers[g]) ==> s.lock == Held(g))
    && (forall g: nat, h: nat :: g in s.handlers && h in s.handlers && InCallback(s.handlers[g]) ==> h <= g)
    && (forall g: nat :: g in s.handlers && UnderWay(s.handlers[g]) ==> s.active)
  }

  /** No callback armed before generation `n` is running. */
  ghost predicate Over(s: State, n: nat) {
    forall g: nat :: g < n && g in s.handlers ==> !InCallback(s.handlers[g])
  }

  /** What a returned stop has settled: every callback armed before it is over. */
  ghost predicate Settled(s: State) {
    forall i :: 0 <= i < |s.stops| && !s.stops[i].Cancelling? ==>
      s.stops[i].generation <= s.generation && (s.stops[i].Returned? ==> Over(s, s.stops[i].generation))
  }

  lemma ArmKeepsInv(s: State)
    requires Inv(s) && QuietStep(s, Arm)
    ensures Inv(ArmNext(s))
  {
  }

  /** A step of one handler under or outside the mutex. */
  predicate IsEntry(a: Action) {
    a.Expire? || a.Lock? || a.CheckFlag?
  }

  predicate IsRestart(a: Action) {
    a.RecheckFlag? || a.RecheckGeneration? || a.RestartFlag?
  }

  predicate IsCallback(a: Action) {
    a.CheckGeneration? || a.Begin? || IsRestart(a) || a.End?
  }

  lemma ExpireKeepsInv(s: State, g: nat)
    requires Inv(s) && At(s, g, Armed)
    ensures Inv(Move(s, g, Entering))
  {
  }

  lemma LockKeepsInv(s: State, g: nat)
    requires Inv(s) && At(s, g, Entering) && s.lock == Free
    ensures Inv(Move(s, g, Locked).(lock := Held(g)))
  {
  }

  lemma PassKeepsInv(s: State, g: nat)
    requires Inv(s) && At(s, g, Locked)
    ensures Inv(Move(s, g, Checked))
  {
  }

  lemma UnlockKeepsInv(s: State, g: nat)
    requires Inv(s) && (At(s, g, Locked) || At(s, g, Checked))
    ensures Inv(Move(s, g, Gone).(lock := Free))
  {
  }

  lemma EntryKeepsInv(s: State, a: Action)
    requires Inv(s) && IsEntry(a) && Step(s, a) != []
    ensures Inv(Step(s, a)[0])
  {
    hide Inv;
    match a
    case Expire(g) => ExpireKeepsInv(s, g);
    case Lock(g) => LockKeepsInv(s, g);
    case CheckFlag(g) => if s.cancelled { UnlockKeepsInv(s, g); } else { PassKeepsInv(s, g); }
  }

  lemma EndKeepsInv(s: State, g: nat)
    requires Inv(s) && Step(s, End(g)) != []
    ensures Inv(Step(s, End(g))[0])
  {
    OutKeepsInv(s, g);
    hide Inv;
  }

  lemma OutKeepsInv(s: State, g: nat)
    requires Inv(s) && MayEnd(s, g) && s.lock == Free
    ensures Inv(Move(s, g, Gone).(active := false))
  {
    var t := Move(s, g, Gone).(active := false);
    assert InCallback(s.handlers[g]);
    forall h: nat | h in t.handlers ensures !InCallback(t.handlers[h]) {
      if h != g && InCallback(s.handlers[h]) { NotTwo(s, g, h); }
    }
  }

  lemma NotTwo(s: State, g: nat, h: nat)
    requires Inv(s) && CallbackOf(s, g) && CallbackOf(s, h)
    ensures g == h
  {
  }

  lemma BeginKeepsInv(s: State, g: nat)
    requires Inv(s) && Step(s, Begin(g)) != []
    ensures Inv(Step(s, Begin(g))[0])
  {
  }

  lemma CheckKeepsInv(s: State, g: nat)
    requires Inv(s) && Step(s, CheckGeneration(g)) != []
    ensures Inv(Step(s, CheckGeneration(g))[0])
  {
    if s.generation == g { EnterKeepsInv(s, g); } else { UnlockKeepsInv(s, g); }
    hide Inv;
  }

  lemma EnterKeepsInv(s: State, g: nat)
    requires Inv(s) && At(s, g, Checked) && s.generation == g
    ensures Inv(Move(s, g, Passed))
  {
  }

  lemma RestartKeepsInv(s: State, a: Action)
    requires Inv(s) && IsRestart(a) && Step(s, a) != []
    ensures Inv(Step(s, a)[0])
  {
    var t := Step(s, a)[0];
    UnderWayKeepsInv(s, a.g, t.handlers[a.g], t.cancelled);
    hide Inv;
  }

  lemma UnderWayKeepsInv(s: State, g: nat, pc: Pc, cancelled: bool)
    requires Inv(s) && g in s.handlers && UnderWay(s.handlers[g]) && UnderWay(pc)
    ensures Inv(Move(s, g, pc).(cancelled := cancelled))
  {
  }

  lemma OtherKeepsInv(s: State, a: Action)
    requires Inv(s) && QuietStep(s, a) && Step(s, a) != [] && !IsEntry(a) && !IsCallback(a) && !a.Arm?
    ensures Inv(Step(s, a)[0])
  {
    if a.RestartArm? { RestartIsNotQuiet(s, a.g); }
  }

  lemma StepKeepsInv(s: State, a: Action)
    requires Inv(s) && QuietStep(s, a) && Step(s, a) != []
    ensures Inv(Step(s, a)[0])
  {
    if a.Arm? {
      ArmKeepsInv(s);
    } else if IsEntry(a) {
      EntryKeepsInv(s, a);
    } else if a.Begin? {
      BeginKeepsInv(s, a.g);
    } else if a.End? {
      EndKeepsInv(s, a.g);
    } else if IsRestart(a) {
      RestartKeepsInv(s, a);
    } else if a.CheckGeneration? {
      CheckKeepsInv(s, a.g);
    } else {
      OtherKeepsInv(s, a);
    }
  }

  /** Restarting arms the timer inside its callback. */
  lemma RestartIsNotQuiet(s: State, g: nat)
    requires Step(s, RestartArm(g)) != []
    ensures !QuietStep(s, RestartArm(g))
  {
    assert InCallback(s.handlers[g]);
  }

  lemma StepKeepsOver(s: State, a: Action, n: nat)
    requires n <= s.generation && Over(s, n) && Step(s, a) != []
    ensures Over(Step(s, a)[0], n)
  {
  }

  /** The wait of a stop ends only when no callback at all is running. */
  lemma ReturnsWhenOver(s: State, i: nat, n: nat)
    requires Inv(s) && Step(s, Return(i)) != []
    ensures Over(Step(s, Return(i))[0], n)
  {
  }

  lemma StopsChange(s: State, a: Action)
    requires Step(s, a) != []
    ensures var s' := Step(s, a)[0];
            && s.generation <= s'.generation && |s.stops| <= |s'.stops|
            && (forall i :: 0 <= i < |s'.stops| && !s'.stops[i].Cancelling? ==>
                  || (i < |s.stops| && s'.stops[i] == s.stops[i])
                  || (a == Bump(i) && s'.stops[i] == Waiting(s'.generation))
                  || (a == Return(i) && s.stops[i].Waiting? && s'.stops[i] == Returned(s.stops[i].generation)))
  {
  }

  lemma StepKeepsSettled(s: State, a: Action)
    requires Inv(s) && Settled(s) && Step(s, a) != []
    ensures Settled(Step(s, a)[0])
  {
    var s' := Step(s, a)[0];
    StopsChange(s, a);
    forall i | 0 <= i < |s'.stops| && !s'.stops[i].Cancelling?
      ensures s'.stops[i].generation <= s'.generation && (s'.stops[i].Returned? ==> Over(s', s'.stops[i].generation))
    {
      if a == Return(i) {
        ReturnsWhenOver(s, i, s'.stops[i].generation);
      } else if s'.stops[i].Returned? {
        StepKeepsOver(s, a, s.stops[i].generation);
      }
    }
  }

  lemma {:induction false} RunKeeps(s: State, script: seq<Action>)
    requires Inv(s) && Settled(s) && QuietRun(s, script) && Run(s, script) != []
    ensures Inv(Run(s, script)[0]) && Settled(Run(s, script)[0])
    decreases |script|
  {
    if script != [] {
      StepKeepsInv(s, script[0]);
      StepKeepsSettled(s, script[0]);
      RunKeeps(Step(s, script[0])[0], script[1..]);
    }
  }

  /** In every run that never arms the timer while a callback runs, once `stop(true)`
      has returned, no callback armed before it is running, now or at any later time. */
  lemma StopIsFinal(script: seq<Action>, i: nat, g: nat)
    requires QuietRun(IDLE, script) && Run(IDLE, script) != []
    requires var s := Run(IDLE, script)[0]; i < |s.stops| && s.stops[i].Returned? && g < s.stops[i].generation
    ensures !CallbackOf(Run(IDLE, script)[0], g)
  {
    RunKeeps(IDLE, script);
  }

  /** Nothing armed before the stop can even pass its checks. */
  lemma NoneCanBegin(s: State, i: nat, g: nat)
    requires Inv(s) && Settled(s) && i < |s.stops| && s.stops[i].Returned? && g < s.stops[i].generation
    ensures Step(s, CheckGeneration(g)) != [] ==> !CallbackOf(Step(s, CheckGeneration(g))[0], g)
    ensures Step(s, Begin(g)) == []
  {
  }

  // ---- a repeating timer ----

  function Fire(g: nat): seq<Action> {
    [Expire(g), Lock(g), CheckFlag(g), CheckGeneration(g), Begin(g)]
  }

  lemma RunStep(s: State, script: seq<Action>, next: State)
    requires script != [] && Step(s, script[0]) == [next]
    ensures Run(s, script) == Run(next, script[1..])
  {
  }

  lemma {:induction false} RunConcat(s: State, a: seq<Action>, b: seq<Action>, mid: State)
    requires Run(s, a) == [mid]
    ensures Run(s, a + b) == Run(mid, b)
    decreases |a|
  {
    if a == [] {
      assert a + b == b;
    } else {
      assert (a + b)[0] == a[0] && (a + b)[1..] == a[1..] + b;
      RunConcat(Step(s, a[0])[0], a[1..], b, mid);
    }
  }

  lemma MoveTwice(s: State, g: nat, p: Pc, q: Pc)
    ensures s.handlers[g := p][g := q] == s.handlers[g := q]
  {
  }

  /** A handler that nothing holds up runs its callback. */
  lemma HandlerFires(s: State, g: nat)
    requires At(s, g, Armed) && s.lock == Free && !s.cancelled && s.generation == g
    ensures Run(s, Fire(g)) == [Move(s, g, Running).(active := true)]
  {
    var s1, s2 := Move(s, g, Entering), Move(s, g, Locked).(lock := Held(g));
    MoveTwice(s, g, Entering, Locked);
    assert Step(s, Expire(g)) == [s1] && Step(s1, Lock(g)) == [s2];
    ChecksPass(s, g);
    hide Step, Run;
    RunStep(s, Fire(g), s1);
    RunStep(s1, Fire(g)[1..], s2);
    assert Fire(g)[1..][1..] == [CheckFlag(g), CheckGeneration(g), Begin(g)];
  }

  lemma ChecksPass(s: State, g: nat)
    requires At(s, g, Armed) && s.lock == Free && !s.cancelled && s.generation == g
    ensures Run(Move(s, g, Locked).(lock := Held(g)), [CheckFlag(g), CheckGeneration(g), Begin(g)])
         == [Move(s, g, Running).(active := true)]
  {
    var s2, s3 := Move(s, g, Locked).(lock := Held(g)), Move(s, g, Checked).(lock := Held(g));
    var s4, s5 := Move(s, g, Passed).(lock := Held(g)), Move(s, g, Running).(active := true);
    MoveTwice(s, g, Locked, Checked);
    MoveTwice(s, g, Checked, Passed);
    MoveTwice(s, g, Passed, Running);
    assert Step(s2, CheckFlag(g)) == [s3] && Step(s3, CheckGeneration(g)) == [s4] && Step(s4, Begin(g)) == [s5];
    hide Step;
    var script := [CheckFlag(g), CheckGeneration(g), Begin(g)];
    RunStep(s2, script, s3);
    RunStep(s3, script[1..], s4);
    RunStep(s4, script[1..][1..], s5);
    assert Run(s5, []) == [s5];
  }

  const STARTED := State(false, 1, false, Free, map[1 := Armed], [])
  const FIRED := State(false, 1, true, Free, map[1 := Running], [])
  const STOPPING := State(true, 2, true, Free, map[1 := Restarting], [Waiting(2)])
  const REARMED := State(false, 3, false, Free, map[1 := Gone, 3 := Armed], [Returned(2)])

  /** A repeating timer has checked after its callback, and is then stopped. */
  lemma ChecksAndIsStopped()
    ensures Run(FIRED, [RecheckFlag(1), RecheckGeneration(1), BeginStop, Bump(0)]) == [STOPPING]
  {
    var script := [RecheckFlag(1), RecheckGeneration(1), BeginStop, Bump(0)];
    var s0 := FIRED.(handlers := map[1 := Rechecking]);
    var s1 := FIRED.(handlers := map[1 := Restarting]);
    var s2 := s1.(cancelled := true, stops := [Cancelling]);
    assert Step(FIRED, RecheckFlag(1)) == [s0] by { assert map[1 := Running][1 := Rechecking] == map[1 := Rechecking]; }
    assert Step(s0, RecheckGeneration(1)) == [s1] by {
      assert map[1 := Rechecking][1 := Restarting] == map[1 := Restarting];
    }
    assert Step(s1, BeginStop) == [s2] by { assert [] + [Cancelling] == [Cancelling]; }
    assert Step(s2, Bump(0)) == [STOPPING] by { assert [Cancelling][0 := Waiting(2)] == [Waiting(2)]; }
    RunStep(FIRED, script, s0);
    RunStep(s0, script[1..], s1);
    RunStep(s1, script[1..][1..], s2);
    RunStep(s2, script[1..][1..][1..], STOPPING);
  }

  /** It starts again all the same, and the stop returns. */
  lemma RestartsAndStopReturns()
    ensures Run(STOPPING, [RestartFlag(1), RestartArm(1), End(1), Return(0)]) == [REARMED]
  {
    var script := [RestartFlag(1), RestartArm(1), End(1), Return(0)];
    var s3 := State(false, 2, true, Free, map[1 := Rearming], [Waiting(2)]);
    var s4 := State(false, 3, true, Free, map[1 := Leaving, 3 := Armed], [Waiting(2)]);
    var s5 := State(false, 3, false, Free, map[1 := Gone, 3 := Armed], [Waiting(2)]);
    assert Step(STOPPING, RestartFlag(1)) == [s3] by { assert map[1 := Restarting][1 := Rearming] == map[1 := Rearming]; }
    assert Step(s3, RestartArm(1)) == [s4] by {
      assert map[1 := Rearming][1 := Leaving][3 := Armed] == map[1 := Leaving, 3 := Armed];
    }
    assert Step(s4, End(1)) == [s5] by { assert map[1 := Leaving, 3 := Armed][1 := Gone] == map[1 := Gone, 3 := Armed]; }
    assert Step(s5, Return(0)) == [REARMED] by { assert [Waiting(2)][0 := Returned(2)] == [Returned(2)]; }
    RunStep(STOPPING, script, s3);
    RunStep(s3, script[1..], s4);
    RunStep(s4, script[1..][1..], s5);
    RunStep(s5, script[1..][1..][1..], REARMED);
  }

  lemma StartsAndFires()
    ensures Run(IDLE, [Uncancel, Arm] + Fire(1)) == [FIRED]
  {
    assert Run(IDLE, [Uncancel, Arm]) == [STARTED] by {
      assert [Uncancel, Arm][1..] == [Arm] && [Arm][1..] == [];
      assert map[][1 := Armed] == map[1 := Armed];
    }
    HandlerFires(STARTED, 1);
    assert Run(STARTED, Fire(1)) == [FIRED] by { assert map[1 := Armed][1 := Running] == map[1 := Running]; }
    RunConcat(IDLE, [Uncancel, Arm], Fire(1), STARTED);
  }

  lemma ReachesRearmed()
    ensures exists script :: Run(IDLE, script) == [REARMED]
  {
    StartsAndFires();
    ChecksAndIsStopped();
    RestartsAndStopReturns();
    hide Run, Step, Fire;
    var first := [Uncancel, Arm] + Fire(1);
    var second := [RecheckFlag(1), RecheckGeneration(1), BeginStop, Bump(0)];
    RunConcat(IDLE, first, second, FIRED);
    RunConcat(IDLE, first + second, [RestartFlag(1), RestartArm(1), End(1), Return(0)], STOPPING);
  }

  /** `stop(true)` has returned, and yet a callback of the timer runs afterwards. */
  lemma RepeatingTimerRunsAfterStop()
    ensures exists script :: Run(IDLE, script) == [REARMED]
    ensures REARMED.stops == [Returned(2)]
    ensures Run(REARMED, Fire(3)) == [Move(REARMED, 3, Running).(active := true)]
  {
    hide Run, Step;
    ReachesRearmed();
    HandlerFires(REARMED, 3);
  }
}
