/** What can still happen to a timer, from any state of any run. */
module TimerRuns {
  import opened TimerStop

  // ---- facts of every run ----

  /** The mutex is free or held by a handler that is under it. */
  ghost predicate Owned(s: State) {
    s.lock.Held? ==> s.lock.generation in s.handlers && HoldsLock(s.handlers[s.lock.generation])
  }

  /** Nobody is ahead of the generation, and the mutex has one holder. */
  ghost predicate Loose(s: State) {
    && (forall g: nat :: g in s.handlers ==> g <= s.generation)
    && (forall g: nat :: g in s.handlers && HoldsLock(s.handlers[g]) ==> s.lock == Held(g))
    && Owned(s)
    && (forall i :: 0 <= i < |s.stops| && !s.stops[i].Cancelling? ==> s.stops[i].generation <= s.generation)
  }

  lemma MoveKeepsLoose(s: State, g: nat, pc: Pc, lock: Mutex, active: bool, cancelled: bool)
    requires Loose(s) && g in s.handlers
    requires if HoldsLock(pc) then lock == Held(g) && (HoldsLock(s.handlers[g]) || s.lock == Free)
             else lock == if HoldsLock(s.handlers[g]) then Free else s.lock
    ensures Loose(Move(s, g, pc).(lock := lock, active := active, cancelled := cancelled))
  {
  }

  lemma ArmKeepsLoose(s: State)
    requires Loose(s)
    ensures Loose(ArmNext(s))
  {
  }

  lemma OutsideKeepsLoose(s: State, a: Action)
    requires Loose(s) && Step(s, a) != [] && (a.Uncancel? || a.BeginStop? || a.Bump? || a.Return?)
    ensures Loose(Step(s, a)[0])
  {
  }

  /** The handler that a step moves. */
  predicate Moves(a: Action) {
    IsEntry(a) || a.CheckGeneration? || a.Begin? || IsRestart(a) || a.End?
  }

  lemma HandlerStep(s: State, a: Action)
    requires Moves(a) && Step(s, a) != []
    ensures var t := Step(s, a)[0];
            && a.g in s.handlers && a.g in t.handlers
            && t == Move(s, a.g, t.handlers[a.g]).(lock := t.lock, active := t.active, cancelled := t.cancelled)
    ensures var t := Step(s, a)[0];
            if HoldsLock(t.handlers[a.g]) then t.lock == (if a.Lock? then Held(a.g) else s.lock) && (a.Lock? ==> s.lock == Free)
            else t.lock == if HoldsLock(s.handlers[a.g]) then Free else s.lock
    ensures !a.Lock? && HoldsLock(Step(s, a)[0].handlers[a.g]) ==> HoldsLock(s.handlers[a.g])
  {
    assert s.handlers == s.handlers[a.g := s.handlers[a.g]];
  }

  lemma StepKeepsLoose(s: State, a: Action)
    requires Loose(s) && Step(s, a) != []
    ensures Loose(Step(s, a)[0])
  {
    var t := Step(s, a)[0];
    if Moves(a) {
      HandlerStep(s, a);
      MoveKeepsLoose(s, a.g, t.handlers[a.g], t.lock, t.active, t.cancelled);
    } else if a.Arm? {
      ArmKeepsLoose(s);
    } else if a.RestartArm? {
      MoveKeepsLoose(s, a.g, Leaving, s.lock, s.active, s.cancelled);
      ArmKeepsLoose(Move(s, a.g, Leaving));
    } else {
      OutsideKeepsLoose(s, a);
    }
  }

  lemma {:induction false} RunKeepsLoose(s: State, script: seq<Action>)
    requires Loose(s) && Run(s, script) != []
    ensures Loose(Run(s, script)[0])
    decreases |script|
  {
    if script != [] {
      StepKeepsLoose(s, script[0]);
      RunKeepsLoose(Step(s, script[0])[0], script[1..]);
    }
  }

  // ---- what can be reached ----

  /** Continuations in which nobody arms the timer, and those in which nobody starts it
      from outside. */
  datatype Kind = NoArming | NoStart

  predicate Allows(kind: Kind, a: Action) {
    match kind
    case NoArming => !a.Arm? && !a.RestartArm?
    case NoStart => !a.Uncancel? && !a.Arm?
  }

  predicate AllowsAll(kind: Kind, script: seq<Action>) {
    forall a :: a in script ==> Allows(kind, a)
  }

  ghost predicate Reaches(kind: Kind, s: State, t: State) {
    exists script: seq<Action> :: AllowsAll(kind, script) && Run(s, script) == [t]
  }

  lemma Stays(kind: Kind, s: State)
    ensures Reaches(kind, s, s)
  {
    assert AllowsAll(kind, []) && Run(s, []) == [s];
  }

  lemma Takes(kind: Kind, s: State, a: Action, t: State)
    requires Step(s, a) == [t] && Allows(kind, a)
    ensures Reaches(kind, s, t)
  {
    assert [a][1..] == [];
    assert AllowsAll(kind, [a]) && Run(s, [a]) == [t];
  }

  lemma Onward(kind: Kind, s: State, t: State, u: State)
    requires Reaches(kind, s, t) && Reaches(kind, t, u)
    ensures Reaches(kind, s, u)
  {
    var a: seq<Action> :| AllowsAll(kind, a) && Run(s, a) == [t];
    var b: seq<Action> :| AllowsAll(kind, b) && Run(t, b) == [u];
    RunConcat(s, a, b, t);
    assert AllowsAll(kind, a + b) && Run(s, a + b) == [u];
  }

  lemma ThenTakes(kind: Kind, s: State, t: State, a: Action, u: State)
    requires Reaches(kind, s, t) && Step(t, a) == [u] && Allows(kind, a)
    ensures Reaches(kind, s, u)
  {
    Takes(kind, t, a, u);
    Onward(kind, s, t, u);
  }

  /** Callbacks go on; one that had passed its checks may have begun. */
  ghost predicate GoOn(s: State, t: State) {
    && Loose(t) && t.stops == s.stops && t.generation == s.generation
    && (forall g: nat :: CallbackOf(s, g) ==>
          CallbackOf(t, g) && (t.handlers[g] == s.handlers[g] || t.handlers[g] == Running))
  }

  lemma GoOnOn(s: State, t: State, u: State)
    requires GoOn(s, t) && GoOn(t, u)
    ensures GoOn(s, u)
  {
  }

  /** The mutex is held by a handler that has passed its checks. */
  predicate OnThreshold(s: State) {
    s.lock.Held? && At(s, s.lock.generation, Passed)
  }

  /** A handler under the mutex that is not the youngest leaves it, into its callback
      only if it had passed its checks before. */
  lemma MutexFrees(kind: Kind, s: State) returns (t: State)
    requires Loose(s) && (s.lock != Held(s.generation) || OnThreshold(s))
    ensures Reaches(kind, s, t) && GoOn(s, t) && t.lock == Free && t.cancelled == s.cancelled
    ensures t.handlers.Keys == s.handlers.Keys
    ensures forall g: nat :: g in s.handlers && !HoldsLock(s.handlers[g]) ==> t.handlers[g] == s.handlers[g]
    ensures !OnThreshold(s) ==> t.active == s.active
  {
    if s.lock == Free {
      Stays(kind, s);
      t := s;
    } else {
      var h := s.lock.generation;
      var gone := Move(s, h, Gone).(lock := Free);
      if s.handlers[h] == Passed {
        t := Move(s, h, Running).(active := true, lock := Free);
        Takes(kind, s, Begin(h), t);
      } else {
        t := gone;
        LeavesEmpty(kind, s, h);
      }
      MoveKeepsLoose(s, h, t.handlers[h], Free, t.active, t.cancelled);
    }
  }

  lemma LeavesEmpty(kind: Kind, s: State, h: nat)
    requires (At(s, h, Locked) || At(s, h, Checked)) && h != s.generation
    ensures Reaches(kind, s, Move(s, h, Gone).(lock := Free))
  {
    var gone := Move(s, h, Gone).(lock := Free);
    if s.handlers[h] == Checked {
      Takes(kind, s, CheckGeneration(h), gone);
    } else if s.cancelled {
      Takes(kind, s, CheckFlag(h), gone);
    } else {
      Takes(kind, s, CheckFlag(h), Move(s, h, Checked));
      MoveTwice(s, h, Checked, Gone);
      ThenTakes(kind, s, Move(s, h, Checked), CheckGeneration(h), gone);
    }
  }

  // ---- stops ----

  function Begun(s: State): State {
    s.(cancelled := true, stops := s.stops + [Cancelling])
  }

  function Bumped(s: State, i: nat): State
    requires i < |s.stops|
  {
    s.(generation := s.generation + 1, stops := s.stops[i := Waiting(s.generation + 1)])
  }

  function Back(s: State, i: nat): State
    requires i < |s.stops| && !s.stops[i].Cancelling?
  {
    s.(stops := s.stops[i := Returned(s.stops[i].generation)])
  }

  lemma BeginsStop(kind: Kind, s: State)
    requires Loose(s)
    ensures Loose(Begun(s)) && Reaches(kind, s, Begun(s))
    ensures forall g: nat :: CallbackOf(s, g) == CallbackOf(Begun(s), g) && At(s, g, Passed) == At(Begun(s), g, Passed)
  {
    Takes(kind, s, BeginStop, Begun(s));
    StepKeepsLoose(s, BeginStop);
  }

  /** The youngest handler, with both its checks passed or the second still to come. */
  lemma Enters(kind: Kind, s: State, h: nat) returns (t: State)
    requires Loose(s) && At(s, h, Checked) && h == s.generation
    ensures Reaches(kind, s, t) && GoOn(s, t) && At(t, h, Running) && t.cancelled == s.cancelled
  {
    var mid := Move(s, h, Passed);
    t := Move(s, h, Running).(active := true, lock := Free);
    MoveTwice(s, h, Passed, Running);
    Takes(kind, s, CheckGeneration(h), mid);
    ThenTakes(kind, s, mid, Begin(h), t);
    MoveKeepsLoose(s, h, Running, Free, true, s.cancelled);
  }

  /** A callback that arms the timer before it can end. */
  predicate Stuck(pc: Pc) {
    pc == Restarting || pc == Rearming
  }

  function Rearmed(s: State, g: nat): State {
    ArmNext(Move(s, g, Leaving))
  }

  lemma RearmedGoesOn(s: State, g: nat)
    requires Loose(s) && At(s, g, Rearming)
    ensures Loose(Rearmed(s, g)) && At(Rearmed(s, g), g, Leaving) && Rearmed(s, g).stops == s.stops
    ensures forall h: nat :: CallbackOf(s, h) ==> CallbackOf(Rearmed(s, g), h)
  {
    MoveKeepsLoose(s, g, Leaving, s.lock, s.active, s.cancelled);
    ArmKeepsLoose(Move(s, g, Leaving));
  }

  lemma FailsItsCheck(kind: Kind, s: State, g: nat)
    requires Loose(s) && s.lock == Free && At(s, g, Rechecking) && g < s.generation
    ensures Reaches(kind, s, Move(s, g, Leaving)) && Loose(Move(s, g, Leaving))
  {
    Takes(kind, s, RecheckGeneration(g), Move(s, g, Leaving));
    MoveKeepsLoose(s, g, Leaving, Free, s.active, s.cancelled);
  }

  lemma ClearsFlag(kind: Kind, s: State, g: nat)
    requires Loose(s) && s.lock == Free && At(s, g, Restarting)
    ensures var t := Move(s, g, Rearming).(cancelled := false); Reaches(kind, s, t) && Loose(t)
  {
    Takes(kind, s, RestartFlag(g), Move(s, g, Rearming).(cancelled := false));
    MoveKeepsLoose(s, g, Rearming, Free, s.active, false);
  }

  lemma ArmsAgain(s: State, g: nat) returns (t: State)
    requires Loose(s) && s.lock == Free && At(s, g, Rearming)
    ensures t == Rearmed(s, g) && Reaches(NoStart, s, t) && Loose(t) && t.lock == Free && t.stops == s.stops
    ensures At(t, g, Leaving) && At(t, t.generation, Armed) && t.generation == s.generation + 1
    ensures forall h: nat :: CallbackOf(s, h) ==> CallbackOf(t, h)
  {
    t := Rearmed(s, g);
    Takes(NoStart, s, RestartArm(g), t);
    RearmedGoesOn(s, g);
  }

  /** A callback runs up to where only `end_callback` is left. */
  lemma BringsOut(kind: Kind, s: State, g: nat) returns (t: State)
    requires Loose(s) && s.lock == Free && CallbackOf(s, g) && g < s.generation
    requires kind.NoArming? ==> !Stuck(s.handlers[g])
    ensures Reaches(kind, s, t) && Loose(t) && t.lock == Free && t.stops == s.stops && MayEnd(t, g)
    ensures forall h: nat :: CallbackOf(s, h) ==> CallbackOf(t, h)
  {
    if At(s, g, Rechecking) {
      t := Move(s, g, Leaving);
      FailsItsCheck(kind, s, g);
    } else if At(s, g, Restarting) {
      var mid := Move(s, g, Rearming).(cancelled := false);
      ClearsFlag(kind, s, g);
      t := ArmsAgain(mid, g);
      hide Reaches, Loose;
      Onward(kind, s, mid, t);
    } else if At(s, g, Rearming) {
      t := ArmsAgain(s, g);
    } else {
      t := s;
      Stays(kind, s);
    }
  }

  lemma EndsAndReturns(kind: Kind, s: State, g: nat, i: nat) returns (t: State)
    requires s.lock == Free && MayEnd(s, g) && i < |s.stops| && s.stops[i].Waiting?
    ensures Reaches(kind, s, t) && |t.stops| == |s.stops| && t.stops[i] == Returned(s.stops[i].generation)
    ensures forall h: nat :: CallbackOf(s, h) && h != g ==> CallbackOf(t, h)
  {
    var mid := Move(s, g, Gone).(active := false);
    t := Back(mid, i);
    Takes(kind, s, End(g), mid);
    ThenTakes(kind, s, mid, Return(i), t);
  }

  lemma BumpsOn(kind: Kind, s: State, i: nat)
    requires Loose(s) && i < |s.stops| && s.stops[i].Cancelling?
    ensures Loose(Bumped(s, i)) && Reaches(kind, s, Bumped(s, i)) && s.lock != Held(s.generation + 1)
    ensures forall g: nat :: At(Bumped(s, i), g, Passed) ==> At(s, g, Passed)
  {
    Takes(kind, s, Bump(i), Bumped(s, i));
    StepKeepsLoose(s, Bump(i));
  }

  /** With two callbacks under way, the end of one lets a stop return during the other. */
  lemma TwoCallbacks(kind: Kind, s: State, g: nat, h: nat, i: nat) returns (t: State)
    requires Loose(s) && CallbackOf(s, g) && CallbackOf(s, h) && g != h
    requires kind.NoArming? ==> !Stuck(s.handlers[g])
    requires i < |s.stops| && s.stops[i].Cancelling?
    ensures Reaches(kind, s, t) && CallbackOf(t, h)
    ensures |t.stops| == |s.stops| && t.stops[i] == Returned(s.generation + 1)
  {
    var s1 := Bumped(s, i);
    BumpsOn(kind, s, i);
    assert CallbackOf(s1, g) && CallbackOf(s1, h);
    var s2 := MutexFrees(kind, s1);
    var s3 := BringsOut(kind, s2, g);
    t := EndsAndReturns(kind, s3, g, i);
    hide Reaches, Loose;
    Onward(kind, s, s1, s2);
    Onward(kind, s, s2, s3);
    Onward(kind, s, s3, t);
  }

  /** With the flag clear under a running callback, a stop returns at once. */
  lemma FlagIsClear(kind: Kind, s: State, h: nat, i: nat) returns (t: State)
    requires Loose(s) && CallbackOf(s, h) && !s.active && i < |s.stops| && s.stops[i].Cancelling?
    requires forall g: nat :: !At(s, g, Passed)
    ensures Reaches(kind, s, t) && CallbackOf(t, h)
    ensures |t.stops| == |s.stops| && t.stops[i] == Returned(s.generation + 1)
  {
    var s1 := Bumped(s, i);
    BumpsOn(kind, s, i);
    assert CallbackOf(s1, h) && !OnThreshold(s1);
    var s2 := MutexFrees(kind, s1);
    t := Back(s2, i);
    Takes(kind, s2, Return(i), t);
    hide Reaches, Loose, Step;
    Onward(kind, s, s1, s2);
    Onward(kind, s, s2, t);
  }
}
