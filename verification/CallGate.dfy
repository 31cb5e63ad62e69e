/** The gate that inbound calls pass through, and that shutting down closes. */
module CallGate {
  datatype Caller = Posted | Inside | Refused | Left

  datatype Stopper = Closing | Returned

  /** `active` is the gate's own count; `callers` are the calls posted so far. */
  datatype State = State(stopped: bool, active: nat, callers: seq<Caller>, stoppers: seq<Stopper>)

  datatype Action = Post | TryEnter(i: nat) | Leave(i: nat) | Close | Return(i: nat)

  const OPEN := State(false, 0, [], [])

  predicate IsAt(s: State, i: nat, c: Caller) {
    i < |s.callers| && s.callers[i] == c
  }

  /** Each step is one stay under the gate's mutex. */
  function Step(s: State, a: Action): (r: seq<State>) {
    match a
    case Post => [s.(callers := s.callers + [Posted])]
    case TryEnter(i) =>
      if !IsAt(s, i, Posted) then []
      else if s.stopped then [s.(callers := s.callers[i := Refused])]
      else [s.(active := s.active + 1, callers := s.callers[i := Inside])]
    case Leave(i) =>
      if !IsAt(s, i, Inside) then []
      else [s.(active := if s.active != 0 then s.active - 1 else 0, callers := s.callers[i := Left])]
    case Close => [s.(stopped := true, stoppers := s.stoppers + [Closing])]
    case Return(i) =>
      if i < |s.stoppers| && s.stoppers[i] == Closing && s.active == 0 then [s.(stoppers := s.stoppers[i := Returned])]
      else []
  }

  function Run(s: State, script: seq<Action>): (r: seq<State>)
    decreases |script|
  {
    if script == [] then [s]
    else
      var next := Step(s, script[0]);
      if next == [] then [] else Run(next[0], script[1..])
  }

  function Insiders(callers: seq<Caller>): nat {
    if callers == [] then 0 else (if callers[0] == Inside then 1 else 0) + Insiders(callers[1..])
  }

  /** The count is right; the gate is closed exactly if a stopper is at work or done;
      once one is done nobody is inside. */
  ghost predicate Inv(s: State) {
    && s.active == Insiders(s.callers)
    && (s.stopped <==> s.stoppers != [])
    && (Returned in s.stoppers ==> s.active == 0)
  }

  lemma {:induction false} InsidersUpdate(callers: seq<Caller>, i: nat, c: Caller)
    requires i < |callers|
    ensures Insiders(callers[i := c]) + (if callers[i] == Inside then 1 else 0)
         == Insiders(callers) + (if c == Inside then 1 else 0)
  {
    var after := callers[i := c];
    if i == 0 {
      assert after[1..] == callers[1..];
    } else {
      assert after[1..] == callers[1..][i - 1 := c];
      InsidersUpdate(callers[1..], i - 1, c);
    }
  }

  lemma {:induction false} InsidersMore(callers: seq<Caller>, c: Caller)
    ensures Insiders(callers + [c]) == Insiders(callers) + if c == Inside then 1 else 0
  {
    if callers == [] {
      assert callers + [c] == [c];
    } else {
      assert (callers + [c])[1..] == callers[1..] + [c];
      InsidersMore(callers[1..], c);
    }
  }

  lemma StepKeeps(s: State, a: Action)
    requires Inv(s) && Step(s, a) != []
    ensures Inv(Step(s, a)[0])
  {
    match a
    case Post => InsidersMore(s.callers, Posted);
    case TryEnter(i) => InsidersUpdate(s.callers, i, if s.stopped then Refused else Inside);
    case Leave(i) => InsidersUpdate(s.callers, i, Left);
    case _ =>
  }

  lemma {:induction false} RunKeeps(s: State, script: seq<Action>)
    requires Inv(s) && Run(s, script) != []
    ensures Inv(Run(s, script)[0])
    decreases |script|
  {
    if script != [] {
      StepKeeps(s, script[0]);
      RunKeeps(Step(s, script[0])[0], script[1..]);
    }
  }

  lemma {:induction false} NoInsiders(callers: seq<Caller>, i: nat)
    requires Insiders(callers) == 0 && i < |callers|
    ensures callers[i] != Inside
  {
    if i > 0 { NoInsiders(callers[1..], i - 1); }
  }

  /** In every run, once a `stop_and_wait` has returned no call is being handled, and
      none that tries later gets in. */
  lemma ClosedForGood(script: seq<Action>, i: nat, j: nat)
    requires Run(OPEN, script) != []
    requires var s := Run(OPEN, script)[0]; i < |s.stoppers| && s.stoppers[i] == Returned && j < |s.callers|
    ensures var s := Run(OPEN, script)[0];
            && s.callers[j] != Inside
            && (Step(s, TryEnter(j)) != [] ==> Step(s, TryEnter(j))[0].callers[j] == Refused)
  {
    RunKeeps(OPEN, script);
    var s := Run(OPEN, script)[0];
    assert s.stoppers[i] in s.stoppers;
    NoInsiders(s.callers, j);
  }

  lemma {:induction false} SomeInsider(callers: seq<Caller>, i: nat)
    requires i < |callers| && callers[i] == Inside
    ensures Insiders(callers) > 0
  {
    if i > 0 { SomeInsider(callers[1..], i - 1); }
  }

  /** The count is zero exactly when nobody is inside. */
  lemma InsidersZeroIff(callers: seq<Caller>)
    ensures Insiders(callers) == 0 <==> forall i :: 0 <= i < |callers| ==> callers[i] != Inside
  {
    if Insiders(callers) == 0 {
      forall i | 0 <= i < |callers| ensures callers[i] != Inside { NoInsiders(callers, i); }
    } else {
      InsiderExists(callers);
    }
  }

  lemma {:induction false} InsiderExists(callers: seq<Caller>)
    requires Insiders(callers) > 0
    ensures exists i :: 0 <= i < |callers| && callers[i] == Inside
  {
    if callers[0] != Inside {
      InsiderExists(callers[1..]);
      var i :| 0 <= i < |callers[1..]| && callers[1..][i] == Inside;
      assert callers[i + 1] == Inside;
    }
  }

  /** The program keeps a flag and a count. Which calls have been posted and where each
      of them is, and which threads are shutting down, are ghost fields: with them every
      method is a step of the transition system. */
  class Gate {
    var stopped: bool
    var active: nat
    ghost var callers: seq<Caller>
    ghost var stoppers: seq<Stopper>

    ghost function Now(): State
      reads this
    {
      State(stopped, active, callers, stoppers)
    }

    ghost predicate Valid()
      reads this
    {
      Inv(Now())
    }

    constructor ()
      ensures Valid() && Now() == OPEN
    {
      stopped, active, callers, stoppers := false, 0, [], [];
    }

    /** An inbound call is posted to be handled. */
    ghost method Posts()
      requires Valid()
      modifies this`callers
      ensures Valid() && Step(old(Now()), Post) == [Now()]
    {
      StepKeeps(Now(), Post);
      callers := callers + [Posted];
    }

    /** A posted call gets in exactly if nobody has begun to shut down. */
    method TryEnter(ghost i: nat) returns (entered: bool)
      requires Valid() && IsAt(Now(), i, Posted)
      modifies this`active, this`callers
      ensures Valid() && Step(old(Now()), Action.TryEnter(i)) == [Now()]
      ensures entered <==> stoppers == []
      ensures callers[i] == if entered then Inside else Refused
    {
      StepKeeps(Now(), Action.TryEnter(i));
      if stopped {
        callers := callers[i := Refused];
        return false;
      }
      active := active + 1;
      callers := callers[i := Inside];
      entered := true;
    }

    /** The last call to leave a closed gate, and no other, wakes those who wait. */
    method Leave(ghost i: nat) returns (wake: bool)
      requires Valid() && IsAt(Now(), i, Inside)
      modifies this`active, this`callers
      ensures Valid() && Step(old(Now()), Action.Leave(i)) == [Now()]
      ensures wake <==> stoppers != [] && forall j :: 0 <= j < |callers| ==> callers[j] != Inside
    {
      StepKeeps(Now(), Action.Leave(i));
      if active != 0 { active := active - 1; }
      callers := callers[i := Left];
      wake := stopped && active == 0;
      InsidersZeroIff(callers);
    }

    /** `stop_and_wait` up to its wait. */
    method Close()
      requires Valid()
      modifies this`stopped, this`stoppers
      ensures Valid() && Step(old(Now()), Action.Close) == [Now()]
    {
      StepKeeps(Now(), Action.Close);
      stopped := true;
      stoppers := stoppers + [Closing];
    }

    /** What a thread in `stop_and_wait` does whenever it is woken: it returns exactly
        if no call is inside. */
    method MayReturn(ghost i: nat) returns (done: bool)
      requires Valid() && i < |stoppers| && stoppers[i] == Closing
      modifies this`stoppers
      ensures Valid() && (if done then Step(old(Now()), Return(i)) == [Now()] else Now() == old(Now()))
      ensures done <==> forall j :: 0 <= j < |callers| ==> callers[j] != Inside
    {
      InsidersZeroIff(callers);
      done := active == 0;
      if done {
        StepKeeps(Now(), Return(i));
        stoppers := stoppers[i := Returned];
      }
    }
  }
}
