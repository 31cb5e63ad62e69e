/** Serial numbers and pending calls of a bus connection. */
module PendingCalls {
  import opened Options

  const MAX_SERIAL := 0xFFFF_FFFF
  const MAX_SERIAL_RETRY := 1_000_000

  datatype Outcome = NotConnected | SendFailed | Replied | TornDown

  /** A completion scheduled for a promise. */
  datatype Completion = Completion(promise: nat, outcome: Outcome)

  // ---- the serials that are tried in turn ----

  /** The serial offered when the counter stands at `next`: the largest number is
      never used, and zero means none. */
  function Offered(next: nat): nat {
    if next == MAX_SERIAL then 1 else next
  }

  function Tried(next: nat, k: nat): nat
    decreases k
  {
    if k == 0 then next else Tried(Offered(next) + 1, k - 1)
  }

  /** The `k`-th serial offered from a counter. */
  function Serial(next: nat, k: nat): nat {
    Offered(Tried(next, k))
  }

  lemma {:induction false} TriedOn(next: nat, k: nat)
    ensures Tried(next, k + 1) == Offered(Tried(next, k)) + 1
    decreases k
  {
    if k > 0 { TriedOn(Offered(next) + 1, k - 1); } else { assert Tried(next, 1) == Tried(Offered(next) + 1, 0); }
  }

  /** Serials go round through 1 to 2^32 - 2. */
  lemma {:induction false} SerialIs(next: nat, k: nat)
    requires 1 <= next <= MAX_SERIAL && k < MAX_SERIAL - 1
    ensures Serial(next, k) == if Offered(next) + k < MAX_SERIAL then Offered(next) + k else Offered(next) + k - (MAX_SERIAL - 1)
    ensures 1 <= Tried(next, k) <= MAX_SERIAL && 1 <= Serial(next, k) < MAX_SERIAL
    decreases k
  {
    if k > 0 {
      SerialIs(next, k - 1);
      TriedOn(next, k - 1);
    }
  }

  lemma SerialsDiffer(next: nat, j: nat, k: nat)
    requires 1 <= next <= MAX_SERIAL && j < k < MAX_SERIAL - 1
    ensures Serial(next, j) != Serial(next, k)
  {
    SerialIs(next, j);
    SerialIs(next, k);
  }

  // ---- the connection's calls ----

  /** `promises` counts the promises made so far, `done` the completions scheduled. */
  datatype Calls = Calls(next: nat, pending: map<nat, nat>, connected: bool, promises: nat, done: seq<Completion>)

  /** A serial that is not pending, and the counter after it; gives up after enough
      tries. */
  function NextSerial(next: nat, pending: map<nat, nat>, tries: nat): (r: (Option<nat>, nat))
    decreases tries
  {
    if tries == 0 then (None, next)
    else if Offered(next) !in pending then (Some(Offered(next)), Offered(next) + 1)
    else NextSerial(Offered(next) + 1, pending, tries - 1)
  }

  /** A call without a serial of its own. `sent` says whether the bus took the message,
      `ready` whether its reply was there at once. A call that gets no serial makes no
      promise. */
  function Send(c: Calls, sent: bool, ready: bool): Calls {
    var (serial, next) := NextSerial(c.next, c.pending, MAX_SERIAL_RETRY);
    if serial.None? then c.(next := next)
    else
      var p := c.promises;
      var made := c.(next := next, promises := p + 1);
      if !c.connected then made.(done := c.done + [Completion(p, NotConnected)])
      else if !sent then made.(done := c.done + [Completion(p, SendFailed)])
      else if ready then made.(done := c.done + [Completion(p, Replied)])
      else made.(pending := c.pending[serial.value := p])
  }

  function Reply(c: Calls, serial: nat): Calls {
    if serial !in c.pending then c
    else c.(pending := c.pending - {serial}, done := c.done + [Completion(c.pending[serial], Replied)])
  }

  /** Destroying the table completes what is pending, in whatever order. */
  function TearDown(c: Calls, order: seq<nat>): Calls
    decreases |order|
  {
    if order == [] then c
    else if order[0] !in c.pending then TearDown(c, order[1..])
    else
      TearDown(c.(pending := c.pending - {order[0]},
                  done := c.done + [Completion(c.pending[order[0]], TornDown)]), order[1..])
  }

  datatype Event =
    | Sent(sent: bool, ready: bool)
    | Answered(serial: nat)
    | Status(connected: bool)

  function Apply(c: Calls, e: Event): Calls {
    match e
    case Sent(sent, ready) => Send(c, sent, ready)
    case Answered(serial) => Reply(c, serial)
    case Status(connected) => c.(connected := connected)
  }

  function Run(c: Calls, events: seq<Event>): Calls
    decreases |events|
  {
    if events == [] then c else Run(Apply(c, events[0]), events[1..])
  }

  const NO_CALLS := Calls(1, map[], false, 0, [])

  // ---- serials ----

  /** A serial that is given is in range and not pending; one is refused only if at
      least a million calls are pending. */
  lemma {:induction false} NextSerialIs(next: nat, pending: map<nat, nat>, tries: nat)
    requires 1 <= next <= MAX_SERIAL
    ensures var (serial, after) := NextSerial(next, pending, tries);
            && 1 <= after <= MAX_SERIAL
            && (serial.Some? ==> 1 <= serial.value < MAX_SERIAL && serial.value !in pending)
            && (serial.None? ==> forall k: nat :: k < tries ==> Serial(next, k) in pending)
    decreases tries
  {
    if tries > 0 && Offered(next) in pending {
      NextSerialIs(Offered(next) + 1, pending, tries - 1);
      if NextSerial(next, pending, tries).0.None? {
        forall k: nat | k < tries ensures Serial(next, k) in pending {
          if k > 0 { assert Serial(next, k) == Serial(Offered(next) + 1, k - 1); }
        }
      }
    }
  }

  lemma {:induction false} ManyPending(next: nat, pending: map<nat, nat>, n: nat) returns (serials: set<nat>)
    requires 1 <= next <= MAX_SERIAL && n < MAX_SERIAL - 1
    requires forall k: nat :: k < n ==> Serial(next, k) in pending
    ensures |serials| == n && serials <= pending.Keys
    ensures forall x :: x in serials ==> exists k: nat :: k < n && Serial(next, k) == x
    decreases n
  {
    if n == 0 {
      serials := {};
    } else {
      var fewer := ManyPending(next, pending, n - 1);
      var last := Serial(next, n - 1);
      if last in fewer {
        var k: nat :| k < n - 1 && Serial(next, k) == last;
        SerialsDiffer(next, k, n - 1);
      }
      serials := fewer + {last};
    }
  }

  lemma {:induction false} SubsetSize(a: set<nat>, b: set<nat>)
    requires a <= b
    ensures |a| <= |b|
    decreases |a|
  {
    if a != {} {
      var x :| x in a;
      SubsetSize(a - {x}, b - {x});
    }
  }

  lemma RefusedOnlyWhenFull(next: nat, pending: map<nat, nat>)
    requires 1 <= next <= MAX_SERIAL
    requires NextSerial(next, pending, MAX_SERIAL_RETRY).0.None?
    ensures |pending| >= MAX_SERIAL_RETRY
  {
    NextSerialIs(next, pending, MAX_SERIAL_RETRY);
    var serials := ManyPending(next, pending, MAX_SERIAL_RETRY);
    SubsetSize(serials, pending.Keys);
  }

  // ---- one completion for every promise ----

  function Completions(done: seq<Completion>, p: nat): nat {
    if done == [] then 0 else (if done[0].promise == p then 1 else 0) + Completions(done[1..], p)
  }

  lemma {:induction false} CompletionsOn(done: seq<Completion>, d: Completion, p: nat)
    ensures Completions(done + [d], p) == Completions(done, p) + if d.promise == p then 1 else 0
  {
    if done == [] {
      assert done + [d] == [d];
    } else {
      assert (done + [d])[1..] == done[1..] + [d];
      CompletionsOn(done[1..], d, p);
    }
  }

  ghost predicate Waits(c: Calls, p: nat) {
    exists s :: s in c.pending && c.pending[s] == p
  }

  /** Every promise made is either pending, under one serial, or completed once. */
  ghost predicate Accounted(c: Calls) {
    && 1 <= c.next <= MAX_SERIAL
    && (forall s :: s in c.pending ==> 1 <= s < MAX_SERIAL && c.pending[s] < c.promises)
    && (forall s, t :: s in c.pending && t in c.pending && c.pending[s] == c.pending[t] ==> s == t)
    && (forall p: nat :: Completions(c.done, p) == if p < c.promises && !Waits(c, p) then 1 else 0)
  }

  lemma Completed(c: Calls, p: nat, outcome: Outcome, before: Calls)
    requires c.done == before.done + [Completion(p, outcome)]
    ensures forall q: nat :: Completions(c.done, q) == Completions(before.done, q) + if p == q then 1 else 0
  {
    forall q: nat ensures Completions(c.done, q) == Completions(before.done, q) + if p == q then 1 else 0 {
      CompletionsOn(before.done, Completion(p, outcome), q);
    }
  }

  lemma NewWaitKeeps(c: Calls, next: nat, serial: nat)
    requires Accounted(c) && 1 <= next <= MAX_SERIAL && 1 <= serial < MAX_SERIAL && serial !in c.pending
    ensures Accounted(c.(next := next, promises := c.promises + 1, pending := c.pending[serial := c.promises]))
  {
    var c' := c.(next := next, promises := c.promises + 1, pending := c.pending[serial := c.promises]);
    assert c'.pending[serial] == c.promises;
    forall q: nat | q != c.promises ensures Waits(c', q) <==> Waits(c, q) {
      if Waits(c, q) { var s :| s in c.pending && c.pending[s] == q; assert c'.pending[s] == q; }
    }
  }

  lemma NewCompletionKeeps(c: Calls, next: nat, outcome: Outcome)
    requires Accounted(c) && 1 <= next <= MAX_SERIAL
    ensures Accounted(c.(next := next, promises := c.promises + 1, done := c.done + [Completion(c.promises, outcome)]))
  {
    var c' := c.(next := next, promises := c.promises + 1, done := c.done + [Completion(c.promises, outcome)]);
    assert !Waits(c, c.promises);
    Completed(c', c.promises, outcome, c);
    forall q: nat ensures Waits(c', q) <==> Waits(c, q) {}
  }

  lemma CounterKeeps(c: Calls, next: nat)
    requires Accounted(c) && 1 <= next <= MAX_SERIAL
    ensures Accounted(c.(next := next))
  {
    forall q: nat ensures Waits(c.(next := next), q) <==> Waits(c, q) {}
  }

  lemma SendKeeps(c: Calls, sent: bool, ready: bool)
    requires Accounted(c)
    ensures Accounted(Send(c, sent, ready))
  {
    NextSerialIs(c.next, c.pending, MAX_SERIAL_RETRY);
    var (serial, next) := NextSerial(c.next, c.pending, MAX_SERIAL_RETRY);
    if serial.None? {
      CounterKeeps(c, next);
    } else if c.connected && sent && !ready {
      NewWaitKeeps(c, next, serial.value);
    } else {
      NewCompletionKeeps(c, next, if !c.connected then NotConnected else if !sent then SendFailed else Replied);
    }
  }

  lemma TakeKeeps(c: Calls, serial: nat, outcome: Outcome)
    requires Accounted(c) && serial in c.pending
    ensures var p := c.pending[serial];
            Accounted(c.(pending := c.pending - {serial}, done := c.done + [Completion(p, outcome)]))
  {
    var p := c.pending[serial];
    var c' := c.(pending := c.pending - {serial}, done := c.done + [Completion(p, outcome)]);
    Completed(c', p, outcome, c);
    assert Waits(c, p);
    forall q: nat | q != p ensures Waits(c', q) <==> Waits(c, q) {
      if Waits(c, q) { var s :| s in c.pending && c.pending[s] == q; assert s in c'.pending && c'.pending[s] == q; }
    }
  }

  lemma ApplyKeeps(c: Calls, e: Event)
    requires Accounted(c)
    ensures Accounted(Apply(c, e))
  {
    match e
    case Sent(sent, ready) => SendKeeps(c, sent, ready);
    case Answered(serial) => if serial in c.pending { TakeKeeps(c, serial, Replied); }
    case Status(connected) =>
      var c' := c.(connected := connected);
      forall q: nat ensures Waits(c', q) <==> Waits(c, q) {}
  }

  lemma {:induction false} RunKeeps(c: Calls, events: seq<Event>)
    requires Accounted(c)
    ensures Accounted(Run(c, events))
    decreases |events|
  {
    if events != [] {
      ApplyKeeps(c, events[0]);
      RunKeeps(Apply(c, events[0]), events[1..]);
    }
  }

  /** In every run each promise is pending or has exactly one completion. */
  lemma EveryRunAccounts(events: seq<Event>)
    ensures Accounted(Run(NO_CALLS, events))
  {
    assert Accounted(NO_CALLS);
    RunKeeps(NO_CALLS, events);
  }

  lemma {:induction false} TearDownKeeps(c: Calls, order: seq<nat>)
    requires Accounted(c)
    ensures var c' := TearDown(c, order);
            && Accounted(c') && c'.promises == c.promises
            && (forall s :: s in c'.pending <==> s in c.pending && s !in order)
    decreases |order|
  {
    if order != [] {
      if order[0] in c.pending {
        TakeKeeps(c, order[0], TornDown);
        TearDownKeeps(c.(pending := c.pending - {order[0]},
                         done := c.done + [Completion(c.pending[order[0]], TornDown)]), order[1..]);
      } else {
        TearDownKeeps(c, order[1..]);
      }
      forall s ensures s in order <==> s == order[0] || s in order[1..] {
        if s in order && s != order[0] { var i :| 0 <= i < |order| && order[i] == s; assert order[1..][i - 1] == s; }
      }
    }
  }

  /** Once the table is destroyed every promise ever made has exactly one completion. */
  lemma ExactlyOneCompletion(events: seq<Event>, order: seq<nat>, p: nat)
    requires forall s :: s in Run(NO_CALLS, events).pending ==> s in order
    ensures var c := TearDown(Run(NO_CALLS, events), order);
            Completions(c.done, p) == if p < c.promises then 1 else 0
  {
    EveryRunAccounts(events);
    TearDownKeeps(Run(NO_CALLS, events), order);
    var c := TearDown(Run(NO_CALLS, events), order);
    assert !Waits(c, p);
  }

  // ---- the connection object ----

  class Connection {
    var nextSerial: nat
    var pendingCalls: map<nat, nat>
    var connected: bool
    var promises: nat
    var done: seq<Completion>

    ghost function State(): Calls
      reads this
    {
      Calls(nextSerial, pendingCalls, connected, promises, done)
    }

    constructor ()
      ensures State() == NO_CALLS
    {
      nextSerial, pendingCalls, connected, promises, done := 1, map[], false, 0, [];
    }

    method GetNextSerial() returns (serial: Option<nat>)
      requires 1 <= nextSerial <= MAX_SERIAL
      modifies this`nextSerial
      ensures 1 <= nextSerial <= MAX_SERIAL
      ensures (serial, nextSerial) == NextSerial(old(nextSerial), pendingCalls, MAX_SERIAL_RETRY)
      ensures serial.Some? ==> 1 <= serial.value <= MAX_SERIAL - 1 && serial.value !in pendingCalls
      ensures serial.None? ==> |pendingCalls| >= MAX_SERIAL_RETRY
    {
      ghost var start := nextSerial;
      NextSerialIs(start, pendingCalls, MAX_SERIAL_RETRY);
      if NextSerial(start, pendingCalls, MAX_SERIAL_RETRY).0.None? { RefusedOnlyWhenFull(start, pendingCalls); }
      var retry := 0;
      while retry < MAX_SERIAL_RETRY
        invariant retry <= MAX_SERIAL_RETRY && 1 <= nextSerial <= MAX_SERIAL
        invariant NextSerial(start, pendingCalls, MAX_SERIAL_RETRY)
               == NextSerial(nextSerial, pendingCalls, MAX_SERIAL_RETRY - retry)
      {
        if nextSerial == MAX_SERIAL { nextSerial := 1; }
        var offered := nextSerial;
        nextSerial := nextSerial + 1;
        if offered !in pendingCalls { return Some(offered); }
        retry := retry + 1;
      }
      serial := None;
    }

    method Complete(promise: nat, outcome: Outcome)
      modifies this`done
      ensures done == old(done) + [Completion(promise, outcome)]
    {
      done := done + [Completion(promise, outcome)];
    }

    method AsyncSendWithReply(sent: bool, ready: bool) returns (ok: bool)
      requires 1 <= nextSerial <= MAX_SERIAL
      modifies this
      ensures State() == Send(old(State()), sent, ready)
      ensures !ok ==> |pendingCalls| >= MAX_SERIAL_RETRY
    {
      var serial := GetNextSerial();
      if serial.None? { return false; }
      var promise := promises;
      promises := promises + 1;
      ok := true;
      if !connected {
        Complete(promise, NotConnected);
      } else if !sent {
        Complete(promise, SendFailed);
      } else {
        pendingCalls := pendingCalls[serial.value := promise];
        if ready {
          ProcessReply(serial.value);
          assert pendingCalls == old(pendingCalls);
        }
      }
    }

    method ProcessReply(serial: nat)
      modifies this`pendingCalls, this`done
      ensures State() == Reply(old(State()), serial)
    {
      if serial !in pendingCalls { return; }
      var promise := pendingCalls[serial];
      pendingCalls := pendingCalls - {serial};
      Complete(promise, Replied);
    }
  }
}
