/** The threads of the MDB client as a transition system. */
module MdbProtocol {
  // A step is one region under a lock, or one answer from the bus while no lock is held;
  // any thread may take the next step.

  import opened Recency
  import opened MdbIndex
  import opened MdbRegions

  const MAX_WAIT_ATTEMPTS := 100

  /** `filterKeys` are the keys the filter decodes to, none if it does not decode. */
  datatype Request = Request(iface: string, filter: string, ignoreCase: bool, filterKeys: seq<string>)

  function CacheKey(req: Request): string {
    req.iface + ":" + req.filter
  }

  datatype Target = Target(path: string, service: string)

  function TargetWatch(req: Request, target: Target): Watch {
    Watch(target.path, req.iface)
  }

  function TargetEntry(req: Request, target: Target): Entry {
    Entry(target.path, req.iface, target.service, req.filter, req.ignoreCase, req.filterKeys)
  }

  /** Where a thread is. `Drain` and `Sweep` carry its clean-up queue. */
  datatype Pc =
    | Idle
    | AwaitKey(req: Request, waits: nat)
    | DirectCall(req: Request)
    | Query(req: Request)
    | Subscribe(req: Request, target: Target, waits: nat)
    | AddRemovedMatch(req: Request, target: Target)
    | AddChangedMatch(req: Request, target: Target, removedMatch: nat)
    | AbandonWatch(req: Request, target: Target, drop: seq<nat>)
    | StoreSub(req: Request, target: Target, removedMatch: nat, changedMatch: nat)
    | Verify(req: Request, target: Target)
    | Unverified(req: Request, target: Target)
    | Publish(req: Request, target: Target)
    | Finish(req: Request)
    | RemoveMatches(ids: seq<nat>, next: Pc)
    | Drain(tasks: seq<Watch>)
    | Sweep(keys: seq<string>, pending: seq<Watch>, path: string, ifaces: seq<string>)

  /** What a thread is asked to do. Names with a bucket to walk carry the order in
      which the hash set yields it. */
  datatype Call =
    | GetPath(req: Request, useCache: bool)
    | ServiceGone(name: string, order: seq<string>)
    | InterfacesRemoved(path: string, ifaces: seq<string>)
    | PropertiesChanged(path: string, iface: string, changed: seq<string>, order: seq<string>)
    | ClearCache
    | Resize(max: nat)

  datatype Action =
    | Begin(call: Call)
    | Run
    | GiveUp                              // the total wait time is over
    | Reply(path: string, service: string)
    | Match(id: nat)
    | Removed
    | Collect(order: seq<string>)
    | Threw

  /** `live` is the set of matches registered on the bus. */
  datatype State = State(cache: PathCache, watches: Watches, threads: seq<Pc>, live: set<nat>)

  function Init(threads: nat): State {
    State(EMPTY_CACHE, NO_WATCHES, seq(threads, _ => Idle), {})
  }

  function Goto(s: State, t: nat, pc: Pc): State
    requires t < |s.threads|
  {
    s.(threads := s.threads[t := pc])
  }

  predicate Enumerates(order: seq<string>, bucket: set<string>) {
    (forall i, j :: 0 <= i < j < |order| ==> order[i] != order[j]) && (set k | k in order) == bucket
  }

  function BucketIn(ix: Index, tag: string): set<string> {
    if tag in ix then ix[tag] else {}
  }

  // ---- regions under the cache mutex ----

  function StartCall(s: State, t: nat, call: Call): (r: seq<State>)
    requires t < |s.threads|
  {
    match call
    case GetPath(req, useCache) => [Goto(s, t, if useCache then AwaitKey(req, 0) else DirectCall(req))]
    case ServiceGone(name, order) =>
      if Enumerates(order, BucketIn(s.cache.svcIndex, name)) then [Goto(s, t, Sweep(order, [], "", []))] else []
    case InterfacesRemoved(path, ifaces) => [Goto(s, t, Sweep([], [], path, ifaces))]
    case PropertiesChanged(path, iface, changed, order) =>
      if Enumerates(order, BucketIn(s.cache.subIndex, SubKey(Watch(path, iface)))) then
        var (c, keys) := CollectInvalidated(s.cache, order, changed);
        [Goto(s.(cache := c), t, Sweep(keys, [], "", []))]
      else []
    case ClearCache => [Goto(s, t, Sweep(seq(|s.cache.entries|, i requires 0 <= i < |s.cache.entries| => s.cache.entries[i].0), [], "", []))]
    case Resize(max) =>
      var (c, pending) := SetMaxCacheSize(s.cache, max);
      [Goto(s.(cache := c), t, Drain(pending))]
  }

  /** `wait_or_start_creation`: hit, start filling the key, give up, or wait. */
  function LookupLeads(c: PathCache, t: nat, req: Request, waits: nat, timeUp: bool): (PathCache, Pc) {
    var key := CacheKey(req);
    var (c', hit) := TryGetCachedPath(c, key, req.ignoreCase);
    if hit != [] then (c', Idle)
    else if key !in c'.creating then (c'.(creating := c'.creating[key := t]), Query(req))
    else if waits >= MAX_WAIT_ATTEMPTS || timeUp then (c', DirectCall(req))
    else (c', AwaitKey(req, waits + 1))
  }

  function RunLookup(s: State, t: nat, req: Request, waits: nat, timeUp: bool): State
    requires t < |s.threads|
  {
    var (c, pc) := LookupLeads(s.cache, t, req, waits, timeUp);
    Goto(s.(cache := c), t, pc)
  }

  function StopCreating(c: PathCache, key: string, t: nat): PathCache {
    if key in c.creating && c.creating[key] == t then c.(creating := c.creating - {key}) else c
  }

  function RunPublish(s: State, t: nat, req: Request, target: Target): State
    requires t < |s.threads|
  {
    var (c, pending) := UpdateCacheAndIndices(s.cache, CacheKey(req), TargetEntry(req, target));
    Goto(s.(cache := StopCreating(c, CacheKey(req), t)), t, Drain(pending))
  }

  /** Removes the next collected key, or collects the keys of the next interface,
      or hands the queue over to be drained. */
  function RunSweep(s: State, t: nat, a: Action, keys: seq<string>, pending: seq<Watch>, path: string,
                    ifaces: seq<string>): (r: seq<State>)
    requires t < |s.threads|
  {
    if keys != [] then
      var (c, more) := CleanupCacheEntry(s.cache, keys[0]);
      if a.Run? then [Goto(s.(cache := c), t, Sweep(keys[1..], pending + more, path, ifaces))] else []
    else if ifaces != [] then
      if a.Collect? && Enumerates(a.order, BucketIn(s.cache.subIndex, SubKey(Watch(path, ifaces[0])))) then
        [Goto(s, t, Sweep(a.order, pending, path, ifaces[1..]))]
      else []
    else if a.Run? then [Goto(s, t, Drain(pending))]
    else []
  }

  // ---- regions under the subscriptions mutex ----

  predicate SubscriptionTimesOut(s: State, req: Request, target: Target, waits: nat) {
    var key := SubKey(TargetWatch(req, target));
    key !in s.watches.subs && key in s.watches.creating && waits >= MAX_WAIT_ATTEMPTS
  }

  /** `try_increment_existing_subscription` and, when it says so, the registration
      of this thread as the creator. */
  function RunSubscribe(s: State, t: nat, req: Request, target: Target, waits: nat): State
    requires t < |s.threads|
  {
    var w, key := s.watches, SubKey(TargetWatch(req, target));
    if key in w.subs then
      Goto(s.(watches := w.(subs := w.subs[key := w.subs[key].(refs := w.subs[key].refs + 1)])), t, Verify(req, target))
    else if key !in w.creating || waits >= MAX_WAIT_ATTEMPTS then
      Goto(s.(watches := w.(creating := w.creating[key := t])), t, AddRemovedMatch(req, target))
    else
      Goto(s, t, Subscribe(req, target, waits + 1))
  }

  function StopCreatingSub(w: Watches, key: string, t: nat): Watches {
    if key in w.creating && w.creating[key] == t then w.(creating := w.creating - {key}) else w
  }

  function RunStoreSub(s: State, t: nat, req: Request, target: Target, removed: nat, changed: nat): State
    requires t < |s.threads|
  {
    var key := SubKey(TargetWatch(req, target));
    var w := s.watches.(subs := s.watches.subs[key := Subscription(removed, changed, 1)]);
    Goto(s.(watches := StopCreatingSub(w, key, t)), t, Verify(req, target))
  }

  function RunDecrease(s: State, t: nat, watch: Watch, next: Pc): State
    requires t < |s.threads|
  {
    var (w, ids) := DecreaseRefcount(s.watches, SubKey(watch));
    Goto(s.(watches := w), t, if ids == [] then next else RemoveMatches(ids, next))
  }

  /** `process_pending_cleanup`: gives back one reference at a time. */
  function RunDrain(s: State, t: nat, tasks: seq<Watch>): State
    requires t < |s.threads|
  {
    if tasks == [] then Goto(s, t, Idle) else RunDecrease(s, t, tasks[0], Drain(tasks[1..]))
  }

  function RunAbandon(s: State, t: nat, req: Request, target: Target): State
    requires t < |s.threads|
  {
    Goto(s.(watches := StopCreatingSub(s.watches, SubKey(TargetWatch(req, target)), t)), t, Finish(req))
  }

  function RunFinish(s: State, t: nat, req: Request): State
    requires t < |s.threads|
  {
    Goto(s.(cache := StopCreating(s.cache, CacheKey(req), t)), t, Idle)
  }

  // ---- answers from the bus, with no lock held ----

  /** Where an answer takes a thread, and how it changes the live matches. */
  datatype Move = Move(pc: Pc, live: set<nat>)

  function LiveSet(id: nat): set<nat> {
    if id > 0 then {id} else {}
  }

  /** The bus answers a call of a thread; a new match has an unused identifier, or
      0 when it could not be registered. */
  function Answer(pc: Pc, a: Action, live: set<nat>): (r: seq<Move>)
    ensures |r| <= 1
  {
    match pc
    case DirectCall(_) => if a.Reply? || a.Threw? then [Move(Idle, live)] else []
    case Query(req) =>
      if a.Reply? && a.path != "" then [Move(Subscribe(req, Target(a.path, a.service), 0), live)]
      else if a.Reply? || a.Threw? then [Move(Finish(req), live)]
      else []
    case Subscribe(req, target, waits) =>
      if a.Threw? && waits == 0 then [Move(Finish(req), live)]   // the global subscription failed
      else []
    case AddRemovedMatch(req, target) =>
      if a.Match? && a.id !in live then [Move(AddChangedMatch(req, target, a.id), live + LiveSet(a.id))]
      else if a.Threw? then [Move(AbandonWatch(req, target, []), live)]
      else []
    case AddChangedMatch(req, target, removed) =>
      if a.Match? && a.id !in live then [Move(StoreSub(req, target, removed, a.id), live + LiveSet(a.id))]
      else if a.Threw? then [Move(AbandonWatch(req, target, LiveIds([removed])), live)]
      else []
    case AbandonWatch(req, target, drop) =>
      if drop == [] then []
      else if a.Removed? then [Move(AbandonWatch(req, target, drop[1..]), live - {drop[0]})]
      else if a.Threw? then [Move(AbandonWatch(req, target, []), live)]
      else []
    case Verify(req, target) =>
      if a.Reply? && a.path == target.path then [Move(Publish(req, target), live)]
      else if a.Reply? || a.Threw? then [Move(Unverified(req, target), live)]
      else []
    case RemoveMatches(ids, next) =>
      if ids == [] then (if a.Run? then [Move(next, live)] else [])
      else if a.Removed? then [Move(RemoveMatches(ids[1..], next), live - {ids[0]})]
      else if a.Threw? then [Move(next, live)]
      else []
    case _ => []
  }

  /** One region under a lock. */
  function Region(s: State, t: nat, a: Action): (r: seq<State>)
    requires t < |s.threads|
  {
    match s.threads[t]
    case Idle => if a.Begin? then StartCall(s, t, a.call) else []
    case AwaitKey(req, waits) => if a.Run? || a.GiveUp? then [RunLookup(s, t, req, waits, a.GiveUp?)] else []
    case Subscribe(req, target, waits) => if a.Run? then [RunSubscribe(s, t, req, target, waits)] else []
    case AbandonWatch(req, target, drop) => if drop == [] && a.Run? then [RunAbandon(s, t, req, target)] else []
    case StoreSub(req, target, removed, changed) =>
      if a.Run? then [RunStoreSub(s, t, req, target, removed, changed)] else []
    case Unverified(req, target) =>
      if a.Run? then [RunDecrease(s, t, TargetWatch(req, target), Finish(req))] else []
    case Publish(req, target) => if a.Run? then [RunPublish(s, t, req, target)] else []
    case Finish(req) => if a.Run? then [RunFinish(s, t, req)] else []
    case Drain(tasks) => if a.Run? then [RunDrain(s, t, tasks)] else []
    case Sweep(keys, pending, path, ifaces) => RunSweep(s, t, a, keys, pending, path, ifaces)
    case _ => []
  }

  /** The state after thread `t` takes step `a`, or nothing if it cannot. */
  function Step(s: State, t: nat, a: Action): (r: seq<State>)
    requires t < |s.threads|
  {
    var answer := Answer(s.threads[t], a, s.live);
    if answer != [] then [Goto(s.(live := answer[0].live), t, answer[0].pc)]
    else Region(s, t, a)
  }

  // ---- runs ----

  type Script = seq<(nat, Action)>

  function RunFrom(s: State, script: Script): (r: seq<State>) {
    if script == [] then [s]
    else
      var before := RunFrom(s, script[..|script| - 1]);
      var (t, a) := script[|script| - 1];
      if before == [] || t >= |before[0].threads| then [] else Step(before[0], t, a)
  }

  /** The state a script leads to, when each of its steps can be taken. */
  ghost predicate Leads(s: State, script: Script, s': State) {
    RunFrom(s, script) == [s']
  }

  lemma {:induction false} RunFromSize(s: State, script: Script)
    ensures |RunFrom(s, script)| <= 1
  {
  }

  /** A step moves only the thread that takes it. */
  lemma StepMovesOne(s: State, t: nat, a: Action)
    requires t < |s.threads| && Step(s, t, a) != []
    ensures var s' := Step(s, t, a)[0];
            && |Step(s, t, a)| == 1
            && |s'.threads| == |s.threads|
            && (forall u :: 0 <= u < |s.threads| && u != t ==> s'.threads[u] == s.threads[u])
  {
  }

  lemma LeadsLast(s: State, script: Script, s': State)
    requires Leads(s, script, s') && script != []
    ensures var (t, a) := script[|script| - 1];
            exists b :: Leads(s, script[..|script| - 1], b) && t < |b.threads| && Step(b, t, a) == [s']
  {
    var front := script[..|script| - 1];
    RunFromSize(s, front);
    var b := RunFrom(s, front)[0];
    assert Leads(s, front, b) by { assert RunFrom(s, front) == [b]; }
  }
}
