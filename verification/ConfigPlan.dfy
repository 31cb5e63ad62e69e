/** The service plan and what one configuration document merges into it. */
module ConfigPlan {
  import opened Options

  datatype Service = Service(name: string, kind: string, path: string, enabled: bool, model: string,
                             properties: map<string, string>)

  datatype Application = Application(name: string, modules: seq<string>, ioThreads: nat, workThreads: nat)

  datatype Plan = Plan(application: Application, services: seq<Service>, logging: bool)

  /** The fields of an application document that are present. */
  datatype AppData = AppData(name: Option<string>, modules: seq<string>, threads: Option<nat>, workThreads: Option<nat>)

  /** The fields of a service document that are present; its name is that of its
      `meta` part, or else its type. */
  datatype ServiceData = ServiceData(metaName: Option<string>, kind: string, path: Option<string>, enabled: Option<bool>,
                                     model: Option<string>, properties: map<string, string>)

  /** One change to the plan, or the opening of a file. */
  datatype Action =
    | Opened(file: string)
    | MergeApplication(app: AppData)
    | MergeService(service: ServiceData)
    | UseLogging

  function OrElse<T>(o: Option<T>, d: T): T {
    if o.Some? then o.value else d
  }

  function AppendUnique(target: seq<string>, source: seq<string>): seq<string>
    decreases |source|
  {
    if source == [] then target
    else AppendUnique(if source[0] in target then target else target + [source[0]], source[1..])
  }

  function MergeApp(a: Application, d: AppData): Application {
    Application(OrElse(d.name, a.name), AppendUnique(a.modules, d.modules),
                OrElse(d.threads, a.ioThreads), OrElse(d.workThreads, a.workThreads))
  }

  const NEW_SERVICE := Service("", "", "", true, "inherit", map[])

  function ServiceName(d: ServiceData): string {
    OrElse(d.metaName, d.kind)
  }

  function Updated(s: Service, d: ServiceData): Service {
    Service(s.name, if d.kind != "" then d.kind else s.kind, OrElse(d.path, s.path), OrElse(d.enabled, s.enabled),
            OrElse(d.model, s.model), s.properties + d.properties)
  }

  /** Updates the definition of a name, adding it at the end if there is none. */
  function UpsertService(ss: seq<Service>, name: string, d: ServiceData): seq<Service> {
    if ss == [] then [Updated(NEW_SERVICE.(name := name), d)]
    else if ss[0].name == name then [Updated(ss[0], d)] + ss[1..]
    else [ss[0]] + UpsertService(ss[1..], name, d)
  }

  function Perform(p: Plan, a: Action): Plan {
    match a
    case Opened(_) => p
    case MergeApplication(app) => p.(application := MergeApp(p.application, app))
    case MergeService(d) =>
      if ServiceName(d) == "" then p else p.(services := UpsertService(p.services, ServiceName(d), d))
    case UseLogging => p.(logging := true)
  }

  function PerformAll(p: Plan, actions: seq<Action>): Plan
    decreases |actions|
  {
    if actions == [] then p else PerformAll(Perform(p, actions[0]), actions[1..])
  }

  lemma {:induction false} PerformConcat(p: Plan, a: seq<Action>, b: seq<Action>)
    ensures PerformAll(p, a + b) == PerformAll(PerformAll(p, a), b)
    decreases |a|
  {
    if a == [] {
      assert a + b == b;
    } else {
      assert (a + b)[1..] == a[1..] + b;
      PerformConcat(Perform(p, a[0]), a[1..], b);
    }
  }

  // ---- names stay unique ----

  predicate NoRepeat(xs: seq<string>) {
    xs != [] ==> xs[0] !in xs[1..] && NoRepeat(xs[1..])
  }

  function NamesOf(ss: seq<Service>): (r: seq<string>)
    ensures |r| == |ss|
  {
    if ss == [] then [] else [ss[0].name] + NamesOf(ss[1..])
  }

  ghost predicate PlanOk(p: Plan) {
    NoRepeat(p.application.modules) && NoRepeat(NamesOf(p.services)) && "" !in NamesOf(p.services)
  }

  lemma {:induction false} NoRepeatSnoc(xs: seq<string>, x: string)
    requires NoRepeat(xs) && x !in xs
    ensures NoRepeat(xs + [x])
  {
    if xs == [] {
      assert xs + [x] == [x];
    } else {
      assert (xs + [x])[1..] == xs[1..] + [x];
      NoRepeatSnoc(xs[1..], x);
    }
  }

  /** Nothing is lost, nothing is repeated, and what was there keeps its place. */
  lemma {:induction false} AppendUniqueKeeps(target: seq<string>, source: seq<string>)
    requires NoRepeat(target)
    ensures NoRepeat(AppendUnique(target, source)) && target <= AppendUnique(target, source)
    ensures forall x :: x in AppendUnique(target, source) <==> x in target || x in source
    decreases |source|
  {
    if source != [] {
      var more := if source[0] in target then target else target + [source[0]];
      if source[0] !in target { NoRepeatSnoc(target, source[0]); }
      AppendUniqueKeeps(more, source[1..]);
      forall x ensures x in source <==> x == source[0] || x in source[1..] {
        if x in source && x != source[0] { var i :| 0 <= i < |source| && source[i] == x; assert source[1..][i - 1] == x; }
      }
    }
  }

  lemma {:induction false} UpsertNames(ss: seq<Service>, name: string, d: ServiceData)
    ensures NamesOf(UpsertService(ss, name, d)) == if name in NamesOf(ss) then NamesOf(ss) else NamesOf(ss) + [name]
  {
    if ss != [] {
      if ss[0].name != name {
        UpsertNames(ss[1..], name, d);
        assert name in NamesOf(ss) <==> name in NamesOf(ss[1..]);
      }
    }
  }

  /** Service names and modules stay unique in the plan, whatever is merged. */
  lemma PerformKeeps(p: Plan, a: Action)
    requires PlanOk(p)
    ensures PlanOk(Perform(p, a))
  {
    match a
    case MergeApplication(app) => AppendUniqueKeeps(p.application.modules, app.modules);
    case MergeService(d) =>
      var name := ServiceName(d);
      UpsertNames(p.services, name, d);
      if name !in NamesOf(p.services) { NoRepeatSnoc(NamesOf(p.services), name); }
    case _ =>
  }

  lemma {:induction false} PerformAllKeeps(p: Plan, actions: seq<Action>)
    requires PlanOk(p)
    ensures PlanOk(PerformAll(p, actions))
    decreases |actions|
  {
    if actions != [] {
      PerformKeeps(p, actions[0]);
      PerformAllKeeps(Perform(p, actions[0]), actions[1..]);
    }
  }
}
