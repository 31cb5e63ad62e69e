/** The recursive loaders, which change the plan and the set of files being loaded in
    place. */
module ConfigLoader {
  import opened ConfigGraph
  import opened ConfigLoad
  import opened ConfigOutcome
  import opened ConfigPlan
  import opened Options

  const EMPTY_PLAN := Plan(Application("", [], 2, 2), [], false)

  class Loader {
    const env: Env
    var configFile: string
    var plan: Plan
    var loadingFiles: set<string>

    constructor (env: Env)
      ensures this.env == env && plan == EMPTY_PLAN && loadingFiles == {}
    {
      this.env := env;
      configFile, plan, loadingFiles := "", EMPTY_PLAN, {};
    }

    /** A loader succeeds as `r` does, does what `r` lists, and leaves no file marked
        as being loaded. */
    twostate predicate Does(ok: bool, r: Load)
      reads this
    {
      ok == r.ok && plan == PerformAll(old(plan), r.actions) && loadingFiles == old(loadingFiles)
    }

    method PerformOne(a: Action)
      modifies this`plan
      ensures plan == PerformAll(old(plan), [a])
    {
      plan := Perform(plan, a);
      assert [a][1..] == [];
    }

    method LoadPlanFile(path: string) returns (ok: bool)
      modifies this`plan, this`loadingFiles
      ensures Does(ok, LoadFile(env, path, old(loadingFiles)))
      decreases |env.files.Keys - loadingFiles|, 1
    {
      var key := env.normalize(path);
      if key in loadingFiles { return false; }
      loadingFiles := loadingFiles + {key};
      if key !in env.files || env.files[key].Broken? {
        loadingFiles := loadingFiles - {key};
        return false;
      }
      Shrinks(env.files.Keys, old(loadingFiles), key);
      ghost var start := plan;
      PerformOne(Opened(key));
      ok := LoadPlanVariant(key, env.files[key].root);
      PerformConcat(start, [Opened(key)], LoadRoot(env, key, env.files[key].root, loadingFiles).actions);
      loadingFiles := loadingFiles - {key};
    }

    method LoadPlanFiles(paths: seq<string>) returns (ok: bool)
      modifies this`plan, this`loadingFiles
      ensures Does(ok, LoadFiles(env, paths, old(loadingFiles)))
      decreases |env.files.Keys - loadingFiles|, 2
    {
      ghost var loading := loadingFiles;
      ghost var all := LoadFiles(env, paths, loading);
      assert paths[0..] == paths;
      var i := 0;
      while i < |paths|
        invariant i <= |paths| && loadingFiles == loading
        invariant all.ok == LoadFiles(env, paths[i..], loading).ok
        invariant PerformAll(old(plan), all.actions) == PerformAll(plan, LoadFiles(env, paths[i..], loading).actions)
      {
        ghost var before := plan;
        assert paths[i..][1..] == paths[i + 1..];
        ok := LoadPlanFile(paths[i]);
        if !ok { return; }
        PerformConcat(before, LoadFile(env, paths[i], loading).actions, LoadFiles(env, paths[i + 1..], loading).actions);
        i := i + 1;
      }
      ok := true;
    }

    method LoadPlanVariant(source: string, root: Root) returns (ok: bool)
      modifies this`plan, this`loadingFiles
      ensures Does(ok, LoadRoot(env, source, root, old(loadingFiles)))
      decreases |env.files.Keys - loadingFiles|, 6, root
    {
      match root
      case Many(items) => ok := LoadAll(source, items);
      case One(item) =>
        if item.Dict? {
          ok := ProcessItem(source, item);
        } else {
          ok := false;
        }
      case Scalar => ok := false;
    }

    method LoadAll(source: string, items: seq<Item>) returns (ok: bool)
      modifies this`plan, this`loadingFiles
      ensures Does(ok, LoadItems(env, source, items, old(loadingFiles)))
      decreases |env.files.Keys - loadingFiles|, 5, items, 0
    {
      ghost var loading := loadingFiles;
      ghost var all := LoadItems(env, source, items, loading);
      assert items[0..] == items;
      var i := 0;
      while i < |items|
        invariant i <= |items| && loadingFiles == loading
        invariant all.ok == LoadItems(env, source, items[i..], loading).ok
        invariant PerformAll(old(plan), all.actions) == PerformAll(plan, LoadItems(env, source, items[i..], loading).actions)
      {
        ghost var before := plan;
        assert items[i..][1..] == items[i + 1..];
        ok := ProcessItem(source, items[i]);
        if !ok { return; }
        PerformConcat(before, LoadItem(env, source, items[i], loading).actions,
                      LoadItems(env, source, items[i + 1..], loading).actions);
        i := i + 1;
      }
      ok := true;
    }

    method ProcessItem(source: string, item: Item) returns (ok: bool)
      modifies this`plan, this`loadingFiles
      ensures Does(ok, LoadItem(env, source, item, old(loadingFiles)))
      decreases |env.files.Keys - loadingFiles|, 5, item, 0
    {
      match item
      case NotDict => ok := true;
      case Dict(doc) => ok := ProcessDoc(source, doc);
    }

    method ProcessDoc(source: string, doc: Doc) returns (ok: bool)
      modifies this`plan, this`loadingFiles
      ensures Does(ok, LoadDoc(env, source, doc, old(loadingFiles)))
      decreases |env.files.Keys - loadingFiles|, 5, doc, 1
    {
      if IsManifest(doc) {
        ok := LoadManifestDict(source, doc);
      } else if KindOf(doc) == "Application" {
        PerformOne(MergeApplication(doc.app));
        ok := true;
      } else if KindOf(doc) == "Service" {
        PerformOne(MergeService(doc.service));
        ok := true;
      } else if KindOf(doc) == "Logging" {
        PerformOne(UseLogging);
        ok := doc.asLogging;
      } else {
        ok := true;
      }
    }

    method LoadManifestDict(source: string, doc: Doc) returns (ok: bool)
      modifies this`plan, this`loadingFiles
      ensures Does(ok, LoadManifest(env, source, doc, old(loadingFiles)))
      decreases |env.files.Keys - loadingFiles|, 5, doc, 0
    {
      ghost var p0, loading := plan, loadingFiles;
      ghost var dirs := LoadDirs(env, Resolved(env, source, ListOf(doc.dirs)), loading);
      ghost var services := if doc.services.Services? then LoadServices(env, source, doc.services.items, loading)
                            else Load(true, []);
      ghost var own := LoadLogging(doc);
      ghost var app := Do(MergeApplication(doc.app));
      ghost var imports := LoadFiles(env, Resolved(env, source, ListOf(doc.imports)), loading);
      InTurn(p0, imports, Then(app, Then(own, Then(services, dirs))));
      ok := LoadPlanFiles(Resolved(env, source, ListOf(doc.imports)));
      if !ok { return; }
      InTurn(plan, app, Then(own, Then(services, dirs)));
      PerformOne(MergeApplication(doc.app));
      InTurn(plan, own, Then(services, dirs));
      if doc.logging.Some? {
        PerformOne(UseLogging);
        if !doc.logging.value { return false; }
      }
      InTurn(plan, services, dirs);
      if doc.services.Services? {
        ok := LoadServiceList(source, doc.services.items);
        if !ok { return; }
      }
      ok := LoadServiceDirs(Resolved(env, source, ListOf(doc.dirs)));
    }

    /** One entry after another; an entry without a kind is made a service. */
    method LoadServiceList(source: string, items: seq<Item>) returns (ok: bool)
      modifies this`plan, this`loadingFiles
      ensures Does(ok, LoadServices(env, source, items, old(loadingFiles)))
      decreases |env.files.Keys - loadingFiles|, 5, items, 0
    {
      ghost var loading := loadingFiles;
      ghost var all := LoadServices(env, source, items, loading);
      assert items[0..] == items;
      var i := 0;
      while i < |items|
        invariant i <= |items| && loadingFiles == loading
        invariant all.ok == LoadServices(env, source, items[i..], loading).ok
        invariant PerformAll(old(plan), all.actions) == PerformAll(plan, LoadServices(env, source, items[i..], loading).actions)
      {
        ghost var before := plan;
        assert items[i..][1..] == items[i + 1..];
        ok := LoadOneService(source, items[i]);
        if !ok { return; }
        PerformConcat(before, LoadService(env, source, items[i], loading).actions,
                      LoadServices(env, source, items[i + 1..], loading).actions);
        i := i + 1;
      }
      ok := true;
    }

    method LoadOneService(source: string, item: Item) returns (ok: bool)
      modifies this`plan, this`loadingFiles
      ensures Does(ok, LoadService(env, source, item, old(loadingFiles)))
      decreases |env.files.Keys - loadingFiles|, 5, item, 0
    {
      match item
      case NotDict => ok := true;
      case Dict(doc) =>
        if doc.kind.None? {
          PerformOne(MergeService(doc.service));
          ok := true;
        } else {
          ok := ProcessDoc(source, doc);
        }
    }

    method LoadServiceDirs(dirs: seq<string>) returns (ok: bool)
      modifies this`plan, this`loadingFiles
      ensures Does(ok, LoadDirs(env, dirs, old(loadingFiles)))
      decreases |env.files.Keys - loadingFiles|, 4
    {
      ghost var loading := loadingFiles;
      ghost var all := LoadDirs(env, dirs, loading);
      assert dirs[0..] == dirs;
      var i := 0;
      while i < |dirs|
        invariant i <= |dirs| && loadingFiles == loading
        invariant all.ok == LoadDirs(env, dirs[i..], loading).ok
        invariant PerformAll(old(plan), all.actions) == PerformAll(plan, LoadDirs(env, dirs[i..], loading).actions)
      {
        ghost var before := plan;
        assert dirs[i..][1..] == dirs[i + 1..];
        if dirs[i] !in env.dirs { return false; }
        ok := LoadPlanFiles(env.dirs[dirs[i]]);
        if !ok { return; }
        PerformConcat(before, LoadDir(env, dirs[i], loading).actions, LoadDirs(env, dirs[i + 1..], loading).actions);
        i := i + 1;
      }
      ok := true;
    }

    /** The configuration file of the command line. It may be missing, unless it was
        asked for explicitly. On success every file that its references lead to is sound
        and merged, none leads back to itself, and names in the plan are unique. */
    method LoadConfig(path: string, explicit: bool) returns (ok: bool)
      requires plan == EMPTY_PLAN && loadingFiles == {}
      modifies this
      ensures configFile == path && loadingFiles == {} && PlanOk(plan)
      ensures ok <==> if env.normalize(path) in env.files then
                        forall p :: PathFrom(env, env.normalize(path), p) ==> Clean(env, p, {})
                      else !explicit
      ensures plan == PerformAll(EMPTY_PLAN, LoadKey(env, env.normalize(path), {}).actions)
      ensures ok && env.normalize(path) in env.files ==>
                forall g :: Reaches(env, env.normalize(path), g) ==>
                       LoadedWithin(env, g, LoadKey(env, env.normalize(path), {}).actions)
    {
      var key := env.normalize(path);
      configFile := path;
      PerformAllKeeps(EMPTY_PLAN, LoadKey(env, key, {}).actions);
      if key !in env.files { return !explicit; }
      ok := LoadPlanFile(path);
      LoadsIff(env, key, {});
      if ok {
        forall g | Reaches(env, key, g) ensures LoadedWithin(env, g, LoadKey(env, key, {}).actions) {
          ReachedIffOpened(env, key, g);
        }
      }
    }
  }

  lemma InTurn(p: Plan, a: Load, b: Load)
    ensures PerformAll(p, Then(a, b).actions)
         == if a.ok then PerformAll(PerformAll(p, a.actions), b.actions) else PerformAll(p, a.actions)
  {
    PerformConcat(p, a.actions, b.actions);
  }
}
