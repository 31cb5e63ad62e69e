/** Loading a configuration file with everything it imports, and when that succeeds. */
module ConfigLoad {
  import opened ConfigPlan
  import opened Options

  /** The parts of a document; a part that is absent is `None`. `logging` and
      `asLogging` say whether the logging settings found there, or in the document as
      a whole, are accepted. */
  datatype Doc = Doc(kind: Option<string>, imports: Option<seq<string>>, dirs: Option<seq<string>>,
                     services: Services, logging: Option<bool>, asLogging: bool,
                     app: AppData, service: ServiceData)

  datatype Services = NoServices | Services(items: seq<Item>)

  datatype Item = NotDict | Dict(doc: Doc)

  datatype Root = Many(items: seq<Item>) | One(item: Item) | Scalar

  /** A file that cannot be opened or decoded is broken. */
  datatype File = Broken | Parsed(root: Root)

  /** The existing files, the existing directories with their `.json` files in order,
      and how paths are normalised and resolved against the file that mentions them. */
  datatype Env = Env(files: map<string, File>, dirs: map<string, seq<string>>,
                     normalize: string -> string, resolve: (string, string) -> string)

  datatype Load = Load(ok: bool, actions: seq<Action>)

  /** What `a` does, and then, if it succeeded, what `b` does. */
  function Then(a: Load, b: Load): Load {
    if a.ok then Load(b.ok, a.actions + b.actions) else a
  }

  function Do(action: Action): Load {
    Load(true, [action])
  }

  function ListOf<T>(o: Option<seq<T>>): seq<T> {
    if o.Some? then o.value else []
  }

  function KindOf(doc: Doc): string {
    OrElse(doc.kind, "")
  }

  predicate IsManifest(doc: Doc) {
    || KindOf(doc) == "ApplicationManifest"
    || (KindOf(doc) == "" && (doc.imports.Some? || doc.dirs.Some? || doc.services.Services?))
  }

  // ---- the loaders ----

  function LoadFile(env: Env, path: string, loading: set<string>): Load
    decreases |env.files.Keys - loading|, 1
  {
    LoadKey(env, env.normalize(path), loading)
  }

  /** A file being loaded is not loaded again. */
  function LoadKey(env: Env, key: string, loading: set<string>): Load
    decreases |env.files.Keys - loading|, 0
  {
    if key in loading || key !in env.files || env.files[key].Broken? then Load(false, [])
    else
      Shrinks(env.files.Keys, loading, key);
      Then(Do(Opened(key)), LoadRoot(env, key, env.files[key].root, loading + {key}))
  }

  lemma Shrinks(all: set<string>, loading: set<string>, key: string)
    requires key in all && key !in loading
    ensures |all - (loading + {key})| < |all - loading|
  {
    assert all - (loading + {key}) == (all - loading) - {key};
  }

  function LoadFiles(env: Env, paths: seq<string>, loading: set<string>): Load
    decreases |env.files.Keys - loading|, 2, paths
  {
    if paths == [] then Load(true, [])
    else Then(LoadFile(env, paths[0], loading), LoadFiles(env, paths[1..], loading))
  }

  function LoadRoot(env: Env, source: string, root: Root, loading: set<string>): Load
    decreases |env.files.Keys - loading|, 6, root
  {
    match root
    case Many(items) => LoadItems(env, source, items, loading)
    case One(item) => if item.Dict? then LoadItem(env, source, item, loading) else Load(false, [])
    case Scalar => Load(false, [])
  }

  function LoadItems(env: Env, source: string, items: seq<Item>, loading: set<string>): Load
    decreases |env.files.Keys - loading|, 5, items, 0
  {
    if items == [] then Load(true, [])
    else Then(LoadItem(env, source, items[0], loading), LoadItems(env, source, items[1..], loading))
  }

  function LoadItem(env: Env, source: string, item: Item, loading: set<string>): Load
    decreases |env.files.Keys - loading|, 5, item, 0
  {
    match item
    case NotDict => Load(true, [])
    case Dict(doc) => LoadDoc(env, source, doc, loading)
  }

  function LoadDoc(env: Env, source: string, doc: Doc, loading: set<string>): Load
    decreases |env.files.Keys - loading|, 5, doc, 1
  {
    if IsManifest(doc) then LoadManifest(env, source, doc, loading)
    else if KindOf(doc) == "Application" then Do(MergeApplication(doc.app))
    else if KindOf(doc) == "Service" then Do(MergeService(doc.service))
    else if KindOf(doc) == "Logging" then Load(doc.asLogging, [UseLogging])
    else Load(true, [])
  }

  function LoadLogging(doc: Doc): Load {
    if doc.logging.None? then Load(true, []) else Load(doc.logging.value, [UseLogging])
  }

  function Resolved(env: Env, source: string, paths: seq<string>): (r: seq<string>)
    ensures |r| == |paths|
  {
    if paths == [] then [] else [env.resolve(source, paths[0])] + Resolved(env, source, paths[1..])
  }

  function LoadManifest(env: Env, source: string, doc: Doc, loading: set<string>): Load
    decreases |env.files.Keys - loading|, 5, doc, 0
  {
    Then(LoadFiles(env, Resolved(env, source, ListOf(doc.imports)), loading),
      Then(Do(MergeApplication(doc.app)),
        Then(LoadLogging(doc),
          Then(if doc.services.Services? then LoadServices(env, source, doc.services.items, loading) else Load(true, []),
            LoadDirs(env, Resolved(env, source, ListOf(doc.dirs)), loading)))))
  }

  /** Entries that are no dictionaries are skipped. */
  function LoadServices(env: Env, source: string, items: seq<Item>, loading: set<string>): Load
    decreases |env.files.Keys - loading|, 5, items, 0
  {
    if items == [] then Load(true, [])
    else Then(LoadService(env, source, items[0], loading), LoadServices(env, source, items[1..], loading))
  }

  function LoadService(env: Env, source: string, item: Item, loading: set<string>): Load
    decreases |env.files.Keys - loading|, 5, item, 0
  {
    match item
    case NotDict => Load(true, [])
    case Dict(doc) => if doc.kind.None? then Do(MergeService(doc.service)) else LoadDoc(env, source, doc, loading)
  }

  function LoadDirs(env: Env, dirs: seq<string>, loading: set<string>): Load
    decreases |env.files.Keys - loading|, 4, dirs
  {
    if dirs == [] then Load(true, [])
    else Then(LoadDir(env, dirs[0], loading), LoadDirs(env, dirs[1..], loading))
  }

  function LoadDir(env: Env, dir: string, loading: set<string>): Load
    decreases |env.files.Keys - loading|, 3
  {
    if dir !in env.dirs then Load(false, []) else LoadFiles(env, env.dirs[dir], loading)
  }
}
