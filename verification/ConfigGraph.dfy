/** Loading succeeds exactly on an acyclic graph of sound files, and then loads each
    file that can be reached. */
module ConfigGraph {
  import opened ConfigLoad
  import opened ConfigPlan
  import opened Options

  // ---- what a document refers to, and whether it is sound in itself ----

  function DirFiles(env: Env, dirs: seq<string>): seq<string> {
    if dirs == [] then []
    else (if dirs[0] in env.dirs then env.dirs[dirs[0]] else []) + DirFiles(env, dirs[1..])
  }

  predicate DirsExist(env: Env, dirs: seq<string>) {
    dirs != [] ==> dirs[0] in env.dirs && DirsExist(env, dirs[1..])
  }

  /** The files a document names, in the order they are loaded: imports, what its
      services name, and the files of its service directories. */
  function RefsOfDoc(env: Env, source: string, doc: Doc): seq<string>
    decreases doc, 1
  {
    if IsManifest(doc) then
      Resolved(env, source, ListOf(doc.imports))
      + ((if doc.services.Services? then RefsOfServices(env, source, doc.services.items) else [])
         + DirFiles(env, Resolved(env, source, ListOf(doc.dirs))))
    else []
  }

  function RefsOfItem(env: Env, source: string, item: Item): seq<string>
    decreases item, 0
  {
    if item.Dict? then RefsOfDoc(env, source, item.doc) else []
  }

  function RefsOfItems(env: Env, source: string, items: seq<Item>): seq<string>
    decreases items, 0
  {
    if items == [] then [] else RefsOfItem(env, source, items[0]) + RefsOfItems(env, source, items[1..])
  }

  /** An entry of a manifest's services without a kind is a service, whatever else it
      holds. */
  function RefsOfService(env: Env, source: string, item: Item): seq<string>
    decreases item, 0
  {
    if item.Dict? && item.doc.kind.Some? then RefsOfDoc(env, source, item.doc) else []
  }

  function RefsOfServices(env: Env, source: string, items: seq<Item>): seq<string>
    decreases items, 0
  {
    if items == [] then [] else RefsOfService(env, source, items[0]) + RefsOfServices(env, source, items[1..])
  }

  predicate SoundDoc(env: Env, source: string, doc: Doc)
    decreases doc, 1
  {
    if IsManifest(doc) then
      && (doc.logging.Some? ==> doc.logging.value)
      && (doc.services.Services? ==> SoundServices(env, source, doc.services.items))
      && DirsExist(env, Resolved(env, source, ListOf(doc.dirs)))
    else KindOf(doc) == "Logging" ==> doc.asLogging
  }

  predicate SoundItem(env: Env, source: string, item: Item)
    decreases item, 0
  {
    item.Dict? ==> SoundDoc(env, source, item.doc)
  }

  predicate SoundItems(env: Env, source: string, items: seq<Item>)
    decreases items, 0
  {
    items != [] ==> SoundItem(env, source, items[0]) && SoundItems(env, source, items[1..])
  }

  predicate SoundServices(env: Env, source: string, items: seq<Item>)
    decreases items, 0
  {
    items != [] ==> SoundService(env, source, items[0]) && SoundServices(env, source, items[1..])
  }

  predicate SoundService(env: Env, source: string, item: Item)
    decreases item, 0
  {
    item.Dict? && item.doc.kind.Some? ==> SoundDoc(env, source, item.doc)
  }

  function RefsOfRoot(env: Env, source: string, root: Root): seq<string> {
    match root
    case Many(items) => RefsOfItems(env, source, items)
    case One(item) => RefsOfItem(env, source, item)
    case Scalar => []
  }

  predicate SoundRoot(env: Env, source: string, root: Root) {
    match root
    case Many(items) => SoundItems(env, source, items)
    case One(item) => item.Dict? && SoundItem(env, source, item)
    case Scalar => false
  }

  /** A file that exists, decodes, and holds nothing that fails by itself. */
  predicate Sound(env: Env, key: string) {
    key in env.files && env.files[key].Parsed? && SoundRoot(env, key, env.files[key].root)
  }

  function Refs(env: Env, key: string): seq<string> {
    if key in env.files && env.files[key].Parsed? then RefsOfRoot(env, key, env.files[key].root) else []
  }

  // ---- a loader follows the references ----

  function OpensOf(actions: seq<Action>): seq<string> {
    if actions == [] then []
    else (if actions[0].Opened? then [actions[0].file] else []) + OpensOf(actions[1..])
  }

  lemma {:induction false} OpensConcat(a: seq<Action>, b: seq<Action>)
    ensures OpensOf(a + b) == OpensOf(a) + OpensOf(b)
  {
    if a == [] {
      assert a + b == b;
    } else {
      assert (a + b)[1..] == a[1..] + b;
      OpensConcat(a[1..], b);
    }
  }

  ghost predicate Within(part: seq<Action>, whole: seq<Action>) {
    exists pre, post :: Between(pre, part, post, whole)
  }

  ghost predicate Between(pre: seq<Action>, part: seq<Action>, post: seq<Action>, whole: seq<Action>) {
    whole == pre + part + post
  }

  lemma WithinLeft(part: seq<Action>, a: seq<Action>, b: seq<Action>)
    requires Within(part, a)
    ensures Within(part, a + b)
  {
    var pre, post :| Between(pre, part, post, a);
    assert Between(pre, part, post + b, a + b);
  }

  lemma WithinRight(part: seq<Action>, a: seq<Action>, b: seq<Action>)
    requires Within(part, b)
    ensures Within(part, a + b)
  {
    var pre, post :| Between(pre, part, post, b);
    assert Between(a + pre, part, post, a + b);
  }

  lemma WithinSelf(a: seq<Action>)
    ensures Within(a, a)
  {
    assert Between([], a, [], a);
  }

  lemma WithinWithin(a: seq<Action>, b: seq<Action>, c: seq<Action>)
    requires Within(a, b) && Within(b, c)
    ensures Within(a, c)
  {
    var pre, post :| Between(pre, a, post, b);
    var front, back :| Between(front, b, back, c);
    assert Between(front + pre, a, post + back, c);
  }

  /** `r` succeeds exactly if what it does itself is sound and all of `refs` load; it
      then opens the files that they open, and does all that they do. */
  ghost predicate Follows(env: Env, r: Load, sound: bool, refs: seq<string>, loading: set<string>) {
    var files := LoadFiles(env, refs, loading);
    && (r.ok <==> sound && files.ok)
    && (r.ok ==> OpensOf(r.actions) == OpensOf(files.actions))
    && (r.ok ==> forall ref :: ref in refs ==> Within(LoadFile(env, ref, loading).actions, r.actions))
  }

  lemma FollowsNothing(env: Env, r: Load, loading: set<string>)
    requires OpensOf(r.actions) == []
    ensures Follows(env, r, r.ok, [], loading)
  {
  }

  lemma {:induction false} FilesConcat(env: Env, a: seq<string>, b: seq<string>, loading: set<string>)
    ensures LoadFiles(env, a + b, loading) == Then(LoadFiles(env, a, loading), LoadFiles(env, b, loading))
    decreases |a|
  {
    if a == [] {
      assert a + b == b;
      assert [] + LoadFiles(env, b, loading).actions == LoadFiles(env, b, loading).actions;
    } else {
      assert (a + b)[0] == a[0] && (a + b)[1..] == a[1..] + b;
      FilesConcat(env, a[1..], b, loading);
      ThenInTurn(LoadFile(env, a[0], loading), LoadFiles(env, a[1..], loading), LoadFiles(env, b, loading));
    }
  }

  lemma ThenInTurn(a: Load, b: Load, c: Load)
    ensures Then(Then(a, b), c) == Then(a, Then(b, c))
  {
  }

  lemma FollowsThen(env: Env, a: Load, sa: bool, ra: seq<string>, b: Load, sb: bool, rb: seq<string>, loading: set<string>)
    requires Follows(env, a, sa, ra, loading) && Follows(env, b, sb, rb, loading)
    ensures Follows(env, Then(a, b), sa && sb, ra + rb, loading)
  {
    FilesConcat(env, ra, rb, loading);
    OpensConcat(a.actions, b.actions);
    OpensConcat(LoadFiles(env, ra, loading).actions, LoadFiles(env, rb, loading).actions);
    if Then(a, b).ok {
      forall ref | ref in ra + rb ensures Within(LoadFile(env, ref, loading).actions, a.actions + b.actions) {
        if ref in ra {
          WithinLeft(LoadFile(env, ref, loading).actions, a.actions, b.actions);
        } else {
          WithinRight(LoadFile(env, ref, loading).actions, a.actions, b.actions);
        }
      }
    }
  }

  lemma {:induction false} FilesFollow(env: Env, paths: seq<string>, loading: set<string>)
    ensures Follows(env, LoadFiles(env, paths, loading), true, paths, loading)
    decreases |paths|
  {
    var r := LoadFiles(env, paths, loading);
    if paths != [] && r.ok {
      var first, rest := LoadFile(env, paths[0], loading), LoadFiles(env, paths[1..], loading);
      FilesFollow(env, paths[1..], loading);
      forall ref | ref in paths ensures Within(LoadFile(env, ref, loading).actions, r.actions) {
        if ref == paths[0] {
          WithinSelf(first.actions);
          WithinLeft(first.actions, first.actions, rest.actions);
        } else {
          assert ref in paths[1..];
          WithinRight(LoadFile(env, ref, loading).actions, first.actions, rest.actions);
        }
      }
    }
  }

  lemma {:induction false} DirsFollow(env: Env, dirs: seq<string>, loading: set<string>)
    ensures Follows(env, LoadDirs(env, dirs, loading), DirsExist(env, dirs), DirFiles(env, dirs), loading)
    decreases |dirs|
  {
    if dirs == [] {
      FollowsNothing(env, Load(true, []), loading);
    } else {
      var files := if dirs[0] in env.dirs then env.dirs[dirs[0]] else [];
      FilesFollow(env, files, loading);
      DirsFollow(env, dirs[1..], loading);
      FollowsThen(env, LoadDir(env, dirs[0], loading), dirs[0] in env.dirs, files,
                  LoadDirs(env, dirs[1..], loading), DirsExist(env, dirs[1..]), DirFiles(env, dirs[1..]), loading);
    }
  }

  lemma {:induction false} DocFollows(env: Env, source: string, doc: Doc, loading: set<string>)
    ensures Follows(env, LoadDoc(env, source, doc, loading), SoundDoc(env, source, doc), RefsOfDoc(env, source, doc), loading)
    decreases doc, 1
  {
    if IsManifest(doc) {
      ManifestFollows(env, source, doc, loading);
    } else {
      assert OpensOf([]) == [];
      FollowsNothing(env, LoadDoc(env, source, doc, loading), loading);
    }
  }

  lemma {:induction false} ManifestFollows(env: Env, source: string, doc: Doc, loading: set<string>)
    requires IsManifest(doc)
    ensures Follows(env, LoadManifest(env, source, doc, loading), SoundDoc(env, source, doc), RefsOfDoc(env, source, doc),
                    loading)
    decreases doc, 0
  {
    var imports, dirs := Resolved(env, source, ListOf(doc.imports)), Resolved(env, source, ListOf(doc.dirs));
    var services := if doc.services.Services? then LoadServices(env, source, doc.services.items, loading) else Load(true, []);
    var soundServices := doc.services.Services? ==> SoundServices(env, source, doc.services.items);
    var named := if doc.services.Services? then RefsOfServices(env, source, doc.services.items) else [];
    var fromDirs, loadDirs := DirFiles(env, dirs), LoadDirs(env, dirs, loading);
    FilesFollow(env, imports, loading);
    DirsFollow(env, dirs, loading);
    assert OpensOf([]) == [];
    if doc.services.Services? {
      ServicesFollow(env, source, doc.services.items, loading);
    } else {
      FollowsNothing(env, services, loading);
    }
    FollowsThen(env, services, soundServices, named, loadDirs, DirsExist(env, dirs), fromDirs, loading);
    var own := Then(Do(MergeApplication(doc.app)), LoadLogging(doc));
    OwnFollows(env, doc, loading);
    var rest := Then(services, loadDirs);
    FollowsThen(env, own, doc.logging.Some? ==> doc.logging.value, [], rest, soundServices && DirsExist(env, dirs),
                named + fromDirs, loading);
    assert [] + (named + fromDirs) == named + fromDirs;
    ThenInTurn(Do(MergeApplication(doc.app)), LoadLogging(doc), rest);
    FollowsThen(env, LoadFiles(env, imports, loading), true, imports, Then(own, rest), SoundDoc(env, source, doc),
                named + fromDirs, loading);
  }

  lemma OwnFollows(env: Env, doc: Doc, loading: set<string>)
    ensures Follows(env, Then(Do(MergeApplication(doc.app)), LoadLogging(doc)), doc.logging.Some? ==> doc.logging.value, [],
                    loading)
  {
    var own := Then(Do(MergeApplication(doc.app)), LoadLogging(doc));
    OpensConcat([MergeApplication(doc.app)], LoadLogging(doc).actions);
    assert OpensOf([]) == [] && OpensOf([UseLogging]) == [];
    assert OpensOf([MergeApplication(doc.app)]) == [];
    FollowsNothing(env, own, loading);
  }

  lemma {:induction false} ServicesFollow(env: Env, source: string, items: seq<Item>, loading: set<string>)
    ensures Follows(env, LoadServices(env, source, items, loading), SoundServices(env, source, items),
                    RefsOfServices(env, source, items), loading)
    decreases items, 0
  {
    if items == [] {
      FollowsNothing(env, Load(true, []), loading);
    } else {
      ServiceFollows(env, source, items[0], loading);
      ServicesFollow(env, source, items[1..], loading);
      FollowsThen(env, LoadService(env, source, items[0], loading), SoundService(env, source, items[0]),
                  RefsOfService(env, source, items[0]), LoadServices(env, source, items[1..], loading),
                  SoundServices(env, source, items[1..]), RefsOfServices(env, source, items[1..]), loading);
    }
  }

  lemma {:induction false} ServiceFollows(env: Env, source: string, item: Item, loading: set<string>)
    ensures Follows(env, LoadService(env, source, item, loading), SoundService(env, source, item),
                    RefsOfService(env, source, item), loading)
    decreases item, 0
  {
    if item.Dict? && item.doc.kind.Some? {
      DocFollows(env, source, item.doc, loading);
    } else {
      assert OpensOf([]) == [];
      FollowsNothing(env, LoadService(env, source, item, loading), loading);
    }
  }

  lemma ItemFollows(env: Env, source: string, item: Item, loading: set<string>)
    ensures Follows(env, LoadItem(env, source, item, loading), SoundItem(env, source, item), RefsOfItem(env, source, item),
                    loading)
  {
    if item.Dict? { DocFollows(env, source, item.doc, loading); } else { FollowsNothing(env, Load(true, []), loading); }
  }

  lemma {:induction false} ItemsFollow(env: Env, source: string, items: seq<Item>, loading: set<string>)
    ensures Follows(env, LoadItems(env, source, items, loading), SoundItems(env, source, items),
                    RefsOfItems(env, source, items), loading)
    decreases |items|
  {
    if items == [] {
      FollowsNothing(env, Load(true, []), loading);
    } else {
      ItemFollows(env, source, items[0], loading);
      ItemsFollow(env, source, items[1..], loading);
      FollowsThen(env, LoadItem(env, source, items[0], loading), SoundItem(env, source, items[0]),
                  RefsOfItem(env, source, items[0]), LoadItems(env, source, items[1..], loading),
                  SoundItems(env, source, items[1..]), RefsOfItems(env, source, items[1..]), loading);
    }
  }

  lemma RootFollows(env: Env, source: string, root: Root, loading: set<string>)
    ensures Follows(env, LoadRoot(env, source, root, loading), SoundRoot(env, source, root), RefsOfRoot(env, source, root),
                    loading)
  {
    match root
    case Many(items) => ItemsFollow(env, source, items, loading);
    case One(item) =>
      if item.Dict? {
        ItemFollows(env, source, item, loading);
      } else {
        FollowsNothing(env, Load(false, []), loading);
      }
    case Scalar => FollowsNothing(env, Load(false, []), loading);
  }
}
