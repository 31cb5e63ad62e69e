/** What loading the root file says about everything that can be reached from it. */
module ConfigOutcome {
  import opened ConfigPlan
  import opened ConfigLoad
  import opened ConfigGraph

  // ---- one file in terms of the files it refers to ----

  ghost predicate AllLoad(env: Env, refs: seq<string>, loading: set<string>) {
    forall ref :: ref in refs ==> LoadFile(env, ref, loading).ok
  }

  lemma {:induction false} FilesAllLoad(env: Env, refs: seq<string>, loading: set<string>)
    ensures LoadFiles(env, refs, loading).ok <==> AllLoad(env, refs, loading)
    decreases |refs|
  {
    if refs != [] { FilesAllLoad(env, refs[1..], loading); }
  }

  lemma KeyLoadsIff(env: Env, key: string, loading: set<string>)
    ensures LoadKey(env, key, loading).ok <==>
            key !in loading && Sound(env, key) && AllLoad(env, Refs(env, key), loading + {key})
  {
    if key !in loading && key in env.files && env.files[key].Parsed? {
      RootFollows(env, key, env.files[key].root, loading + {key});
      FilesAllLoad(env, Refs(env, key), loading + {key});
    }
  }

  // ---- paths of references ----

  ghost predicate Edge(env: Env, k: string, l: string) {
    exists ref :: ref in Refs(env, k) && env.normalize(ref) == l
  }

  ghost predicate IsPath(env: Env, p: seq<string>) {
    p != [] && (|p| > 1 ==> Edge(env, p[0], p[1]) && IsPath(env, p[1..]))
  }

  ghost predicate PathFrom(env: Env, key: string, p: seq<string>) {
    IsPath(env, p) && p[0] == key
  }

  /** All its files are sound, none of them is being loaded, and none occurs twice. */
  ghost predicate Clean(env: Env, p: seq<string>, loading: set<string>) {
    p != [] ==> p[0] !in loading && Sound(env, p[0]) && Clean(env, p[1..], loading + {p[0]})
  }

  lemma {:induction false} LoadedPathIsClean(env: Env, key: string, loading: set<string>, p: seq<string>)
    requires LoadKey(env, key, loading).ok && PathFrom(env, key, p)
    ensures Clean(env, p, loading)
    decreases |p|
  {
    KeyLoadsIff(env, key, loading);
    if |p| > 1 {
      var ref :| ref in Refs(env, key) && env.normalize(ref) == p[1];
      assert LoadFile(env, ref, loading + {key}).ok;
      LoadedPathIsClean(env, p[1], loading + {key}, p[1..]);
    }
  }

  lemma {:induction false} CleanPathsLoad(env: Env, key: string, loading: set<string>)
    requires forall p :: PathFrom(env, key, p) ==> Clean(env, p, loading)
    ensures LoadKey(env, key, loading).ok
    decreases |env.files.Keys - loading|
  {
    assert PathFrom(env, key, [key]);
    assert Clean(env, [key], loading);
    Shrinks(env.files.Keys, loading, key);
    forall ref | ref in Refs(env, key) ensures LoadFile(env, ref, loading + {key}).ok {
      var l := env.normalize(ref);
      assert Edge(env, key, l);
      forall q | PathFrom(env, l, q) ensures Clean(env, q, loading + {key}) {
        var p := [key] + q;
        assert p[1..] == q;
        assert PathFrom(env, key, p);
      }
      CleanPathsLoad(env, l, loading + {key});
    }
    KeyLoadsIff(env, key, loading);
  }

  /** A file loads if and only if every path of references from it is clean: the
      files on it are sound, and no file comes back on the way. */
  lemma LoadsIff(env: Env, key: string, loading: set<string>)
    ensures LoadKey(env, key, loading).ok <==> forall p :: PathFrom(env, key, p) ==> Clean(env, p, loading)
  {
    if LoadKey(env, key, loading).ok {
      forall p | PathFrom(env, key, p) ensures Clean(env, p, loading) { LoadedPathIsClean(env, key, loading, p); }
    } else if forall p :: PathFrom(env, key, p) ==> Clean(env, p, loading) {
      CleanPathsLoad(env, key, loading);
    }
  }

  lemma {:induction false} CleanPath(env: Env, p: seq<string>, loading: set<string>)
    requires Clean(env, p, loading)
    ensures NoRepeat(p) && forall i :: 0 <= i < |p| ==> p[i] !in loading && Sound(env, p[i])
    decreases |p|
  {
    if p != [] {
      CleanPath(env, p[1..], loading + {p[0]});
      forall i | 0 <= i < |p| ensures p[i] !in loading && Sound(env, p[i]) {
        if i > 0 { assert p[i] == p[1..][i - 1]; }
      }
    }
  }

  ghost predicate Reaches(env: Env, key: string, g: string) {
    exists p :: PathFrom(env, key, p) && p[|p| - 1] == g
  }

  lemma EdgeReaches(env: Env, key: string, l: string, g: string)
    requires Edge(env, key, l) && Reaches(env, l, g)
    ensures Reaches(env, key, g)
  {
    var q :| PathFrom(env, l, q) && q[|q| - 1] == g;
    var p := [key] + q;
    assert p[1..] == q;
    assert PathFrom(env, key, p) && p[|p| - 1] == g;
  }

  /** No file that can be reached leads back to itself. */
  lemma LoadedIsAcyclic(env: Env, key: string, p: seq<string>, i: nat, j: nat)
    requires LoadKey(env, key, {}).ok && PathFrom(env, key, p) && i < j < |p|
    ensures p[i] != p[j] && Sound(env, p[i]) && Sound(env, p[j])
  {
    LoadedPathIsClean(env, key, {}, p);
    CleanPath(env, p, {});
    NoRepeatAt(p, i, j);
  }

  lemma {:induction false} NoRepeatAt(xs: seq<string>, i: nat, j: nat)
    requires NoRepeat(xs) && i < j < |xs|
    ensures xs[i] != xs[j]
  {
    if i == 0 { assert xs[j] == xs[1..][j - 1]; } else { NoRepeatAt(xs[1..], i - 1, j - 1); }
  }

  // ---- every file that can be reached is loaded ----

  /** What loading `g` does after opening it. */
  ghost predicate LoadedWithin(env: Env, g: string, actions: seq<Action>) {
    exists loading :: LoadKey(env, g, loading).ok && Within(LoadKey(env, g, loading).actions, actions)
  }

  lemma {:induction false} ReachedIsLoaded(env: Env, key: string, loading: set<string>, p: seq<string>)
    requires LoadKey(env, key, loading).ok && PathFrom(env, key, p)
    ensures LoadedWithin(env, p[|p| - 1], LoadKey(env, key, loading).actions)
    decreases |p|
  {
    var actions := LoadKey(env, key, loading).actions;
    if |p| == 1 {
      WithinSelf(actions);
    } else {
      KeyLoadsIff(env, key, loading);
      var ref :| ref in Refs(env, key) && env.normalize(ref) == p[1];
      var more := loading + {key};
      ReachedIsLoaded(env, p[1], more, p[1..]);
      var root := LoadRoot(env, key, env.files[key].root, more);
      RootFollows(env, key, env.files[key].root, more);
      WithinRight(LoadKey(env, p[1], more).actions, [Opened(key)], root.actions);
      var inner :| LoadKey(env, p[|p| - 1], inner).ok
                   && Within(LoadKey(env, p[|p| - 1], inner).actions, LoadKey(env, p[1], more).actions);
      WithinWithin(LoadKey(env, p[|p| - 1], inner).actions, LoadKey(env, p[1], more).actions, actions);
    }
  }

  lemma {:induction false} OpenedIn(actions: seq<Action>, g: string)
    ensures g in OpensOf(actions) <==> Opened(g) in actions
  {
    if actions != [] { OpenedIn(actions[1..], g); }
  }

  lemma OpenedWithin(part: seq<Action>, whole: seq<Action>, a: Action)
    requires Within(part, whole) && a in part
    ensures a in whole
  {
    var pre, post :| Between(pre, part, post, whole);
  }

  lemma {:induction false} OpenedIsReached(env: Env, key: string, loading: set<string>, g: string)
    requires LoadKey(env, key, loading).ok && Opened(g) in LoadKey(env, key, loading).actions
    ensures Reaches(env, key, g)
    decreases |env.files.Keys - loading|, 1
  {
    if g == key {
      assert PathFrom(env, key, [key]);
    } else {
      KeyLoadsIff(env, key, loading);
      Shrinks(env.files.Keys, loading, key);
      var more := loading + {key};
      var root := LoadRoot(env, key, env.files[key].root, more);
      RootFollows(env, key, env.files[key].root, more);
      OpenedIn(root.actions, g);
      OpenedIn(LoadFiles(env, Refs(env, key), more).actions, g);
      var l := OpenedByOne(env, Refs(env, key), more, g);
      EdgeReaches(env, key, l, g);
    }
  }

  lemma {:induction false} OpenedByOne(env: Env, refs: seq<string>, loading: set<string>, g: string) returns (l: string)
    requires LoadFiles(env, refs, loading).ok && Opened(g) in LoadFiles(env, refs, loading).actions
    ensures exists ref :: ref in refs && env.normalize(ref) == l
    ensures Reaches(env, l, g)
    decreases |env.files.Keys - loading|, 2, |refs|
  {
    var first := LoadFile(env, refs[0], loading);
    if Opened(g) in first.actions {
      l := env.normalize(refs[0]);
      OpenedIsReached(env, l, loading, g);
    } else {
      l := OpenedByOne(env, refs[1..], loading, g);
      var ref :| ref in refs[1..] && env.normalize(ref) == l;
      assert ref in refs;
    }
  }

  /** On success exactly the files that can be reached are opened, and all that each
      of them asks for is done. */
  lemma ReachedIffOpened(env: Env, key: string, g: string)
    requires LoadKey(env, key, {}).ok
    ensures Reaches(env, key, g) <==> Opened(g) in LoadKey(env, key, {}).actions
    ensures Reaches(env, key, g) ==> LoadedWithin(env, g, LoadKey(env, key, {}).actions)
  {
    var actions := LoadKey(env, key, {}).actions;
    if Reaches(env, key, g) {
      var p :| PathFrom(env, key, p) && p[|p| - 1] == g;
      ReachedIsLoaded(env, key, {}, p);
      var loading :| LoadKey(env, g, loading).ok && Within(LoadKey(env, g, loading).actions, actions);
      OpenedWithin(LoadKey(env, g, loading).actions, actions, Opened(g));
    } else if Opened(g) in actions {
      OpenedIsReached(env, key, {}, g);
    }
  }
}
