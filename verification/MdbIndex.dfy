/** The path cache's two reverse indices. */
module MdbIndex {
  // Together with what the cached entries hold they are the part of the MDB client that
  // the cache mutex guards.

  import opened Recency

  /** A (path, interface) pair whose signals are watched. */
  datatype Watch = Watch(path: string, iface: string)

  function SubKey(w: Watch): string {
    w.path + ":" + w.iface
  }

  datatype Entry = Entry(path: string, iface: string, service: string, filter: string,
                         ignoreCase: bool, filterKeys: seq<string>)

  function WatchOf(e: Entry): Watch {
    Watch(e.path, e.iface)
  }

  type Entries = Recency<string, Entry>

  type Index = map<string, set<string>>

  datatype Which = BySubscription | ByService

  /** The bucket an entry is filed under; an empty service name is not filed. */
  function TagOf(which: Which, e: Entry): seq<string> {
    match which
    case BySubscription => [SubKey(WatchOf(e))]
    case ByService => if e.service == "" then [] else [e.service]
  }

  function FileUnder(ix: Index, tag: seq<string>, key: string): Index {
    if tag == [] then ix
    else ix[tag[0] := (if tag[0] in ix then ix[tag[0]] else {}) + {key}]
  }

  /** Takes `key` out of a bucket and drops the bucket when it becomes empty. */
  function Unfile(ix: Index, tag: seq<string>, key: string): Index {
    if tag == [] || tag[0] !in ix then ix
    else if ix[tag[0]] - {key} == {} then ix - {tag[0]}
    else ix[tag[0] := ix[tag[0]] - {key}]
  }

  // ---- index agreement ----

  function Bucket(r: Entries, which: Which, tag: string): set<string> {
    if r == [] then {}
    else (if TagOf(which, r[0].1) == [tag] then {r[0].0} else {}) + Bucket(r[1..], which, tag)
  }

  /** The index sends each tag to exactly the cached keys filed under it, and has
      no empty bucket. */
  ghost predicate Agrees(ix: Index, r: Entries, which: Which) {
    && (forall tag :: (if tag in ix then ix[tag] else {}) == Bucket(r, which, tag))
    && (forall tag :: tag in ix ==> ix[tag] != {})
  }

  lemma {:induction false} BucketIs(r: Entries, which: Which, tag: string, key: string)
    ensures key in Bucket(r, which, tag) <==> exists i :: 0 <= i < |r| && r[i].0 == key && TagOf(which, r[i].1) == [tag]
  {
    if r != [] {
      BucketIs(r[1..], which, tag, key);
      if i :| 0 <= i < |r[1..]| && r[1..][i].0 == key && TagOf(which, r[1..][i].1) == [tag] {
        assert r[i + 1].0 == key;
      }
      if i :| 0 <= i < |r| && r[i].0 == key && TagOf(which, r[i].1) == [tag] {
        if i > 0 { assert r[1..][i - 1] == r[i]; }
      }
    }
  }

  lemma {:induction false} BucketRemove(r: Entries, i: nat, which: Which, tag: string)
    requires Distinct(r) && i < |r|
    ensures Bucket(RemoveAt(r, i), which, tag) == Bucket(r, which, tag) - {r[i].0}
  {
    forall key
      ensures key in Bucket(RemoveAt(r, i), which, tag) <==> key in Bucket(r, which, tag) - {r[i].0}
    {
      var w := RemoveAt(r, i);
      BucketIs(r, which, tag, key);
      BucketIs(w, which, tag, key);
      if j :| 0 <= j < |r| && r[j].0 == key && TagOf(which, r[j].1) == [tag] {
        if j != i { assert w[if j < i then j else j - 1] == r[j]; }
      }
    }
  }

  /** Filing a new key keeps agreement with the entries it is added to. */
  lemma AgreesAdd(ix: Index, r: Entries, which: Which, key: string, e: Entry)
    requires Agrees(ix, r, which)
    ensures Agrees(FileUnder(ix, TagOf(which, e), key), [(key, e)] + r, which)
  {
    var c := [(key, e)] + r;
    assert c[1..] == r;
  }

  lemma TagFromBucket(r: Entries, i: nat, which: Which, tag: string)
    requires Distinct(r) && i < |r| && TagOf(which, r[i].1) != [tag]
    ensures r[i].0 !in Bucket(r, which, tag)
  {
    BucketIs(r, which, tag, r[i].0);
    forall j | 0 <= j < |r| && r[j].0 == r[i].0 ensures j == i {}
  }

  /** Unfiling an entry under its own tag keeps agreement with what remains. */
  lemma AgreesRemove(ix: Index, r: Entries, which: Which, i: nat)
    requires Agrees(ix, r, which) && Distinct(r) && i < |r|
    ensures Agrees(Unfile(ix, TagOf(which, r[i].1), r[i].0), RemoveAt(r, i), which)
  {
    var key, t := r[i].0, TagOf(which, r[i].1);
    var ix' := Unfile(ix, t, key);
    forall tag
      ensures (if tag in ix' then ix'[tag] else {}) == Bucket(RemoveAt(r, i), which, tag)
    {
      BucketRemove(r, i, which, tag);
      assert Bucket(r, which, tag) == if tag in ix then ix[tag] else {};
      if t != [tag] {
        TagFromBucket(r, i, which, tag);
        if t != [] { assert t[0] != tag by { assert t == [t[0]]; } }
      }
    }
  }

  // ---- what the entries hold ----

  function One(b: bool): nat {
    if b then 1 else 0
  }

  /** How many cached entries hold subscription `s`: one hold each. */
  function CacheHolds(r: Entries, s: string): nat {
    if r == [] then 0 else One(SubKey(WatchOf(r[0].1)) == s) + CacheHolds(r[1..], s)
  }

  /** How many pending clean-ups still hold subscription `s`. */
  function TaskHolds(ws: seq<Watch>, s: string): nat {
    if ws == [] then 0 else One(SubKey(ws[0]) == s) + TaskHolds(ws[1..], s)
  }

  function WatchesOf(r: Entries): (ws: seq<Watch>)
    ensures |ws| == |r|
  {
    if r == [] then [] else [WatchOf(r[0].1)] + WatchesOf(r[1..])
  }

  lemma {:induction false} HoldsRemove(r: Entries, i: nat, s: string)
    requires i < |r|
    ensures CacheHolds(r, s) == CacheHolds(RemoveAt(r, i), s) + One(SubKey(WatchOf(r[i].1)) == s)
  {
    var w := RemoveAt(r, i);
    if i == 0 {
      assert w == r[1..];
    } else {
      HoldsRemove(r[1..], i - 1, s);
      assert w[1..] == RemoveAt(r[1..], i - 1);
      assert w[0] == r[0];
    }
  }

  lemma {:induction false} TaskHoldsConcat(a: seq<Watch>, b: seq<Watch>, s: string)
    ensures TaskHolds(a + b, s) == TaskHolds(a, s) + TaskHolds(b, s)
  {
    if a == [] {
      assert a + b == b;
    } else {
      TaskHoldsConcat(a[1..], b, s);
      assert (a + b)[1..] == a[1..] + b;
      assert (a + b)[0] == a[0];
    }
  }
}
