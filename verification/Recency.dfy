/** What an LRU cache holds, most recently used first. */
module Recency {
  // These functions say what each operation of the cache does to its sequence of keys and
  // values; the class in LruCache.dfy is proved against them.

  type Recency<K, V> = seq<(K, V)>

  ghost predicate Distinct<K, V>(r: Recency<K, V>) {
    forall i, j :: 0 <= i < j < |r| ==> r[i].0 != r[j].0
  }

  function KeySet<K(==), V>(r: Recency<K, V>): set<K> {
    set i | 0 <= i < |r| :: r[i].0
  }

  predicate Has<K(==), V>(r: Recency<K, V>, k: K) {
    exists i :: 0 <= i < |r| && r[i].0 == k
  }

  function IndexOf<K(==), V>(r: Recency<K, V>, k: K): (i: nat)
    requires Has(r, k)
    ensures i < |r| && r[i].0 == k
    ensures forall j :: 0 <= j < i ==> r[j].0 != k
  {
    if r[0].0 == k then 0 else
      assert Has(r[1..], k) by {
        var j :| 0 <= j < |r| && r[j].0 == k;
        assert r[1..][j - 1] == r[j];
      }
      1 + IndexOf(r[1..], k)
  }

  function Lookup<K(==), V>(r: Recency<K, V>, k: K): V
    requires Has(r, k)
  {
    r[IndexOf(r, k)].1
  }

  function RemoveAt<K, V>(r: Recency<K, V>, i: nat): (r': Recency<K, V>)
    requires i < |r|
    ensures |r'| == |r| - 1
    ensures forall j :: 0 <= j < i ==> r'[j] == r[j]
    ensures forall j :: i <= j < |r'| ==> r'[j] == r[j + 1]
  {
    r[..i] + r[i + 1..]
  }

  function Erase<K(==), V>(r: Recency<K, V>, k: K): Recency<K, V> {
    if Has(r, k) then RemoveAt(r, IndexOf(r, k)) else r
  }

  /** `get`: a hit moves the entry to the front. */
  function Touch<K(==), V>(r: Recency<K, V>, k: K): Recency<K, V> {
    if Has(r, k) then [(k, Lookup(r, k))] + Erase(r, k) else r
  }

  /** What one eviction leaves, and what it hands to the eviction callback. */
  function EvictOne<K, V>(r: Recency<K, V>): (Recency<K, V>, seq<(K, V)>) {
    if r == [] then (r, []) else (r[..|r| - 1], [r[|r| - 1]])
  }

  function Put<K(==), V>(r: Recency<K, V>, max: nat, k: K, v: V): (Recency<K, V>, seq<(K, V)>) {
    if Has(r, k) then
      ([(k, v)] + Erase(r, k), [])
    else
      var (kept, evicted) := if max > 0 && |r| >= max then EvictOne(r) else (r, []);
      ([(k, v)] + kept, evicted)
  }

  /** `set_max_size`: evicts one at a time, so the oldest is reported first. */
  function Shrink<K, V>(r: Recency<K, V>, max: nat): (Recency<K, V>, seq<(K, V)>)
    decreases |r|
  {
    if max > 0 && |r| > max then
      var (kept, evicted) := Shrink(r[..|r| - 1], max);
      (kept, [r[|r| - 1]] + evicted)
    else
      (r, [])
  }

  // ---- what the operations keep ----

  lemma HasIsInKeySet<K, V>(r: Recency<K, V>, k: K)
    ensures Has(r, k) <==> k in KeySet(r)
  {
  }

  lemma {:induction false} DistinctSize<K, V>(r: Recency<K, V>)
    requires Distinct(r)
    ensures |KeySet(r)| == |r|
  {
    if r != [] {
      var front, last := r[..|r| - 1], r[|r| - 1].0;
      DistinctSize(front);
      assert last !in KeySet(front);
      assert KeySet(r) == KeySet(front) + {last};
    }
  }

  lemma LookupAt<K, V>(r: Recency<K, V>, i: nat)
    requires Distinct(r) && i < |r|
    ensures Has(r, r[i].0) && IndexOf(r, r[i].0) == i && Lookup(r, r[i].0) == r[i].1
  {
    var j := IndexOf(r, r[i].0);
    assert r[j].0 == r[i].0;
  }

  lemma EraseKeeps<K, V>(r: Recency<K, V>, k: K)
    requires Distinct(r)
    ensures Distinct(Erase(r, k)) && !Has(Erase(r, k), k)
    ensures KeySet(Erase(r, k)) == KeySet(r) - {k}
    ensures forall j :: j != k && Has(r, j) ==> Has(Erase(r, k), j) && Lookup(Erase(r, k), j) == Lookup(r, j)
    ensures |Erase(r, k)| <= |r|
  {
    var e := Erase(r, k);
    if Has(r, k) {
      var i := IndexOf(r, k);
      assert forall m :: 0 <= m < |e| ==> e[m] == r[if m < i then m else m + 1];
      assert Distinct(e);
      forall j | j != k && Has(r, j)
        ensures Has(e, j) && Lookup(e, j) == Lookup(r, j)
      {
        var m := IndexOf(r, j);
        var m' := if m < i then m else m - 1;
        assert e[m'] == r[m];
        LookupAt(e, m');
      }
      forall j
        ensures j in KeySet(e) <==> j in KeySet(r) - {k}
      {
        if j in KeySet(r) && j != k { assert Has(r, j); assert Has(e, j); }
        if j in KeySet(e) {
          var m :| 0 <= m < |e| && e[m].0 == j;
          assert r[if m < i then m else m + 1].0 == j;
        }
      }
    }
  }

  lemma ConsKeeps<K, V>(r: Recency<K, V>, k: K, v: V)
    requires Distinct(r) && !Has(r, k)
    ensures var c := [(k, v)] + r;
            && Distinct(c) && Has(c, k) && Lookup(c, k) == v && KeySet(c) == KeySet(r) + {k}
            && (forall j :: Has(r, j) ==> Has(c, j) && Lookup(c, j) == Lookup(r, j))
  {
    var c := [(k, v)] + r;
    assert Distinct(c);
    LookupAt(c, 0);
    forall j | Has(r, j) ensures Has(c, j) && Lookup(c, j) == Lookup(r, j) {
      var i := IndexOf(r, j);
      assert c[i + 1] == r[i];
      LookupAt(c, i + 1);
    }
    forall j ensures j in KeySet(c) <==> j in KeySet(r) + {k} {
      if j in KeySet(r) { assert Has(r, j); }
      if j in KeySet(c) {
        var m :| 0 <= m < |c| && c[m].0 == j;
        if m > 0 { assert r[m - 1].0 == j; }
      }
    }
  }

  /** A hit changes the order only: the same keys keep the same values. */
  lemma TouchKeeps<K, V>(r: Recency<K, V>, k: K)
    requires Distinct(r)
    ensures Distinct(Touch(r, k)) && KeySet(Touch(r, k)) == KeySet(r) && |Touch(r, k)| == |r|
    ensures forall j :: Has(r, j) ==> Has(Touch(r, k), j) && Lookup(Touch(r, k), j) == Lookup(r, j)
  {
    EraseKeeps(r, k);
    if Has(r, k) {
      ConsKeeps(Erase(r, k), k, Lookup(r, k));
      assert k in KeySet(r);
    }
  }

  /** A put makes `k` the most recent key, keeps every other binding except at
      most one, and reports exactly the binding it dropped. */
  lemma PutKeeps<K, V>(r: Recency<K, V>, max: nat, k: K, v: V)
    requires Distinct(r)
    ensures var (p, ev) := Put(r, max, k, v);
            && Distinct(p) && p != [] && p[0] == (k, v) && Lookup(p, k) == v
            && |ev| <= 1
            && (ev != [] ==> r != [] && ev[0] == r[|r| - 1] && ev[0].0 != k && max > 0 && |r| >= max && !Has(r, k))
            && KeySet(p) == KeySet(r) + {k} - (if ev == [] then {} else {ev[0].0})
            && (forall j :: j != k && Has(r, j) && (ev == [] || ev[0].0 != j) ==> Has(p, j) && Lookup(p, j) == Lookup(r, j))
            && (max > 0 && |r| <= max ==> |p| <= max)
  {
    if Has(r, k) {
      EraseKeeps(r, k);
      ConsKeeps(Erase(r, k), k, v);
    } else if max > 0 && |r| >= max {
      EvictKeeps(r);
      ConsKeeps(r[..|r| - 1], k, v);
    } else {
      ConsKeeps(r, k, v);
    }
  }

  lemma EvictKeeps<K, V>(r: Recency<K, V>)
    requires Distinct(r) && r != []
    ensures var e := r[..|r| - 1]; var last := r[|r| - 1].0;
            && Distinct(e) && !Has(e, last) && KeySet(e) == KeySet(r) - {last}
            && (forall j :: j != last && Has(r, j) ==> Has(e, j) && Lookup(e, j) == Lookup(r, j))
            && (forall j :: Has(e, j) ==> Has(r, j))
  {
    var last := r[|r| - 1].0;
    LookupAt(r, |r| - 1);
    assert Erase(r, last) == r[..|r| - 1];
    EraseKeeps(r, last);
  }

  /** Shrinking keeps a prefix and reports the rest, oldest first. */
  lemma {:induction false} ShrinkKeeps<K, V>(r: Recency<K, V>, max: nat)
    ensures var (p, ev) := Shrink(r, max);
            && p <= r
            && (max > 0 ==> |p| <= max)
            && (max == 0 || |r| <= max ==> p == r && ev == [])
            && (max > 0 && |r| >= max ==> |p| == max)
            && |ev| == |r| - |p|
            && (forall i :: 0 <= i < |ev| ==> ev[i] == r[|r| - 1 - i])
    decreases |r|
  {
    if max > 0 && |r| > max {
      ShrinkKeeps(r[..|r| - 1], max);
      var (p, ev) := Shrink(r[..|r| - 1], max);
      var all := [r[|r| - 1]] + ev;
      forall i | 0 <= i < |all| ensures all[i] == r[|r| - 1 - i] {
        if i > 0 { assert all[i] == ev[i - 1]; }
      }
    }
  }

  // ---- an independent account of recency: when was each key last used? ----

  datatype Op<K, V> = GetOp(k: K) | PutOp(k: K, v: V) | EraseOp(k: K) | ClearOp | ResizeOp(n: nat)

  datatype Cache<K, V> = Cache(r: Recency<K, V>, max: nat)

  function Apply<K(==), V>(c: Cache<K, V>, op: Op<K, V>): (Cache<K, V>, seq<(K, V)>) {
    match op
    case GetOp(k) => (c.(r := Touch(c.r, k)), [])
    case PutOp(k, v) => var (p, ev) := Put(c.r, c.max, k, v); (c.(r := p), ev)
    case EraseOp(k) => (c.(r := Erase(c.r, k)), [])
    case ClearOp => (c.(r := []), [])
    case ResizeOp(n) => var (p, ev) := Shrink(c.r, n); (Cache(p, n), ev)
  }

  function Run<K(==), V>(max: nat, ops: seq<Op<K, V>>): Cache<K, V> {
    if ops == [] then Cache([], max) else Apply(Run(max, ops[..|ops| - 1]), ops[|ops| - 1]).0
  }

  predicate Uses<K(==), V>(op: Op<K, V>, k: K) {
    (op.GetOp? || op.PutOp?) && op.k == k
  }

  /** The position after the latest use of `k`, or 0 if it was never used. */
  function LastUse<K(==), V>(ops: seq<Op<K, V>>, k: K): (n: nat)
    ensures n <= |ops|
  {
    if ops == [] then 0
    else if Uses(ops[|ops| - 1], k) then |ops|
    else LastUse(ops[..|ops| - 1], k)
  }

  lemma {:induction false} LastUseIsLatest<K, V>(ops: seq<Op<K, V>>, k: K)
    ensures var n := LastUse(ops, k);
            && (n > 0 ==> Uses(ops[n - 1], k))
            && (forall i :: n <= i < |ops| ==> !Uses(ops[i], k))
  {
    if ops != [] && !Uses(ops[|ops| - 1], k) {
      LastUseIsLatest(ops[..|ops| - 1], k);
    }
  }

  lemma LastUseAppend<K, V>(ops: seq<Op<K, V>>, op: Op<K, V>, k: K)
    ensures LastUse(ops + [op], k) == if Uses(op, k) then |ops| + 1 else LastUse(ops, k)
  {
    assert (ops + [op])[..|ops|] == ops;
  }

  function UseTimes<K(==), V>(r: Recency<K, V>, ops: seq<Op<K, V>>): (ts: seq<nat>)
    ensures |ts| == |r|
  {
    seq(|r|, i requires 0 <= i < |r| => LastUse(ops, r[i].0))
  }

  ghost predicate Decreasing(ts: seq<nat>) {
    && (forall i :: 0 <= i < |ts| ==> ts[i] > 0)
    && (forall i, j :: 0 <= i < j < |ts| ==> ts[i] > ts[j])
  }

  ghost predicate OrderedByUse<K, V>(r: Recency<K, V>, ops: seq<Op<K, V>>) {
    Decreasing(UseTimes(r, ops))
  }

  /** An operation that uses none of the keys leaves their order alone. */
  lemma OrderedAfterOther<K, V>(r: Recency<K, V>, ops: seq<Op<K, V>>, op: Op<K, V>)
    requires OrderedByUse(r, ops)
    requires forall i :: 0 <= i < |r| ==> !Uses(op, r[i].0)
    ensures OrderedByUse(r, ops + [op])
  {
    forall i | 0 <= i < |r| ensures LastUse(ops + [op], r[i].0) == LastUse(ops, r[i].0) {
      LastUseAppend(ops, op, r[i].0);
    }
    assert UseTimes(r, ops + [op]) == UseTimes(r, ops);
  }

  lemma OrderedRemove<K, V>(r: Recency<K, V>, ops: seq<Op<K, V>>, i: nat)
    requires OrderedByUse(r, ops) && i < |r|
    ensures OrderedByUse(RemoveAt(r, i), ops)
  {
    var ts := UseTimes(r, ops);
    assert UseTimes(RemoveAt(r, i), ops) == ts[..i] + ts[i + 1..];
  }

  lemma OrderedPrefix<K, V>(r: Recency<K, V>, ops: seq<Op<K, V>>, n: nat)
    requires OrderedByUse(r, ops) && n <= |r|
    ensures OrderedByUse(r[..n], ops)
  {
    assert UseTimes(r[..n], ops) == UseTimes(r, ops)[..n];
  }

  lemma OrderedUse<K, V>(r: Recency<K, V>, ops: seq<Op<K, V>>, op: Op<K, V>, kv: (K, V))
    requires OrderedByUse(r, ops) && Uses(op, kv.0) && !Has(r, kv.0)
    ensures OrderedByUse([kv] + r, ops + [op])
  {
    OrderedAfterOther(r, ops, op);
    var ts := UseTimes(r, ops + [op]);
    forall i | 0 <= i < |r| ensures ts[i] <= |ops| {
      LastUseAppend(ops, op, r[i].0);
    }
    LastUseAppend(ops, op, kv.0);
    assert UseTimes([kv] + r, ops + [op]) == [|ops| + 1] + ts;
  }

  /** The whole-run refinement: after any run the keys are distinct, stand in
      strictly decreasing order of their last use, and fit the maximum. */
  lemma {:induction false} RunIsRecencyOrder<K, V>(max: nat, ops: seq<Op<K, V>>)
    ensures Good(Run(max, ops), ops)
    decreases |ops|
  {
    if ops != [] {
      var front, op := ops[..|ops| - 1], ops[|ops| - 1];
      RunIsRecencyOrder(max, front);
      assert ops == front + [op];
      var c := Run(max, front);
      StepKeepsOrder(c, front, op);
    }
  }

  ghost predicate Good<K, V>(c: Cache<K, V>, ops: seq<Op<K, V>>) {
    Distinct(c.r) && OrderedByUse(c.r, ops) && (c.max > 0 ==> |c.r| <= c.max)
  }

  lemma GetKeepsOrder<K, V>(c: Cache<K, V>, ops: seq<Op<K, V>>, k: K)
    requires Good(c, ops)
    ensures Good(Apply(c, GetOp(k)).0, ops + [GetOp(k)])
  {
    TouchKeeps(c.r, k);
    EraseKeeps(c.r, k);
    if Has(c.r, k) {
      OrderedRemove(c.r, ops, IndexOf(c.r, k));
      OrderedUse(Erase(c.r, k), ops, GetOp(k), (k, Lookup(c.r, k)));
    } else {
      OrderedAfterOther(c.r, ops, GetOp(k));
    }
  }

  lemma PutKeepsOrder<K, V>(c: Cache<K, V>, ops: seq<Op<K, V>>, k: K, v: V)
    requires Good(c, ops)
    ensures Good(Apply(c, PutOp(k, v)).0, ops + [PutOp(k, v)])
  {
    PutKeeps(c.r, c.max, k, v);
    var kept := if Has(c.r, k) then Erase(c.r, k)
                else if c.max > 0 && |c.r| >= c.max && c.r != [] then c.r[..|c.r| - 1] else c.r;
    assert Put(c.r, c.max, k, v).0 == [(k, v)] + kept;
    assert !Has(kept, k) && OrderedByUse(kept, ops) by {
      EraseKeeps(c.r, k);
      if Has(c.r, k) { OrderedRemove(c.r, ops, IndexOf(c.r, k)); }
      OrderedPrefix(c.r, ops, if c.r == [] then 0 else |c.r| - 1);
    }
    OrderedUse(kept, ops, PutOp(k, v), (k, v));
  }

  lemma StepKeepsOrder<K, V>(c: Cache<K, V>, ops: seq<Op<K, V>>, op: Op<K, V>)
    requires Good(c, ops)
    ensures Good(Apply(c, op).0, ops + [op])
  {
    match op
    case GetOp(k) => GetKeepsOrder(c, ops, k);
    case PutOp(k, v) => PutKeepsOrder(c, ops, k, v);
    case EraseOp(k) =>
      EraseKeeps(c.r, k);
      if Has(c.r, k) { OrderedRemove(c.r, ops, IndexOf(c.r, k)); }
      OrderedAfterOther(Erase(c.r, k), ops, op);
    case ClearOp =>
    case ResizeOp(n) =>
      ShrinkKeeps(c.r, n);
      var p := Shrink(c.r, n).0;
      OrderedPrefix(c.r, ops, |p|);
      assert p == c.r[..|p|];
      OrderedAfterOther(p, ops, op);
  }

  /** Every eviction, in any run, takes a key used strictly longer ago than
      every key that stays, and hands over the value it was bound to. */
  lemma EvictionTakesLeastRecentlyUsed<K, V>(max: nat, ops: seq<Op<K, V>>, op: Op<K, V>, e: nat, k: K)
    requires e < |Apply(Run(max, ops), op).1|
    requires Has(Apply(Run(max, ops), op).0.r, k) && !(op.PutOp? && op.k == k)
    ensures var gone := Apply(Run(max, ops), op).1[e];
            && LastUse(ops, gone.0) < LastUse(ops, k)
            && Has(Run(max, ops).r, gone.0) && Lookup(Run(max, ops).r, gone.0) == gone.1
            && !Has(Apply(Run(max, ops), op).0.r, gone.0)
  {
    RunIsRecencyOrder(max, ops);
    var c := Run(max, ops);
    match op
    case PutOp(key, v) => PutEviction(c, ops, key, v, k);
    case ResizeOp(n) => ShrinkEviction(c, ops, n, e, k);
    case _ =>
  }

  lemma PutEviction<K, V>(c: Cache<K, V>, ops: seq<Op<K, V>>, key: K, v: V, k: K)
    requires Good(c, ops) && Put(c.r, c.max, key, v).1 != []
    requires k != key && Has(Put(c.r, c.max, key, v).0, k)
    ensures var (after, ev) := Put(c.r, c.max, key, v);
            && LastUse(ops, ev[0].0) < LastUse(ops, k)
            && Has(c.r, ev[0].0) && Lookup(c.r, ev[0].0) == ev[0].1 && !Has(after, ev[0].0)
  {
    PutKeeps(c.r, c.max, key, v);
    var after := Put(c.r, c.max, key, v).0;
    var n := |c.r| - 1;
    assert after == [(key, v)] + c.r[..n];
    var i := IndexOf(after, k);
    assert after[i] == c.r[i - 1];
    Older(c.r, ops, i - 1, n);
    LookupAt(c.r, n);
    HasIsInKeySet(after, c.r[n].0);
  }

  lemma ShrinkEviction<K, V>(c: Cache<K, V>, ops: seq<Op<K, V>>, max: nat, e: nat, k: K)
    requires Good(c, ops) && e < |Shrink(c.r, max).1|
    requires Has(Shrink(c.r, max).0, k)
    ensures var (after, ev) := Shrink(c.r, max);
            && LastUse(ops, ev[e].0) < LastUse(ops, k)
            && Has(c.r, ev[e].0) && Lookup(c.r, ev[e].0) == ev[e].1 && !Has(after, ev[e].0)
  {
    ShrinkKeeps(c.r, max);
    var (after, ev) := Shrink(c.r, max);
    var n := |c.r| - 1 - e;
    LookupAt(c.r, n);
    PrefixLacks(c.r, after, n);
    var i := IndexOf(after, k);
    assert after[i] == c.r[i];
    Older(c.r, ops, i, n);
  }

  lemma Older<K, V>(r: Recency<K, V>, ops: seq<Op<K, V>>, i: nat, n: nat)
    requires OrderedByUse(r, ops) && i < n < |r|
    ensures LastUse(ops, r[n].0) < LastUse(ops, r[i].0)
  {
    var ts := UseTimes(r, ops);
    assert ts[i] > ts[n];
  }

  lemma PrefixLacks<K, V>(r: Recency<K, V>, p: Recency<K, V>, n: nat)
    requires Distinct(r) && p <= r && |p| <= n < |r|
    ensures !Has(p, r[n].0)
  {
    assert forall j :: 0 <= j < |p| ==> p[j] == r[j];
  }
}
