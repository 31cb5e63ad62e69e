/** The LRU cache itself: a list, most recently used first, and a hash map from keys to
    places in the list. The list is linked and an entry that is used is spliced, so an
    iterator is modelled by the identity of its node, which no operation changes. The
    class is proved against the functions of Recency: whatever the operations do to the
    list and to the map, the contents are those of the recency sequence, the map holds
    exactly the keys of the list, and its iterators point where they should. */
module LruCache {
  import opened R = Recency

  datatype Node<K, V> = Node(id: nat, key: K, value: V)

  function ContentsOf<K, V>(list: seq<Node<K, V>>): (r: Recency<K, V>)
    ensures |r| == |list|
  {
    if list == [] then [] else [(list[0].key, list[0].value)] + ContentsOf(list[1..])
  }

  /** Node by node: the map sends the node's key to it, no other node of the list
      has its key or its identity, and the map has no further keys. */
  ghost predicate Linked<K, V>(list: seq<Node<K, V>>, m: map<K, nat>) {
    if list == [] then m == map[]
    else
      && list[0].key in m && m[list[0].key] == list[0].id
      && !HasId(list[1..], list[0].id)
      && Linked(list[1..], m - {list[0].key})
  }

  predicate HasId<K, V>(list: seq<Node<K, V>>, id: nat) {
    list != [] && (list[0].id == id || HasId(list[1..], id))
  }

  /** Where an iterator points. */
  function Position<K, V>(list: seq<Node<K, V>>, id: nat): (i: nat)
    requires HasId(list, id)
    ensures i < |list| && list[i].id == id
  {
    if list[0].id == id then 0 else 1 + Position(list[1..], id)
  }

  function Without<K, V>(list: seq<Node<K, V>>, id: nat): (r: seq<Node<K, V>>)
    requires HasId(list, id)
    ensures |r| == |list| - 1
  {
    if list[0].id == id then list[1..] else [list[0]] + Without(list[1..], id)
  }

  lemma ConsContents<K, V>(n: Node<K, V>, rest: seq<Node<K, V>>)
    ensures ContentsOf([n] + rest) == [(n.key, n.value)] + ContentsOf(rest)
  {
    assert ([n] + rest)[1..] == rest;
  }

  lemma ConsHas<K, V>(kv: (K, V), r: Recency<K, V>, k: K)
    ensures Has([kv] + r, k) <==> kv.0 == k || Has(r, k)
  {
    var c := [kv] + r;
    if Has(r, k) { assert c[IndexOf(r, k) + 1].0 == k; }
    if kv.0 == k { assert c[0].0 == k; }
  }

  lemma ConsFind<K, V>(kv: (K, V), r: Recency<K, V>, k: K)
    requires kv.0 == k || Has(r, k)
    ensures Has([kv] + r, k)
    ensures Lookup([kv] + r, k) == if kv.0 == k then kv.1 else Lookup(r, k)
    ensures Erase([kv] + r, k) == if kv.0 == k then r else [kv] + Erase(r, k)
  {
    ConsHas(kv, r, k);
    var c := [kv] + r;
    assert c[1..] == r;
    if kv.0 == k {
      assert RemoveAt(c, 0) == r;
    } else {
      var i := IndexOf(r, k);
      assert IndexOf(c, k) == i + 1;
      assert RemoveAt(c, i + 1) == [kv] + RemoveAt(r, i);
    }
  }

  /** The map's domain is the keys of the list, and its iterator for a key points
      at the node holding that key's value. */
  lemma {:induction false} LinkedKey<K, V>(list: seq<Node<K, V>>, m: map<K, nat>, k: K)
    requires Linked(list, m)
    ensures k in m <==> Has(ContentsOf(list), k)
    ensures k in m ==>
      && HasId(list, m[k])
      && list[Position(list, m[k])].key == k
      && Lookup(ContentsOf(list), k) == list[Position(list, m[k])].value
  {
    if list != [] {
      var n, rest := list[0], list[1..];
      LinkedKey(rest, m - {n.key}, k);
      ConsHas((n.key, n.value), ContentsOf(rest), k);
      if k in m {
        ConsFind((n.key, n.value), ContentsOf(rest), k);
      }
    }
  }

  /** No identity at or above `next` is in use. */
  ghost predicate IdsBelow<K, V>(list: seq<Node<K, V>>, next: nat) {
    forall id: nat :: HasId(list, id) ==> id < next
  }

  lemma {:induction false} WithoutIds<K, V>(list: seq<Node<K, V>>, id: nat, x: nat)
    requires HasId(list, id)
    ensures HasId(Without(list, id), x) ==> HasId(list, x)
  {
    if list[0].id != id {
      WithoutIds(list[1..], id, x);
      assert ([list[0]] + Without(list[1..], id))[1..] == Without(list[1..], id);
    }
  }

  lemma WithoutBelow<K, V>(list: seq<Node<K, V>>, id: nat, next: nat)
    requires HasId(list, id) && IdsBelow(list, next)
    ensures IdsBelow(Without(list, id), next)
  {
    forall x: nat | HasId(Without(list, id), x) ensures x < next { WithoutIds(list, id, x); }
  }

  lemma ConsBelow<K, V>(n: Node<K, V>, list: seq<Node<K, V>>, next: nat)
    requires n.id < next && IdsBelow(list, next)
    ensures IdsBelow([n] + list, next)
  {
    assert ([n] + list)[1..] == list;
  }

  /** Erasing through the iterator is erasing the key. */
  lemma {:induction false} ContentsWithout<K, V>(list: seq<Node<K, V>>, m: map<K, nat>, k: K)
    requires Linked(list, m) && k in m && HasId(list, m[k])
    ensures ContentsOf(Without(list, m[k])) == Erase(ContentsOf(list), k)
  {
    var n, rest := list[0], list[1..];
    LinkedKey(list, m, k);
    LinkedKey(rest, m - {n.key}, k);
    ConsFind((n.key, n.value), ContentsOf(rest), k);
    if k != n.key {
      ContentsWithout(rest, m - {n.key}, k);
      ConsContents(n, Without(rest, m[k]));
    }
  }

  lemma {:induction false} LinkedWithout<K, V>(list: seq<Node<K, V>>, m: map<K, nat>, k: K)
    requires Linked(list, m) && k in m && HasId(list, m[k])
    ensures Linked(Without(list, m[k]), m - {k})
    ensures !HasId(Without(list, m[k]), m[k])
  {
    var n, rest := list[0], list[1..];
    LinkedKey(rest, m - {n.key}, k);
    if k != n.key {
      LinkedWithout(rest, m - {n.key}, k);
      var w := Without(rest, m[k]);
      WithoutIds(rest, m[k], n.id);
      assert ([n] + w)[1..] == w;
      assert m - {n.key} - {k} == m - {k} - {n.key};
    }
  }

  lemma {:induction false} LinkedSize<K, V>(list: seq<Node<K, V>>, m: map<K, nat>)
    requires Linked(list, m)
    ensures |m| == |list| && Distinct(ContentsOf(list))
  {
    if list != [] {
      var n, rest := list[0], list[1..];
      LinkedSize(rest, m - {n.key});
      assert m.Keys == (m - {n.key}).Keys + {n.key};
      LinkedKey(rest, m - {n.key}, n.key);
      ConsKeeps(ContentsOf(rest), n.key, n.value);
    }
  }

  lemma PushLinked<K, V>(n: Node<K, V>, list: seq<Node<K, V>>, m: map<K, nat>)
    requires Linked(list, m) && n.key !in m && !HasId(list, n.id)
    ensures Linked([n] + list, m[n.key := n.id])
    ensures ContentsOf([n] + list) == [(n.key, n.value)] + ContentsOf(list)
  {
    assert ([n] + list)[1..] == list;
    assert m[n.key := n.id] - {n.key} == m;
  }

  /** Writing a value through an iterator and splicing its node to the front. */
  lemma SpliceLinked<K, V>(list: seq<Node<K, V>>, m: map<K, nat>, k: K, v: V)
    requires Linked(list, m) && k in m && HasId(list, m[k])
    ensures var moved := [list[Position(list, m[k])].(value := v)] + Without(list, m[k]);
            && Linked(moved, m) && ContentsOf(moved) == [(k, v)] + Erase(ContentsOf(list), k)
  {
    LinkedKey(list, m, k);
    LinkedWithout(list, m, k);
    ContentsWithout(list, m, k);
    PushLinked(list[Position(list, m[k])].(value := v), Without(list, m[k]), m - {k});
    assert (m - {k})[k := m[k]] == m;
  }

  class LruCache<K(==), V> {
    var maxSize: nat
    var lruList: seq<Node<K, V>>
    var cacheMap: map<K, nat>
    var nextId: nat

    ghost predicate Valid()
      reads this
    {
      Linked(lruList, cacheMap) && IdsBelow(lruList, nextId)
    }

    ghost function Contents(): Recency<K, V>
      reads this
    {
      ContentsOf(lruList)
    }

    constructor (maxSize: nat)
      ensures Valid() && Contents() == [] && this.maxSize == maxSize
    {
      this.maxSize := maxSize;
      lruList := [];
      cacheMap := map[];
      nextId := 0;
    }

    method Get(k: K) returns (hit: bool, value: seq<V>)
      requires Valid()
      modifies this`lruList
      ensures Valid() && Contents() == Touch(old(Contents()), k)
      ensures hit <==> Has(old(Contents()), k)
      ensures value == if hit then [Lookup(old(Contents()), k)] else []
    {
      LinkedKey(lruList, cacheMap, k);
      hit, value := false, [];
      if k in cacheMap {
        var n := lruList[Position(lruList, cacheMap[k])];
        SpliceToFront(k, n.value);
        hit, value := true, [n.value];
      }
    }

    /** Writes the value of a cached key and moves its node to the head. */
    method SpliceToFront(k: K, v: V)
      requires Valid() && k in cacheMap
      modifies this`lruList
      ensures Valid() && Contents() == [(k, v)] + R.Erase(old(Contents()), k)
    {
      LinkedKey(lruList, cacheMap, k);
      SpliceLinked(lruList, cacheMap, k, v);
      var rest := Without(lruList, cacheMap[k]);
      var n := lruList[Position(lruList, cacheMap[k])].(value := v);
      WithoutBelow(lruList, cacheMap[k], nextId);
      ConsBelow(n, rest, nextId);
      lruList := [n] + rest;
    }

    method Put(k: K, v: V) returns (evicted: seq<(K, V)>)
      requires Valid()
      modifies this
      ensures Valid() && maxSize == old(maxSize)
      ensures (Contents(), evicted) == R.Put(old(Contents()), maxSize, k, v)
    {
      LinkedKey(lruList, cacheMap, k);
      LinkedSize(lruList, cacheMap);
      evicted := [];
      if k in cacheMap {
        SpliceToFront(k, v);
        return;
      }
      if maxSize > 0 && |cacheMap| >= maxSize {
        evicted := EvictLru();
      }
      PushFront(k, v);
    }

    method PushFront(k: K, v: V)
      requires Valid() && k !in cacheMap
      modifies this`lruList, this`cacheMap, this`nextId
      ensures Valid() && Contents() == [(k, v)] + old(Contents())
    {
      var n := Node(nextId, k, v);
      PushLinked(n, lruList, cacheMap);
      ConsBelow(n, lruList, nextId + 1);
      lruList := [n] + lruList;
      cacheMap := cacheMap[k := nextId];
      nextId := nextId + 1;
    }

    method Erase(k: K) returns (erased: bool)
      requires Valid()
      modifies this`lruList, this`cacheMap
      ensures Valid() && erased == Has(old(Contents()), k)
      ensures Contents() == R.Erase(old(Contents()), k)
      ensures cacheMap.Keys == old(cacheMap.Keys) - {k}
    {
      LinkedKey(lruList, cacheMap, k);
      erased := k in cacheMap;
      if erased {
        LinkedWithout(lruList, cacheMap, k);
        ContentsWithout(lruList, cacheMap, k);
        WithoutBelow(lruList, cacheMap[k], nextId);
        lruList := Without(lruList, cacheMap[k]);
        cacheMap := cacheMap - {k};
      }
    }

    method Clear()
      requires Valid()
      modifies this`lruList, this`cacheMap
      ensures Valid() && Contents() == []
    {
      lruList := [];
      cacheMap := map[];
    }

    method Size() returns (n: nat)
      requires Valid()
      ensures n == |Contents()|
    {
      LinkedSize(lruList, cacheMap);
      n := |cacheMap|;
    }

    /** Evicts the tail; the result is what the eviction callback is given. */
    method EvictLru() returns (evicted: seq<(K, V)>)
      requires Valid()
      modifies this`lruList, this`cacheMap
      ensures Valid() && (Contents(), evicted) == EvictOne(old(Contents()))
      ensures cacheMap.Keys <= old(cacheMap.Keys)
    {
      if |lruList| == 0 {
        return [];
      }
      var oldest := lruList[|lruList| - 1];
      LinkedSize(lruList, cacheMap);
      LastContents(lruList);
      EvictIsErase(Contents());
      evicted := [(oldest.key, oldest.value)];
      var _ := Erase(oldest.key);
    }

    method SetMaxSize(newMax: nat) returns (evicted: seq<(K, V)>)
      requires Valid()
      modifies this`maxSize, this`lruList, this`cacheMap
      ensures Valid() && maxSize == newMax
      ensures (Contents(), evicted) == Shrink(old(Contents()), newMax)
    {
      maxSize := newMax;
      evicted := [];
      LinkedSize(lruList, cacheMap);
      ghost var start := Contents();
      while maxSize > 0 && |cacheMap| > maxSize
        invariant Valid() && maxSize == newMax && |cacheMap| == |lruList|
        invariant Shrink(start, newMax).0 == Shrink(Contents(), newMax).0
        invariant Shrink(start, newMax).1 == evicted + Shrink(Contents(), newMax).1
        decreases |lruList|
      {
        ghost var before := Contents();
        var gone := EvictLru();
        LinkedSize(lruList, cacheMap);
        assert Shrink(before, newMax).1 == gone + Shrink(Contents(), newMax).1;
        evicted := evicted + gone;
      }
      assert evicted + [] == evicted;
    }
  }

  lemma {:induction false} LastContents<K, V>(list: seq<Node<K, V>>)
    requires list != []
    ensures var n := list[|list| - 1]; ContentsOf(list)[|list| - 1] == (n.key, n.value)
  {
    if |list| > 1 { LastContents(list[1..]); }
  }

  lemma EvictIsErase<K, V>(r: Recency<K, V>)
    requires Distinct(r) && r != []
    ensures R.Erase(r, r[|r| - 1].0) == r[..|r| - 1]
  {
    LookupAt(r, |r| - 1);
  }
}
