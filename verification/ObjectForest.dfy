/** Parents and children, as links that two fields keep in agreement, and events that
    climb along them. Objects are numbered in the order of their creation. */
module ObjectForest {
  import opened Options

  /** The weak link each object keeps to its parent, which may outlive the parent, and
      the children of every object that has not been destroyed. */
  datatype Forest = Forest(link: map<nat, nat>, children: map<nat, seq<nat>>, next: nat)

  const EMPTY := Forest(map[], map[], 0)

  predicate Alive(f: Forest, o: nat) {
    o in f.children
  }

  /** The parent, if the weak link still leads to something. */
  function Parent(f: Forest, o: nat): Option<nat> {
    if o in f.link && Alive(f, f.link[o]) then Some(f.link[o]) else None
  }

  // ---- lists of children ----

  function Without(s: seq<nat>, c: nat): (r: seq<nat>) {
    if s == [] then [] else if s[0] == c then s[1..] else [s[0]] + Without(s[1..], c)
  }

  predicate Distinct(s: seq<nat>) {
    s != [] ==> s[0] !in s[1..] && Distinct(s[1..])
  }

  lemma {:induction false} WithoutKeeps(s: seq<nat>, c: nat)
    requires Distinct(s)
    ensures Distinct(Without(s, c))
    ensures forall o :: o in Without(s, c) <==> o in s && o != c
  {
    if s != [] {
      assert forall o :: o in s <==> o == s[0] || o in s[1..];
      if s[0] != c {
        WithoutKeeps(s[1..], c);
        assert ([s[0]] + Without(s[1..], c))[1..] == Without(s[1..], c);
      }
    }
  }

  lemma {:induction false} SnocKeeps(s: seq<nat>, c: nat)
    requires Distinct(s) && c !in s
    ensures Distinct(s + [c])
    ensures forall o :: o in s + [c] <==> o in s || o == c
  {
    if s == [] {
      assert s + [c] == [c];
    } else {
      SnocKeeps(s[1..], c);
      assert (s + [c])[1..] == s[1..] + [c];
    }
  }

  // ---- the operations ----

  function AddChild(f: Forest, p: nat, c: nat): Forest {
    if !Alive(f, p) || c in f.children[p] then f
    else f.(children := f.children[p := f.children[p] + [c]])
  }

  function RemoveChild(f: Forest, p: nat, c: nat): Forest {
    if !Alive(f, p) then f else f.(children := f.children[p := Without(f.children[p], c)])
  }

  function Relink(f: Forest, c: nat, p: Option<nat>): Forest {
    f.(link := if p.Some? then f.link[c := p.value] else f.link - {c})
  }

  function SetParent(f: Forest, c: nat, p: Option<nat>): Forest {
    var before := Parent(f, c);
    if before == p then f
    else
      var linked := Relink(f, c, p);
      var left := if before.Some? then RemoveChild(linked, before.value, c) else linked;
      if p.Some? then AddChild(left, p.value, c) else left
  }

  /** The end of an object: it takes itself out of its parent's list, and then lets its
      children know, one by one. */
  function Destroy(f: Forest, o: nat): Forest
    requires Alive(f, o)
  {
    Orphaned(Unlinked(f, o), f.children[o])
  }

  function Unlinked(f: Forest, o: nat): Forest {
    var gone := f.(children := f.children - {o});
    var before := Parent(gone, o);
    var cut := Relink(gone, o, None);
    if before.Some? then RemoveChild(cut, before.value, o) else cut
  }

  function Orphaned(f: Forest, children: seq<nat>): Forest
    decreases |children|
  {
    if children == [] then f else Orphaned(SetParent(f, children[0], None), children[1..])
  }

  datatype Action = Create(parent: Option<nat>) | Place(c: nat, p: Option<nat>) | End(o: nat)

  /** What a caller may do: objects it names have not been destroyed. */
  predicate Allowed(f: Forest, a: Action) {
    match a
    case Create(p) => p.Some? ==> Alive(f, p.value)
    case Place(c, p) => Alive(f, c) && (p.Some? ==> Alive(f, p.value))
    case End(o) => Alive(f, o)
  }

  function Step(f: Forest, a: Action): Forest
    requires Allowed(f, a)
  {
    match a
    case Create(p) =>
      SetParent(Born(f), f.next, p)
    case Place(c, p) => SetParent(f, c, p)
    case End(o) => Destroy(f, o)
  }

  /** A run of allowed actions, from one forest to another. */
  ghost predicate Run(f: Forest, script: seq<Action>, g: Forest)
    decreases |script|
  {
    if script == [] then f == g else Allowed(f, script[0]) && Run(Step(f, script[0]), script[1..], g)
  }

  // ---- the two fields agree ----

  /** An object is in another's list, once, exactly if that is its parent. */
  ghost predicate Linked(f: Forest) {
    && (forall p :: p in f.children ==> p < f.next && Distinct(f.children[p]))
    && (forall o :: o in f.link ==> o < f.next && f.link[o] < f.next)
    && (forall p, c :: p in f.children ==> (c in f.children[p] <==> Alive(f, c) && Parent(f, c) == Some(p)))
  }

  /** What relinking one object leaves right: all lists but those it leaves and joins. */
  lemma SetParentFields(f: Forest, c: nat, p: Option<nat>)
    requires Linked(f) && Alive(f, c) && (p.Some? ==> Alive(f, p.value))
    ensures var g, before := SetParent(f, c, p), Parent(f, c);
            && g.children.Keys == f.children.Keys && g.next == f.next
            && (forall o :: o in g.link ==> o < g.next && g.link[o] < g.next)
            && (forall o :: Parent(g, o) == if o == c then p else Parent(f, o))
            && (forall q :: q in f.children ==> Distinct(g.children[q]))
            && (forall q, o :: q in f.children ==>
                 (o in g.children[q] <==> if o == c then p == Some(q) else o in f.children[q]))
  {
    var before := Parent(f, c);
    if before.Some? { WithoutKeeps(f.children[before.value], c); }
    if p.Some? && before != p { SnocKeeps(f.children[p.value], c); }
  }

  lemma SetParentLinks(f: Forest, c: nat, p: Option<nat>)
    requires Linked(f) && Alive(f, c) && (p.Some? ==> Alive(f, p.value))
    ensures Linked(SetParent(f, c, p))
    ensures SetParent(f, c, p).children.Keys == f.children.Keys && SetParent(f, c, p).next == f.next
    ensures forall o :: Parent(SetParent(f, c, p), o) == if o == c then p else Parent(f, o)
  {
    SetParentFields(f, c, p);
    hide SetParent, Distinct;
    var g := SetParent(f, c, p);
    forall q, o | q in g.children
      ensures o in g.children[q] <==> Alive(g, o) && Parent(g, o) == Some(q)
    {
      assert o in f.children[q] <==> Alive(f, o) && Parent(f, o) == Some(q);
    }
  }

  lemma UnlinkedFields(f: Forest, o: nat)
    requires Linked(f) && Alive(f, o)
    ensures var g := Unlinked(f, o);
            && g.children.Keys == f.children.Keys - {o} && g.next == f.next
            && (forall c :: c in g.link ==> c < g.next && g.link[c] < g.next)
            && (forall c :: Parent(g, c) == if c == o || Parent(f, c) == Some(o) then None else Parent(f, c))
            && (forall q :: q in g.children ==> Distinct(g.children[q]))
            && (forall q, c :: q in g.children ==> (c in g.children[q] <==> c != o && c in f.children[q]))
  {
    var before := Parent(f.(children := f.children - {o}), o);
    if before.Some? { WithoutKeeps(f.children[before.value], o); }
  }

  lemma UnlinkedLinks(f: Forest, o: nat)
    requires Linked(f) && Alive(f, o)
    ensures Linked(Unlinked(f, o))
    ensures Unlinked(f, o).children.Keys == f.children.Keys - {o}
    ensures forall c :: Parent(Unlinked(f, o), c) == if c == o || Parent(f, c) == Some(o) then None else Parent(f, c)
  {
    UnlinkedFields(f, o);
    hide Unlinked, Distinct;
    var g := Unlinked(f, o);
    forall q, c | q in g.children
      ensures c in g.children[q] <==> Alive(g, c) && Parent(g, c) == Some(q)
    {
      assert c in f.children[q] <==> Alive(f, c) && Parent(f, c) == Some(q);
    }
  }

  /** By then the children cannot reach the object any more: nothing is left to do. */
  lemma {:induction false} OrphanedAlready(f: Forest, children: seq<nat>)
    requires forall c :: c in children ==> Parent(f, c) == None
    ensures Orphaned(f, children) == f
    decreases |children|
  {
    if children != [] { OrphanedAlready(f, children[1..]); }
  }

  lemma DestroyLinks(f: Forest, o: nat)
    requires Linked(f) && Alive(f, o)
    ensures Linked(Destroy(f, o))
    ensures Destroy(f, o).children.Keys == f.children.Keys - {o}
    ensures forall c :: Parent(Destroy(f, o), c) == if c == o || Parent(f, c) == Some(o) then None else Parent(f, c)
  {
    UnlinkedLinks(f, o);
    OrphanedAlready(Unlinked(f, o), f.children[o]);
  }

  function Born(f: Forest): Forest {
    Forest(f.link, f.children[f.next := []], f.next + 1)
  }

  lemma BornLinks(f: Forest)
    requires Linked(f)
    ensures Linked(Born(f)) && forall o :: Parent(Born(f), o) == Parent(f, o)
  {
    var g := Born(f);
    assert forall o :: Parent(g, o) == Parent(f, o);
    assert forall p :: p in g.children ==> Distinct(g.children[p]);
    forall p, c | p in g.children
      ensures c in g.children[p] <==> Alive(g, c) && Parent(g, c) == Some(p)
    {
      if p != f.next { assert c in f.children[p] <==> Alive(f, c) && Parent(f, c) == Some(p); }
    }
  }

  lemma StepLinks(f: Forest, a: Action)
    requires Linked(f) && Allowed(f, a)
    ensures Linked(Step(f, a))
  {
    match a {
      case Create(p) =>
        BornLinks(f);
        SetParentLinks(Born(f), f.next, p);
      case Place(c, p) => SetParentLinks(f, c, p);
      case End(o) => DestroyLinks(f, o);
    }
  }

  /** Whatever is done, and in whatever order, the lists and the links agree. */
  lemma {:induction false} EveryRunLinks(f: Forest, script: seq<Action>, g: Forest)
    requires Linked(f) && Run(f, script, g)
    ensures Linked(g)
    decreases |script|
  {
    if script != [] {
      StepLinks(f, script[0]);
      EveryRunLinks(Step(f, script[0]), script[1..], g);
    }
  }

  // ---- no cycles ----

  /** The ancestors of an object, nearest first. */
  predicate Ancestors(f: Forest, o: nat, a: seq<nat>)
    decreases |a|
  {
    if a == [] then Parent(f, o) == None else Parent(f, o) == Some(a[0]) && Ancestors(f, a[0], a[1..])
  }

  ghost predicate Rooted(f: Forest, o: nat) {
    exists a :: Ancestors(f, o, a)
  }

  /** Every chain of parents comes to an end. */
  ghost predicate IsForest(f: Forest) {
    forall o :: Rooted(f, o)
  }

  lemma {:induction false} OneAncestry(f: Forest, o: nat, a: seq<nat>, b: seq<nat>)
    requires Ancestors(f, o, a) && Ancestors(f, o, b)
    ensures a == b
    decreases |a|
  {
    if a != [] && b != [] {
      OneAncestry(f, a[0], a[1..], b[1..]);
      assert a == [a[0]] + a[1..] && b == [b[0]] + b[1..];
    }
  }

  /** Ancestors that the moved object is not among stay what they were. */
  lemma {:induction false} SameAncestors(f: Forest, g: Forest, c: nat, o: nat, a: seq<nat>)
    requires forall x :: x != c ==> Parent(g, x) == Parent(f, x)
    requires Ancestors(f, o, a) && o != c && c !in a
    ensures Ancestors(g, o, a)
    decreases |a|
  {
    if a != [] { SameAncestors(f, g, c, a[0], a[1..]); }
  }

  /** An object above which the moved one is found, or that is the moved one, is rooted
      again once the moved one is. */
  lemma {:induction false} StillRooted(f: Forest, g: Forest, c: nat, o: nat, a: seq<nat>)
    requires forall x :: x != c ==> Parent(g, x) == Parent(f, x)
    requires Rooted(g, c) && Ancestors(f, o, a)
    ensures Rooted(g, o)
    decreases |a|
  {
    if o != c {
      if a == [] {
        assert Ancestors(g, o, []);
      } else {
        StillRooted(f, g, c, a[0], a[1..]);
        var b :| Ancestors(g, a[0], b);
        assert ([a[0]] + b)[1..] == b && Ancestors(g, o, [a[0]] + b);
      }
    }
  }

  /** A chain that leads from an object up to another continues as that one's does. */
  lemma {:induction false} ChainContinues(f: Forest, g: Forest, c: nat, o: nat, a: seq<nat>, b: seq<nat>)
    requires forall x :: x != c ==> Parent(g, x) == Parent(f, x)
    requires Ancestors(f, o, a) && Ancestors(g, o, b) && (c == o || c in a)
    ensures exists d :: Ancestors(g, c, d) && |d| <= |b|
    decreases |a|
  {
    if c == o {
      assert Ancestors(g, c, b) && |b| <= |b|;
    } else {
      assert c == a[0] || c in a[1..];
      ChainContinues(f, g, c, a[0], a[1..], b[1..]);
      var d :| Ancestors(g, c, d) && |d| <= |b[1..]|;
      assert Ancestors(g, c, d) && |d| <= |b|;
    }
  }

  lemma PlacedOutside(f: Forest, g: Forest, c: nat, p: nat, a: seq<nat>)
    requires forall x :: x != c ==> Parent(g, x) == Parent(f, x)
    requires IsForest(f) && Ancestors(f, p, a) && Parent(g, c) == Some(p) && c != p && c !in a
    ensures IsForest(g)
  {
    SameAncestors(f, g, c, p, a);
    assert ([p] + a)[1..] == a && Ancestors(g, c, [p] + a);
    forall o: nat ensures Rooted(g, o) {
      assert Rooted(f, o);
      var b :| Ancestors(f, o, b);
      StillRooted(f, g, c, o, b);
    }
  }

  lemma PlacedInside(f: Forest, g: Forest, c: nat, p: nat, a: seq<nat>)
    requires forall x :: x != c ==> Parent(g, x) == Parent(f, x)
    requires Ancestors(f, p, a) && Parent(g, c) == Some(p) && (c == p || c in a)
    ensures !Rooted(g, c)
  {
    if Rooted(g, c) {
      var d :| Ancestors(g, c, d);
      ChainContinues(f, g, c, p, a, d[1..]);
      var e :| Ancestors(g, c, e) && |e| <= |d[1..]|;
      OneAncestry(g, c, d, e);
    }
  }

  /** Placing an object keeps a forest a forest exactly if it is not placed under itself
      or one of its descendants. */
  lemma PlacingKeepsForestIff(f: Forest, c: nat, p: nat, a: seq<nat>)
    requires Linked(f) && Alive(f, c) && Alive(f, p)
    requires IsForest(f) && Ancestors(f, p, a)
    ensures IsForest(SetParent(f, c, Some(p))) <==> c != p && c !in a
  {
    var g := SetParent(f, c, Some(p));
    SetParentLinks(f, c, Some(p));
    if c != p && c !in a {
      PlacedOutside(f, g, c, p, a);
    } else {
      PlacedInside(f, g, c, p, a);
    }
  }

  /** Making an object a root, or destroying it, always keeps a forest a forest. */
  lemma {:induction false} CutsKeepRooted(f: Forest, g: Forest, o: nat, a: seq<nat>)
    requires forall x :: Parent(g, x) == None || Parent(g, x) == Parent(f, x)
    requires Ancestors(f, o, a)
    ensures Rooted(g, o)
    decreases |a|
  {
    if Parent(g, o) == None {
      assert Ancestors(g, o, []);
    } else {
      CutsKeepRooted(f, g, a[0], a[1..]);
      var b :| Ancestors(g, a[0], b);
      assert ([a[0]] + b)[1..] == b && Ancestors(g, o, [a[0]] + b);
    }
  }

  lemma CutsKeepForest(f: Forest, g: Forest)
    requires IsForest(f) && forall x :: Parent(g, x) == None || Parent(g, x) == Parent(f, x)
    ensures IsForest(g)
  {
    forall o: nat ensures Rooted(g, o) {
      assert Rooted(f, o);
      var a :| Ancestors(f, o, a);
      CutsKeepRooted(f, g, o, a);
    }
  }

  /** No object is placed under itself or its own descendant. */
  ghost predicate Proper(f: Forest, a: Action) {
    a.Place? && a.p.Some? ==> a.c != a.p.value && forall up :: Ancestors(f, a.p.value, up) ==> a.c !in up
  }

  ghost predicate ProperRun(f: Forest, script: seq<Action>, g: Forest)
    decreases |script|
  {
    if script == [] then f == g
    else Allowed(f, script[0]) && Proper(f, script[0]) && ProperRun(Step(f, script[0]), script[1..], g)
  }

  lemma CreateKeepsForest(f: Forest, p: Option<nat>)
    requires Linked(f) && IsForest(f) && Allowed(f, Create(p))
    ensures IsForest(Step(f, Create(p)))
  {
    var born := Born(f);
    BornLinks(f);
    CutsKeepForest(f, born);
    SetParentLinks(born, f.next, p);
    if p.Some? {
      assert Rooted(born, p.value);
      var up :| Ancestors(born, p.value, up);
      NotYetAbove(f, born, p.value, up);
      PlacingKeepsForestIff(born, f.next, p.value, up);
    } else {
      CutsKeepForest(born, Step(f, Create(p)));
    }
  }

  lemma PlaceKeepsForest(f: Forest, c: nat, p: Option<nat>)
    requires Linked(f) && IsForest(f) && Allowed(f, Place(c, p)) && Proper(f, Place(c, p))
    ensures IsForest(Step(f, Place(c, p)))
  {
    if p.Some? {
      assert Rooted(f, p.value);
      var up :| Ancestors(f, p.value, up);
      PlacingKeepsForestIff(f, c, p.value, up);
    } else {
      SetParentLinks(f, c, p);
      CutsKeepForest(f, Step(f, Place(c, p)));
    }
  }

  lemma StepKeepsForest(f: Forest, a: Action)
    requires Linked(f) && IsForest(f) && Allowed(f, a) && Proper(f, a)
    ensures Linked(Step(f, a)) && IsForest(Step(f, a))
  {
    StepLinks(f, a);
    match a {
      case Create(p) => CreateKeepsForest(f, p);
      case Place(c, p) => PlaceKeepsForest(f, c, p);
      case End(o) =>
        DestroyLinks(f, o);
        CutsKeepForest(f, Step(f, a));
    }
  }

  /** A newborn object is nobody's ancestor. */
  lemma {:induction false} NotYetAbove(f: Forest, born: Forest, o: nat, a: seq<nat>)
    requires Linked(f) && (forall x :: Parent(born, x) == Parent(f, x)) && Ancestors(born, o, a) && Alive(f, o)
    ensures f.next !in a && o != f.next
    decreases |a|
  {
    if a != [] { NotYetAbove(f, born, a[0], a[1..]); }
  }

  /** Every proper run from nothing ends in a forest whose lists and links agree. */
  lemma {:induction false} ProperRunsKeepForest(f: Forest, script: seq<Action>, g: Forest)
    requires Linked(f) && IsForest(f) && ProperRun(f, script, g)
    ensures Linked(g) && IsForest(g)
    decreases |script|
  {
    if script != [] {
      StepKeepsForest(f, script[0]);
      ProperRunsKeepForest(Step(f, script[0]), script[1..], g);
    }
  }

  /** Two placements suffice for a cycle, which no chain of parents leaves. */
  lemma TwoPlacementsMakeACycle()
    ensures var f := Step(Step(EMPTY, Create(None)), Create(Some(0)));
            && Linked(f) && IsForest(f) && Allowed(f, Place(0, Some(1)))
            && !IsForest(Step(f, Place(0, Some(1))))
  {
    var one := Step(EMPTY, Create(None));
    var f := Step(one, Create(Some(0)));
    assert Allowed(EMPTY, Create(None)) && Allowed(one, Create(Some(0)));
    forall o: nat ensures Rooted(EMPTY, o) { assert Ancestors(EMPTY, o, []); }
    StepKeepsForest(EMPTY, Create(None));
    StepKeepsForest(one, Create(Some(0)));
    assert Parent(f, 1) == Some(0) && Parent(f, 0) == None;
    assert Ancestors(f, 0, []) && [0][1..] == [] && Ancestors(f, 1, [0]);
    PlacingKeepsForestIff(f, 0, 1, [0]);
  }

  // ---- events ----

  /** An object is asked to filter the event of a child, or gets the event itself. */
  datatype Visit = Filter(self: nat, child: Option<nat>) | Receive(self: nat)

  /** Everybody an unaccepted event comes to on its way up. */
  function Way(child: Option<nat>, up: seq<nat>): seq<Visit>
    decreases |up|
  {
    if up == [] then [] else [Filter(up[0], child), Receive(up[0])] + Way(Some(up[0]), up[1..])
  }

  /** The visits up to and including the first that accepts. */
  function UntilAccepted(way: seq<Visit>, accepting: set<Visit>): seq<Visit> {
    if way == [] then [] else if way[0] in accepting then [way[0]]
    else [way[0]] + UntilAccepted(way[1..], accepting)
  }

  lemma {:induction false} UntilAcceptedIs(way: seq<Visit>, accepting: set<Visit>)
    ensures var r := UntilAccepted(way, accepting);
            && r <= way && (forall i :: 0 <= i < |r| - 1 ==> r[i] !in accepting)
            && (r == way || (r != [] && r[|r| - 1] in accepting))
  {
    if way != [] && way[0] !in accepting { UntilAcceptedIs(way[1..], accepting); }
  }

  /** The objects of a program, and the fields their methods change. */
  class Objects {
    var link: map<nat, nat>
    var children: map<nat, seq<nat>>
    var next: nat

    ghost function State(): Forest
      reads this
    {
      Forest(link, children, next)
    }

    constructor ()
      ensures State() == EMPTY
    {
      link, children, next := map[], map[], 0;
    }

    method GetParent(o: nat) returns (p: Option<nat>)
      ensures p == Parent(State(), o)
    {
      p := if o in link && link[o] in children then Some(link[o]) else None;
    }

    method AddChildTo(p: nat, c: nat)
      modifies this`children
      ensures State() == AddChild(old(State()), p, c)
    {
      if p !in children { return; }
      if c !in children[p] {
        children := children[p := children[p] + [c]];
      }
    }

    method RemoveChildFrom(p: nat, c: nat)
      modifies this`children
      ensures State() == RemoveChild(old(State()), p, c)
    {
      if p in children {
        children := children[p := Without(children[p], c)];
      }
    }

    method SetParentOf(c: nat, p: Option<nat>)
      modifies this`link, this`children
      ensures State() == SetParent(old(State()), c, p)
    {
      var before := GetParent(c);
      if before == p { return; }
      link := if p.Some? then link[c := p.value] else link - {c};
      if before.Some? { RemoveChildFrom(before.value, c); }
      if p.Some? { AddChildTo(p.value, c); }
    }

    /** `cleanup_on_destroy`. */
    method CleanUp(o: nat)
      requires o in children
      modifies this`link, this`children
      ensures State() == Destroy(old(State()), o)
    {
      var toCleanUp := children[o];
      children := children - {o};
      var parent := GetParent(o);
      link := link - {o};
      if parent.Some? { RemoveChildFrom(parent.value, o); }
      var i := 0;
      while i < |toCleanUp|
        invariant i <= |toCleanUp| && next == old(next)
        invariant Orphaned(State(), toCleanUp[i..]) == Destroy(old(State()), o)
      {
        assert toCleanUp[i..][1..] == toCleanUp[i + 1..];
        SetParentOf(toCleanUp[i], None);
        i := i + 1;
      }
    }

    /** `propagate_event_from_child`: filters, the event itself, and then the parent, for
        as long as nobody accepts. In a forest it ends. */
    method Propagate(self: nat, child: Option<nat>, accepting: set<Visit>, ghost up: seq<nat>)
      returns (visits: seq<Visit>)
      requires Ancestors(State(), self, up)
      ensures visits == UntilAccepted(Way(child, [self] + up), accepting)
      decreases |up|
    {
      ghost var rest := Way(Some(self), up);
      assert ([self] + up)[1..] == up;
      assert Way(child, [self] + up) == [Filter(self, child)] + ([Receive(self)] + rest);
      assert ([Filter(self, child)] + ([Receive(self)] + rest))[1..] == [Receive(self)] + rest;
      assert ([Receive(self)] + rest)[1..] == rest;
      visits := [Filter(self, child)];
      if Filter(self, child) in accepting { return; }
      visits := visits + [Receive(self)];
      if Receive(self) in accepting { return; }
      var parent := GetParent(self);
      if parent.None? {
        assert UntilAccepted([Receive(self)] + rest, accepting) == [Receive(self)] + UntilAccepted(rest, accepting);
        return;
      }
      var above := Propagate(parent.value, Some(self), accepting, up[1..]);
      assert [up[0]] + up[1..] == up;
      visits := visits + above;
    }
  }
}
