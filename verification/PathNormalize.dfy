/** Normalising a list of path components. The loop keeps a stack of components and
    drops or cancels the dots; its result is characterised by what it may contain, by
    being a fixed point, and by leading to the same directory as the path itself, from
    every directory in which it may be resolved. */
module PathNormalize {
  const DOT := "."
  const DOTDOT := ".."

  /** A component that names a directory entry; the others are dots, nothing, or the
      root directory's slash. */
  predicate IsName(part: string) {
    part != "" && part != DOT && part != DOTDOT && part != "/"
  }

  /** What one component does to those kept so far. */
  function Step(kept: seq<string>, part: string, absolute: bool): seq<string> {
    if part == DOTDOT then
      if kept != [] && kept[|kept| - 1] != DOTDOT then kept[..|kept| - 1]
      else if absolute then kept else kept + [DOTDOT]
    else if IsName(part) then kept + [part]
    else kept
  }

  function Kept(kept: seq<string>, parts: seq<string>, absolute: bool): seq<string>
    decreases |parts|
  {
    if parts == [] then kept else Kept(Step(kept, parts[0], absolute), parts[1..], absolute)
  }

  /** The components of the normalised path, after the root of an absolute one. */
  function Normalize(parts: seq<string>, absolute: bool): seq<string> {
    var kept := Kept([], parts, absolute);
    if kept == [] && !absolute then [DOT] else kept
  }

  method NormalizeParts(parts: seq<string>, absolute: bool) returns (result: seq<string>)
    ensures result == Normalize(parts, absolute)
  {
    var elements: seq<string> := [];
    var i := 0;
    while i < |parts|
      invariant i <= |parts| && Kept([], parts, absolute) == Kept(elements, parts[i..], absolute)
    {
      assert parts[i..][1..] == parts[i + 1..];
      var part := parts[i];
      i := i + 1;
      if part == DOT { continue; }
      if part == DOTDOT {
        if elements != [] && elements[|elements| - 1] != DOTDOT {
          elements := elements[..|elements| - 1];
        } else if !absolute {
          elements := elements + [DOTDOT];
        }
        continue;
      }
      if part != "" && part != "/" { elements := elements + [part]; }
    }
    result := if elements == [] && !absolute then [DOT] else elements;
  }

  // ---- the form of the result ----

  /** Names only, after a run of `..` that only a relative path may have. */
  predicate Canonical(kept: seq<string>, absolute: bool) {
    kept != [] ==>
      if kept[0] == DOTDOT then !absolute && Canonical(kept[1..], absolute) else AllNames(kept)
  }

  predicate AllNames(kept: seq<string>) {
    kept != [] ==> IsName(kept[0]) && AllNames(kept[1..])
  }

  lemma {:induction false} NamesSnoc(kept: seq<string>, part: string)
    requires AllNames(kept) && IsName(part)
    ensures AllNames(kept + [part])
  {
    if kept == [] {
      assert kept + [part] == [part];
    } else {
      assert (kept + [part])[1..] == kept[1..] + [part];
      NamesSnoc(kept[1..], part);
    }
  }

  lemma {:induction false} NamesFront(kept: seq<string>)
    requires AllNames(kept) && kept != []
    ensures AllNames(kept[..|kept| - 1]) && IsName(kept[|kept| - 1])
  {
    if |kept| > 1 {
      NamesFront(kept[1..]);
      assert kept[..|kept| - 1][1..] == kept[1..][..|kept| - 2];
    }
  }

  lemma {:induction false} StepCanonical(kept: seq<string>, part: string, absolute: bool)
    requires Canonical(kept, absolute)
    ensures Canonical(Step(kept, part, absolute), absolute)
  {
    if kept == [] {
      if part == DOTDOT && !absolute { assert [DOTDOT][1..] == []; }
      if IsName(part) { assert AllNames([part]) by { assert [part][1..] == []; } }
    } else if kept[0] == DOTDOT {
      StepCanonical(kept[1..], part, absolute);
      StepBehind(kept, part, absolute);
    } else if part == DOTDOT {
      NamesFront(kept);
    } else if IsName(part) {
      NamesSnoc(kept, part);
    }
  }

  /** A leading `..` stays where it is. */
  lemma StepBehind(kept: seq<string>, part: string, absolute: bool)
    requires kept != [] && kept[0] == DOTDOT && !absolute
    ensures Step(kept, part, absolute) == [DOTDOT] + Step(kept[1..], part, absolute)
  {
    assert kept == [DOTDOT] + kept[1..];
  }

  lemma {:induction false} KeptCanonical(kept: seq<string>, parts: seq<string>, absolute: bool)
    requires Canonical(kept, absolute)
    ensures Canonical(Kept(kept, parts, absolute), absolute)
    decreases |parts|
  {
    if parts != [] {
      StepCanonical(kept, parts[0], absolute);
      KeptCanonical(Step(kept, parts[0], absolute), parts[1..], absolute);
    }
  }

  /** The result holds no `.`, and `..` only in front of a relative path; only the
      empty relative path is written as a single dot. */
  lemma NormalizedForm(parts: seq<string>, absolute: bool)
    ensures var r := Normalize(parts, absolute);
            Canonical(r, absolute) || (r == [DOT] && !absolute)
  {
    KeptCanonical([], parts, absolute);
  }

  // ---- normalising again changes nothing ----

  lemma {:induction false} CanonicalKept(done: seq<string>, rest: seq<string>, absolute: bool)
    requires Canonical(done + rest, absolute)
    ensures Kept(done, rest, absolute) == done + rest
    decreases |rest|
  {
    if rest == [] {
      assert done + rest == done;
    } else {
      var more := done + [rest[0]];
      assert more + rest[1..] == done + rest;
      NextIsKept(done, rest, absolute);
      CanonicalKept(more, rest[1..], absolute);
    }
  }

  lemma {:induction false} NextIsKept(done: seq<string>, rest: seq<string>, absolute: bool)
    requires Canonical(done + rest, absolute) && rest != []
    ensures Step(done, rest[0], absolute) == done + [rest[0]]
    decreases |done|
  {
    if done == [] {
      assert done + rest == rest;
    } else if done[0] == DOTDOT {
      assert (done + rest)[1..] == done[1..] + rest;
      NextIsKept(done[1..], rest, absolute);
      StepBehind(done, rest[0], absolute);
      assert [DOTDOT] + (done[1..] + [rest[0]]) == done + [rest[0]];
    } else {
      NameAt(done + rest, |done|);
    }
  }

  lemma {:induction false} NameAt(kept: seq<string>, i: nat)
    requires AllNames(kept) && i < |kept|
    ensures IsName(kept[i])
  {
    if i > 0 { NameAt(kept[1..], i - 1); }
  }

  lemma NormalizeIsIdempotent(parts: seq<string>, absolute: bool)
    ensures Normalize(Normalize(parts, absolute), absolute) == Normalize(parts, absolute)
  {
    var r := Normalize(parts, absolute);
    NormalizedForm(parts, absolute);
    if Canonical(r, absolute) {
      assert [] + r == r;
      CanonicalKept([], r, absolute);
    } else {
      assert Kept([], [DOT], absolute) == Kept([], [], absolute) by { assert [DOT][1..] == []; }
    }
  }

  // ---- the result leads to the same directory ----

  /** One component followed from a directory, given by its names from the root. The
      root is its own parent, and there are no links. */
  function Walk(dir: seq<string>, part: string): seq<string> {
    if part == DOTDOT then (if dir == [] then [] else dir[..|dir| - 1])
    else if IsName(part) then dir + [part]
    else dir
  }

  function Resolve(dir: seq<string>, parts: seq<string>): seq<string>
    decreases |parts|
  {
    if parts == [] then dir else Resolve(Walk(dir, parts[0]), parts[1..])
  }

  lemma {:induction false} ResolveConcat(dir: seq<string>, a: seq<string>, b: seq<string>)
    ensures Resolve(dir, a + b) == Resolve(Resolve(dir, a), b)
    decreases |a|
  {
    if a == [] {
      assert a + b == b;
    } else {
      assert (a + b)[0] == a[0] && (a + b)[1..] == a[1..] + b;
      ResolveConcat(Walk(dir, a[0]), a[1..], b);
    }
  }

  lemma ResolveOne(dir: seq<string>, kept: seq<string>, part: string)
    ensures Resolve(dir, kept + [part]) == Walk(Resolve(dir, kept), part)
  {
    ResolveConcat(dir, kept, [part]);
    assert [part][1..] == [];
  }

  /** A step leads where its component leads. */
  lemma StepResolves(dir: seq<string>, kept: seq<string>, part: string, absolute: bool)
    requires Canonical(kept, absolute) && (absolute ==> dir == [])
    ensures Resolve(dir, Step(kept, part, absolute)) == Walk(Resolve(dir, kept), part)
  {
    ResolveOne(dir, kept, part);
    if part == DOTDOT {
      if kept != [] && kept[|kept| - 1] != DOTDOT {
        var front, last := kept[..|kept| - 1], kept[|kept| - 1];
        assert front + [last] == kept;
        LastIsName(kept, absolute);
        ResolveOne(dir, front, last);
        var d := Resolve(dir, front);
        assert (d + [last])[..|d|] == d;
      } else if absolute {
        AbsoluteHasNoDots(kept);
      }
    }
  }

  lemma {:induction false} LastIsName(kept: seq<string>, absolute: bool)
    requires Canonical(kept, absolute) && kept != [] && kept[|kept| - 1] != DOTDOT
    ensures IsName(kept[|kept| - 1])
  {
    if kept[0] == DOTDOT { LastIsName(kept[1..], absolute); } else { NameAt(kept, |kept| - 1); }
  }

  lemma AbsoluteHasNoDots(kept: seq<string>)
    requires Canonical(kept, true) && (kept == [] || kept[|kept| - 1] == DOTDOT)
    ensures kept == []
  {
    if kept != [] { NameAt(kept, |kept| - 1); }
  }

  lemma {:induction false} KeptResolves(dir: seq<string>, kept: seq<string>, parts: seq<string>, absolute: bool)
    requires Canonical(kept, absolute) && (absolute ==> dir == [])
    ensures Resolve(dir, Kept(kept, parts, absolute)) == Resolve(Resolve(dir, kept), parts)
    decreases |parts|
  {
    if parts != [] {
      StepCanonical(kept, parts[0], absolute);
      StepResolves(dir, kept, parts[0], absolute);
      KeptResolves(dir, Step(kept, parts[0], absolute), parts[1..], absolute);
    }
  }

  /** From every directory, or from the root for an absolute path, the normalised path
      leads where the path itself leads. */
  lemma NormalizeResolves(dir: seq<string>, parts: seq<string>, absolute: bool)
    requires absolute ==> dir == []
    ensures Resolve(dir, Normalize(parts, absolute)) == Resolve(dir, parts)
  {
    KeptResolves(dir, [], parts, absolute);
    if Kept([], parts, absolute) == [] && !absolute {
      assert [DOT][1..] == [] && Walk(dir, DOT) == dir;
      assert Resolve(dir, [DOT]) == dir;
    }
  }
}
