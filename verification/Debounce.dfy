/** The debouncers as functions of the samples they have been given so far. `Settled` is
    what the two counting debouncers return: the value of the latest run of equal
    samples that reached its threshold. The two windowed ones return a trimmed mean and
    a middle order statistic of the last samples, which are characterised without
    sorting: by sums and extremes, and by how many samples lie below a value and not
    above it. Each class keeps the program's fields beside the history that its contract
    speaks of, as a ghost field. */
module Debounce {
  import opened Options

  // ---- runs of equal samples ----

  /** The length of the run of equal samples that a history ends with. */
  function TrailingRun(h: seq<int>): (n: nat)
    ensures n <= |h| && (h != [] ==> n > 0)
    decreases |h|
  {
    if h == [] then 0
    else if |h| > 1 && h[|h| - 2] == h[|h| - 1] then 1 + TrailingRun(h[..|h| - 1])
    else 1
  }

  /** How long a run of a value has to be: zeros have a threshold of their own. */
  function Threshold(x: int, low: int, high: int): int {
    if x == 0 then low else high
  }

  /** Which samples there are: any number, or just the two levels. */
  datatype Samples = Numbers | Levels

  /** Whether a long enough run of `x` is taken over, after `before` has settled. Until
      something has settled -1 stands for nothing; a level is 0 or 1. */
  predicate MaySettle(samples: Samples, x: int, before: Option<int>) {
    if samples.Levels? then x == 0 || x == 1 else x != -1 || before.Some?
  }

  /** The value of the latest run that reached its threshold. */
  function Settled(samples: Samples, h: seq<int>, low: int, high: int): Option<int>
    decreases |h|
  {
    if h == [] then None
    else
      var before := Settled(samples, h[..|h| - TrailingRun(h)], low, high);
      if TrailingRun(h) >= Threshold(h[|h| - 1], low, high) && MaySettle(samples, h[|h| - 1], before) then
        Some(h[|h| - 1])
      else before
  }

  lemma RunGrows(h: seq<int>, x: int)
    ensures TrailingRun(h + [x]) == if h != [] && h[|h| - 1] == x then TrailingRun(h) + 1 else 1
  {
    assert (h + [x])[..|h|] == h;
  }

  /** A sample settles its own run, or leaves things as they were. */
  lemma SettledGrows(samples: Samples, h: seq<int>, x: int, low: int, high: int)
    ensures Settled(samples, h + [x], low, high)
         == if TrailingRun(h + [x]) >= Threshold(x, low, high) && MaySettle(samples, x, Settled(samples, h, low, high))
            then Some(x) else Settled(samples, h, low, high)
  {
    var more := h + [x];
    var n := TrailingRun(more);
    RunGrows(h, x);
    hide TrailingRun, MaySettle, Threshold;
    if n == 1 {
      assert more[..|more| - n] == h;
    } else {
      assert more[..|more| - n] == h[..|h| - TrailingRun(h)];
    }
  }

  class Continue {
    const count: int
    var stable: int
    var unstable: int
    var unstableCount: int
    var isValid: bool
    ghost var history: seq<int>

    ghost predicate Valid()
      reads this
    {
      var settled := Settled(Numbers, history, count, count);
      && count > 0
      && isValid == settled.Some? && stable == (if isValid then settled.value else -1)
      && unstable == (if history == [] then -1 else history[|history| - 1])
      && unstableCount == (if history == [] || unstable == stable then 0 else TrailingRun(history))
    }

    constructor (count: int)
      requires count > 0
      ensures Valid() && history == [] && this.count == count
    {
      this.count := count;
      stable, unstable, unstableCount, isValid, history := -1, -1, 0, false, [];
    }

    /** The value of the latest run of at least `count` equal samples. */
    method GetDebounceVal(x: int) returns (r: Option<int>)
      requires Valid()
      modifies this
      ensures Valid() && history == old(history) + [x] && r == Settled(Numbers, history, count, count)
    {
      SettledGrows(Numbers, history, x, count, count);
      RunGrows(history, x);
      hide TrailingRun, Settled;
      assert history + [x] != [] && (history + [x])[|history|] == x;
      history := history + [x];
      if stable == x {
        unstable := stable;
        unstableCount := 0;
      } else if unstable == x {
        unstableCount := unstableCount + 1;
      } else {
        unstable := x;
        unstableCount := 1;
      }
      if unstableCount >= count {
        stable := unstable;
        unstableCount := 0;
        isValid := true;
      }
      r := if isValid then Some(stable) else None;
    }
  }

  class BinaryContinue {
    const highCount: int
    const lowCount: int
    var stable: int
    var unstable: int
    var unstableCount: int
    var isValid: bool
    ghost var history: seq<int>

    ghost predicate Valid()
      reads this
    {
      var settled := Settled(Levels, history, lowCount, highCount);
      && highCount > 0 && lowCount > 0
      && isValid == settled.Some? && stable == (if isValid then settled.value else -1)
      && unstableCount == (if history == [] || history[|history| - 1] == stable then 0 else TrailingRun(history))
      && (history != [] && history[|history| - 1] != stable ==> unstable == history[|history| - 1])
    }

    constructor (highCount: int, lowCount: int)
      requires highCount > 0 && lowCount > 0
      ensures Valid() && history == [] && this.highCount == highCount && this.lowCount == lowCount
    {
      this.highCount, this.lowCount := highCount, lowCount;
      stable, unstable, unstableCount, isValid, history := -1, 0, 0, false, [];
    }

    /** The value of the latest run that reached the threshold of its level. */
    method GetDebounceVal(x: int) returns (r: Option<int>)
      requires Valid()
      modifies this
      ensures Valid() && history == old(history) + [x] && r == Settled(Levels, history, lowCount, highCount)
    {
      SettledGrows(Levels, history, x, lowCount, highCount);
      RunGrows(history, x);
      hide TrailingRun, Settled;
      history := history + [x];
      if stable != x {
        if unstable == x {
          unstableCount := unstableCount + 1;
        } else {
          unstable := x;
          unstableCount := 1;
        }
      } else {
        unstableCount := 0;
      }
      if (unstable == 0 && unstableCount >= lowCount) || (unstable == 1 && unstableCount >= highCount) {
        stable := unstable;
        unstableCount := 0;
        isValid := true;
      }
      r := if isValid then Some(stable) else None;
    }
  }

  // ---- windows ----

  function Signed(x: int): int {
    if x > 127 then x - 256 else x
  }

  function SignedAll(h: seq<int>, isSigned: bool): (r: seq<int>)
    ensures |r| == |h|
  {
    if h == [] then []
    else SignedAll(h[..|h| - 1], isSigned) + [if isSigned then Signed(h[|h| - 1]) else h[|h| - 1]]
  }

  /** The last samples, as many as there are up to the window's size. */
  function Window(h: seq<int>, size: nat, isSigned: bool): seq<int> {
    var s := SignedAll(h, isSigned);
    if |s| <= size then s else s[|s| - size..]
  }

  function AdjustSigned(v: int, isSigned: bool): int {
    if isSigned && v < 0 then v + 256 else v
  }

  function Sum(s: seq<int>): int {
    if s == [] then 0 else s[0] + Sum(s[1..])
  }

  function Least(s: seq<int>): int
    requires s != []
  {
    if |s| == 1 then s[0] else if s[0] < Least(s[1..]) then s[0] else Least(s[1..])
  }

  function Most(s: seq<int>): int
    requires s != []
  {
    if |s| == 1 then s[0] else if s[0] > Most(s[1..]) then s[0] else Most(s[1..])
  }

  /** Division as the program's integers do it, towards zero. */
  function Quotient(a: int, b: int): int
    requires b > 0
  {
    if a >= 0 then a / b else -(-a / b)
  }

  // ---- sorting ----

  function InsertSorted(x: int, s: seq<int>): (r: seq<int>)
    ensures |r| == |s| + 1
  {
    if s == [] || x <= s[0] then [x] + s else [s[0]] + InsertSorted(x, s[1..])
  }

  function Sort(s: seq<int>): (r: seq<int>)
    ensures |r| == |s|
  {
    if s == [] then [] else InsertSorted(s[0], Sort(s[1..]))
  }

  predicate IsSorted(s: seq<int>) {
    |s| > 1 ==> s[0] <= s[1] && IsSorted(s[1..])
  }

  lemma {:induction false} InsertKeepsSorted(x: int, s: seq<int>)
    requires IsSorted(s)
    ensures IsSorted(InsertSorted(x, s))
  {
    if s == [] || x <= s[0] {
      assert ([x] + s)[1..] == s;
    } else {
      InsertKeepsSorted(x, s[1..]);
      assert ([s[0]] + InsertSorted(x, s[1..]))[1..] == InsertSorted(x, s[1..]);
    }
  }

  lemma {:induction false} SortSorts(s: seq<int>)
    ensures IsSorted(Sort(s))
  {
    if s != [] {
      SortSorts(s[1..]);
      InsertKeepsSorted(s[0], Sort(s[1..]));
    }
  }

  lemma {:induction false} InsertSum(x: int, s: seq<int>)
    ensures Sum(InsertSorted(x, s)) == x + Sum(s)
  {
    if s == [] || x <= s[0] {
      assert ([x] + s)[1..] == s;
    } else {
      InsertSum(x, s[1..]);
      assert ([s[0]] + InsertSorted(x, s[1..]))[1..] == InsertSorted(x, s[1..]);
    }
  }

  lemma {:induction false} SortSum(s: seq<int>)
    ensures Sum(Sort(s)) == Sum(s)
  {
    if s != [] {
      SortSum(s[1..]);
      InsertSum(s[0], Sort(s[1..]));
    }
  }

  /** How many values lie below a bound, and how many do not lie above it. */
  function Below(s: seq<int>, v: int): nat {
    if s == [] then 0 else (if s[0] < v then 1 else 0) + Below(s[1..], v)
  }

  function AtMost(s: seq<int>, v: int): nat {
    if s == [] then 0 else (if s[0] <= v then 1 else 0) + AtMost(s[1..], v)
  }

  lemma {:induction false} InsertCounts(x: int, s: seq<int>, v: int)
    ensures Below(InsertSorted(x, s), v) == Below(s, v) + if x < v then 1 else 0
    ensures AtMost(InsertSorted(x, s), v) == AtMost(s, v) + if x <= v then 1 else 0
  {
    if s == [] || x <= s[0] {
      assert ([x] + s)[1..] == s;
    } else {
      InsertCounts(x, s[1..], v);
      assert ([s[0]] + InsertSorted(x, s[1..]))[1..] == InsertSorted(x, s[1..]);
    }
  }

  lemma {:induction false} SortCounts(s: seq<int>, v: int)
    ensures Below(Sort(s), v) == Below(s, v) && AtMost(Sort(s), v) == AtMost(s, v)
  {
    if s != [] {
      SortCounts(s[1..], v);
      InsertCounts(s[0], Sort(s[1..]), v);
    }
  }

  /** The value at place `k` of a sorted sequence has at most `k` values below it, and
      more than `k` not above it. */
  lemma {:induction false} SortedPlace(s: seq<int>, k: nat)
    requires IsSorted(s) && k < |s|
    ensures Below(s, s[k]) <= k < AtMost(s, s[k])
    ensures s[0] <= s[k]
  {
    if k == 0 {
      NoneBelow(s, s[0]);
    } else {
      SortedPlace(s[1..], k - 1);
    }
  }

  lemma {:induction false} NoneBelow(s: seq<int>, v: int)
    requires IsSorted(s) && (s != [] ==> v <= s[0])
    ensures Below(s, v) == 0
  {
    if s != [] { NoneBelow(s[1..], v); }
  }

  /** The `k`-th smallest value of a window: at most `k` lie below it, more than `k`
      not above it. */
  ghost predicate IsOrderStatistic(s: seq<int>, k: nat, v: int) {
    Below(s, v) <= k < AtMost(s, v)
  }

  lemma {:induction false} BelowAtMost(s: seq<int>, v: int, w: int)
    requires v < w
    ensures AtMost(s, v) <= Below(s, w)
  {
    if s != [] { BelowAtMost(s[1..], v, w); }
  }

  lemma SortedMiddle(w: seq<int>, k: nat)
    requires k < |w|
    ensures IsOrderStatistic(w, k, Sort(w)[k])
  {
    SortSorts(w);
    SortedPlace(Sort(w), k);
    SortCounts(w, Sort(w)[k]);
  }

  /** There is only one. */
  lemma OrderStatisticUnique(s: seq<int>, k: nat, v: int, w: int)
    requires IsOrderStatistic(s, k, v) && IsOrderStatistic(s, k, w)
    ensures v == w
  {
    if v < w { BelowAtMost(s, v, w); } else if w < v { BelowAtMost(s, w, v); }
  }

  // ---- the trimmed sum ----

  lemma {:induction false} InsertEnds(x: int, s: seq<int>)
    requires s != []
    ensures var r := InsertSorted(x, s);
            && r[0] == (if x <= s[0] then x else s[0])
            && (IsSorted(s) ==> r[|r| - 1] == if x > s[|s| - 1] then x else s[|s| - 1])
  {
    if x > s[0] && |s| > 1 { InsertEnds(x, s[1..]); }
    if x <= s[0] && IsSorted(s) { SortedPlace(s, |s| - 1); }
  }

  lemma {:induction false} SortEnds(s: seq<int>)
    requires s != []
    ensures Sort(s)[0] == Least(s) && Sort(s)[|s| - 1] == Most(s)
  {
    if |s| > 1 {
      SortEnds(s[1..]);
      SortSorts(s[1..]);
      InsertEnds(s[0], Sort(s[1..]));
    } else {
      assert s[1..] == [] && Sort(s) == [s[0]];
    }
  }

  lemma {:induction false} SumSnoc(s: seq<int>, x: int)
    ensures Sum(s + [x]) == Sum(s) + x
  {
    if s == [] {
      assert s + [x] == [x] && [x][1..] == [];
    } else {
      assert (s + [x])[1..] == s[1..] + [x];
      SumSnoc(s[1..], x);
    }
  }

  /** What is left of a window without its least and its greatest value. */
  lemma TrimmedSum(w: seq<int>)
    requires |w| >= 2
    ensures var s := Sort(w); Sum(s[1..|s| - 1]) == Sum(w) - Least(w) - Most(w)
  {
    var s := Sort(w);
    var middle := s[1..|s| - 1];
    SortSum(w);
    SortEnds(w);
    assert s[1..] == middle + [s[|s| - 1]];
    SumSnoc(middle, s[|s| - 1]);
  }

  lemma {:induction false} WithinBounds(s: seq<int>, lo: int, hi: int)
    requires forall i :: 0 <= i < |s| ==> lo <= s[i] <= hi
    ensures |s| * lo <= Sum(s) <= |s| * hi
  {
    if s != [] { WithinBounds(s[1..], lo, hi); }
  }

  lemma MeanWithin(sum: int, n: int, lo: int, hi: int)
    requires n > 0 && n * lo <= sum <= n * hi
    ensures lo <= Quotient(sum, n) <= hi
  {
    if sum >= 0 { Floors(sum, n, lo, hi); } else { Floors(-sum, n, -hi, -lo); }
  }

  lemma Floors(a: int, n: int, lo: int, hi: int)
    requires n > 0 && a >= 0 && n * lo <= a <= n * hi
    ensures lo <= a / n <= hi
  {
    var q := a / n;
    assert n * q <= a < n * q + n;
    if q < lo { Scales(n, q + 1, lo); }
    if q > hi { Scales(n, hi + 1, q); }
  }

  lemma Scales(n: int, a: int, b: int)
    requires n > 0 && a <= b
    ensures n * a <= n * b
  {
  }

  lemma {:induction false} SortedBetween(s: seq<int>, k: nat)
    requires IsSorted(s) && k < |s|
    ensures s[0] <= s[k] <= s[|s| - 1]
  {
    SortedPlace(s, k);
    if k > 0 { SortedBetween(s[1..], k - 1); } else if |s| > 1 { SortedBetween(s[1..], |s| - 2); }
  }

  /** The mean of a window of the given size: trimmed from three samples on. */
  function MeanOf(w: seq<int>): int
    requires w != []
  {
    if |w| < 3 then Quotient(Sum(w), |w|) else Quotient(Sum(w) - Least(w) - Most(w), |w| - 2)
  }

  /** The trimmed mean lies between the least and the greatest sample. */
  lemma TrimmedMeanBetween(w: seq<int>)
    requires |w| >= 3
    ensures Least(w) <= MeanOf(w) <= Most(w)
  {
    var s := Sort(w);
    SortSorts(w);
    SortEnds(w);
    TrimmedSum(w);
    forall k | 0 <= k < |s| ensures Least(w) <= s[k] <= Most(w) { SortedBetween(s, k); }
    WithinBounds(s[1..|s| - 1], Least(w), Most(w));
    MeanWithin(Sum(w) - Least(w) - Most(w), |w| - 2, Least(w), Most(w));
  }

  lemma WindowMoves(h: seq<int>, x: int, size: nat, isSigned: bool)
    requires size > 0
    ensures var more := Window(h, size, isSigned) + [if isSigned then Signed(x) else x];
            Window(h + [x], size, isSigned) == if |more| > size then more[1..] else more
  {
    assert (h + [x])[..|h|] == h;
  }

  class Average {
    const size: int
    const isSigned: bool
    var data: seq<int>
    ghost var history: seq<int>

    ghost predicate Valid()
      reads this
    {
      size > 0 && data == Window(history, size, isSigned)
    }

    constructor (size: int, isSigned: bool)
      requires size > 0
      ensures Valid() && history == [] && this.size == size && this.isSigned == isSigned
    {
      this.size, this.isSigned := size, isSigned;
      data, history := [], [];
    }

    /** Takes a sample in, and drops the oldest one from a full window. */
    method Push(raw: int)
      requires Valid()
      modifies this
      ensures Valid() && history == old(history) + [raw]
    {
      WindowMoves(history, raw, size, isSigned);
      history := history + [raw];
      var x := if isSigned && raw > 127 then raw - 256 else raw;
      data := data + [x];
      if |data| > size { data := data[1..]; }
    }

    /** The mean of a full window, by sorting a copy and leaving its ends out. */
    method Mean() returns (value: int)
      requires size > 0 && |data| == size
      ensures value == MeanOf(data)
    {
      if size < 3 {
        value := Quotient(Sum(data), size);
      } else {
        var values := Sort(data);
        TrimmedSum(data);
        value := Quotient(Sum(values[1..|values| - 1]), size - 2);
      }
    }

    /** The mean of the last samples, once there are enough of them. */
    method GetDebounceVal(raw: int) returns (r: Option<int>)
      requires Valid()
      modifies this
      ensures Valid() && history == old(history) + [raw]
      ensures r == if |history| < size then None
                   else Some(AdjustSigned(MeanOf(Window(history, size, isSigned)), isSigned))
    {
      Push(raw);
      if |data| < size { return None; }
      var value := Mean();
      r := Some(AdjustSigned(value, isSigned));
    }
  }

  class Median {
    const size: int
    const isSigned: bool
    var data: seq<int>
    ghost var history: seq<int>

    ghost predicate Valid()
      reads this
    {
      size >= 3 && data == Window(history, size, isSigned)
    }

    constructor (size: int, isSigned: bool)
      requires size >= 3
      ensures Valid() && history == [] && this.size == size && this.isSigned == isSigned
    {
      this.size, this.isSigned := size, isSigned;
      data, history := [], [];
    }

    /** Takes a sample in, and drops the oldest one from a full window. */
    method Push(raw: int)
      requires Valid()
      modifies this
      ensures Valid() && history == old(history) + [raw]
    {
      WindowMoves(history, raw, size, isSigned);
      history := history + [raw];
      var x := if isSigned && raw > 127 then raw - 256 else raw;
      data := data + [x];
      if |data| > size { data := data[1..]; }
    }

    /** The middle order statistic of the last samples, once there are enough. */
    method GetDebounceVal(raw: int) returns (r: Option<int>)
      requires Valid()
      modifies this
      ensures Valid() && history == old(history) + [raw]
      ensures |history| < size ==> r.None?
      ensures |history| >= size ==>
                exists v :: r == Some(AdjustSigned(v, isSigned))
                            && IsOrderStatistic(Window(history, size, isSigned), 1 + (size - 2) / 2, v)
    {
      Push(raw);
      if |data| < size { return None; }
      SortedMiddle(data, 1 + (size - 2) / 2);
      var values := Sort(data);
      values := values[1..|values| - 1];
      var value := values[|values| / 2];
      assert value == Sort(data)[1 + (size - 2) / 2];
      assert IsOrderStatistic(Window(history, size, isSigned), 1 + (size - 2) / 2, value);
      r := Some(AdjustSigned(value, isSigned));
    }
  }
}
