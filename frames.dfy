/**
  The few table primitives the dashboard borrows from its dataframe library,
  restated over plain sequences:
  - a boolean mask (`df[mask]`, `dropna`) keeps the rows that satisfy a
    predicate, in their original order;
  - `unique()` lists the distinct values in order of first appearance;
  - `mean()` is the exact sum divided by the count, and is missing (NaN) on
    an empty column.
 */
module Frames {
  import opened Wrappers

  // ---------------------------------------------------------------------------
  // Order-preserving selection
  // ---------------------------------------------------------------------------

  /** `a` can be obtained from `b` by deleting elements, without reordering. */
  ghost predicate IsSubsequence<T>(a: seq<T>, b: seq<T>)
    decreases |b|
  {
    if a == [] then true
    else if b == [] then false
    else (a[0] == b[0] && IsSubsequence(a[1..], b[1..])) || IsSubsequence(a, b[1..])
  }

  /** The rows of `xs` that satisfy `p`: a boolean mask applied to a table. */
  function Keep<T(!new)>(xs: seq<T>, p: T -> bool): (r: seq<T>)
    ensures |r| <= |xs|
    ensures forall x :: x in r <==> x in xs && p(x)
  {
    if xs == [] then []
    else
      var rest := Keep(xs[1..], p);
      assert xs == [xs[0]] + xs[1..];
      if p(xs[0]) then [xs[0]] + rest else rest
  }

  /** The kept rows appear in the table's order. */
  lemma {:induction false} KeepIsSubsequence<T(!new)>(xs: seq<T>, p: T -> bool)
    ensures IsSubsequence(Keep(xs, p), xs)
  {
    if xs != [] {
      var rest := Keep(xs[1..], p);
      KeepIsSubsequence(xs[1..], p);
      if p(xs[0]) {
        assert ([xs[0]] + rest)[1..] == rest;
      }
    }
  }

  /** Every row satisfying `p` is kept as often as it occurs; no other row is. */
  lemma {:induction false} KeepCounts<T(!new)>(xs: seq<T>, p: T -> bool, x: T)
    ensures multiset(Keep(xs, p))[x] == if p(x) then multiset(xs)[x] else 0
  {
    if xs != [] {
      KeepCounts(xs[1..], p, x);
      assert xs == [xs[0]] + xs[1..];
    }
  }

  /** Applying the same mask twice changes nothing. */
  lemma {:induction false} KeepIdempotent<T(!new)>(xs: seq<T>, p: T -> bool)
    ensures Keep(Keep(xs, p), p) == Keep(xs, p)
  {
    if xs != [] {
      KeepIdempotent(xs[1..], p);
      if p(xs[0]) {
        assert ([xs[0]] + Keep(xs[1..], p))[1..] == Keep(xs[1..], p);
      }
    }
  }

  /** A mask that every row satisfies keeps the whole table. */
  lemma {:induction false} KeepAll<T(!new)>(xs: seq<T>, p: T -> bool)
    requires forall x :: x in xs ==> p(x)
    ensures Keep(xs, p) == xs
  {
    if xs != [] {
      KeepAll(xs[1..], p);
      assert xs == [xs[0]] + xs[1..];
    }
  }

  /** A mask no row satisfies keeps nothing. */
  lemma {:induction false} KeepNone<T(!new)>(xs: seq<T>, p: T -> bool)
    requires forall x :: x in xs ==> !p(x)
    ensures Keep(xs, p) == []
  {
    if xs != [] {
      KeepNone(xs[1..], p);
    }
  }

  /** Two masks that agree on every row keep the same rows. */
  lemma {:induction false} KeepSame<T(!new)>(xs: seq<T>, p: T -> bool, q: T -> bool)
    requires forall x :: x in xs ==> p(x) == q(x)
    ensures Keep(xs, p) == Keep(xs, q)
  {
    if xs != [] {
      KeepSame(xs[1..], p, q);
    }
  }

  /** Narrowing the mask is the same as masking the wider result again. */
  lemma {:induction false} KeepNarrow<T(!new)>(xs: seq<T>, narrow: T -> bool, wide: T -> bool)
    requires forall x :: x in xs && narrow(x) ==> wide(x)
    ensures Keep(xs, narrow) == Keep(Keep(xs, wide), narrow)
  {
    if xs != [] {
      KeepNarrow(xs[1..], narrow, wide);
      if wide(xs[0]) {
        assert ([xs[0]] + Keep(xs[1..], wide))[1..] == Keep(xs[1..], wide);
      }
    }
  }

  /** A mask distributes over concatenation of tables. */
  lemma {:induction false} KeepAppend<T(!new)>(xs: seq<T>, ys: seq<T>, p: T -> bool)
    ensures Keep(xs + ys, p) == Keep(xs, p) + Keep(ys, p)
  {
    if xs == [] {
      assert xs + ys == ys;
    } else {
      var zs := xs + ys;
      assert zs[0] == xs[0];
      assert zs[1..] == xs[1..] + ys;
      KeepAppend(xs[1..], ys, p);
      if p(xs[0]) {
        calc {
          Keep(zs, p);
          [xs[0]] + Keep(xs[1..] + ys, p);
          [xs[0]] + (Keep(xs[1..], p) + Keep(ys, p));
          ([xs[0]] + Keep(xs[1..], p)) + Keep(ys, p);
        }
      }
    }
  }

  // ---------------------------------------------------------------------------
  // Distinct values
  // ---------------------------------------------------------------------------

  ghost predicate Distinct<T>(xs: seq<T>) {
    forall i, j :: 0 <= i < j < |xs| ==> xs[i] != xs[j]
  }

  /** `Series.unique()`: each value of the column exactly once. */
  function Unique<T(==,!new)>(xs: seq<T>): (r: seq<T>)
    ensures Distinct(r)
    ensures forall x :: x in r <==> x in xs
    ensures |r| <= |xs|
    decreases |xs|
  {
    if xs == [] then []
    else
      var init := xs[..|xs| - 1];
      var last := xs[|xs| - 1];
      assert xs == init + [last];
      var u := Unique(init);
      if last in u then u else u + [last]
  }

  /** A list of distinct values holds each value at most once. */
  lemma {:induction false} DistinctOnce<T>(xs: seq<T>, x: T)
    requires Distinct(xs)
    ensures multiset(xs)[x] <= 1
  {
    if xs != [] {
      var tail := xs[1..];
      assert forall j :: 0 <= j < |tail| ==> tail[j] == xs[j + 1] != xs[0];
      assert Distinct(tail);
      DistinctOnce(tail, x);
      assert xs == [xs[0]] + tail;
    }
  }

  /** A value held at most once cannot sit at two positions. */
  lemma OnceMeansApart<T>(xs: seq<T>, i: nat, j: nat)
    requires i < j < |xs| && multiset(xs)[xs[i]] <= 1
    ensures xs[i] != xs[j]
  {
    assert xs == xs[..j] + [xs[j]] + xs[j + 1..];
    assert xs[..j][i] == xs[i];
  }

  /** Drawing from a list of distinct values, no more often than it holds them, gives distinct values. */
  lemma DistinctSubmultiset<T>(xs: seq<T>, ys: seq<T>)
    requires Distinct(xs) && multiset(ys) <= multiset(xs)
    ensures Distinct(ys)
  {
    forall i, j | 0 <= i < j < |ys|
      ensures ys[i] != ys[j]
    {
      DistinctOnce(xs, ys[i]);
      OnceMeansApart(ys, i, j);
    }
  }

  /** A list of distinct values is as long as the set of its values. */
  lemma {:induction false} DistinctCardinality<T>(xs: seq<T>)
    requires Distinct(xs)
    ensures |set x | x in xs| == |xs|
  {
    if xs != [] {
      var tail := xs[1..];
      DistinctCardinality(tail);
      assert forall j :: 0 <= j < |tail| ==> tail[j] == xs[j + 1] != xs[0];
      assert (set x | x in xs) == (set x | x in tail) + {xs[0]};
    }
  }

  // ---------------------------------------------------------------------------
  // Sums, extremes and the mean of a numeric column
  // ---------------------------------------------------------------------------

  function Sum(xs: seq<real>): real {
    if xs == [] then 0.0 else xs[0] + Sum(xs[1..])
  }

  function Min(a: int, b: int): int {
    if a <= b then a else b
  }

  /** The smallest value of a non-empty column. */
  function SeqMin(xs: seq<real>): (m: real)
    requires xs != []
    ensures m in xs
    ensures forall i :: 0 <= i < |xs| ==> m <= xs[i]
  {
    if |xs| == 1 then xs[0]
    else
      var m := SeqMin(xs[1..]);
      assert forall i :: 1 <= i < |xs| ==> xs[i] == xs[1..][i - 1];
      if xs[0] <= m then xs[0] else m
  }

  /** The largest value of a non-empty column. */
  function SeqMax(xs: seq<real>): (m: real)
    requires xs != []
    ensures m in xs
    ensures forall i :: 0 <= i < |xs| ==> xs[i] <= m
  {
    if |xs| == 1 then xs[0]
    else
      var m := SeqMax(xs[1..]);
      assert forall i :: 1 <= i < |xs| ==> xs[i] == xs[1..][i - 1];
      if m <= xs[0] then xs[0] else m
  }

  /** A column whose values all lie in [lo, hi] sums to between n*lo and n*hi. */
  lemma {:induction false} SumBounds(xs: seq<real>, lo: real, hi: real)
    requires forall i :: 0 <= i < |xs| ==> lo <= xs[i] <= hi
    ensures |xs| as real * lo <= Sum(xs) <= |xs| as real * hi
  {
    if xs != [] {
      assert forall i :: 0 <= i < |xs[1..]| ==> xs[1..][i] == xs[i + 1];
      SumBounds(xs[1..], lo, hi);
    }
  }

  /**
    `Series.mean()`: the exact average, missing on an empty column (where the
    dataframe library yields NaN). It lies between the column's extremes.
   */
  function Mean(xs: seq<real>): (r: Option<real>)
    ensures r.None? <==> xs == []
    ensures r.Some? ==> SeqMin(xs) <= r.value <= SeqMax(xs)
  {
    if xs == [] then None
    else
      MeanOfNonEmpty(xs);
      Some(Sum(xs) / |xs| as real)
  }

  lemma MeanOfNonEmpty(xs: seq<real>)
    requires xs != []
    ensures SeqMin(xs) <= Sum(xs) / |xs| as real <= SeqMax(xs)
  {
    var lo, hi := SeqMin(xs), SeqMax(xs);
    assert forall i :: 0 <= i < |xs| ==> lo <= xs[i] <= hi;
    SumBounds(xs, lo, hi);
    AverageBetween(xs, lo, hi);
  }

  lemma AverageBetween(xs: seq<real>, lo: real, hi: real)
    requires xs != []
    requires |xs| as real * lo <= Sum(xs) <= |xs| as real * hi
    ensures lo <= Sum(xs) / |xs| as real <= hi
  {
    var n, s := |xs| as real, Sum(xs);
    MeanBetween(s, n, lo, hi);
  }

  /** Dividing a sum bounded by n*lo and n*hi by n > 0 lands in [lo, hi]. */
  lemma MeanBetween(s: real, n: real, lo: real, hi: real)
    requires n > 0.0
    requires n * lo <= s <= n * hi
    ensures lo <= s / n <= hi
    ensures (s / n) * n == s
  {
    var m := s / n;
    assert m * n == s;
    assert (m - lo) * n == s - n * lo;
    assert (hi - m) * n == n * hi - s;
  }
}
