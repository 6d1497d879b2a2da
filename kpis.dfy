/**
  The three headline figures over the filtered table: the share of
  binge-watched rows, the mean watch duration and the mean rating.
 */
module Kpis {
  import opened Wrappers
  import opened Frames
  import opened Schema

  const BingeWatched: string := "Binge-watched"

  predicate IsBinge(v: Viewing) {
    v.watching == BingeWatched
  }

  /** Number of rows whose watching method is exactly "Binge-watched". */
  function BingeCount(rows: seq<Viewing>): (n: nat)
    ensures n <= |rows|
  {
    |Keep(rows, IsBinge)|
  }

  /**
    Percentage of binge-watched rows. The source divides by the row count, so
    an empty table has no percentage (a division by zero there).
   */
  function BingePercentage(rows: seq<Viewing>): (pct: Option<real>)
    ensures pct.None? <==> rows == []
    ensures pct.Some? ==> 0.0 <= pct.value <= 100.0
    ensures pct.Some? ==> PercentOf(pct.value, BingeCount(rows), |rows|)
  {
    if rows == [] then None else Some(Percent(BingeCount(rows), |rows|))
  }

  /**
    The percentage as the source computes it: a true division of two row
    counts, which has a value only when the divisor is not zero.
   */
  function BingeShareAsWritten(rows: seq<Viewing>): (pct: real)
    requires |rows| != 0
    ensures 0.0 <= pct <= 100.0
    ensures BingePercentage(rows) == Some(pct)
  {
    Percent(BingeCount(rows), |rows|)
  }

  /** `p` percent of `whole` is `part`. */
  ghost predicate PercentOf(p: real, part: nat, whole: nat) {
    p * whole as real == 100.0 * part as real
  }

  /** A part of a positive whole, as a percentage: in [0, 100], and it scales back to the part. */
  function Percent(part: nat, whole: nat): (p: real)
    requires part <= whole && whole != 0
    ensures 0.0 <= p <= 100.0
    ensures PercentOf(p, part, whole)
  {
    MeanBetween(100.0 * part as real, whole as real, 0.0, 100.0);
    100.0 * part as real / whole as real
  }

  /** When every row is binge-watched the percentage is 100. */
  lemma AllBingeIsHundred(rows: seq<Viewing>)
    requires rows != []
    requires forall v :: v in rows ==> IsBinge(v)
    ensures BingePercentage(rows) == Some(100.0)
  {
    KeepAll(rows, IsBinge);
    assert BingeCount(rows) == |rows|;
    WholeIsHundred(|rows|);
  }

  lemma WholeIsHundred(n: nat)
    requires n != 0
    ensures Percent(n, n) == 100.0
  {
    MeanBetween(100.0 * n as real, n as real, 100.0, 100.0);
  }

  /** When no row is binge-watched the percentage is 0. */
  lemma NoBingeIsZero(rows: seq<Viewing>)
    requires rows != []
    requires forall v :: v in rows ==> !IsBinge(v)
    ensures BingePercentage(rows) == Some(0.0)
  {
    KeepNone(rows, IsBinge);
  }

  function Durations(rows: seq<Viewing>): (col: seq<real>)
    ensures |col| == |rows| && forall i :: 0 <= i < |rows| ==> col[i] == rows[i].duration
  {
    seq(|rows|, i requires 0 <= i < |rows| => rows[i].duration)
  }

  function Ratings(rows: seq<Viewing>): (col: seq<real>)
    ensures |col| == |rows| && forall i :: 0 <= i < |rows| ==> col[i] == rows[i].rating
  {
    seq(|rows|, i requires 0 <= i < |rows| => rows[i].rating)
  }

  /** Mean watch duration: missing on an empty table, otherwise within the observed range. */
  function MeanDuration(rows: seq<Viewing>): (m: Option<real>)
    ensures m.None? <==> rows == []
    ensures m.Some? ==> SeqMin(Durations(rows)) <= m.value <= SeqMax(Durations(rows))
  {
    Mean(Durations(rows))
  }

  /** Mean rating: missing on an empty table, otherwise within the observed range. */
  function MeanRating(rows: seq<Viewing>): (m: Option<real>)
    ensures m.None? <==> rows == []
    ensures m.Some? ==> SeqMin(Ratings(rows)) <= m.value <= SeqMax(Ratings(rows))
  {
    Mean(Ratings(rows))
  }

  /**
    Three rows (Binge-watched, 30 min), (Binge-watched, 50 min), (Paused,
    20 min): two thirds are binge-watched and the mean duration is 100/3.
   */
  lemma KpiExample(base: Viewing)
    ensures var a, b, c := base.(watching := BingeWatched, duration := 30.0),
                           base.(watching := BingeWatched, duration := 50.0),
                           base.(watching := "Paused", duration := 20.0);
            && BingePercentage([a, b, c]) == Some(200.0 / 3.0)
            && MeanDuration([a, b, c]) == Some(100.0 / 3.0)
  {
    var a, b, c := base.(watching := BingeWatched, duration := 30.0),
                   base.(watching := BingeWatched, duration := 50.0),
                   base.(watching := "Paused", duration := 20.0);
    var rows := [a, b, c];
    assert rows[1..] == [b, c] && rows[1..][1..] == [c] && [c][1..] == [];
    assert Keep([c], IsBinge) == [];
    assert Keep([b, c], IsBinge) == [b];
    assert BingeCount(rows) == 2;
    var ds := Durations(rows);
    assert ds == [30.0, 50.0, 20.0];
    assert ds[1..] == [50.0, 20.0] && ds[1..][1..] == [20.0] && [20.0][1..] == [];
    assert Sum([20.0]) == 20.0;
    assert Sum(ds) == 100.0;
  }
}
