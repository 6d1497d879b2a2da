/**
  The two count charts: the ten most-viewed shows and the month-by-month
  viewing trend.
 */
module Counts {
  import opened Wrappers
  import opened Frames
  import opened Schema
  import opened Kpis
  import opened Groups

  // ---------------------------------------------------------------------------
  // Top shows
  // ---------------------------------------------------------------------------

  /** How many shows the bar chart keeps. */
  const TopN: nat := 10

  const ByShow: Viewing -> Option<string> := (v: Viewing) => Some(v.show)

  datatype ShowViews = ShowViews(show: string, views: nat, avgDuration: real)

  function DistinctShows(rows: seq<Viewing>): set<string> {
    set v | v in rows :: v.show
  }

  /**
    `e` is the row of the per-show table for show `e.show`: the show is watched
    in `rows`, `e.views` counts its rows that carry a user id, and the average
    is the exact mean duration of its rows.
   */
  ghost predicate Tallies(rows: seq<Viewing>, e: ShowViews) {
    var g := Group(rows, ByShow, e.show);
    && g != []
    && e.views == Views(rows, ByShow, e.show)
    && e.views <= |g|
    && Mean(Durations(g)) == Some(e.avgDuration)
  }

  function ShowEntry(rows: seq<Viewing>, s: string): (e: ShowViews)
    requires exists v :: v in rows && v.show == s
    ensures e.show == s && Tallies(rows, e)
  {
    var g := Group(rows, ByShow, s);
    var v :| v in rows && v.show == s;
    assert v in g;
    ShowViews(s, Views(rows, ByShow, s), Mean(Durations(g)).value)
  }

  /** `groupby("show_watched").agg(count user_id, mean duration)`: one row per show. */
  function ShowTable(rows: seq<Viewing>): (t: seq<ShowViews>)
    ensures |t| == |GroupKeys(rows, ByShow)|
    ensures forall i :: 0 <= i < |t| ==> t[i].show == GroupKeys(rows, ByShow)[i] && Tallies(rows, t[i])
  {
    var ks := GroupKeys(rows, ByShow);
    seq(|ks|, i requires 0 <= i < |ks| && ks[i] in ks => ShowEntry(rows, ks[i]))
  }

  lemma ShowTableSize(rows: seq<Viewing>)
    ensures |ShowTable(rows)| == |DistinctShows(rows)|
  {
    var ks := GroupKeys(rows, ByShow);
    DistinctCardinality(ks);
    assert (set k | k in ks) == DistinctShows(rows);
  }

  ghost predicate NonIncreasing(t: seq<ShowViews>) {
    forall i, j :: 0 <= i < j < |t| ==> t[i].views >= t[j].views
  }

  /** Inserts `e` into a table sorted by decreasing views. */
  function InsertByViews(e: ShowViews, t: seq<ShowViews>): (r: seq<ShowViews>)
    requires NonIncreasing(t)
    ensures NonIncreasing(r)
    ensures multiset(r) == multiset(t) + multiset{e}
    ensures |r| == |t| + 1
  {
    if t == [] || e.views >= t[0].views then [e] + t
    else
      var rest := InsertByViews(e, t[1..]);
      assert t == [t[0]] + t[1..];
      BelowHead(e, t, rest);
      PrependKeepsOrder(t[0], rest);
      [t[0]] + rest
  }

  /** What is inserted behind the head of a sorted table sits below the head. */
  lemma BelowHead(e: ShowViews, t: seq<ShowViews>, rest: seq<ShowViews>)
    requires t != [] && NonIncreasing(t) && e.views < t[0].views
    requires multiset(rest) == multiset(t[1..]) + multiset{e}
    ensures forall x :: x in rest ==> x.views <= t[0].views
  {
    forall x | x in rest
      ensures x.views <= t[0].views
    {
      assert x in multiset(rest);
      if x != e {
        assert x in t[1..];
        var j :| 0 <= j < |t[1..]| && t[1..][j] == x;
        assert t[j + 1] == x;
      }
    }
  }

  lemma PrependKeepsOrder(h: ShowViews, rest: seq<ShowViews>)
    requires NonIncreasing(rest)
    requires forall x :: x in rest ==> x.views <= h.views
    ensures NonIncreasing([h] + rest)
  {
    var r := [h] + rest;
    forall i, j | 0 <= i < j < |r|
      ensures r[i].views >= r[j].views
    {
      assert r[j] == rest[j - 1];
      if i > 0 {
        assert r[i] == rest[i - 1];
      } else {
        assert rest[j - 1] in rest;
      }
    }
  }

  /**
    Sorting by views, largest first. The dashboard's sort does not fix the
    order of equal counts; this is one admissible order and nothing below
    depends on which.
   */
  function SortByViews(t: seq<ShowViews>): (r: seq<ShowViews>)
    ensures NonIncreasing(r)
    ensures multiset(r) == multiset(t)
    ensures |r| == |t|
  {
    if t == [] then []
    else
      assert t == [t[0]] + t[1..];
      InsertByViews(t[0], SortByViews(t[1..]))
  }

  /**
    `sort_values(by=views, ascending=False).head(10)`: at most ten shows,
    exactly min(10, number of shows), in decreasing order of views, each an
    entry of the per-show table and none repeated.
   */
  function TopShows(rows: seq<Viewing>): (top: seq<ShowViews>)
    ensures |top| == Min(TopN, |DistinctShows(rows)|)
    ensures NonIncreasing(top)
    ensures forall e :: e in top ==> e in ShowTable(rows) && Tallies(rows, e)
    ensures multiset(top) <= multiset(ShowTable(rows))
  {
    var table := ShowTable(rows);
    ShowTableSize(rows);
    ShowTableTallies(rows);
    var sorted := SortByViews(table);
    SortedPrefix(table, sorted, Min(TopN, |table|));
    sorted[..Min(TopN, |table|)]
  }

  /**
    A prefix of a sorted permutation of the table is sorted and draws its
    entries from the table, each no more often than the table holds it.
   */
  lemma SortedPrefix(table: seq<ShowViews>, sorted: seq<ShowViews>, n: nat)
    requires NonIncreasing(sorted) && multiset(sorted) == multiset(table)
    requires n <= |sorted|
    ensures NonIncreasing(sorted[..n])
    ensures forall e :: e in sorted[..n] ==> e in table
    ensures multiset(sorted[..n]) <= multiset(table)
  {
    assert sorted == sorted[..n] + sorted[n..];
    assert multiset(sorted) == multiset(sorted[..n]) + multiset(sorted[n..]);
    forall e | e in sorted[..n] ensures e in table {
      assert e in multiset(sorted);
    }
  }

  /** No show appears twice in the top list. */
  lemma TopShowsDistinct(rows: seq<Viewing>)
    ensures forall i, j :: 0 <= i < j < |TopShows(rows)| ==> TopShows(rows)[i].show != TopShows(rows)[j].show
  {
    var table := ShowTable(rows);
    ShowsApart(table, GroupKeys(rows, ByShow), TopShows(rows));
  }

  /** Entries drawn, without repetition, from a table keyed by distinct shows have distinct shows. */
  lemma ShowsApart(table: seq<ShowViews>, ks: seq<string>, top: seq<ShowViews>)
    requires |table| == |ks| && Distinct(ks)
    requires forall i :: 0 <= i < |table| ==> table[i].show == ks[i]
    requires multiset(top) <= multiset(table)
    ensures forall i, j :: 0 <= i < j < |top| ==> top[i].show != top[j].show
  {
    forall i, j | 0 <= i < j < |table|
      ensures table[i] != table[j]
    {
      assert table[i].show == ks[i] && table[j].show == ks[j];
    }
    DistinctSubmultiset(table, top);
    forall i, j | 0 <= i < j < |top|
      ensures top[i].show != top[j].show
    {
      assert top[i] in multiset(table) && top[j] in multiset(table);
      var k :| 0 <= k < |table| && table[k] == top[i];
      var l :| 0 <= l < |table| && table[l] == top[j];
      assert k != l;
      assert ks[k] != ks[l];
    }
  }

  lemma ShowTableTallies(rows: seq<Viewing>)
    ensures forall e :: e in ShowTable(rows) ==> Tallies(rows, e)
  {
    var t := ShowTable(rows);
    forall e | e in t ensures Tallies(rows, e) {
      var i :| 0 <= i < |t| && t[i] == e;
    }
  }

  /** A show left out of the top ten has no more views than any show in it. */
  lemma TopShowsDominate(rows: seq<Viewing>, x: ShowViews, y: ShowViews)
    requires x in ShowTable(rows) && x !in TopShows(rows)
    requires y in TopShows(rows)
    ensures x.views <= y.views
  {
    var table := ShowTable(rows);
    CutDominates(table, SortByViews(table), Min(TopN, |table|), x, y);
  }

  /** Cutting a sorted permutation of the table after n entries leaves out no larger entry. */
  lemma CutDominates(table: seq<ShowViews>, sorted: seq<ShowViews>, n: nat, x: ShowViews, y: ShowViews)
    requires NonIncreasing(sorted) && multiset(sorted) == multiset(table)
    requires n <= |sorted|
    requires x in table && x !in sorted[..n]
    requires y in sorted[..n]
    ensures x.views <= y.views
  {
    assert x in multiset(table);
    assert x in multiset(sorted);
    var j :| 0 <= j < |sorted| && sorted[j] == x;
    var i :| 0 <= i < n && sorted[..n][i] == y;
    assert forall k :: 0 <= k < n ==> sorted[k] == sorted[..n][k] && sorted[..n][k] in sorted[..n];
    assert n <= j;
  }

  function TotalViews(t: seq<ShowViews>): nat {
    if t == [] then 0 else t[0].views + TotalViews(t[1..])
  }

  lemma {:induction false} TotalViewsOfTable(rows: seq<Viewing>, t: seq<ShowViews>, ks: seq<string>)
    requires |t| == |ks|
    requires forall i :: 0 <= i < |t| ==> t[i].views == Views(rows, ByShow, ks[i])
    ensures TotalViews(t) == SumViews(rows, ByShow, ks)
  {
    if t != [] {
      TotalViewsOfTable(rows, t[1..], ks[1..]);
    }
  }

  /**
    Before the cut to ten, the per-show counts add up to the number of
    filtered rows that carry a user id, and to the number of filtered rows
    when every row has one.
   */
  lemma ShowViewsConserved(rows: seq<Viewing>)
    ensures TotalViews(ShowTable(rows)) == |Keep(rows, HasUser)|
    ensures (forall v :: v in rows ==> HasUser(v)) ==> TotalViews(ShowTable(rows)) == |rows|
  {
    var ks := GroupKeys(rows, ByShow);
    TotalViewsOfTable(rows, ShowTable(rows), ks);
    ViewsConserved(rows, ByShow, ks);
    KeepSame(rows, KeyedMask(ByShow), HasUser);
    if forall v :: v in rows ==> HasUser(v) {
      KeepAll(rows, HasUser);
    }
  }

  // ---------------------------------------------------------------------------
  // Monthly trend
  // ---------------------------------------------------------------------------

  const ByMonth: Viewing -> Option<Month> := (v: Viewing) => v.month

  datatype MonthViews = MonthViews(month: Month, views: nat)

  /**
    Grouping by the month category yields every category, Jan to Jul in that
    order, each with the count of its rows that carry a user id (0 for a month
    with no rows); rows whose month is missing are in no category.
   */
  function MonthlyTrend(rows: seq<Viewing>): (trend: seq<MonthViews>)
    ensures |trend| == |Months|
    ensures forall i :: 0 <= i < |trend| ==> trend[i].month == Months[i]
    ensures forall i, j :: 0 <= i < j < |trend| ==> MonthIndex(trend[i].month) < MonthIndex(trend[j].month)
    ensures forall i :: 0 <= i < |trend| ==> trend[i].views == Views(rows, ByMonth, trend[i].month)
  {
    MonthsCanonical();
    seq(|Months|, i requires 0 <= i < |Months| => MonthViews(Months[i], Views(rows, ByMonth, Months[i])))
  }

  function TrendTotal(t: seq<MonthViews>): nat {
    if t == [] then 0 else t[0].views + TrendTotal(t[1..])
  }

  lemma {:induction false} TrendTotalOfTable(rows: seq<Viewing>, t: seq<MonthViews>, ms: seq<Month>)
    requires |t| == |ms|
    requires forall i :: 0 <= i < |t| ==> t[i].views == Views(rows, ByMonth, ms[i])
    ensures TrendTotal(t) == SumViews(rows, ByMonth, ms)
  {
    if t != [] {
      TrendTotalOfTable(rows, t[1..], ms[1..]);
    }
  }

  /** The trend counts each filtered row with a month and a user id exactly once. */
  lemma MonthlyTrendConserved(rows: seq<Viewing>)
    ensures TrendTotal(MonthlyTrend(rows)) == |Keep(rows, KeyedMask(ByMonth))|
  {
    MonthsCanonical();
    TrendTotalOfTable(rows, MonthlyTrend(rows), Months);
    ViewsConserved(rows, ByMonth, Months);
  }

  /** Appending a row whose month is not one of Jan..Jul leaves the trend as it was. */
  lemma MonthlyTrendIgnoresUnknownMonth(rows: seq<Viewing>, v: Viewing)
    requires v.month.None?
    ensures MonthlyTrend(rows + [v]) == MonthlyTrend(rows)
  {
    forall m | m in Months
      ensures Views(rows + [v], ByMonth, m) == Views(rows, ByMonth, m)
    {
      ViewsAppend(rows, [v], ByMonth, m);
      assert [v][1..] == [];
    }
  }
}
