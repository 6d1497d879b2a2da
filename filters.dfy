/**
  The sidebar filter: three multi-select lists (location, watching method,
  subscription type), each defaulting to every distinct value in the dataset,
  and the rows whose three columns all appear in their lists.
 */
module Filters {
  import opened Wrappers
  import opened Frames
  import opened Schema

  /** The three sidebar selections; `isin` only asks membership of these lists. */
  datatype Selection = Selection(
    locations: seq<Option<string>>,
    watchings: seq<string>,
    subscriptions: seq<string>)

  predicate Selected(sel: Selection, v: Viewing) {
    && v.location in sel.locations
    && v.watching in sel.watchings
    && v.subscription in sel.subscriptions
  }

  /** The boolean mask of the filter, as a function value. */
  function Mask(sel: Selection): Viewing -> bool {
    v => Selected(sel, v)
  }

  /** The filtered table: the rows passing all three membership tests. */
  function Filter(ds: seq<Viewing>, sel: Selection): (active: seq<Viewing>)
    ensures forall v :: v in active <==> v in ds && Selected(sel, v)
    ensures |active| <= |ds|
  {
    Keep(ds, Mask(sel))
  }

  /** The filtered rows are those of the dataset, in dataset order, with their multiplicity. */
  lemma FilterPreservesOrder(ds: seq<Viewing>, sel: Selection)
    ensures IsSubsequence(Filter(ds, sel), ds)
    ensures forall v :: Selected(sel, v) ==> multiset(Filter(ds, sel))[v] == multiset(ds)[v]
  {
    KeepIsSubsequence(ds, Mask(sel));
    forall v | Selected(sel, v)
      ensures multiset(Filter(ds, sel))[v] == multiset(ds)[v]
    {
      KeepCounts(ds, Mask(sel), v);
    }
  }

  /** Filtering the filtered table by the same selections changes nothing. */
  lemma FilterIdempotent(ds: seq<Viewing>, sel: Selection)
    ensures Filter(Filter(ds, sel), sel) == Filter(ds, sel)
  {
    KeepIdempotent(ds, Mask(sel));
  }

  // ---------------------------------------------------------------------------
  // Default selections
  // ---------------------------------------------------------------------------

  function LocationColumn(ds: seq<Viewing>): (col: seq<Option<string>>)
    ensures |col| == |ds| && forall i :: 0 <= i < |ds| ==> col[i] == ds[i].location
  {
    seq(|ds|, i requires 0 <= i < |ds| => ds[i].location)
  }

  function WatchingColumn(ds: seq<Viewing>): (col: seq<string>)
    ensures |col| == |ds| && forall i :: 0 <= i < |ds| ==> col[i] == ds[i].watching
  {
    seq(|ds|, i requires 0 <= i < |ds| => ds[i].watching)
  }

  function SubscriptionColumn(ds: seq<Viewing>): (col: seq<string>)
    ensures |col| == |ds| && forall i :: 0 <= i < |ds| ==> col[i] == ds[i].subscription
  {
    seq(|ds|, i requires 0 <= i < |ds| => ds[i].subscription)
  }

  /**
    Each list defaults to the column's `unique()` values: no duplicates, and
    exactly the values that occur in the dataset.
   */
  function DefaultSelection(ds: seq<Viewing>): (sel: Selection)
    ensures Distinct(sel.locations) && Distinct(sel.watchings) && Distinct(sel.subscriptions)
    ensures forall l :: l in sel.locations <==> exists v :: v in ds && v.location == l
    ensures forall w :: w in sel.watchings <==> exists v :: v in ds && v.watching == w
    ensures forall s :: s in sel.subscriptions <==> exists v :: v in ds && v.subscription == s
  {
    var sel := Selection(Unique(LocationColumn(ds)), Unique(WatchingColumn(ds)), Unique(SubscriptionColumn(ds)));
    assert forall v :: v in ds ==> exists i :: 0 <= i < |ds| && ds[i] == v;
    sel
  }

  /** With the default selections every row of the dataset is shown. */
  lemma DefaultKeepsEverything(ds: seq<Viewing>)
    ensures Filter(ds, DefaultSelection(ds)) == ds
  {
    var sel := DefaultSelection(ds);
    forall v | v in ds
      ensures Mask(sel)(v)
    {
      var i :| 0 <= i < |ds| && ds[i] == v;
      assert LocationColumn(ds)[i] == v.location;
      assert WatchingColumn(ds)[i] == v.watching;
      assert SubscriptionColumn(ds)[i] == v.subscription;
    }
    KeepAll(ds, Mask(sel));
  }

  // ---------------------------------------------------------------------------
  // Monotonicity
  // ---------------------------------------------------------------------------

  /** Every list of `narrow` is contained in the matching list of `wide`. */
  ghost predicate Within(narrow: Selection, wide: Selection) {
    && (forall l :: l in narrow.locations ==> l in wide.locations)
    && (forall w :: w in narrow.watchings ==> w in wide.watchings)
    && (forall s :: s in narrow.subscriptions ==> s in wide.subscriptions)
  }

  /**
    Widening the selections never removes a row: the narrow result is the wide
    result filtered again, hence an ordered subsequence of it.
   */
  lemma FilterMonotone(ds: seq<Viewing>, narrow: Selection, wide: Selection)
    requires Within(narrow, wide)
    ensures Filter(ds, narrow) == Filter(Filter(ds, wide), narrow)
    ensures IsSubsequence(Filter(ds, narrow), Filter(ds, wide))
    ensures forall v :: v in Filter(ds, narrow) ==> v in Filter(ds, wide)
  {
    KeepNarrow(ds, Mask(narrow), Mask(wide));
    KeepIsSubsequence(Filter(ds, wide), Mask(narrow));
  }

  /** An empty list in any of the three selections shows nothing. */
  lemma EmptySelectionShowsNothing(ds: seq<Viewing>, sel: Selection)
    requires sel.locations == [] || sel.watchings == [] || sel.subscriptions == []
    ensures Filter(ds, sel) == []
  {
    KeepNone(ds, Mask(sel));
  }

  /**
    Locations {"USA"} against {"USA", "India"} on a table with one row each
    in USA, India and UK: the narrow list keeps the USA row, the wide one also
    the India row, and neither keeps UK.
   */
  lemma LocationExample(base: Viewing)
    ensures var usa, india, uk := base.(location := Some("USA")), base.(location := Some("India")), base.(location := Some("UK"));
            var ds := [usa, india, uk];
            var ws, ss := [base.watching], [base.subscription];
            && Filter(ds, Selection([Some("USA")], ws, ss)) == [usa]
            && Filter(ds, Selection([Some("USA"), Some("India")], ws, ss)) == [usa, india]
  {
    var usa, india, uk := base.(location := Some("USA")), base.(location := Some("India")), base.(location := Some("UK"));
    var ds := [usa, india, uk];
    var ws, ss := [base.watching], [base.subscription];
    var narrow, wide := Selection([Some("USA")], ws, ss), Selection([Some("USA"), Some("India")], ws, ss);
    assert ds[1..] == [india, uk] && ds[1..][1..] == [uk] && [uk][1..] == [];
    assert Filter([uk], narrow) == [] && Filter([uk], wide) == [];
    assert Filter([india, uk], narrow) == [];
    assert Filter([india, uk], wide) == [india];
  }
}
