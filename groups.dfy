/**
  Group-by over the filtered table. Grouping drops rows whose key is missing
  and keeps only observed keys; per group the dashboard reports the count of
  non-missing user ids (`count`), the number of distinct user ids (`nunique`)
  and the mean duration (`mean`).
 */
module Groups {
  import opened Wrappers
  import opened Frames
  import opened Schema
  import opened Kpis

  predicate HasUser(v: Viewing) {
    v.userId.Some?
  }

  /** Rows of group `k` under the grouping key `key`. */
  function KeyMask<K(==)>(key: Viewing -> Option<K>, k: K): Viewing -> bool {
    v => key(v) == Some(k)
  }

  function Group<K(==)>(rows: seq<Viewing>, key: Viewing -> Option<K>, k: K): (g: seq<Viewing>)
    ensures forall v :: v in g <==> v in rows && key(v) == Some(k)
    ensures |g| <= |rows|
  {
    Keep(rows, KeyMask(key, k))
  }

  /** The non-missing key column, in row order. */
  function KeyColumn<K(==,!new)>(rows: seq<Viewing>, key: Viewing -> Option<K>): (ks: seq<K>)
    ensures forall k :: k in ks <==> exists v :: v in rows && key(v) == Some(k)
  {
    if rows == [] then []
    else
      var rest := KeyColumn(rows[1..], key);
      assert forall v :: v in rows <==> v == rows[0] || v in rows[1..];
      match key(rows[0])
      case None => rest
      case Some(k) => [k] + rest
  }

  /** The observed keys, each once. */
  function GroupKeys<K(==,!new)>(rows: seq<Viewing>, key: Viewing -> Option<K>): (ks: seq<K>)
    ensures Distinct(ks)
    ensures forall k :: k in ks <==> exists v :: v in rows && key(v) == Some(k)
  {
    Unique(KeyColumn(rows, key))
  }

  // ---------------------------------------------------------------------------
  // Per-group measures
  // ---------------------------------------------------------------------------

  /** `count` of user_id in group `k`: the group's rows that carry a user id. */
  function Views<K(==)>(rows: seq<Viewing>, key: Viewing -> Option<K>, k: K): (n: nat)
    ensures n <= |Group(rows, key, k)|
  {
    |Keep(Group(rows, key, k), HasUser)|
  }

  /** When every row carries a user id, a group's count is its number of rows. */
  lemma ViewsOfIdentifiedRows<K>(rows: seq<Viewing>, key: Viewing -> Option<K>, k: K)
    requires forall v :: v in rows ==> HasUser(v)
    ensures Views(rows, key, k) == |Group(rows, key, k)|
  {
    KeepAll(Group(rows, key, k), HasUser);
  }

  /** The distinct non-missing user ids of a table. */
  function ViewerIds(rows: seq<Viewing>): (ids: set<string>)
    ensures forall id :: id in ids <==> exists v :: v in rows && v.userId == Some(id)
    ensures |ids| <= |Keep(rows, HasUser)|
  {
    if rows == [] then {}
    else
      var rest := ViewerIds(rows[1..]);
      assert forall v :: v in rows <==> v == rows[0] || v in rows[1..];
      match rows[0].userId
      case None => rest
      case Some(id) => rest + {id}
  }

  datatype Summary<K> = Summary(key: K, avgDuration: real, viewers: nat)

  /**
    `s` is the summary of an observed group: the group is non-empty, the
    average is its exact mean duration (so within its duration range), and
    the viewer count is its number of distinct user ids, at most its row count
    and at least one exactly when some row of the group has a user id.
   */
  ghost predicate Summarises<K>(rows: seq<Viewing>, key: Viewing -> Option<K>, s: Summary<K>) {
    var g := Group(rows, key, s.key);
    && g != []
    && Mean(Durations(g)) == Some(s.avgDuration)
    && SeqMin(Durations(g)) <= s.avgDuration <= SeqMax(Durations(g))
    && s.viewers == |ViewerIds(g)|
    && s.viewers <= |g|
    && (s.viewers >= 1 <==> exists v :: v in g && HasUser(v))
  }

  function SummaryOf<K(==)>(rows: seq<Viewing>, key: Viewing -> Option<K>, k: K): (s: Summary<K>)
    requires exists v :: v in rows && key(v) == Some(k)
    ensures s.key == k && Summarises(rows, key, s)
  {
    var g := Group(rows, key, k);
    var v :| v in rows && key(v) == Some(k);
    assert v in g;
    var ids := ViewerIds(g);
    assert (exists u :: u in g && HasUser(u)) ==> ids != {} by {
      if u :| u in g && HasUser(u) {
        assert u.userId.value in ids;
      }
    }
    Summary(k, Mean(Durations(g)).value, |ids|)
  }

  function SummaryKeys<K>(t: seq<Summary<K>>): (ks: seq<K>)
    ensures |ks| == |t| && forall i :: 0 <= i < |t| ==> ks[i] == t[i].key
  {
    seq(|t|, i requires 0 <= i < |t| => t[i].key)
  }

  /** `groupby(key).agg(mean duration, nunique user_id)` over the observed groups. */
  function Summarise<K(==,!new)>(rows: seq<Viewing>, key: Viewing -> Option<K>): (t: seq<Summary<K>>)
    ensures SummaryKeys(t) == GroupKeys(rows, key)
    ensures forall i :: 0 <= i < |t| ==> Summarises(rows, key, t[i])
  {
    var ks := GroupKeys(rows, key);
    var t := seq(|ks|, i requires 0 <= i < |ks| && ks[i] in ks => SummaryOf(rows, key, ks[i]));
    t
  }

  // ---------------------------------------------------------------------------
  // The four summary charts
  // ---------------------------------------------------------------------------

  const BySubscriptionAndMethod: Viewing -> Option<(string, string)> := (v: Viewing) => Some((v.subscription, v.watching))
  const ByDevice: Viewing -> Option<string> := (v: Viewing) => Some(v.device)
  const ByGenderAndAgeGroup: Viewing -> Option<(string, AgeGroup)> :=
    (v: Viewing) => if v.ageGroup.Some? then Some((v.gender, v.ageGroup.value)) else None
  const ByLocation: Viewing -> Option<string> := (v: Viewing) => v.location

  /** One summary per observed (subscription type, watching method) pair. */
  function SubscriptionByMethod(rows: seq<Viewing>): (t: seq<Summary<(string, string)>>)
    ensures Distinct(SummaryKeys(t))
    ensures forall p :: p in SummaryKeys(t) <==> exists v :: v in rows && (v.subscription, v.watching) == p
    ensures forall i :: 0 <= i < |t| ==> Summarises(rows, BySubscriptionAndMethod, t[i])
  {
    Summarise(rows, BySubscriptionAndMethod)
  }

  /** One summary per observed device. */
  function DeviceUsage(rows: seq<Viewing>): (t: seq<Summary<string>>)
    ensures Distinct(SummaryKeys(t))
    ensures forall d :: d in SummaryKeys(t) <==> exists v :: v in rows && v.device == d
    ensures forall i :: 0 <= i < |t| ==> Summarises(rows, ByDevice, t[i])
  {
    Summarise(rows, ByDevice)
  }

  /** One summary per observed (gender, age group) pair; rows without an age group take no part. */
  function AgeGenderDuration(rows: seq<Viewing>): (t: seq<Summary<(string, AgeGroup)>>)
    ensures Distinct(SummaryKeys(t))
    ensures forall p :: p in SummaryKeys(t) <==>
              exists v :: v in rows && v.ageGroup == Some(p.1) && v.gender == p.0
    ensures forall i :: 0 <= i < |t| ==> Summarises(rows, ByGenderAndAgeGroup, t[i])
  {
    Summarise(rows, ByGenderAndAgeGroup)
  }

  /** One summary per observed location; rows without a location take no part. */
  function LocationMap(rows: seq<Viewing>): (t: seq<Summary<string>>)
    ensures Distinct(SummaryKeys(t))
    ensures forall l :: l in SummaryKeys(t) <==> exists v :: v in rows && v.location == Some(l)
    ensures forall i :: 0 <= i < |t| ==> Summarises(rows, ByLocation, t[i])
  {
    Summarise(rows, ByLocation)
  }

  // ---------------------------------------------------------------------------
  // Rows with a missing key change no summary
  // ---------------------------------------------------------------------------

  lemma {:induction false} KeyColumnAppendMissing<K(!new)>(rows: seq<Viewing>, key: Viewing -> Option<K>, v: Viewing)
    requires key(v).None?
    ensures KeyColumn(rows + [v], key) == KeyColumn(rows, key)
  {
    if rows == [] {
      assert [v][1..] == [];
    } else {
      assert (rows + [v])[1..] == rows[1..] + [v];
      KeyColumnAppendMissing(rows[1..], key, v);
    }
  }

  /** Appending a row whose key is missing leaves every group summary as it was. */
  lemma SummariseIgnoresMissingKey<K(!new)>(rows: seq<Viewing>, key: Viewing -> Option<K>, v: Viewing)
    requires key(v).None?
    ensures Summarise(rows + [v], key) == Summarise(rows, key)
  {
    KeyColumnAppendMissing(rows, key, v);
    var ks := GroupKeys(rows, key);
    assert GroupKeys(rows + [v], key) == ks;
    forall k | k in ks
      ensures Group(rows + [v], key, k) == Group(rows, key, k)
    {
      KeepAppend(rows, [v], KeyMask(key, k));
    }
    var t, u := Summarise(rows + [v], key), Summarise(rows, key);
    assert |t| == |ks| == |u|;
    forall i | 0 <= i < |ks|
      ensures t[i] == u[i]
    {
      assert ks[i] in ks;
    }
  }

  /** Appending a row with no age group leaves the gender by age group chart as it was. */
  lemma AgeGenderIgnoresUnbucketed(rows: seq<Viewing>, v: Viewing)
    requires v.ageGroup.None?
    ensures AgeGenderDuration(rows + [v]) == AgeGenderDuration(rows)
  {
    SummariseIgnoresMissingKey(rows, ByGenderAndAgeGroup, v);
  }

  /** Appending a row with no location leaves the map as it was. */
  lemma LocationMapIgnoresMissing(rows: seq<Viewing>, v: Viewing)
    requires v.location.None?
    ensures LocationMap(rows + [v]) == LocationMap(rows)
  {
    SummariseIgnoresMissingKey(rows, ByLocation, v);
  }

  // ---------------------------------------------------------------------------
  // Counts are conserved across groups
  // ---------------------------------------------------------------------------

  /** Rows that have a key and a user id. */
  function KeyedMask<K>(key: Viewing -> Option<K>): Viewing -> bool {
    v => key(v).Some? && HasUser(v)
  }

  function SumViews<K(==)>(rows: seq<Viewing>, key: Viewing -> Option<K>, ks: seq<K>): nat {
    if ks == [] then 0 else Views(rows, key, ks[0]) + SumViews(rows, key, ks[1..])
  }

  lemma ViewsAppend<K>(a: seq<Viewing>, b: seq<Viewing>, key: Viewing -> Option<K>, k: K)
    ensures Views(a + b, key, k) == Views(a, key, k) + Views(b, key, k)
  {
    KeepAppend(a, b, KeyMask(key, k));
    KeepAppend(Group(a, key, k), Group(b, key, k), HasUser);
  }

  lemma {:induction false} SumViewsAppend<K>(a: seq<Viewing>, b: seq<Viewing>, key: Viewing -> Option<K>, ks: seq<K>)
    ensures SumViews(a + b, key, ks) == SumViews(a, key, ks) + SumViews(b, key, ks)
  {
    if ks != [] {
      ViewsAppend(a, b, key, ks[0]);
      SumViewsAppend(a, b, key, ks[1..]);
    }
  }

  /** Over distinct keys, a single row is counted once if its key is listed and it has a user id. */
  lemma {:induction false} SumViewsSingle<K>(v: Viewing, key: Viewing -> Option<K>, ks: seq<K>)
    requires Distinct(ks)
    ensures SumViews([v], key, ks) == if key(v).Some? && key(v).value in ks && HasUser(v) then 1 else 0
  {
    if ks != [] {
      SumViewsSingle(v, key, ks[1..]);
      assert [v][1..] == [];
      if key(v) == Some(ks[0]) {
        assert forall j :: 0 <= j < |ks[1..]| ==> ks[1..][j] == ks[j + 1] != ks[0];
      }
    }
  }

  /**
    Summing the per-group counts over all observed keys gives the number of
    rows that have a key and a user id: no row is lost or counted twice.
   */
  lemma {:induction false} ViewsConserved<K>(rows: seq<Viewing>, key: Viewing -> Option<K>, ks: seq<K>)
    requires Distinct(ks)
    requires forall v :: v in rows && key(v).Some? ==> key(v).value in ks
    ensures SumViews(rows, key, ks) == |Keep(rows, KeyedMask(key))|
  {
    if rows == [] {
      SumViewsEmpty(key, ks);
    } else {
      assert rows == [rows[0]] + rows[1..];
      SumViewsAppend([rows[0]], rows[1..], key, ks);
      SumViewsSingle(rows[0], key, ks);
      ViewsConserved(rows[1..], key, ks);
    }
  }

  lemma {:induction false} SumViewsEmpty<K>(key: Viewing -> Option<K>, ks: seq<K>)
    ensures SumViews([], key, ks) == 0
  {
    if ks != [] {
      SumViewsEmpty(key, ks[1..]);
    }
  }
}
