/**
  The viewing-record schema, the one-time cleaning pass and the two derived
  categorical columns (the month as an ordered category, the age bucket).
 */
module Schema {
  import opened Wrappers
  import opened Frames

  // ---------------------------------------------------------------------------
  // Raw rows and cleaning
  // ---------------------------------------------------------------------------

  /** One row of the viewing table as loaded; every column may be missing. */
  datatype Row = Row(
    userId: Option<string>,
    location: Option<string>,
    show: Option<string>,
    device: Option<string>,
    duration: Option<real>,     // duration_watched(minutes)
    rating: Option<real>,       // rating_given
    gender: Option<string>,
    subscription: Option<string>,
    watching: Option<string>,   // watching_method
    age: Option<int>,
    monthName: Option<string>)  // "Month Name"

  /** The eight columns the cleaning pass insists on are all present. */
  predicate Complete(r: Row) {
    && r.duration.Some?
    && r.show.Some?
    && r.device.Some?
    && r.rating.Some?
    && r.gender.Some?
    && r.subscription.Some?
    && r.watching.Some?
    && r.age.Some?
  }

  /** `dropna` over the eight required columns. */
  function Clean(raw: seq<Row>): (rows: seq<Row>)
    ensures forall r :: r in rows <==> r in raw && Complete(r)
    ensures |rows| <= |raw|
  {
    Keep(raw, Complete)
  }

  /** Survivors keep their relative order and their multiplicity. */
  lemma CleanPreservesOrder(raw: seq<Row>)
    ensures IsSubsequence(Clean(raw), raw)
    ensures forall r :: Complete(r) ==> multiset(Clean(raw))[r] == multiset(raw)[r]
  {
    KeepIsSubsequence(raw, Complete);
    forall r | Complete(r)
      ensures multiset(Clean(raw))[r] == multiset(raw)[r]
    {
      KeepCounts(raw, Complete, r);
    }
  }

  /** Cleaning an already cleaned table gives it back unchanged. */
  lemma CleanIdempotent(raw: seq<Row>)
    ensures Clean(Clean(raw)) == Clean(raw)
  {
    KeepIdempotent(raw, Complete);
  }

  /** A complete table is left as it is. */
  lemma CleanKeepsComplete(raw: seq<Row>)
    requires forall r :: r in raw ==> Complete(r)
    ensures Clean(raw) == raw
  {
    KeepAll(raw, Complete);
  }

  /** User id, location and month are not required: a row lacking only those survives. */
  lemma OptionalColumnsNotRequired(r: Row)
    requires Complete(r)
    ensures var bare := r.(userId := None, location := None, monthName := None);
            Clean([bare]) == [bare]
  {
  }

  // ---------------------------------------------------------------------------
  // Month as an ordered category Jan < Feb < ... < Jul
  // ---------------------------------------------------------------------------

  datatype Month = Jan | Feb | Mar | Apr | May | Jun | Jul

  /** The category list, in its declared order. */
  const Months: seq<Month> := [Jan, Feb, Mar, Apr, May, Jun, Jul]

  function MonthName(m: Month): string {
    match m
    case Jan => "Jan"
    case Feb => "Feb"
    case Mar => "Mar"
    case Apr => "Apr"
    case May => "May"
    case Jun => "Jun"
    case Jul => "Jul"
  }

  /** Position of a month in the category order. */
  function MonthIndex(m: Month): (i: nat)
    ensures i < |Months| && Months[i] == m
  {
    match m
    case Jan => 0
    case Feb => 1
    case Mar => 2
    case Apr => 3
    case May => 4
    case Jun => 5
    case Jul => 6
  }

  /**
    Casting the raw month to the categorical type: a value that is not one of
    the seven category names becomes missing.
   */
  function MonthOf(raw: Option<string>): (m: Option<Month>)
    ensures forall c :: m == Some(c) <==> raw == Some(MonthName(c))
    ensures m.None? <==> forall c :: raw != Some(MonthName(c))
  {
    if raw.None? then None
    else
      var s := raw.value;
      if s == "Jan" then Some(Jan)
      else if s == "Feb" then Some(Feb)
      else if s == "Mar" then Some(Mar)
      else if s == "Apr" then Some(Apr)
      else if s == "May" then Some(May)
      else if s == "Jun" then Some(Jun)
      else if s == "Jul" then Some(Jul)
      else None
  }

  /** Every category is listed exactly once, in order. */
  lemma MonthsCanonical()
    ensures Distinct(Months)
    ensures forall m :: m in Months
    ensures forall i :: 0 <= i < |Months| ==> MonthIndex(Months[i]) == i
  {
    forall m ensures m in Months {
      assert Months[MonthIndex(m)] == m;
    }
  }

  // ---------------------------------------------------------------------------
  // Age buckets: right-closed bins, values outside every bin get no label
  // ---------------------------------------------------------------------------

  datatype AgeGroup = Under18 | From18To25 | From26To35 | From36To50 | Over50

  const AgeBins: seq<int> := [0, 18, 25, 35, 50, 100]
  const AgeGroups: seq<AgeGroup> := [Under18, From18To25, From26To35, From36To50, Over50]

  function AgeGroupLabel(g: AgeGroup): string {
    match g
    case Under18 => "<18"
    case From18To25 => "18-25"
    case From26To35 => "26-35"
    case From36To50 => "36-50"
    case Over50 => "50+"
  }

  ghost predicate StrictlyIncreasing(edges: seq<int>) {
    forall i, j :: 0 <= i < j < |edges| ==> edges[i] < edges[j]
  }

  /**
    Binning with right-closed intervals (edges[i], edges[i+1]] and no
    lowest-edge inclusion: x gets labels[i] when it falls in the i-th bin, and
    no label when it is at or below the first edge or above the last.
   */
  function Cut<L>(x: int, edges: seq<int>, labels: seq<L>): (r: Option<L>)
    requires |edges| == |labels| + 1
    requires StrictlyIncreasing(edges)
    ensures r.None? <==> x <= edges[0] || edges[|edges| - 1] < x
    ensures forall i :: 0 <= i < |labels| && edges[i] < x <= edges[i + 1] ==> r == Some(labels[i])
    decreases |labels|
  {
    if labels == [] then None
    else if edges[0] < x <= edges[1] then Some(labels[0])
    else
      var r := Cut(x, edges[1..], labels[1..]);
      assert forall i :: 1 <= i < |labels| ==> edges[1..][i - 1] == edges[i] && labels[1..][i - 1] == labels[i];
      r
  }

  /** The age bucket of an age, exactly as the bin table lays it out. */
  function AgeGroupOf(age: int): (g: Option<AgeGroup>)
    ensures g == Some(Under18) <==> 0 < age <= 18
    ensures g == Some(From18To25) <==> 18 < age <= 25
    ensures g == Some(From26To35) <==> 25 < age <= 35
    ensures g == Some(From36To50) <==> 35 < age <= 50
    ensures g == Some(Over50) <==> 50 < age <= 100
    ensures g.None? <==> age <= 0 || 100 < age
  {
    Cut(age, AgeBins, AgeGroups)
  }

  /** Ages 17, 19, 40, 60 land in "<18", "18-25", "36-50", "50+"; age 0 in none. */
  lemma AgeGroupExamples()
    ensures AgeGroupOf(17) == Some(Under18) && AgeGroupLabel(Under18) == "<18"
    ensures AgeGroupOf(18) == Some(Under18)
    ensures AgeGroupOf(19) == Some(From18To25) && AgeGroupLabel(From18To25) == "18-25"
    ensures AgeGroupOf(40) == Some(From36To50) && AgeGroupLabel(From36To50) == "36-50"
    ensures AgeGroupOf(60) == Some(Over50) && AgeGroupLabel(Over50) == "50+"
    ensures AgeGroupOf(0) == None && AgeGroupOf(101) == None
  {
  }

  // ---------------------------------------------------------------------------
  // The cleaned, categorised dataset
  // ---------------------------------------------------------------------------

  /** A cleaned row with its two derived columns. */
  datatype Viewing = Viewing(
    userId: Option<string>,
    location: Option<string>,
    show: string,
    device: string,
    duration: real,
    rating: real,
    gender: string,
    subscription: string,
    watching: string,
    age: int,
    month: Option<Month>,
    ageGroup: Option<AgeGroup>)

  /** Adds the two derived columns to a cleaned row. */
  function Categorise(r: Row): (v: Viewing)
    requires Complete(r)
    ensures v.month.Some? ==> r.monthName == Some(MonthName(v.month.value))
    ensures v.ageGroup.Some? <==> 0 < r.age.value <= 100
    ensures Restore(v, r.monthName) == r
    ensures v.month == MonthOf(r.monthName) && v.ageGroup == AgeGroupOf(r.age.value)
  {
    Viewing(r.userId, r.location, r.show.value, r.device.value, r.duration.value,
            r.rating.value, r.gender.value, r.subscription.value, r.watching.value,
            r.age.value, MonthOf(r.monthName), AgeGroupOf(r.age.value))
  }

  /** The cleaned row a viewing came from, given the raw month text. */
  function Restore(v: Viewing, monthName: Option<string>): Row {
    Row(v.userId, v.location, Some(v.show), Some(v.device), Some(v.duration),
        Some(v.rating), Some(v.gender), Some(v.subscription), Some(v.watching),
        Some(v.age), monthName)
  }

  /** Load-time preparation: clean, then derive the month and age columns row by row. */
  function Prepare(raw: seq<Row>): (ds: seq<Viewing>)
    ensures |ds| == |Clean(raw)|
    ensures forall i :: 0 <= i < |ds| ==>
              Complete(Clean(raw)[i]) && ds[i] == Categorise(Clean(raw)[i])
  {
    var rows := Clean(raw);
    seq(|rows|, i requires 0 <= i < |rows| => Categorise(rows[i]))
  }

  /** Preparing twice from the same raw table, or from its cleaned copy, agree. */
  lemma PrepareAfterClean(raw: seq<Row>)
    ensures Prepare(Clean(raw)) == Prepare(raw)
  {
    CleanIdempotent(raw);
  }
}
