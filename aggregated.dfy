/** The aggregated (seasonal) time series: one query at a time with at
    most one follow-up, the refetch trigger, the x domain of the season
    axis, and the mean line with its ±stdev envelope. */
module Aggregated {
  import opened Common
  import opened Abstract
  import opened Timeseries
  import opened Importer

  // ---------------------------------------------------------------------
  // Props and the query they ask for

  datatype AggGroup = AggGroup(values: seq<string>, color: string, lineWidth: real, opacity: real)

  datatype AggProps = AggProps(
    table: string, variable: string, aggregation: Granularity,
    timeStart: int, timeEnd: int, filter: Option<Filter>,
    groupsBy: seq<string>, groups: seq<AggGroup>, logScale: bool, title: Option<string>)

  /** The arguments of queryAggregatedVariables. */
  datatype AggQuery = AggQuery(table: string, variables: seq<string>, aggregation: Granularity, groups: Groups, filter: Filter)

  /** The query of doFetchData: the props' filter with its time range
      replaced by the props' range (`{...filter, timeStart, timeEnd}`). */
  function QueryOf(p: AggProps): (q: AggQuery)
    ensures q.variables == [p.variable] && q.aggregation == p.aggregation
    ensures q.filter.timeStart == Some(p.timeStart) && q.filter.timeEnd == Some(p.timeEnd)
    ensures q.filter.attributes == if p.filter.Some? then p.filter.value.attributes else None
    ensures q.groups.variables == p.groupsBy && |q.groups.groups| == |p.groups|
    ensures forall i :: 0 <= i < |p.groups| ==> q.groups.groups[i] == p.groups[i].values
  {
    AggQuery(p.table, [p.variable], p.aggregation,
      Groups(p.groupsBy, seq(|p.groups|, i requires 0 <= i < |p.groups| => p.groups[i].values)),
      Filter(Some(p.timeStart), Some(p.timeEnd), if p.filter.Some? then p.filter.value.attributes else None))
  }

  /** componentDidUpdate's comparison: the props that shape the query. */
  predicate QueryPropsChanged(a: AggProps, b: AggProps)
  {
    a.variable != b.variable || a.groups != b.groups || a.groupsBy != b.groupsBy
      || a.timeStart != b.timeStart || a.timeEnd != b.timeEnd
      || a.aggregation != b.aggregation || a.filter != b.filter
  }

  /** Props that agree on everything the comparison looks at ask for the
      same query, so skipping the refetch loses nothing (the table aside,
      which the comparison does not look at). */
  lemma UnchangedPropsSameQuery(a: AggProps, b: AggProps)
    requires !QueryPropsChanged(a, b) && a.table == b.table
    ensures QueryOf(a) == QueryOf(b)
  {
  }

  /** A point of the seasonal data: the bucket of the year and the
      statistics of the variable in it. */
  datatype AggDatum = AggDatum(t: Num, mean: Num, stdev: Num)

  // ---------------------------------------------------------------------
  // The single-flight fetch

  /** An AggregatedTimeseries: its props, the fetch in flight
      (`previousFetch`), the follow-up flag, every query issued and the
      number completed, and the last data received. */
  class AggregatedTimeseries {
    var props: AggProps
    var inFlight: bool
    var shouldFetchAgain: bool
    var issued: seq<AggQuery>
    var completed: nat
    var data: Option<seq<seq<AggDatum>>>

    /** At most one query is outstanding, and the flag is only ever set
        while one is. */
    predicate Valid()
      reads this
    {
      && (!inFlight ==> !shouldFetchAgain)
      && |issued| == completed + (if inFlight then 1 else 0)
    }

    constructor(p: AggProps)
      ensures Valid() && props == p && !inFlight && issued == [] && data == None
    {
      props := p;
      inFlight := false;
      shouldFetchAgain := false;
      issued := [];
      completed := 0;
      data := None;
    }

    /** fetchData: while a fetch is in flight only note that another is
        wanted; otherwise start one for the current props. */
    method FetchData()
      requires Valid()
      modifies this
      ensures Valid() && inFlight
      ensures props == old(props) && completed == old(completed) && data == old(data)
      ensures old(inFlight) ==> shouldFetchAgain && issued == old(issued)
      ensures !old(inFlight) ==> !shouldFetchAgain && issued == old(issued) + [QueryOf(props)]
    {
      if inFlight {
        shouldFetchAgain := true;
      } else {
        shouldFetchAgain := false;
        issued := issued + [QueryOf(props)];
        inFlight := true;
      }
    }

    /** The fetch in flight completes: store its data, clear
        `previousFetch`, and start one follow-up if any was asked for. */
    method CompleteFetch(result: seq<seq<AggDatum>>)
      requires Valid() && inFlight
      modifies this
      ensures Valid()
      ensures props == old(props) && data == Some(result) && completed == old(completed) + 1
      ensures old(shouldFetchAgain) ==> inFlight && !shouldFetchAgain && issued == old(issued) + [QueryOf(props)]
      ensures !old(shouldFetchAgain) ==> !inFlight && issued == old(issued)
    {
      data := Some(result);
      completed := completed + 1;
      if shouldFetchAgain {
        // previousFetch is cleared and fetchData starts the follow-up.
        shouldFetchAgain := false;
        issued := issued + [QueryOf(props)];
      } else {
        inFlight := false;
      }
    }

    method DidMount()
      requires Valid()
      modifies this
      ensures Valid() && inFlight && props == old(props) && data == old(data)
      ensures !old(inFlight) ==> issued == old(issued) + [QueryOf(props)]
      ensures old(inFlight) ==> issued == old(issued)
    {
      FetchData();
    }

    /** componentDidUpdate: fetch again if and only if a prop the query
        depends on changed. */
    method DidUpdate(newProps: AggProps)
      requires Valid()
      modifies this
      ensures Valid() && props == newProps && data == old(data) && completed == old(completed)
      ensures !QueryPropsChanged(old(props), newProps) ==>
        inFlight == old(inFlight) && shouldFetchAgain == old(shouldFetchAgain) && issued == old(issued)
      ensures QueryPropsChanged(old(props), newProps) && !old(inFlight) ==>
        inFlight && issued == old(issued) + [QueryOf(newProps)]
      ensures QueryPropsChanged(old(props), newProps) && old(inFlight) ==>
        inFlight && shouldFetchAgain && issued == old(issued)
    {
      var changed := QueryPropsChanged(props, newProps);
      props := newProps;
      if changed {
        FetchData();
      }
    }
  }

  // ---------------------------------------------------------------------
  // The season axis

  /** The x domain by aggregation; a yearly aggregation sets none. */
  function XDomain(g: Granularity): Option<(int, int)>
  {
    match g
    case Day => Some((1, 366))
    case Week => Some((1, 53))
    case Month => Some((1, 12))
    case Year => None
  }

  /** The domains hold every seasonal bucket the importer writes: ty_day,
      ty_week and ty_month of any valid date. */
  lemma XDomainCoversBuckets(year: int, month: int, day: int)
    requires PyDateValid(year, month, day)
    ensures var c := TimeColumnsOf(year, month, day).value;
      && XDomain(Day).value.0 <= c.tyDay <= XDomain(Day).value.1
      && XDomain(Week).value.0 <= c.tyWeek <= XDomain(Week).value.1
      && XDomain(Month).value.0 <= c.tyMonth <= XDomain(Month).value.1
  {
    var c := TimeColumnsOf(year, month, day).value;
    assert c.tyDay == DayOfYear(year, month, day).value;
    WeekOfYearRange(c.tyDay);
  }

  // ---------------------------------------------------------------------
  // The mean line and the envelope

  function Ts(data: seq<AggDatum>): (r: seq<Num>)
    ensures |r| == |data| && forall i :: 0 <= i < |data| ==> r[i] == data[i].t
  {
    seq(|data|, i requires 0 <= i < |data| => data[i].t)
  }

  function Means(data: seq<AggDatum>): (r: seq<Num>)
    ensures |r| == |data| && forall i :: 0 <= i < |data| ==> r[i] == data[i].mean
  {
    seq(|data|, i requires 0 <= i < |data| => data[i].mean)
  }

  /** mean + stdev, or mean - stdev, of every point. */
  function Offsets(data: seq<AggDatum>, up: bool): (r: seq<Num>)
    ensures |r| == |data|
    ensures forall i :: 0 <= i < |data| ==>
      r[i] == if up then Plus(data[i].mean, data[i].stdev) else Plus(data[i].mean, Mul(Fin(-1.0), data[i].stdev))
  {
    seq(|data|, i requires 0 <= i < |data| =>
      if up then Plus(data[i].mean, data[i].stdev) else Plus(data[i].mean, Mul(Fin(-1.0), data[i].stdev)))
  }

  /** The finite points of the indices lo..n-1, visited from n-1 down. */
  function DescIndices(t: seq<Num>, vals: seq<Num>, lo: nat, n: nat, sc: ChunkScale): seq<nat>
    requires lo <= n <= |t|
    decreases n - lo
  {
    if lo == n then []
    else
      var rest := DescIndices(t, vals, lo + 1, n, sc);
      if Drawable(t, vals, lo, sc) then rest + [lo] else rest
  }

  function DescPoints(t: seq<Num>, vals: seq<Num>, lo: nat, n: nat, sc: ChunkScale): seq<(real, real)>
    requires lo <= n <= |t|
    decreases n - lo
  {
    if lo == n then []
    else
      var rest := DescPoints(t, vals, lo + 1, n, sc);
      if Drawable(t, vals, lo, sc) then rest + [PointAt(t, vals, lo, sc)] else rest
  }

  /** The backward loop keeps exactly the finite points, in descending
      index order. */
  lemma {:induction false} DescPointsSpec(t: seq<Num>, vals: seq<Num>, lo: nat, n: nat, sc: ChunkScale)
    requires lo <= n <= |t|
    decreases n - lo
    ensures var kept := DescIndices(t, vals, lo, n, sc);
      && (forall k :: 0 <= k < |kept| ==> lo <= kept[k] < n && Drawable(t, vals, kept[k], sc))
      && (forall i :: lo <= i < n && Drawable(t, vals, i, sc) ==> i in kept)
      && (forall a, b :: 0 <= a < b < |kept| ==> kept[a] > kept[b])
      && |DescPoints(t, vals, lo, n, sc)| == |kept|
      && (forall k :: 0 <= k < |kept| ==> DescPoints(t, vals, lo, n, sc)[k] == PointAt(t, vals, kept[k], sc))
  {
    if lo < n {
      DescPointsSpec(t, vals, lo + 1, n, sc);
    }
  }

  /** The first envelope loop: mean+stdev, forward. */
  method UpperEdge(data: seq<AggDatum>, sc: ChunkScale) returns (env: seq<(real, real)>)
    ensures env == KeptPoints(Ts(data), Offsets(data, true), |data|, sc)
  {
    var t := Ts(data);
    var upper := Offsets(data, true);
    env := [];
    for i := 0 to |data|
      invariant env == KeptPoints(t, upper, i, sc)
    {
      var x := XOf(data[i].t, sc.tK, sc.tB);
      var y := YOf(Plus(data[i].mean, data[i].stdev), sc.mode, sc.yK, sc.yB, sc.ln);
      assert x == XOf(t[i], sc.tK, sc.tB) && y == YOf(At(upper, i), sc.mode, sc.yK, sc.yB, sc.ln);
      if x.Fin? && y.Fin? {
        env := env + [(x.r, y.r)];
      }
    }
  }

  /** The second envelope loop: mean-stdev, from the last point back to
      the first, appended after the first. */
  method LowerEdge(data: seq<AggDatum>, sc: ChunkScale, upper: seq<(real, real)>) returns (env: seq<(real, real)>)
    ensures env == upper + DescPoints(Ts(data), Offsets(data, false), 0, |data|, sc)
  {
    var t := Ts(data);
    var lower := Offsets(data, false);
    env := upper;
    var j := |data|;
    while j > 0
      invariant 0 <= j <= |data|
      invariant env == upper + DescPoints(t, lower, j, |data|, sc)
    {
      j := j - 1;
      var x := XOf(data[j].t, sc.tK, sc.tB);
      var y := YOf(Plus(data[j].mean, Mul(Fin(-1.0), data[j].stdev)), sc.mode, sc.yK, sc.yB, sc.ln);
      assert x == XOf(t[j], sc.tK, sc.tB) && y == YOf(At(lower, j), sc.mode, sc.yK, sc.yB, sc.ln);
      if x.Fin? && y.Fin? {
        env := env + [(x.r, y.r)];
      }
    }
  }

  /** The envelope of the render: both edges, none on a log scale. */
  method Envelope(data: seq<AggDatum>, sc: ChunkScale) returns (env: seq<(real, real)>)
    ensures sc.mode == Log ==> env == []
    ensures sc.mode == Linear ==>
      env == KeptPoints(Ts(data), Offsets(data, true), |data|, sc) + DescPoints(Ts(data), Offsets(data, false), 0, |data|, sc)
  {
    env := [];
    if sc.mode == Linear {
      var upper := UpperEdge(data, sc);
      env := LowerEdge(data, sc, upper);
    }
  }

  /** With every t, mean and stdev finite on a linear scale, the envelope
      walks all points forward at mean+stdev and back at mean-stdev. */
  lemma EnvelopeAllFinite(data: seq<AggDatum>, sc: ChunkScale, k: nat)
    requires sc.mode == Linear
    requires forall i :: 0 <= i < |data| ==> data[i].t.Fin? && data[i].mean.Fin? && data[i].stdev.Fin?
    requires k < |data|
    ensures var t := Ts(data);
      && |KeptPoints(t, Offsets(data, true), |data|, sc)| == |data|
      && |DescPoints(t, Offsets(data, false), 0, |data|, sc)| == |data|
      && KeptPoints(t, Offsets(data, true), |data|, sc)[k] == PointAt(t, Offsets(data, true), k, sc)
      && DescPoints(t, Offsets(data, false), 0, |data|, sc)[k] == PointAt(t, Offsets(data, false), |data| - 1 - k, sc)
  {
    AllDrawable(data, sc, true);
    AllDrawable(data, sc, false);
    KeptAll(Ts(data), Offsets(data, true), |data|, sc);
    DescAll(Ts(data), Offsets(data, false), 0, |data|, sc);
  }

  lemma AllDrawable(data: seq<AggDatum>, sc: ChunkScale, up: bool)
    requires sc.mode == Linear
    requires forall i :: 0 <= i < |data| ==> data[i].t.Fin? && data[i].mean.Fin? && data[i].stdev.Fin?
    ensures forall i :: 0 <= i < |data| ==> Drawable(Ts(data), Offsets(data, up), i, sc)
  {
  }

  lemma {:induction false} KeptAll(t: seq<Num>, vals: seq<Num>, n: nat, sc: ChunkScale)
    requires n <= |t|
    requires forall i :: 0 <= i < |t| ==> Drawable(t, vals, i, sc)
    ensures |KeptPoints(t, vals, n, sc)| == n
    ensures forall k :: 0 <= k < n ==> KeptPoints(t, vals, n, sc)[k] == PointAt(t, vals, k, sc)
  {
    if n > 0 {
      KeptAll(t, vals, n - 1, sc);
    }
  }

  lemma {:induction false} DescAll(t: seq<Num>, vals: seq<Num>, lo: nat, n: nat, sc: ChunkScale)
    requires lo <= n <= |t|
    requires forall i :: 0 <= i < |t| ==> Drawable(t, vals, i, sc)
    decreases n - lo
    ensures |DescPoints(t, vals, lo, n, sc)| == n - lo
    ensures forall k :: 0 <= k < n - lo ==> DescPoints(t, vals, lo, n, sc)[k] == PointAt(t, vals, n - 1 - k, sc)
  {
    if lo < n {
      DescAll(t, vals, lo + 1, n, sc);
    }
  }

  /** The mean line of one group: TimeseriesChunk's loop over the bucket
      times and means. */
  method MeanLine(data: seq<AggDatum>, sc: ChunkScale) returns (points: seq<(real, real)>)
    ensures points == KeptPoints(Ts(data), Means(data), |data|, sc)
  {
    points := ChunkPoints(Ts(data), Means(data), sc);
  }
}
