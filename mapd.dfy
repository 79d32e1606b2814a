/** The MapD database layer: time buckets by granularity, the WHERE clause
    built from a query filter and what it selects, the post-processing and
    per-group partition of query rows, and the variable list of a table. */
module Mapd {
  import opened Common
  import opened Abstract
  import opened TimeBuckets

  // ---------------------------------------------------------------------
  // Time buckets by granularity

  /** `timestamp_to_group`: the bucket (t_day, t_week, t_month or t_year) of a timestamp. */
  function TimestampToGroup(ts: int, g: Granularity): int
  {
    match g
    case Day => TimestampToDays(ts)
    case Week => TimestampToWeeks(ts)
    case Month => TimestampToMonths(ts)
    case Year => TimestampToYears(ts)
  }

  /** `group_to_timestamp`: the first second of a bucket. */
  function GroupToTimestamp(b: int, g: Granularity): int
  {
    match g
    case Day => DaysToTimestamp(b)
    case Week => WeeksToTimestamp(b)
    case Month => MonthsToTimestamp(b)
    case Year => YearsToTimestamp(b)
  }

  /** A timestamp lies in its bucket: at or after the bucket's start and
      before the next bucket's start. */
  lemma GroupBracket(ts: int, g: Granularity)
    ensures GroupToTimestamp(TimestampToGroup(ts, g), g) <= ts < GroupToTimestamp(TimestampToGroup(ts, g) + 1, g)
  {
    match g
    case Day =>
    case Week =>
    case Month => MonthsBracket(ts);
    case Year => YearsBracket(ts);
  }


  /** Each bucket starts strictly after the one before it. */
  lemma GroupIncreasing(b: int, g: Granularity)
    ensures GroupToTimestamp(b, g) < GroupToTimestamp(b + 1, g)
  {
    match g
    case Day =>
    case Week =>
    case Month => MonthsToTimestampIncreasing(b);
    case Year => YearsToTimestampIncreasing(b);
  }

  lemma {:induction false} GroupMonotone(a: int, b: int, g: Granularity)
    requires a <= b
    ensures GroupToTimestamp(a, g) <= GroupToTimestamp(b, g)
    decreases b - a
  {
    if a < b {
      GroupMonotone(a, b - 1, g);
      GroupIncreasing(b - 1, g);
    }
  }

  /** Bucket starts in the order of the buckets. */
  lemma GroupOrdered(a: int, b: int, g: Granularity)
    ensures a <= b ==> GroupToTimestamp(a, g) <= GroupToTimestamp(b, g)
  {
    if a <= b {
      GroupMonotone(a, b, g);
    }
  }

  /** For the bucket t that holds ts, a bucket b is at least t exactly
      when b ends after ts. */
  lemma BucketAtLeastOrder(ts: int, t: int, b: int, g: Granularity)
    requires GroupToTimestamp(t, g) <= ts < GroupToTimestamp(t + 1, g)
    ensures b >= t <==> ts < GroupToTimestamp(b + 1, g)
  {
    GroupOrdered(t + 1, b + 1, g);
    GroupOrdered(b + 1, t, g);
  }

  /** For the bucket t that holds ts, a bucket b is at most t exactly when b
      starts at or before ts. */
  lemma BucketAtMostOrder(ts: int, t: int, b: int, g: Granularity)
    requires GroupToTimestamp(t, g) <= ts < GroupToTimestamp(t + 1, g)
    ensures b <= t <==> GroupToTimestamp(b, g) <= ts
  {
    GroupOrdered(b, t, g);
    GroupOrdered(t + 1, b, g);
  }

  /** A bucket's number is at least the bucket of ts exactly when the bucket
      ends after ts. */
  lemma AtLeastBucketMeaning(ts: int, b: int, g: Granularity)
    ensures b >= TimestampToGroup(ts, g) <==> ts < GroupToTimestamp(b + 1, g)
  {
    GroupBracket(ts, g);
    BucketAtLeastOrder(ts, TimestampToGroup(ts, g), b, g);
  }

  /** A bucket's number is at most the bucket of ts exactly when the bucket
      starts at or before ts. */
  lemma AtMostBucketMeaning(ts: int, b: int, g: Granularity)
    ensures b <= TimestampToGroup(ts, g) <==> GroupToTimestamp(b, g) <= ts
  {
    GroupBracket(ts, g);
    BucketAtMostOrder(ts, TimestampToGroup(ts, g), b, g);
  }

  /** Day and week buckets survive the trip to a timestamp and back. */
  lemma GroupRoundTrip(b: int, g: Granularity)
    requires g == Day || g == Week
    ensures TimestampToGroup(GroupToTimestamp(b, g), g) == b
  {
    if g == Day { DaysRoundTrip(b); } else { WeeksRoundTrip(b); }
  }

  // ---------------------------------------------------------------------
  // The WHERE clause

  /** One part of a WHERE clause, as filterExpression pushes it. */
  datatype Cond =
    | BucketAtLeast(g: Granularity, bucket: int)
    | BucketAtMost(g: Granularity, bucket: int)
    | NoValue
    | AnyOf(name: string, values: seq<string>)
    | AtLeast(name: string, bound: int)
    | AtMost(name: string, bound: int)

  function EqualsTerm(name: string, value: string): string
  {
    "m_" + name + " = '" + value + "'"
  }

  function EqualsTerms(name: string, values: seq<string>): (r: seq<string>)
    ensures |r| == |values|
    ensures forall k :: 0 <= k < |values| ==> r[k] == EqualsTerm(name, values[k])
  {
    seq(|values|, k requires 0 <= k < |values| => EqualsTerm(name, values[k]))
  }

  /** The SQL text of one part. */
  function Render(c: Cond): string
  {
    match c
    case BucketAtLeast(g, b) => "t_" + GranularityName(g) + " >= " + IntToString(b)
    case BucketAtMost(g, b) => "t_" + GranularityName(g) + " <= " + IntToString(b)
    case NoValue => "(FALSE)"
    case AnyOf(name, values) => "(" + Join(EqualsTerms(name, values), " OR ") + ")"
    case AtLeast(name, n) => "m_" + name + " >= " + IntToString(n)
    case AtMost(name, n) => "m_" + name + " <= " + IntToString(n)
  }

  /** The part an `in` list contributes: `(FALSE)` for an empty list. */
  function InConds(name: string, f: AttrFilter): seq<Cond>
  {
    match f.inList
    case None => []
    case Some(values) => if |values| == 0 then [NoValue] else [AnyOf(name, values)]
  }

  function MinConds(name: string, f: AttrFilter): seq<Cond>
  {
    if f.within.Some? && f.within.value.min.Some? then [AtLeast(name, f.within.value.min.value)] else []
  }

  function MaxConds(name: string, f: AttrFilter): seq<Cond>
  {
    if f.within.Some? && f.within.value.max.Some? then [AtMost(name, f.within.value.max.value)] else []
  }

  /** The parts one attribute constraint contributes, in push order. */
  function AttrConds(name: string, f: AttrFilter): seq<Cond>
  {
    InConds(name, f) + MinConds(name, f) + MaxConds(name, f)
  }

  function AttributesConds(attrs: Attributes): seq<Cond>
  {
    if attrs == [] then []
    else AttributesConds(attrs[..|attrs| - 1]) + AttrConds(attrs[|attrs| - 1].0, attrs[|attrs| - 1].1)
  }

  function StartConds(g: Granularity, f: Filter): seq<Cond>
  {
    if f.timeStart.Some? then [BucketAtLeast(g, TimestampToGroup(f.timeStart.value, g))] else []
  }

  function EndConds(g: Granularity, f: Filter): seq<Cond>
  {
    if f.timeEnd.Some? then [BucketAtMost(g, TimestampToGroup(f.timeEnd.value, g))] else []
  }

  function TimeConds(g: Granularity, f: Filter): seq<Cond>
  {
    StartConds(g, f) + EndConds(g, f)
  }

  /** Every part filterExpression pushes for a filter, in order. */
  function FilterConds(g: Granularity, filter: Option<Filter>): seq<Cond>
  {
    match filter
    case None => []
    case Some(f) =>
      TimeConds(g, f) + AttributesConds(AttrsOf(f))
  }

  function RenderAll(conds: seq<Cond>): (r: seq<string>)
    ensures |r| == |conds|
  {
    if conds == [] then [] else RenderAll(conds[..|conds| - 1]) + [Render(conds[|conds| - 1])]
  }

  lemma {:induction false} RenderAllAppend(a: seq<Cond>, b: seq<Cond>)
    ensures RenderAll(a + b) == RenderAll(a) + RenderAll(b)
    decreases |b|
  {
    if b != [] {
      var n := |b| - 1;
      assert (a + b)[..|a + b| - 1] == a + b[..n];
      RenderAllAppend(a, b[..n]);
    } else {
      assert a + b == a;
    }
  }

  /** "" without parts, else "WHERE " and the parts joined by " AND ". */
  function WhereClause(parts: seq<string>): string
  {
    if |parts| > 0 then "WHERE " + Join(parts, " AND ") else ""
  }

  lemma WhereClauseShape(parts: seq<string>)
    ensures WhereClause(parts) == "" <==> parts == []
    ensures parts != [] ==> WhereClause(parts)[..6] == "WHERE "
  {
    if parts != [] {
      assert |"WHERE " + Join(parts, " AND ")| >= 6;
    }
  }

  /** The parts one attribute pushes, `in` first, then `within.min`, then `within.max`. */
  method AttrParts(name: string, item: AttrFilter) returns (parts: seq<string>)
    ensures parts == RenderAll(AttrConds(name, item))
  {
    parts := [];
    if item.inList.Some? {
      if |item.inList.value| == 0 {
        parts := parts + [Render(NoValue)];
      } else {
        parts := parts + [Render(AnyOf(name, item.inList.value))];
      }
    }
    assert parts == RenderAll(InConds(name, item));
    var p0 := parts;
    if item.within.Some? {
      if item.within.value.min.Some? {
        parts := parts + [Render(AtLeast(name, item.within.value.min.value))];
      }
      var p1 := parts;
      if item.within.value.max.Some? {
        parts := parts + [Render(AtMost(name, item.within.value.max.value))];
      }
      assert parts == p1 + RenderAll(MaxConds(name, item));
    }
    assert parts == p0 + RenderAll(MinConds(name, item)) + RenderAll(MaxConds(name, item));
    RenderAllAppend(InConds(name, item), MinConds(name, item));
    RenderAllAppend(InConds(name, item) + MinConds(name, item), MaxConds(name, item));
  }

  /** The loop of filterExpression over the attributes, in key order. */
  method AttributesParts(attrs: Attributes) returns (parts: seq<string>)
    ensures parts == RenderAll(AttributesConds(attrs))
  {
    parts := [];
    for i := 0 to |attrs|
      invariant parts == RenderAll(AttributesConds(attrs[..i]))
    {
      var more := AttrParts(attrs[i].0, attrs[i].1);
      parts := parts + more;
      assert attrs[..i + 1][..i] == attrs[..i];
      assert AttributesConds(attrs[..i + 1]) == AttributesConds(attrs[..i]) + AttrConds(attrs[i].0, attrs[i].1);
      RenderAllAppend(AttributesConds(attrs[..i]), AttrConds(attrs[i].0, attrs[i].1));
    }
    assert attrs[..|attrs|] == attrs;
  }

  /** The bucket bounds filterExpression pushes for timeStart and timeEnd. */
  method TimeParts(g: Granularity, f: Filter) returns (parts: seq<string>)
    ensures parts == RenderAll(TimeConds(g, f))
  {
    parts := [];
    if f.timeStart.Some? {
      var start := TimestampToGroup(f.timeStart.value, g);
      parts := parts + [Render(BucketAtLeast(g, start))];
    }
    assert parts == RenderAll(StartConds(g, f));
    if f.timeEnd.Some? {
      var end := TimestampToGroup(f.timeEnd.value, g);
      parts := parts + [Render(BucketAtMost(g, end))];
    }
    RenderAllAppend(StartConds(g, f), EndConds(g, f));
  }

  /** `filterExpression`: the time bounds, then the attribute constraints,
      joined into a WHERE clause. */
  method FilterExpression(g: Granularity, filter: Option<Filter>) returns (sql: string)
    ensures sql == WhereClause(RenderAll(FilterConds(g, filter)))
  {
    var parts: seq<string> := [];
    if filter.Some? {
      var f := filter.value;
      parts := TimeParts(g, f);
      if f.attributes.Some? {
        var more := AttributesParts(f.attributes.value);
        parts := parts + more;
        RenderAllAppend(TimeConds(g, f), AttributesConds(f.attributes.value));
      } else {
        assert FilterConds(g, filter) == TimeConds(g, f);
      }
    }
    if |parts| > 0 {
      sql := "WHERE " + Join(parts, " AND ");
    } else {
      sql := "";
    }
  }

  // ---------------------------------------------------------------------
  // What the WHERE clause selects

  /** The columns of one table row as the WHERE clause sees them: the bucket
      column of the query's granularity, the string columns and the numeric
      columns (by attribute name, without the m_ prefix). A missing column
      is SQL NULL, which satisfies no comparison. */
  datatype SqlRow = SqlRow(bucket: int, strs: map<string, string>, nums: map<string, int>)

  predicate Holds(c: Cond, row: SqlRow)
  {
    match c
    case BucketAtLeast(_, b) => row.bucket >= b
    case BucketAtMost(_, b) => row.bucket <= b
    case NoValue => false
    case AnyOf(name, values) => name in row.strs && row.strs[name] in values
    case AtLeast(name, n) => name in row.nums && row.nums[name] >= n
    case AtMost(name, n) => name in row.nums && row.nums[name] <= n
  }

  predicate AllHold(conds: seq<Cond>, row: SqlRow)
  {
    forall k :: 0 <= k < |conds| ==> Holds(conds[k], row)
  }

  /** What one attribute constraint admits: a value from the `in` list, and a
      number inside the `within` bounds that are given. */
  predicate AttrAdmits(name: string, f: AttrFilter, row: SqlRow)
  {
    && (f.inList.Some? ==> name in row.strs && row.strs[name] in f.inList.value)
    && (f.within.Some? && f.within.value.min.Some? ==> name in row.nums && row.nums[name] >= f.within.value.min.value)
    && (f.within.Some? && f.within.value.max.Some? ==> name in row.nums && row.nums[name] <= f.within.value.max.value)
  }

  /** The time part of a filter admits a row when its bucket's time span
      meets the inclusive interval [timeStart, timeEnd]. */
  predicate TimeAdmits(g: Granularity, f: Filter, row: SqlRow)
  {
    StartAdmits(g, f, row) && EndAdmits(g, f, row)
  }

  /** The bucket ends after timeStart, when there is one. */
  predicate StartAdmits(g: Granularity, f: Filter, row: SqlRow)
  {
    f.timeStart.Some? ==> f.timeStart.value < GroupToTimestamp(row.bucket + 1, g)
  }

  /** The bucket starts at or before timeEnd, when there is one. */
  predicate EndAdmits(g: Granularity, f: Filter, row: SqlRow)
  {
    f.timeEnd.Some? ==> GroupToTimestamp(row.bucket, g) <= f.timeEnd.value
  }

  /** Every attribute constraint admits the row. */
  predicate AttrsAdmit(attrs: Attributes, row: SqlRow)
  {
    forall k :: 0 <= k < |attrs| ==> AttrAdmits(attrs[k].0, attrs[k].1, row)
  }

  /** The constraints of a filter's attribute map; none without one. */
  function AttrsOf(f: Filter): Attributes
  {
    if f.attributes.Some? then f.attributes.value else []
  }

  /** A row is admitted by a filter when its time part and every attribute
      constraint admit it; no filter admits every row. */
  predicate Admits(g: Granularity, filter: Option<Filter>, row: SqlRow)
  {
    filter.Some? ==> TimeAdmits(g, filter.value, row) && AttrsAdmit(AttrsOf(filter.value), row)
  }

  lemma AllHoldAppend(a: seq<Cond>, b: seq<Cond>, row: SqlRow)
    ensures AllHold(a + b, row) <==> AllHold(a, row) && AllHold(b, row)
  {
    if AllHold(a, row) && AllHold(b, row) {
      forall k | 0 <= k < |a + b| ensures Holds((a + b)[k], row) {
        if k >= |a| { assert (a + b)[k] == b[k - |a|]; }
      }
    }
    if AllHold(a + b, row) {
      forall k | 0 <= k < |a| ensures Holds(a[k], row) {
        assert (a + b)[k] == a[k];
      }
      forall k | 0 <= k < |b| ensures Holds(b[k], row) {
        assert (a + b)[|a| + k] == b[k];
      }
    }
  }

  lemma AllHoldSingle(c: Cond, row: SqlRow)
    ensures AllHold([c], row) <==> Holds(c, row)
  {
    assert [c][0] == c;
  }

  lemma AttrCondsMeaning(name: string, f: AttrFilter, row: SqlRow)
    ensures AllHold(AttrConds(name, f), row) <==> AttrAdmits(name, f, row)
  {
    AllHoldAppend(InConds(name, f), MinConds(name, f), row);
    AllHoldAppend(InConds(name, f) + MinConds(name, f), MaxConds(name, f), row);
    if f.inList.Some? {
      var c := InConds(name, f)[0];
      assert AllHold(InConds(name, f), row) <==> Holds(c, row);
    }
    if f.within.Some? && f.within.value.min.Some? {
      assert AllHold(MinConds(name, f), row) <==> Holds(MinConds(name, f)[0], row);
    }
    if f.within.Some? && f.within.value.max.Some? {
      assert AllHold(MaxConds(name, f), row) <==> Holds(MaxConds(name, f)[0], row);
    }
  }

  lemma {:induction false} AttributesCondsMeaning(attrs: Attributes, row: SqlRow)
    ensures AllHold(AttributesConds(attrs), row) <==> AttrsAdmit(attrs, row)
  {
    if attrs != [] {
      var n := |attrs| - 1;
      AttributesCondsMeaning(attrs[..n], row);
      AllHoldAppend(AttributesConds(attrs[..n]), AttrConds(attrs[n].0, attrs[n].1), row);
      AttrCondsMeaning(attrs[n].0, attrs[n].1, row);
      if AttrsAdmit(attrs[..n], row) {
        assert forall k :: 0 <= k < n ==> attrs[..n][k] == attrs[k];
      }
    }
  }

  lemma StartCondsMeaning(g: Granularity, f: Filter, row: SqlRow)
    ensures AllHold(StartConds(g, f), row) <==> StartAdmits(g, f, row)
  {
    if f.timeStart.Some? {
      StartBoundMeaning(g, f.timeStart.value, row);
    }
  }

  lemma StartBoundMeaning(g: Granularity, ts: int, row: SqlRow)
    ensures AllHold([BucketAtLeast(g, TimestampToGroup(ts, g))], row) <==> ts < GroupToTimestamp(row.bucket + 1, g)
  {
    AllHoldSingle(BucketAtLeast(g, TimestampToGroup(ts, g)), row);
    AtLeastBucketMeaning(ts, row.bucket, g);
  }

  lemma EndCondsMeaning(g: Granularity, f: Filter, row: SqlRow)
    ensures AllHold(EndConds(g, f), row) <==> EndAdmits(g, f, row)
  {
    if f.timeEnd.Some? {
      EndBoundMeaning(g, f.timeEnd.value, row);
    }
  }

  lemma EndBoundMeaning(g: Granularity, ts: int, row: SqlRow)
    ensures AllHold([BucketAtMost(g, TimestampToGroup(ts, g))], row) <==> GroupToTimestamp(row.bucket, g) <= ts
  {
    AllHoldSingle(BucketAtMost(g, TimestampToGroup(ts, g)), row);
    AtMostBucketMeaning(ts, row.bucket, g);
  }

  lemma TimeCondsMeaning(g: Granularity, f: Filter, row: SqlRow)
    ensures AllHold(TimeConds(g, f), row) <==> TimeAdmits(g, f, row)
  {
    AllHoldAppend(StartConds(g, f), EndConds(g, f), row);
    StartCondsMeaning(g, f, row);
    EndCondsMeaning(g, f, row);
  }

  /** The parts of a filter select exactly the rows the filter admits: a
      bucket is kept when its time span meets [timeStart, timeEnd], both
      ends inclusive. */
  lemma FilterCondsMeaning(g: Granularity, filter: Option<Filter>, row: SqlRow)
    ensures AllHold(FilterConds(g, filter), row) <==> Admits(g, filter, row)
  {
    if filter.Some? {
      var f := filter.value;
      assert FilterConds(g, filter) == TimeConds(g, f) + AttributesConds(AttrsOf(f));
      TimeCondsMeaning(g, f, row);
      AttributesCondsMeaning(AttrsOf(f), row);
      AllHoldAppend(TimeConds(g, f), AttributesConds(AttrsOf(f)), row);
    }
  }

  // ---------------------------------------------------------------------
  // Query rows

  /** A cell of a result row: a number, a text, SQL NULL as the driver
      hands it over (`null`), or JavaScript's `undefined` (`Missing`). */
  datatype Value = NumV(n: Num) | StrV(s: string) | NullV | Missing

  /** A row as the SQL query returns it: its `t` column, the bucket
      number, and its other columns (m_ and g_) by name. */
  datatype SqlResult = SqlResult(bucket: int, columns: map<string, Value>)

  /** A result item as JavaScript holds it: every property by name,
      `t` included. */
  datatype ResultRow = ResultRow(fields: map<string, Value>)

  function Field(row: ResultRow, name: string): Value
  {
    if name in row.fields then row.fields[name] else Missing
  }

  /** The loop `item[v] = item["m_" + v]` over the requested variables, in order. */
  function CopyVariables(fields: map<string, Value>, variables: seq<string>): map<string, Value>
  {
    if variables == [] then fields
    else
      var before := CopyVariables(fields, variables[..|variables| - 1]);
      var v := variables[|variables| - 1];
      before[v := if "m_" + v in before then before["m_" + v] else Missing]
  }

  /** The item after `item.t = group_to_timestamp(item.t)` and the copy loop. */
  function PostProcessed(row: SqlResult, g: Granularity, variables: seq<string>): ResultRow
  {
    ResultRow(CopyVariables(row.columns["t" := NumV(Fin(GroupToTimestamp(row.bucket, g) as real))], variables))
  }

  /** Each requested variable ends up holding its m_ column (a later copy
      wins when a name is requested twice), no other column is touched. */
  lemma {:induction false} CopyVariablesSpec(fields: map<string, Value>, variables: seq<string>, name: string)
    requires forall v :: v in variables ==> "m_" + v !in variables
    ensures name in variables ==>
      (name in CopyVariables(fields, variables)
       && CopyVariables(fields, variables)[name] == (if "m_" + name in fields then fields["m_" + name] else Missing))
    ensures name !in variables ==> (name in CopyVariables(fields, variables) <==> name in fields)
    ensures name !in variables && name in fields ==> CopyVariables(fields, variables)[name] == fields[name]
  {
    if variables != [] {
      var n := |variables| - 1;
      var prefix := variables[..n];
      assert forall v :: v in prefix ==> v in variables;
      CopyVariablesSpec(fields, prefix, name);
      CopyVariablesSpec(fields, prefix, "m_" + variables[n]);
      assert "m_" + variables[n] !in variables;
      assert forall v :: v in variables ==> v in prefix || v == variables[n];
    }
  }

  /** The time of a post-processed item: its bucket's start time, unless a
      variable named "t" is requested, whose copy then overwrites it with
      the m_t column (undefined when the query has none). A requested
      variable holds its m_ column, and any other column is kept. */
  lemma PostProcessedFields(row: SqlResult, g: Granularity, variables: seq<string>, name: string)
    requires forall v :: v in variables ==> "m_" + v !in variables
    ensures Field(PostProcessed(row, g, variables), "t") ==
      if "t" !in variables then NumV(Fin(GroupToTimestamp(row.bucket, g) as real))
      else if "m_t" in row.columns then row.columns["m_t"] else Missing
    ensures name in variables && name != "m_t" ==>
      Field(PostProcessed(row, g, variables), name) == if "m_" + name in row.columns then row.columns["m_" + name] else Missing
    ensures name !in variables && name != "t" ==> Field(PostProcessed(row, g, variables), name) == Field(ResultRow(row.columns), name)
  {
    var fields := row.columns["t" := NumV(Fin(GroupToTimestamp(row.bucket, g) as real))];
    CopyVariablesSpec(fields, variables, "t");
    CopyVariablesSpec(fields, variables, name);
    assert "m_t" != "t" && "m_" + "t" == "m_t";
    assert ("m_t" in fields <==> "m_t" in row.columns) && ("m_t" in fields ==> fields["m_t"] == row.columns["m_t"]);
    assert "t" in fields && fields["t"] == NumV(Fin(GroupToTimestamp(row.bucket, g) as real));
    assert name in variables && name != "m_t" ==> "m_" + name != "t";
  }

  /** The loop of queryVariables over the rows, mutating each in place. */
  method PostProcessRows(rows: seq<SqlResult>, g: Granularity, variables: seq<string>) returns (out: seq<ResultRow>)
    ensures |out| == |rows|
    ensures forall k :: 0 <= k < |rows| ==> out[k] == PostProcessed(rows[k], g, variables)
  {
    out := [];
    for k := 0 to |rows|
      invariant |out| == k
      invariant forall j :: 0 <= j < k ==> out[j] == PostProcessed(rows[j], g, variables)
    {
      var item := ResultRow(rows[k].columns);
      item := item.(fields := item.fields["t" := NumV(Fin(GroupToTimestamp(rows[k].bucket, g) as real))]);
      ghost var start := item.fields;
      for i := 0 to |variables|
        invariant item == ResultRow(CopyVariables(start, variables[..i]))
      {
        var v := variables[i];
        assert variables[..i + 1][..i] == variables[..i];
        item := item.(fields := item.fields[v := Field(item, "m_" + v)]);
      }
      assert variables[..|variables|] == variables;
      out := out + [item];
    }
  }

  /** Whether a row belongs to a group: `groups.variables.every((v, i) =>
      item["g_" + v] == g[i])`, where a missing value g[i] is undefined. */
  predicate InGroup(row: ResultRow, groupBy: seq<string>, values: seq<string>)
  {
    forall i :: 0 <= i < |groupBy| ==>
      Field(row, "g_" + groupBy[i]) == (if i < |values| then StrV(values[i]) else Missing)
  }

  /** `results.filter(...)`: the rows of a group, in their original order. */
  function RowsOf(rows: seq<ResultRow>, groupBy: seq<string>, values: seq<string>): (r: seq<ResultRow>)
    ensures |r| <= |rows|
  {
    if rows == [] then []
    else
      var rest := RowsOf(rows[..|rows| - 1], groupBy, values);
      if InGroup(rows[|rows| - 1], groupBy, values) then rest + [rows[|rows| - 1]] else rest
  }

  /** The partition that ends queryVariables: one list per group, in group
      order, or all rows as a single list without groups. */
  function Partition(rows: seq<ResultRow>, groups: Option<Groups>): (r: seq<seq<ResultRow>>)
    ensures groups.None? ==> r == [rows]
    ensures groups.Some? ==> |r| == |groups.value.groups|
  {
    match groups
    case None => [rows]
    case Some(gs) =>
      seq(|gs.groups|, j requires 0 <= j < |gs.groups| => RowsOf(rows, gs.variables, gs.groups[j]))
  }

  /** Sub-sequence: a can be obtained from b by deleting elements. */
  predicate Subsequence<T(==)>(a: seq<T>, b: seq<T>)
  {
    if a == [] then true
    else if b == [] then false
    else if a[|a| - 1] == b[|b| - 1] then Subsequence(a[..|a| - 1], b[..|b| - 1])
    else Subsequence(a, b[..|b| - 1])
  }

  lemma {:induction false} SubsequenceExtend<T>(a: seq<T>, b: seq<T>, x: T)
    requires Subsequence(a, b)
    ensures Subsequence(a, b + [x])
    decreases |b|, 1
  {
    assert (b + [x])[..|b|] == b;
    if a != [] && a[|a| - 1] == x {
      SubsequenceDropLast(a, b);
    }
  }

  lemma {:induction false} SubsequenceDropLast<T>(a: seq<T>, b: seq<T>)
    requires a != [] && Subsequence(a, b)
    ensures Subsequence(a[..|a| - 1], b)
    decreases |b|, 0
  {
    if b != [] {
      var m := |b| - 1;
      if a[|a| - 1] == b[m] {
        SubsequenceExtend(a[..|a| - 1], b[..m], b[m]);
        assert b[..m] + [b[m]] == b;
      } else {
        SubsequenceDropLast(a, b[..m]);
        SubsequenceExtend(a[..|a| - 1], b[..m], b[m]);
        assert b[..m] + [b[m]] == b;
      }
    }
  }

  /** Each group's list holds exactly the rows of that group, in their
      original order. */
  lemma {:induction false} RowsOfSpec(rows: seq<ResultRow>, groupBy: seq<string>, values: seq<string>)
    ensures forall x :: x in RowsOf(rows, groupBy, values) <==> x in rows && InGroup(x, groupBy, values)
    ensures Subsequence(RowsOf(rows, groupBy, values), rows)
  {
    if rows != [] {
      var n := |rows| - 1;
      RowsOfSpec(rows[..n], groupBy, values);
      assert rows == rows[..n] + [rows[n]];
      var rest := RowsOf(rows[..n], groupBy, values);
      if InGroup(rows[n], groupBy, values) {
        assert (rest + [rows[n]])[..|rest|] == rest;
      } else {
        SubsequenceExtend(rest, rows[..n], rows[n]);
      }
    }
  }

  // ---------------------------------------------------------------------
  // listVariables

  /** A row of variables.csv. */
  datatype DescriptionRow = DescriptionRow(name: string, description: string, unit: string)

  /** `lookup`: the first row with the name, or an empty description and unit. */
  function LookupDescription(items: seq<DescriptionRow>, name: string): (r: DescriptionRow)
    ensures r in items || r == DescriptionRow("", "", "")
    ensures (exists k :: 0 <= k < |items| && items[k].name == name) ==> r.name == name
    ensures (forall k :: 0 <= k < |items| ==> items[k].name != name) ==> r == DescriptionRow("", "", "")
    ensures (exists k :: 0 <= k < |items| && items[k].name == name) ==>
      exists k :: 0 <= k < |items| && items[k] == r && forall j :: 0 <= j < k ==> items[j].name != name
  {
    if items == [] then DescriptionRow("", "", "")
    else if items[0].name == name then items[0]
    else
      var r := LookupDescription(items[1..], name);
      assert forall k :: 0 < k < |items| ==> items[k] == items[1..][k - 1];
      r
  }

  /** The JavaScript type of a column type. */
  function JsType(sqlType: string): VarType
  {
    if sqlType == "DOUBLE" || sqlType == "BIGINT" then NumberType
    else if sqlType == "STR" then StringType
    else UnknownType
  }

  /** A table field: its column name and its SQL type. */
  datatype TableField = TableField(name: string, sqlType: string)

  function StartsWithM(s: string): bool
  {
    |s| >= 2 && s[..2] == "m_"
  }

  function VariableOf(f: TableField, items: seq<DescriptionRow>): Variable
    requires StartsWithM(f.name)
  {
    var name := f.name[2..];
    var row := LookupDescription(items, name);
    Variable(name, JsType(f.sqlType), row.description, row.unit)
  }

  /** `listVariables`: the m_ fields as variables, in field order. */
  function ListVariables(fields: seq<TableField>, items: seq<DescriptionRow>): (r: seq<Variable>)
    ensures |r| <= |fields|
  {
    if fields == [] then []
    else
      var rest := ListVariables(fields[1..], items);
      if StartsWithM(fields[0].name) then [VariableOf(fields[0], items)] + rest else rest
  }

  /** Every listed variable comes from an m_ field with the prefix stripped,
      and every m_ field is listed. */
  lemma {:induction false} ListVariablesSpec(fields: seq<TableField>, items: seq<DescriptionRow>)
    ensures forall v :: v in ListVariables(fields, items) ==>
      (exists f :: f in fields && StartsWithM(f.name) && v == VariableOf(f, items))
    ensures forall f :: f in fields && StartsWithM(f.name) ==> VariableOf(f, items) in ListVariables(fields, items)
    ensures |ListVariables(fields, items)| == |fields| <==> forall f :: f in fields ==> StartsWithM(f.name)
  {
    if fields != [] {
      ListVariablesSpec(fields[1..], items);
      assert forall f :: f in fields <==> f == fields[0] || f in fields[1..];
    }
  }
}
