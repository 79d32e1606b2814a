/** The chunked data cache of the time-series views: a time window is cut
    into fixed-size aligned chunks, each chunk is queried once, results that
    arrive after the query parameters changed are dropped, and the cached
    chunks that meet a window are served sorted by start time. */
module ChunkFetch {
  import opened Common
  import opened Abstract
  import opened Mapd

  // ---------------------------------------------------------------------
  // Chunk data

  /** One group of a chunk: the `t` array and one array per variable. */
  datatype ChunkGroup = ChunkGroup(t: seq<Num>, columns: map<string, seq<Num>>)

  datatype ChunkData = ChunkData(id: string, timeStart: int, timeEnd: int, groups: seq<ChunkGroup>)

  /** Whether a sample time lies in [timeStart, timeEnd]; NaN never does. */
  predicate InWindow(v: Num, timeStart: int, timeEnd: int)
  {
    v.Fin? && timeStart as real <= v.r <= timeEnd as real
  }

  /** `getChunkID`: `timeStart + "::" + timeEnd`. */
  function ChunkId(timeStart: int, timeEnd: int): string
  {
    IntToString(timeStart) + "::" + IntToString(timeEnd)
  }

  /** Distinct chunk bounds give distinct ids, so the cache may be keyed by
      the pair of bounds. */
  lemma ChunkIdInjective(s1: int, e1: int, s2: int, e2: int)
    requires ChunkId(s1, e1) == ChunkId(s2, e2)
    ensures s1 == s2 && e1 == e2
  {
    var p1, p2 := [IntToString(s1), "", IntToString(e1)], [IntToString(s2), "", IntToString(e2)];
    JoinThree(IntToString(s1), IntToString(e1));
    JoinThree(IntToString(s2), IntToString(e2));
    IntToStringNoColon(s1);
    IntToStringNoColon(e1);
    IntToStringNoColon(s2);
    IntToStringNoColon(e2);
    SplitJoin(p1, ':');
    SplitJoin(p2, ':');
    assert p1 == p2;
    IntToStringInjective(s1, s2);
    IntToStringInjective(e1, e2);
  }

  lemma JoinThree(a: string, b: string)
    ensures Join([a, "", b], ":") == a + "::" + b
  {
    assert [a, "", b][1..] == ["", b];
    assert ["", b][1..] == [b];
    assert Join(["", b], ":") == "" + ":" + b;
  }

  /** A cell as a Float64Array stores it (ToNumber): numbers as they are,
      text converted as StringToNumber does, null 0 and undefined NaN. */
  function NumOf(v: Value): Num
  {
    match v
    case NumV(n) => n
    case StrV(t) => StringToNumber(t)
    case NullV => Fin(0.0)
    case Missing => NaN
  }

  /** `new Float64Array(rows.map(x => x.t))`. */
  function Times(rows: seq<ResultRow>): (r: seq<Num>)
    ensures |r| == |rows|
    ensures forall k :: 0 <= k < |rows| ==> r[k] == NumOf(Field(rows[k], "t"))
  {
    seq(|rows|, k requires 0 <= k < |rows| => NumOf(Field(rows[k], "t")))
  }

  /** `new Float64Array(rows.map(x => x[variable]))`. */
  function Column(rows: seq<ResultRow>, variable: string): (r: seq<Num>)
    ensures |r| == |rows|
    ensures forall k :: 0 <= k < |rows| ==> r[k] == NumOf(Field(rows[k], variable))
  {
    seq(|rows|, k requires 0 <= k < |rows| => NumOf(Field(rows[k], variable)))
  }

  /** The group a list of rows becomes: a `t` array and exactly one array
      per requested variable, each as long as the list. */
  function GroupOf(rows: seq<ResultRow>, variables: seq<string>): (g: ChunkGroup)
    ensures |g.t| == |rows|
    ensures forall v :: v in g.columns <==> v in variables
    ensures forall v :: v in variables ==> |g.columns[v]| == |rows|
  {
    ChunkGroup(Times(rows), map v | v in variables :: Column(rows, v))
  }

  /** The inner loop of fetchChunk's conversion: one array per variable. */
  method BuildGroup(rows: seq<ResultRow>, variables: seq<string>) returns (group: ChunkGroup)
    ensures group == GroupOf(rows, variables)
  {
    var columns: map<string, seq<Num>> := map[];
    for i := 0 to |variables|
      invariant columns == map v | v in variables[..i] :: Column(rows, v)
    {
      columns := columns[variables[i] := Column(rows, variables[i])];
      assert forall v :: v in variables[..i + 1] <==> v in variables[..i] || v == variables[i];
    }
    assert variables[..|variables|] == variables;
    group := ChunkGroup(Times(rows), columns);
  }

  /** The chunk stored for a completed query: one group per entry of the
      grouping, built from every row returned for that group. */
  function ChunkOf(timeStart: int, timeEnd: int, groupCount: nat, variables: seq<string>,
                   data: seq<seq<ResultRow>>): (c: ChunkData)
    requires |data| >= groupCount
    ensures c.id == ChunkId(timeStart, timeEnd) && c.timeStart == timeStart && c.timeEnd == timeEnd
    ensures |c.groups| == groupCount
    ensures forall i :: 0 <= i < groupCount ==> c.groups[i].t == Times(data[i])
    ensures forall i, v :: 0 <= i < groupCount && v in variables ==>
      v in c.groups[i].columns && c.groups[i].columns[v] == Column(data[i], v)
  {
    ChunkData(ChunkId(timeStart, timeEnd), timeStart, timeEnd,
              seq(groupCount, i requires 0 <= i < groupCount => GroupOf(data[i], variables)))
  }

  /** The `groups.groups.map(...)` of fetchChunk. */
  method BuildChunk(timeStart: int, timeEnd: int, groupCount: nat, variables: seq<string>,
                    data: seq<seq<ResultRow>>) returns (c: ChunkData)
    requires |data| >= groupCount
    ensures c == ChunkOf(timeStart, timeEnd, groupCount, variables, data)
  {
    var arrays: seq<ChunkGroup> := [];
    for i := 0 to groupCount
      invariant |arrays| == i
      invariant forall j :: 0 <= j < i ==> arrays[j] == GroupOf(data[j], variables)
    {
      var group := BuildGroup(data[i], variables);
      arrays := arrays + [group];
    }
    c := ChunkData(ChunkId(timeStart, timeEnd), timeStart, timeEnd, arrays);
  }

  /** Whether a chunk [timeStart, timeEnd] owns a row under the corrected,
      half-open rule: its time lies in [timeStart, timeEnd). */
  predicate Owns(timeStart: int, timeEnd: int, x: ResultRow)
  {
    var v := NumOf(Field(x, "t"));
    v.Fin? && timeStart as real <= v.r < timeEnd as real
  }

  /** The corrected chunk contents: only the rows the chunk owns. */
  function OwnedRows(rows: seq<ResultRow>, timeStart: int, timeEnd: int): (r: seq<ResultRow>)
    ensures forall x :: x in r <==> x in rows && Owns(timeStart, timeEnd, x)
  {
    if rows == [] then []
    else
      var rest := OwnedRows(rows[..|rows| - 1], timeStart, timeEnd);
      var last := rows[|rows| - 1];
      assert forall x :: x in rows <==> x in rows[..|rows| - 1] || x == last;
      if Owns(timeStart, timeEnd, last) then rest + [last] else rest
  }

  /** The corrected chunk: as `ChunkOf`, over the owned rows only. */
  function OwnedChunkOf(timeStart: int, timeEnd: int, groupCount: nat, variables: seq<string>,
                        data: seq<seq<ResultRow>>): (c: ChunkData)
    requires |data| >= groupCount
    ensures c.id == ChunkId(timeStart, timeEnd) && c.timeStart == timeStart && c.timeEnd == timeEnd
    ensures |c.groups| == groupCount
    ensures forall i :: 0 <= i < groupCount ==> c.groups[i].t == Times(OwnedRows(data[i], timeStart, timeEnd))
  {
    ChunkData(ChunkId(timeStart, timeEnd), timeStart, timeEnd,
              seq(groupCount, i requires 0 <= i < groupCount => GroupOf(OwnedRows(data[i], timeStart, timeEnd), variables)))
  }

  // ---------------------------------------------------------------------
  // Cutting a window into chunks

  /** The span of a chunk by granularity: 2000 buckets of 365, 30, 7 or 1 days. */
  function RangeSize(g: Granularity): (rs: int)
    ensures rs > 0
  {
    match g
    case Year => 86400 * 365 * 2000
    case Month => 86400 * 30 * 2000
    case Week => 86400 * 7 * 2000
    case Day => 86400 * 2000
  }

  /** `Math.ceil(a / rs)`. */
  function CeilDiv(a: int, rs: int): int
    requires rs > 0
  {
    -((-a) / rs)
  }

  /** Chunk i spans [i * rs, i * rs + rs]. */
  function ChunkSpan(i: int, rs: int): (int, int)
  {
    (i * rs, i * rs + rs)
  }

  /** The chunks request enumerates, from floor(timeStart / rs) to
      ceil(timeEnd / rs) inclusive. */
  function Planned(timeStart: int, timeEnd: int, rs: int): (r: seq<(int, int)>)
    requires rs > 0
    ensures |r| == if CeilDiv(timeEnd, rs) < timeStart / rs then 0 else CeilDiv(timeEnd, rs) - timeStart / rs + 1
    ensures forall k :: 0 <= k < |r| ==> r[k] == ChunkSpan(timeStart / rs + k, rs)
  {
    var lo, hi := timeStart / rs, CeilDiv(timeEnd, rs);
    if hi < lo then [] else seq(hi - lo + 1, k requires 0 <= k < hi - lo + 1 => ChunkSpan(lo + k, rs))
  }

  lemma FloorDivBounds(a: int, rs: int)
    requires rs > 0
    ensures (a / rs) * rs <= a < (a / rs) * rs + rs
  {
  }

  lemma CeilDivBounds(a: int, rs: int)
    requires rs > 0
    ensures (CeilDiv(a, rs) - 1) * rs < a <= CeilDiv(a, rs) * rs
  {
    FloorDivBounds(-a, rs);
  }

  lemma MulSucc(i: int, rs: int)
    ensures (i + 1) * rs == i * rs + rs
  {
  }

  lemma {:induction false} MulStep(i: int, j: int, rs: int)
    requires rs > 0 && i < j
    ensures i * rs + rs <= j * rs
    decreases j - i
  {
    MulSucc(j - 1, rs);
    if i < j - 1 {
      MulStep(i, j - 1, rs);
    }
  }

  /** Only chunk x / rs holds x in its half-open span. */
  lemma SpanUnique(x: int, i: int, rs: int)
    requires rs > 0 && i * rs <= x < i * rs + rs
    ensures i == x / rs
  {
    FloorDivBounds(x, rs);
    if i < x / rs { MulStep(i, x / rs, rs); }
    if x / rs < i { MulStep(x / rs, i, rs); }
  }

  /** The planned chunks are consecutive: each starts where the one before
      ends, so they tile [first start, last end]. */
  lemma PlannedConsecutive(timeStart: int, timeEnd: int, rs: int)
    requires rs > 0
    ensures forall k :: 0 < k < |Planned(timeStart, timeEnd, rs)| ==>
      Planned(timeStart, timeEnd, rs)[k].0 == Planned(timeStart, timeEnd, rs)[k - 1].1
  {
    var r := Planned(timeStart, timeEnd, rs);
    forall k | 0 < k < |r| ensures r[k].0 == r[k - 1].1 {
      MulSucc(timeStart / rs + k - 1, rs);
    }
  }

  /** Every instant of [timeStart, timeEnd] lies in the half-open span of one
      planned chunk, the one numbered t / rs. */
  lemma PlannedCovers(timeStart: int, timeEnd: int, rs: int, t: int)
    requires rs > 0 && timeStart <= t <= timeEnd
    ensures var k := t / rs - timeStart / rs;
      0 <= k < |Planned(timeStart, timeEnd, rs)|
      && Planned(timeStart, timeEnd, rs)[k].0 <= t < Planned(timeStart, timeEnd, rs)[k].1
  {
    var lo, hi, j := timeStart / rs, CeilDiv(timeEnd, rs), t / rs;
    FloorDivBounds(timeStart, rs);
    FloorDivBounds(t, rs);
    CeilDivBounds(timeEnd, rs);
    if j < lo { MulStep(j, lo, rs); }
    if hi < j { MulStep(hi, j, rs); }
    assert lo <= j <= hi;
  }

  lemma PlannedIncreasing(timeStart: int, timeEnd: int, rs: int)
    requires rs > 0
    ensures forall a, b :: 0 <= a < b < |Planned(timeStart, timeEnd, rs)| ==>
      Planned(timeStart, timeEnd, rs)[a].0 < Planned(timeStart, timeEnd, rs)[b].0
  {
    var r := Planned(timeStart, timeEnd, rs);
    forall a, b | 0 <= a < b < |r| ensures r[a].0 < r[b].0 {
      var lo := timeStart / rs;
      MulStep(lo + a, lo + b, rs);
    }
  }

  /** The loop of request that builds the chunk list. */
  method PlanChunks(timeStart: int, timeEnd: int, rs: int) returns (chunks: seq<(int, int)>)
    requires rs > 0
    ensures chunks == Planned(timeStart, timeEnd, rs)
  {
    var range1 := timeStart / rs;
    var range2 := -((-timeEnd) / rs);
    chunks := [];
    var i := range1;
    while i <= range2
      invariant range1 <= i && (range2 < range1 ==> i == range1) && (range1 <= range2 ==> i <= range2 + 1)
      invariant |chunks| == i - range1
      invariant forall k :: 0 <= k < |chunks| ==> chunks[k] == ChunkSpan(range1 + k, rs)
      decreases range2 - i
    {
      chunks := chunks + [(i * rs, i * rs + rs)];
      i := i + 1;
    }
  }

  /** `results.some(x => x)`: the update event is emitted when some fetch stored a chunk. */
  function AnyStored(results: seq<bool>): (r: bool)
    ensures r <==> exists k :: 0 <= k < |results| && results[k]
  {
    if results == [] then false
    else if results[|results| - 1] then true
    else
      assert forall k :: 0 <= k < |results| - 1 ==> results[..|results| - 1][k] == results[k];
      AnyStored(results[..|results| - 1])
  }

  // ---------------------------------------------------------------------
  // Correct ownership of boundary buckets

  /** The filter of a chunk query: `{...filter, timeStart, timeEnd}`. */
  function QueryFilter(filter: Option<Filter>, timeStart: int, timeEnd: int): Filter
  {
    Filter(Some(timeStart), Some(timeEnd), if filter.Some? then filter.value.attributes else None)
  }

  /** The rows a chunk query selects (by FilterCondsMeaning, the rows its
      filter admits): buckets whose time span meets the chunk's bounds, both
      ends inclusive. */
  lemma ChunkQuerySelects(g: Granularity, timeStart: int, timeEnd: int, bucket: int)
    ensures Admits(g, Some(QueryFilter(None, timeStart, timeEnd)), SqlRow(bucket, map[], map[]))
        <==> timeStart < GroupToTimestamp(bucket + 1, g) && GroupToTimestamp(bucket, g) <= timeEnd
  {
    var f, row := QueryFilter(None, timeStart, timeEnd), SqlRow(bucket, map[], map[]);
    assert AttrsOf(f) == [];
    assert f.timeStart == Some(timeStart) && f.timeEnd == Some(timeEnd);
    assert StartAdmits(g, f, row) <==> timeStart < GroupToTimestamp(bucket + 1, g);
    assert EndAdmits(g, f, row) <==> GroupToTimestamp(bucket, g) <= timeEnd;
  }

  /** As written, the bucket that holds the boundary e between two adjacent
      chunks [s, e] and [e, e2] passes both chunk queries, so both chunks
      deliver its row. */
  lemma BoundaryBucketShared(g: Granularity, s: int, e: int, e2: int)
    requires s < e < e2
    ensures var row := SqlRow(TimestampToGroup(e, g), map[], map[]);
      && Admits(g, Some(QueryFilter(None, s, e)), row)
      && Admits(g, Some(QueryFilter(None, e, e2)), row)
  {
    GroupBracket(e, g);
    BracketBucketShared(g, s, e, e2, TimestampToGroup(e, g));
  }

  lemma BracketBucketShared(g: Granularity, s: int, e: int, e2: int, b: int)
    requires s < e < e2
    requires GroupToTimestamp(b, g) <= e < GroupToTimestamp(b + 1, g)
    ensures Admits(g, Some(QueryFilter(None, s, e)), SqlRow(b, map[], map[]))
    ensures Admits(g, Some(QueryFilter(None, e, e2)), SqlRow(b, map[], map[]))
  {
    ChunkQuerySelects(g, s, e, b);
    ChunkQuerySelects(g, e, e2, b);
  }

  /** A bucket whose start lies in a chunk's half-open span [s, e) passes
      that chunk's query, so keeping only owned rows loses nothing. */
  lemma OwnedBucketQueried(g: Granularity, s: int, e: int, bucket: int)
    requires s <= GroupToTimestamp(bucket, g) < e
    ensures Admits(g, Some(QueryFilter(None, s, e)), SqlRow(bucket, map[], map[]))
  {
    GroupIncreasing(bucket, g);
    ChunkQuerySelects(g, s, e, bucket);
  }

  /** With ownership by start time, each bucket of the window belongs to
      exactly one planned chunk: the chunk numbered start / rs. */
  lemma OwnedByOneChunk(g: Granularity, timeStart: int, timeEnd: int, rs: int, bucket: int)
    requires rs > 0
    requires timeStart <= GroupToTimestamp(bucket, g) <= timeEnd
    ensures var chunks := Planned(timeStart, timeEnd, rs);
      var t := GroupToTimestamp(bucket, g);
      forall k :: 0 <= k < |chunks| ==>
        (chunks[k].0 <= t < chunks[k].1 <==> k == t / rs - timeStart / rs)
    ensures var t := GroupToTimestamp(bucket, g);
      0 <= t / rs - timeStart / rs < |Planned(timeStart, timeEnd, rs)|
  {
    var chunks := Planned(timeStart, timeEnd, rs);
    var t := GroupToTimestamp(bucket, g);
    PlannedCovers(timeStart, timeEnd, rs, t);
    PlannedConsecutive(timeStart, timeEnd, rs);
    forall k | 0 <= k < |chunks| && chunks[k].0 <= t < chunks[k].1
      ensures k == t / rs - timeStart / rs
    {
      SpanUnique(t, timeStart / rs + k, rs);
    }
  }

  // ---------------------------------------------------------------------
  // Ordering the served chunks

  predicate SortedByStart(s: seq<ChunkData>)
  {
    forall a, b :: 0 <= a < b < |s| ==> s[a].timeStart <= s[b].timeStart
  }

  predicate NoRepeats<T(==)>(s: seq<T>)
  {
    forall a, b :: 0 <= a < b < |s| ==> s[a] != s[b]
  }

  /** Stable insertion: c goes after every element that does not start later. */
  function InsertByStart(s: seq<ChunkData>, c: ChunkData): (r: seq<ChunkData>)
    ensures multiset(r) == multiset(s) + multiset{c}
  {
    if s == [] then [c]
    else if s[|s| - 1].timeStart <= c.timeStart then s + [c]
    else
      var m := |s| - 1;
      assert s == s[..m] + [s[m]];
      InsertByStart(s[..m], c) + [s[m]]
  }

  lemma {:induction false} InsertByStartBounded(s: seq<ChunkData>, c: ChunkData, t: int)
    requires forall k :: 0 <= k < |s| ==> s[k].timeStart <= t
    requires c.timeStart <= t
    ensures forall k :: 0 <= k < |InsertByStart(s, c)| ==> InsertByStart(s, c)[k].timeStart <= t
  {
    if s != [] && c.timeStart < s[|s| - 1].timeStart {
      InsertByStartBounded(s[..|s| - 1], c, t);
    }
  }

  lemma {:induction false} InsertByStartSorted(s: seq<ChunkData>, c: ChunkData)
    requires SortedByStart(s)
    ensures SortedByStart(InsertByStart(s, c))
  {
    if s != [] {
      var m := |s| - 1;
      if c.timeStart < s[m].timeStart {
        InsertByStartSorted(s[..m], c);
        InsertByStartBounded(s[..m], c, s[m].timeStart);
        SortedSnoc(InsertByStart(s[..m], c), s[m]);
      } else {
        SortedSnoc(s, c);
      }
    }
  }

  lemma SortedSnoc(s: seq<ChunkData>, c: ChunkData)
    requires SortedByStart(s)
    requires forall k :: 0 <= k < |s| ==> s[k].timeStart <= c.timeStart
    ensures SortedByStart(s + [c])
  {
  }

  /** `r.sort((a, b) => a.timeStart - b.timeStart)`: a stable sort, so the
      result is ordered by start time and holds the same chunks. */
  function SortByStart(s: seq<ChunkData>): (r: seq<ChunkData>)
    ensures multiset(r) == multiset(s)
  {
    if s == [] then []
    else
      assert s == s[..|s| - 1] + [s[|s| - 1]];
      InsertByStart(SortByStart(s[..|s| - 1]), s[|s| - 1])
  }

  lemma {:induction false} SortByStartSorted(s: seq<ChunkData>)
    ensures SortedByStart(SortByStart(s))
  {
    if s != [] {
      SortByStartSorted(s[..|s| - 1]);
      InsertByStartSorted(SortByStart(s[..|s| - 1]), s[|s| - 1]);
    }
  }

  lemma {:induction false} NoRepeatsMultiset<T>(s: seq<T>, x: T)
    requires NoRepeats(s)
    ensures multiset(s)[x] <= 1
  {
    if s != [] {
      var m := |s| - 1;
      assert s == s[..m] + [s[m]];
      NoRepeatsMultiset(s[..m], x);
      assert s[m] !in s[..m];
    }
  }

  lemma MultisetNoRepeats<T>(s: seq<T>)
    requires forall x :: multiset(s)[x] <= 1
    ensures NoRepeats(s)
  {
    forall a, b | 0 <= a < b < |s| ensures s[a] != s[b] {
      assert s == s[..b] + [s[b]] + s[b + 1..];
      assert s[a] in s[..b];
      assert multiset(s)[s[b]] == multiset(s[..b])[s[b]] + 1 + multiset(s[b + 1..])[s[b]];
    }
  }

  /** Sorting keeps the elements, so a list without repeats stays without. */
  lemma SortKeepsNoRepeats(s: seq<ChunkData>)
    requires NoRepeats(s)
    ensures NoRepeats(SortByStart(s))
  {
    forall x ensures multiset(SortByStart(s))[x] <= 1 { NoRepeatsMultiset(s, x); }
    MultisetNoRepeats(SortByStart(s));
  }

  /** Whether a chunk meets [timeStart, timeEnd]. */
  predicate Overlaps(c: ChunkData, timeStart: int, timeEnd: int)
  {
    !(c.timeStart > timeEnd || c.timeEnd < timeStart)
  }

  // ---------------------------------------------------------------------
  // The fetcher

  /** The parameters a chunk query goes out with, and the generation it captured. */
  datatype QueryParams = QueryParams(
    gen: int, granularity: Granularity, variables: seq<string>, groups: Groups, filter: Option<Filter>)

  /** A query issued by fetchChunk for the chunk [timeStart, timeEnd]; its
      filter is QueryFilter(params.filter, timeStart, timeEnd). */
  datatype PendingQuery = PendingQuery(timeStart: int, timeEnd: int, params: QueryParams)

  /** The queries request issues for a plan, in plan order: one for each
      chunk that is neither cached nor requested. */
  function Requests(chunks: seq<(int, int)>, known: set<(int, int)>, params: QueryParams): seq<PendingQuery>
  {
    if chunks == [] then []
    else
      var last := chunks[|chunks| - 1];
      Requests(chunks[..|chunks| - 1], known, params)
        + (if last in known then [] else [PendingQuery(last.0, last.1, params)])
  }

  /** Every query is for a planned chunk that is not known, with the given
      parameters, and every planned chunk that is not known gets one. */
  lemma {:induction false} RequestsSpec(chunks: seq<(int, int)>, known: set<(int, int)>, params: QueryParams)
    ensures forall q :: q in Requests(chunks, known, params) ==>
      q.params == params && (q.timeStart, q.timeEnd) in chunks && (q.timeStart, q.timeEnd) !in known
    ensures forall c :: c in chunks && c !in known ==> PendingQuery(c.0, c.1, params) in Requests(chunks, known, params)
  {
    if chunks != [] {
      var n := |chunks| - 1;
      RequestsSpec(chunks[..n], known, params);
      assert forall c :: c in chunks <==> c in chunks[..n] || c == chunks[n];
    }
  }

  class ChunkFetcher {
    var filter: Option<Filter>
    var granularity: Granularity
    var groups: Groups
    var variables: seq<string>
    /** `chunkCache`, keyed by the bounds the id is made of. */
    var cache: map<(int, int), ChunkData>
    /** `chunkRequested`, by bounds. */
    var requested: set<(int, int)>
    var generation: int

    /** Every cached chunk sits under its own bounds and id. */
    ghost predicate Valid()
      reads this
    {
      forall k :: k in cache ==>
        cache[k].timeStart == k.0 && cache[k].timeEnd == k.1 && cache[k].id == ChunkId(k.0, k.1)
    }

    constructor()
      ensures filter == None && granularity == Day && groups == Groups([], [[]]) && variables == []
      ensures cache == map[] && requested == {} && generation == 0
      ensures Valid()
    {
      filter := None;
      granularity := Day;
      groups := Groups([], [[]]);
      variables := [];
      cache := map[];
      requested := {};
      generation := 0;
    }

    /** `clear`: forget every chunk and every request, and start a new generation. */
    method Clear()
      modifies this
      ensures cache == map[] && requested == {} && generation == old(generation) + 1
      ensures filter == old(filter) && granularity == old(granularity)
      ensures groups == old(groups) && variables == old(variables)
      ensures Valid()
    {
      cache := map[];
      requested := {};
      generation := generation + 1;
    }

    method SetVariables(vs: seq<string>)
      modifies this
      ensures vs == old(variables) ==> unchanged(this)
      ensures vs != old(variables) ==>
        variables == vs && cache == map[] && requested == {} && generation == old(generation) + 1
        && filter == old(filter) && granularity == old(granularity) && groups == old(groups)
      ensures old(Valid()) ==> Valid()
    {
      if variables != vs {
        Clear();
        variables := vs;
      }
    }

    method SetGroups(gs: Groups)
      modifies this
      ensures gs == old(groups) ==> unchanged(this)
      ensures gs != old(groups) ==>
        groups == gs && cache == map[] && requested == {} && generation == old(generation) + 1
        && filter == old(filter) && granularity == old(granularity) && variables == old(variables)
      ensures old(Valid()) ==> Valid()
    {
      if groups != gs {
        Clear();
        groups := gs;
      }
    }

    method SetFilter(f: Option<Filter>)
      modifies this
      ensures f == old(filter) ==> unchanged(this)
      ensures f != old(filter) ==>
        filter == f && cache == map[] && requested == {} && generation == old(generation) + 1
        && granularity == old(granularity) && groups == old(groups) && variables == old(variables)
      ensures old(Valid()) ==> Valid()
    {
      if filter != f {
        Clear();
        filter := f;
      }
    }

    method SetGranularity(g: Granularity)
      modifies this
      ensures g == old(granularity) ==> unchanged(this)
      ensures g != old(granularity) ==>
        granularity == g && cache == map[] && requested == {} && generation == old(generation) + 1
        && filter == old(filter) && groups == old(groups) && variables == old(variables)
      ensures old(Valid()) ==> Valid()
    {
      if g != granularity {
        Clear();
        granularity := g;
      }
    }

    /** The parameters a query issued now goes out with. */
    function Params(): QueryParams
      reads this
    {
      QueryParams(generation, granularity, variables, groups, filter)
    }

    /** fetchChunk up to its `await`: a cached or requested chunk issues no
        query; otherwise the chunk is marked requested and its query goes out
        with the current generation. */
    method BeginFetch(timeStart: int, timeEnd: int) returns (query: Option<PendingQuery>)
      modifies this
      ensures (timeStart, timeEnd) in old(cache) || (timeStart, timeEnd) in old(requested) ==>
        query == None && requested == old(requested)
      ensures (timeStart, timeEnd) !in old(cache) && (timeStart, timeEnd) !in old(requested) ==>
        query == Some(PendingQuery(timeStart, timeEnd, old(Params())))
        && requested == old(requested) + {(timeStart, timeEnd)}
      ensures cache == old(cache) && generation == old(generation)
      ensures filter == old(filter) && granularity == old(granularity)
      ensures groups == old(groups) && variables == old(variables)
    {
      if (timeStart, timeEnd) in cache {
        return None;
      }
      if (timeStart, timeEnd) in requested {
        return None;
      }
      requested := requested + {(timeStart, timeEnd)};
      var gen := generation;
      query := Some(PendingQuery(timeStart, timeEnd, QueryParams(gen, granularity, variables, groups, filter)));
    }

    /** fetchChunk after its `await`: a result from an older generation is
        dropped; otherwise the chunk is built from the rows it owns and
        cached. The chunk stays requested either way. */
    method CompleteFetch(query: PendingQuery, data: seq<seq<ResultRow>>) returns (stored: bool)
      requires Valid()
      requires query.params.gen == generation ==> |data| >= |groups.groups|
      modifies this
      ensures requested == old(requested) && generation == old(generation)
      ensures filter == old(filter) && granularity == old(granularity)
      ensures groups == old(groups) && variables == old(variables)
      ensures stored <==> query.params.gen == old(generation)
      ensures !stored ==> cache == old(cache)
      ensures stored ==> cache == old(cache)[(query.timeStart, query.timeEnd) :=
        ChunkOf(query.timeStart, query.timeEnd, |groups.groups|, variables, data)]
      ensures Valid()
    {
      if generation != query.params.gen {
        return false;
      }
      var chunk := BuildChunk(query.timeStart, query.timeEnd, |groups.groups|, variables, data);
      cache := cache[(query.timeStart, query.timeEnd) := chunk];
      stored := true;
    }

    /** request up to its `Promise.all`: every planned chunk is begun in
        order, and the queries of the chunks that were neither cached nor
        requested go out. */
    method Request(timeStart: int, timeEnd: int) returns (queries: seq<PendingQuery>)
      modifies this
      ensures forall c :: c in requested <==>
        c in old(requested) || (c in Planned(timeStart, timeEnd, RangeSize(old(granularity))) && c !in old(cache))
      ensures queries == Requests(Planned(timeStart, timeEnd, RangeSize(old(granularity))),
                                  old(cache).Keys + old(requested), old(Params()))
      ensures cache == old(cache) && generation == old(generation)
      ensures filter == old(filter) && granularity == old(granularity)
      ensures groups == old(groups) && variables == old(variables)
    {
      var rs := RangeSize(granularity);
      var chunks := PlanChunks(timeStart, timeEnd, rs);
      PlannedIncreasing(timeStart, timeEnd, rs);
      queries := BeginAll(chunks);
    }

    /** request's loop: fetchChunk begun for each chunk in turn. */
    method BeginAll(chunks: seq<(int, int)>) returns (queries: seq<PendingQuery>)
      requires forall a, b :: 0 <= a < b < |chunks| ==> chunks[a].0 < chunks[b].0
      modifies this
      ensures forall c :: c in requested <==> c in old(requested) || (c in chunks && c !in old(cache))
      ensures queries == Requests(chunks, old(cache).Keys + old(requested), old(Params()))
      ensures cache == old(cache) && generation == old(generation)
      ensures filter == old(filter) && granularity == old(granularity)
      ensures groups == old(groups) && variables == old(variables)
    {
      ghost var known := cache.Keys + requested;
      ghost var params := Params();
      queries := [];
      for i := 0 to |chunks|
        invariant cache == old(cache) && generation == old(generation)
        invariant filter == old(filter) && granularity == old(granularity)
        invariant groups == old(groups) && variables == old(variables)
        invariant forall c :: c in requested <==> c in old(requested) || (c in chunks[..i] && c !in old(cache))
        invariant queries == Requests(chunks[..i], known, params)
      {
        var c := chunks[i];
        assert forall j :: 0 <= j < i ==> chunks[..i][j].0 < c.0;
        assert c !in chunks[..i];
        assert (c in cache || c in requested) <==> c in known;
        assert Params() == params;
        assert chunks[..i + 1][..i] == chunks[..i];
        var query := BeginFetch(c.0, c.1);
        if query.Some? {
          queries := queries + [query.value];
        }
        assert forall x :: x in chunks[..i + 1] <==> x in chunks[..i] || x == c;
      }
      assert chunks[..|chunks|] == chunks;
    }

    /** `getChunks`: the cached chunks that meet [timeStart, timeEnd],
        sorted by start time, each once. */
    method GetChunks(timeStart: int, timeEnd: int) returns (r: seq<ChunkData>)
      requires Valid()
      ensures forall c :: c in r <==> c in cache.Values && Overlaps(c, timeStart, timeEnd)
      ensures SortedByStart(r)
      ensures NoRepeats(r)
    {
      var picked := Overlapping(timeStart, timeEnd);
      SortKeepsNoRepeats(picked);
      SortByStartSorted(picked);
      r := SortByStart(picked);
      assert forall c :: c in r <==> c in multiset(picked);
    }

    /** getChunks's loop over the cache: each chunk that meets the window, once. */
    method Overlapping(timeStart: int, timeEnd: int) returns (picked: seq<ChunkData>)
      requires Valid()
      ensures forall c :: c in picked <==> c in cache.Values && Overlaps(c, timeStart, timeEnd)
      ensures NoRepeats(picked)
    {
      picked := [];
      var rest := cache.Keys;
      while rest != {}
        invariant rest <= cache.Keys
        invariant forall c :: c in picked ==>
          (c.timeStart, c.timeEnd) in cache && cache[(c.timeStart, c.timeEnd)] == c
          && (c.timeStart, c.timeEnd) !in rest && Overlaps(c, timeStart, timeEnd)
        invariant forall k :: k in cache && k !in rest && Overlaps(cache[k], timeStart, timeEnd) ==> cache[k] in picked
        invariant NoRepeats(picked)
        decreases |rest|
      {
        var k :| k in rest;
        var chunk := cache[k];
        assert (chunk.timeStart, chunk.timeEnd) == k;
        assert chunk !in picked;
        rest := rest - {k};
        if chunk.timeStart > timeEnd || chunk.timeEnd < timeStart {
          continue;
        }
        picked := picked + [chunk];
      }
      forall c | c in cache.Values && Overlaps(c, timeStart, timeEnd) ensures c in picked {
        var k :| k in cache && cache[k] == c;
      }
    }
  }
}
