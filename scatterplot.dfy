/** The scatterplot's own chunk cache: chunks are fetched one after another
    in a single pass that stops fetching after the first new chunk, results
    of an older generation are dropped, and the cache is invalidated only
    when the groups or the granularity change. Each drawn chunk selects the
    samples whose time lies in the window. */
module Scatter {
  import opened Common
  import opened Abstract
  import opened Mapd
  import opened ChunkFetch

  /** One plotted group: its filter, colour and opacity. */
  datatype GroupSpec = GroupSpec(filter: Option<Filter>, color: string, opacity: real)

  datatype ScatterProps = ScatterProps(
    timeStart: int, timeEnd: int, granularity: Granularity,
    xVariable: string, yVariable: string, groups: seq<GroupSpec>)

  /** The t, x and y arrays of one group of a chunk. */
  datatype Triple = Triple(t: seq<Num>, x: seq<Num>, y: seq<Num>)

  datatype ScatterChunk = ScatterChunk(id: string, timeStart: int, timeEnd: int, data: seq<Triple>)

  /** A `queryTimeSeries` call: granularity, the two variables and the filter. */
  datatype SeriesQuery = SeriesQuery(granularity: Granularity, variables: seq<string>, filter: Filter)

  /** The query of one group for the chunk [timeStart, timeEnd]. */
  function GroupQuery(props: ScatterProps, g: GroupSpec, timeStart: int, timeEnd: int): SeriesQuery
  {
    SeriesQuery(props.granularity, [props.xVariable, props.yVariable], QueryFilter(g.filter, timeStart, timeEnd))
  }

  /** The chunk stored for a completed fetch: per group, the t, x and y
      arrays of that group's rows, entry k of each being row k's `t`, x and
      y cell as a Float64Array stores it. */
  function ScatterChunkOf(timeStart: int, timeEnd: int, xVariable: string, yVariable: string,
                          data: seq<seq<ResultRow>>): (c: ScatterChunk)
    ensures c.id == ChunkId(timeStart, timeEnd) && c.timeStart == timeStart && c.timeEnd == timeEnd
    ensures |c.data| == |data|
    ensures forall i :: 0 <= i < |data| ==>
      |c.data[i].t| == |data[i]| && |c.data[i].x| == |data[i]| && |c.data[i].y| == |data[i]|
    ensures forall i, k :: 0 <= i < |data| && 0 <= k < |data[i]| ==>
      && c.data[i].t[k] == NumOf(Field(data[i][k], "t"))
      && c.data[i].x[k] == NumOf(Field(data[i][k], xVariable))
      && c.data[i].y[k] == NumOf(Field(data[i][k], yVariable))
  {
    ScatterChunk(ChunkId(timeStart, timeEnd), timeStart, timeEnd,
      seq(|data|, i requires 0 <= i < |data| =>
        Triple(Times(data[i]), Column(data[i], xVariable), Column(data[i], yVariable))))
  }

  /** The first chunk of a plan that is not cached, if any. */
  function FirstUncached(chunks: seq<(int, int)>, known: set<(int, int)>): Option<(int, int)>
  {
    if chunks == [] then None
    else
      var n := |chunks| - 1;
      var p := FirstUncached(chunks[..n], known);
      if p.Some? then p
      else if chunks[n] in known then None
      else Some(chunks[n])
  }

  /** None exactly when every planned chunk is cached; otherwise the
      earliest planned chunk that is not. */
  lemma {:induction false} FirstUncachedSpec(chunks: seq<(int, int)>, known: set<(int, int)>)
    ensures FirstUncached(chunks, known).None? <==> forall k :: 0 <= k < |chunks| ==> chunks[k] in known
    ensures FirstUncached(chunks, known).Some? ==> exists j ::
      && 0 <= j < |chunks| && chunks[j] == FirstUncached(chunks, known).value && chunks[j] !in known
      && forall k :: 0 <= k < j ==> chunks[k] in known
  {
    if chunks != [] {
      var n := |chunks| - 1;
      FirstUncachedSpec(chunks[..n], known);
      assert forall k :: 0 <= k < n ==> chunks[..n][k] == chunks[k];
    }
  }

  /** Planning one more chunk: the first uncached one stays, or is the new
      chunk when it is not cached. */
  lemma FirstUncachedStep(chunks: seq<(int, int)>, i: int, known: set<(int, int)>)
    requires 0 <= i < |chunks|
    ensures FirstUncached(chunks[..i + 1], known)
            == if FirstUncached(chunks[..i], known).Some? then FirstUncached(chunks[..i], known)
               else if chunks[i] in known then None else Some(chunks[i])
  {
    assert chunks[..i + 1][..i] == chunks[..i];
  }

  /** The planned chunks not yet cached. */
  function Uncached(chunks: seq<(int, int)>, known: set<(int, int)>): set<(int, int)>
  {
    set k | 0 <= k < |chunks| && chunks[k] !in known :: chunks[k]
  }

  /** Every pass that stores a chunk removes exactly one chunk from those
      still missing, so the passes that follow each re-render stop after
      as many passes as there were missing chunks. */
  lemma PassProgress(chunks: seq<(int, int)>, known: set<(int, int)>)
    requires FirstUncached(chunks, known).Some?
    ensures var c := FirstUncached(chunks, known).value;
      c in Uncached(chunks, known) && Uncached(chunks, known + {c}) == Uncached(chunks, known) - {c}
      && |Uncached(chunks, known + {c})| == |Uncached(chunks, known)| - 1
  {
    FirstUncachedSpec(chunks, known);
    var c := FirstUncached(chunks, known).value;
    var j :| 0 <= j < |chunks| && chunks[j] == c && c !in known;
    assert c in Uncached(chunks, known);
    assert Uncached(chunks, known + {c}) == Uncached(chunks, known) - {c};
  }

  /** The loop of ScatterplotChunk (and of ScatterplotChunkCanvas.draw):
      the indices whose time lies in the window, in ascending order. */
  method SelectIndices(t: seq<Num>, timeStart: int, timeEnd: int) returns (ids: seq<int>)
    ensures forall k :: 0 <= k < |ids| ==> 0 <= ids[k] < |t| && InWindow(t[ids[k]], timeStart, timeEnd)
    ensures forall i :: 0 <= i < |t| && InWindow(t[i], timeStart, timeEnd) ==> i in ids
    ensures forall a, b :: 0 <= a < b < |ids| ==> ids[a] < ids[b]
  {
    ids := [];
    for i := 0 to |t|
      invariant forall k :: 0 <= k < |ids| ==> 0 <= ids[k] < i && InWindow(t[ids[k]], timeStart, timeEnd)
      invariant forall j :: 0 <= j < i && InWindow(t[j], timeStart, timeEnd) ==> j in ids
      invariant forall a, b :: 0 <= a < b < |ids| ==> ids[a] < ids[b]
    {
      if t[i].Fin? && t[i].r >= timeStart as real && t[i].r <= timeEnd as real {
        ids := ids + [i];
      }
    }
  }

  class Scatterplot {
    var props: ScatterProps
    /** `chunkCache`, keyed by the bounds its string key is made of. */
    var cache: map<(int, int), ScatterChunk>
    var generation: int

    /** Every cached chunk sits under its own bounds and id, and each of its
        groups holds three arrays of one length. */
    ghost predicate Valid()
      reads this
    {
      forall k :: k in cache ==>
        && cache[k].timeStart == k.0 && cache[k].timeEnd == k.1 && cache[k].id == ChunkId(k.0, k.1)
        && forall i :: 0 <= i < |cache[k].data| ==>
             |cache[k].data[i].x| == |cache[k].data[i].t| && |cache[k].data[i].y| == |cache[k].data[i].t|
    }

    constructor(initial: ScatterProps)
      ensures props == initial && cache == map[] && generation == 0
      ensures Valid()
    {
      props := initial;
      cache := map[];
      generation := 0;
    }

    /** fetchChunk before its `await`: no query for a cached chunk, otherwise
        one query per group with the current generation. */
    function BeginFetch(timeStart: int, timeEnd: int): (r: Option<(int, seq<SeriesQuery>)>)
      reads this
      ensures (timeStart, timeEnd) in cache <==> r.None?
      ensures r.Some? ==> r.value.0 == generation && |r.value.1| == |props.groups|
    {
      if (timeStart, timeEnd) in cache then None
      else Some((generation, Queries(props, timeStart, timeEnd)))
    }

    /** fetchChunk after its `await`: a result of an older generation is
        dropped and the cache is not written. */
    method CompleteFetch(timeStart: int, timeEnd: int, gen: int, xVariable: string, yVariable: string,
                         data: seq<seq<ResultRow>>) returns (stored: bool)
      requires Valid()
      modifies this
      ensures Valid()
      ensures stored <==> gen == old(generation)
      ensures !stored ==> cache == old(cache)
      ensures stored ==> cache == old(cache)[(timeStart, timeEnd) := ScatterChunkOf(timeStart, timeEnd, xVariable, yVariable, data)]
      ensures props == old(props) && generation == old(generation)
    {
      if generation != gen {
        return false;
      }
      cache := cache[(timeStart, timeEnd) := ScatterChunkOf(timeStart, timeEnd, xVariable, yVariable, data)];
      stored := true;
    }

    /** A whole fetchChunk with the database answering each group's query
        through `db`; nothing else runs in between. */
    method FetchChunk(timeStart: int, timeEnd: int, db: SeriesQuery -> seq<ResultRow>) returns (stored: bool)
      requires Valid()
      modifies this
      ensures Valid()
      ensures stored <==> (timeStart, timeEnd) !in old(cache)
      ensures !stored ==> cache == old(cache)
      ensures stored ==> cache == old(cache)[(timeStart, timeEnd) := Fetched(old(props), timeStart, timeEnd, db)]
      ensures props == old(props) && generation == old(generation)
    {
      var begun := BeginFetch(timeStart, timeEnd);
      if begun.None? {
        return false;
      }
      var (gen, queries) := begun.value;
      var data := Answers(queries, db);
      stored := CompleteFetch(timeStart, timeEnd, gen, props.xVariable, props.yVariable, data);
    }

    /** `fetchChunks`: one serial pass over the planned chunks. Once a fetch
        stores a chunk, `shouldUpdate || ...` skips every later chunk, so a
        pass adds at most one chunk: the first planned one not cached. */
    method FetchChunks(db: SeriesQuery -> seq<ResultRow>) returns (shouldUpdate: bool)
      requires Valid()
      modifies this
      ensures Valid()
      ensures props == old(props) && generation == old(generation)
      ensures var first := FirstUncached(Planned(props.timeStart, props.timeEnd, RangeSize(props.granularity)), old(cache).Keys);
        && (first.None? ==> !shouldUpdate && cache == old(cache))
        && (first.Some? ==> shouldUpdate && cache == old(cache)[first.value := Fetched(props, first.value.0, first.value.1, db)])
    {
      var chunks := PlanChunks(props.timeStart, props.timeEnd, RangeSize(props.granularity));
      shouldUpdate := FetchPass(chunks, db);
    }

    /** The loop of fetchChunks over a plan. */
    method FetchPass(chunks: seq<(int, int)>, db: SeriesQuery -> seq<ResultRow>) returns (shouldUpdate: bool)
      requires Valid()
      modifies this
      ensures Valid()
      ensures props == old(props) && generation == old(generation)
      ensures PassState(old(cache), FirstUncached(chunks, old(cache).Keys), shouldUpdate, cache, props, db)
    {
      ghost var known := cache.Keys;
      ghost var orig := cache;
      shouldUpdate := false;
      for i := 0 to |chunks|
        invariant Valid() && props == old(props) && generation == old(generation)
        invariant PassState(orig, FirstUncached(chunks[..i], known), shouldUpdate, cache, props, db)
      {
        FirstUncachedStep(chunks, i, known);
        if !shouldUpdate {
          shouldUpdate := FetchChunk(chunks[i].0, chunks[i].1, db);
        }
      }
      assert chunks[..|chunks|] == chunks;
    }

    /** `componentDidUpdate`: the cache is cleared and the generation
        bumped when the groups or the granularity changed, and only then; a
        change of the x or y variable keeps the cache. */
    method DidUpdate(newProps: ScatterProps)
      modifies this
      ensures props == newProps
      ensures newProps.groups != old(props).groups || newProps.granularity != old(props).granularity ==>
        cache == map[] && generation == old(generation) + 1
      ensures newProps.groups == old(props).groups && newProps.granularity == old(props).granularity ==>
        cache == old(cache) && generation == old(generation)
      ensures old(Valid()) ==> Valid()
    {
      var oldProps := props;
      props := newProps;
      if oldProps.groups != props.groups || oldProps.granularity != props.granularity {
        cache := map[];
        generation := generation + 1;
      }
    }
  }

  /** The chunks render draws: those that meet the window and hold one
      entry per current group, so `chunk.data[gIndex]` exists for every group. */
  function Drawn(cache: map<(int, int), ScatterChunk>, props: ScatterProps): set<ScatterChunk>
  {
    set c | c in cache.Values && !(c.timeStart > props.timeEnd || c.timeEnd < props.timeStart)
              && |c.data| == |props.groups|
  }

  /** Every planned chunk ends after the window starts. */
  lemma PlannedEndsAfterStart(timeStart: int, timeEnd: int, rs: int, k: int)
    requires rs > 0 && 0 <= k < |Planned(timeStart, timeEnd, rs)|
    ensures Planned(timeStart, timeEnd, rs)[k].1 > timeStart
  {
    var lo := timeStart / rs;
    FloorDivBounds(timeStart, rs);
    if k > 0 { MulStep(lo, lo + k, rs); }
  }

  /** The first uncached planned chunk ends after the window starts. */
  lemma FirstUncachedEndsAfterStart(timeStart: int, timeEnd: int, rs: int, known: set<(int, int)>)
    requires rs > 0 && FirstUncached(Planned(timeStart, timeEnd, rs), known).Some?
    ensures FirstUncached(Planned(timeStart, timeEnd, rs), known).value.1 > timeStart
  {
    var chunks := Planned(timeStart, timeEnd, rs);
    FirstUncachedSpec(chunks, known);
    var j :| 0 <= j < |chunks| && chunks[j] == FirstUncached(chunks, known).value;
    PlannedEndsAfterStart(timeStart, timeEnd, rs, j);
  }

  /** A chunk just stored is drawn exactly when it meets the window and
      holds one entry per group. */
  lemma DrawnStored(cache: map<(int, int), ScatterChunk>, props: ScatterProps, key: (int, int), c: ScatterChunk)
    ensures c in Drawn(cache[key := c], props) <==>
      !(c.timeStart > props.timeEnd || c.timeEnd < props.timeStart) && |c.data| == |props.groups|
  {
    var m := cache[key := c];
    assert key in m && m[key] == c;
    assert c in m.Values;
  }

  /** The chunk a fetch pass stores is drawn by the next render exactly
      when it starts inside the window: the one chunk the plan takes past
      the window's end (when timeEnd is not a multiple of the chunk size)
      is fetched but not drawn. */
  lemma FetchedDrawn(props: ScatterProps, cache: map<(int, int), ScatterChunk>, db: SeriesQuery -> seq<ResultRow>)
    requires FirstUncached(Planned(props.timeStart, props.timeEnd, RangeSize(props.granularity)), cache.Keys).Some?
    ensures var first := FirstUncached(Planned(props.timeStart, props.timeEnd, RangeSize(props.granularity)), cache.Keys).value;
      var c := Fetched(props, first.0, first.1, db);
      c in Drawn(cache[first := c], props) <==> first.0 <= props.timeEnd
  {
    var first := FirstUncached(Planned(props.timeStart, props.timeEnd, RangeSize(props.granularity)), cache.Keys).value;
    var c := Fetched(props, first.0, first.1, db);
    FirstUncachedEndsAfterStart(props.timeStart, props.timeEnd, RangeSize(props.granularity), cache.Keys);
    assert c.timeStart == first.0 && c.timeEnd == first.1 && |c.data| == |props.groups|;
    DrawnStored(cache, props, first, c);
  }

  /** The queries of one fetch, one per group in order. */
  function Queries(props: ScatterProps, timeStart: int, timeEnd: int): (qs: seq<SeriesQuery>)
    ensures |qs| == |props.groups|
  {
    seq(|props.groups|, i requires 0 <= i < |props.groups| => GroupQuery(props, props.groups[i], timeStart, timeEnd))
  }

  /** What `Promise.all` gathers: the database's answer to each query. */
  function Answers(qs: seq<SeriesQuery>, db: SeriesQuery -> seq<ResultRow>): (data: seq<seq<ResultRow>>)
    ensures |data| == |qs|
  {
    seq(|qs|, i requires 0 <= i < |qs| => db(qs[i]))
  }

  /** After a pass that met `first` as the first chunk not cached: the
      pass stored that chunk and nothing else, or stored nothing. */
  predicate PassState(before: map<(int, int), ScatterChunk>, first: Option<(int, int)>, shouldUpdate: bool,
                      after: map<(int, int), ScatterChunk>, props: ScatterProps, db: SeriesQuery -> seq<ResultRow>)
  {
    && (first.None? ==> !shouldUpdate && after == before)
    && (first.Some? ==> shouldUpdate && after == before[first.value := Fetched(props, first.value.0, first.value.1, db)])
  }

  /** The chunk a fetch stores when the database answers through `db`. */
  function Fetched(props: ScatterProps, timeStart: int, timeEnd: int, db: SeriesQuery -> seq<ResultRow>): ScatterChunk
  {
    ScatterChunkOf(timeStart, timeEnd, props.xVariable, props.yVariable, Answers(Queries(props, timeStart, timeEnd), db))
  }
}
