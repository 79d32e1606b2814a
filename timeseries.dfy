/** The timeseries plot: the statistics of the samples in view, computed in
    one pass over the fetched chunks; the fetcher configuration each render
    pushes; and the line path of one chunk, which keeps the points in index
    order and drops the non-finite ones. */
module Timeseries {
  import opened Common
  import opened Abstract
  import opened Mapd
  import opened ChunkFetch

  // ---------------------------------------------------------------------
  // View statistics

  /** A running minimum or maximum: it starts at an infinity. */
  datatype Ext = NegInf | PosInf | Real(r: real)

  /** `value > maxX`: false when the value is NaN. */
  predicate Above(v: Num, m: Ext)
  {
    v.Fin? && (m.NegInf? || (m.Real? && v.r > m.r))
  }

  /** `value < minX`: false when the value is NaN. */
  predicate Below(v: Num, m: Ext)
  {
    v.Fin? && (m.PosInf? || (m.Real? && v.r < m.r))
  }

  /** `m <= x`, with the infinities in their places. */
  predicate AtMost(m: Ext, x: real)
  {
    m.NegInf? || (m.Real? && m.r <= x)
  }

  /** `x <= m`. */
  predicate AtLeast(m: Ext, x: real)
  {
    m.PosInf? || (m.Real? && x <= m.r)
  }

  /** The accumulators sumX, sumX2, count, minX and maxX. */
  datatype Acc = Acc(sum: Num, sumSq: Num, count: nat, min: Ext, max: Ext)

  /** What the accumulators hold after counting the values `vals` in order. */
  function Fold(vals: seq<Num>): Acc
  {
    if vals == [] then Acc(Fin(0.0), Fin(0.0), 0, PosInf, NegInf)
    else
      var a := Fold(vals[..|vals| - 1]);
      var v := vals[|vals| - 1];
      Acc(Plus(a.sum, v), Plus(a.sumSq, Mul(v, v)), a.count + 1,
          if Below(v, a.min) then Real(v.r) else a.min,
          if Above(v, a.max) then Real(v.r) else a.max)
  }

  /** Sum of a list, from the front: an independent reference for sumX. */
  function Sum(vals: seq<Num>): Num
  {
    if vals == [] then Fin(0.0) else Plus(vals[0], Sum(vals[1..]))
  }

  /** Sum of the squares of a list, from the front. */
  function SumSquares(vals: seq<Num>): Num
  {
    if vals == [] then Fin(0.0) else Plus(Mul(vals[0], vals[0]), SumSquares(vals[1..]))
  }

  lemma {:induction false} SumSnoc(vals: seq<Num>, x: Num)
    ensures Sum(vals + [x]) == Plus(Sum(vals), x)
  {
    if vals != [] {
      assert (vals + [x])[1..] == vals[1..] + [x];
      SumSnoc(vals[1..], x);
    }
  }

  lemma {:induction false} SumSquaresSnoc(vals: seq<Num>, x: Num)
    ensures SumSquares(vals + [x]) == Plus(SumSquares(vals), Mul(x, x))
  {
    if vals != [] {
      assert (vals + [x])[1..] == vals[1..] + [x];
      SumSquaresSnoc(vals[1..], x);
    }
  }

  /** count, sumX and sumX2 are the number of values, their sum and their
      sum of squares (NaN once a NaN is counted). */
  lemma {:induction false} FoldSums(vals: seq<Num>)
    ensures Fold(vals).count == |vals|
    ensures Fold(vals).sum == Sum(vals) && Fold(vals).sumSq == SumSquares(vals)
  {
    if vals != [] {
      var n := |vals| - 1;
      var pre := vals[..n];
      assert vals == pre + [vals[n]];
      FoldSums(pre);
      SumSnoc(pre, vals[n]);
      SumSquaresSnoc(pre, vals[n]);
    }
  }

  /** Every finite value lies between minX and maxX. */
  lemma {:induction false} FoldBounds(vals: seq<Num>)
    ensures forall k :: 0 <= k < |vals| && vals[k].Fin? ==>
      AtMost(Fold(vals).min, vals[k].r) && AtLeast(Fold(vals).max, vals[k].r)
  {
    if vals != [] {
      var n := |vals| - 1;
      var pre := vals[..n];
      FoldBounds(pre);
      assert forall k :: 0 <= k < n ==> pre[k] == vals[k];
    }
  }

  /** minX and maxX are values of the list when it holds a finite one, and
      stay at +inf and -inf when it holds none. */
  lemma {:induction false} FoldAttained(vals: seq<Num>)
    ensures (exists k :: 0 <= k < |vals| && vals[k].Fin?) ==>
      (exists k :: 0 <= k < |vals| && vals[k].Fin? && Fold(vals).min == Real(vals[k].r))
      && (exists k :: 0 <= k < |vals| && vals[k].Fin? && Fold(vals).max == Real(vals[k].r))
    ensures (forall k :: 0 <= k < |vals| ==> vals[k].NaN?) ==> Fold(vals).min == PosInf && Fold(vals).max == NegInf
  {
    if vals != [] {
      var n := |vals| - 1;
      var pre := vals[..n];
      FoldAttained(pre);
      assert forall k :: 0 <= k < n ==> pre[k] == vals[k];
      var a := Fold(pre);
      if vals[n].Fin? && (exists k :: 0 <= k < n && pre[k].Fin?) {
        var j :| 0 <= j < n && pre[j].Fin? && a.min == Real(pre[j].r);
        var j' :| 0 <= j' < n && pre[j'].Fin? && a.max == Real(pre[j'].r);
        assert exists k :: 0 <= k < |vals| && vals[k].Fin? && Fold(vals).min == Real(vals[k].r) by {
          if Below(vals[n], a.min) { assert Fold(vals).min == Real(vals[n].r); } else { assert vals[j] == pre[j]; }
        }
        assert exists k :: 0 <= k < |vals| && vals[k].Fin? && Fold(vals).max == Real(vals[k].r) by {
          if Above(vals[n], a.max) { assert Fold(vals).max == Real(vals[n].r); } else { assert vals[j'] == pre[j']; }
        }
      } else if vals[n].Fin? {
        assert Fold(vals).min == Real(vals[n].r) && Fold(vals).max == Real(vals[n].r);
      } else if exists k :: 0 <= k < n && pre[k].Fin? {
        var j :| 0 <= j < n && pre[j].Fin? && a.min == Real(pre[j].r);
        var j' :| 0 <= j' < n && pre[j'].Fin? && a.max == Real(pre[j'].r);
        assert vals[j] == pre[j] && vals[j'] == pre[j'];
      }
    }
  }

  /** The statistics getCurrentViewStats returns; `variance` is the value
      whose square root is `stdev`. */
  datatype ViewStats = ViewStats(mean: Num, min: Ext, max: Ext, variance: Num, count: nat)

  /** `a / n` in floating point, where the only division by zero that can
      arise is 0/0 = NaN (the sums are 0 when nothing is counted). */
  function Over(a: Num, n: nat): Num
  {
    if n == 0 || a.NaN? then NaN else Fin(a.r / n as real)
  }

  function Minus(a: Num, b: Num): Num
  {
    if a.Fin? && b.Fin? then Fin(a.r - b.r) else NaN
  }

  /** The result object: mean = sumX/count, variance = sumX2/count - mean^2.
      Nothing guards the empty window, whose mean is NaN. */
  function Summary(a: Acc): (s: ViewStats)
    ensures s.count == a.count && s.min == a.min && s.max == a.max
    ensures a.count == 0 ==> s.mean.NaN? && s.variance.NaN?
    ensures a.count > 0 && a.sum.Fin? ==> s.mean == Fin(a.sum.r / a.count as real)
    ensures a.count > 0 && a.sum.Fin? && a.sumSq.Fin? ==>
      var n := a.count as real;
      s.variance == Fin(a.sumSq.r / n - (a.sum.r / n) * (a.sum.r / n))
    ensures a.sum.NaN? || a.sumSq.NaN? ==> s.variance.NaN?
  {
    var mean := Over(a.sum, a.count);
    var meanSq := Over(a.sumSq, a.count);
    ViewStats(mean, a.min, a.max, Minus(meanSq, Mul(mean, mean)), a.count)
  }

  // ---------------------------------------------------------------------
  // Which samples are counted

  /** A sample: chunk, group within the chunk, index within the group. */
  datatype Pos = Pos(c: nat, g: nat, i: nat)

  /** A sample that exists and whose time lies in the window. */
  predicate IsSample(chunks: seq<ChunkData>, p: Pos, timeStart: int, timeEnd: int)
  {
    p.c < |chunks| && p.g < |chunks[p.c].groups| && p.i < |chunks[p.c].groups[p.g].t|
    && InWindow(chunks[p.c].groups[p.g].t[p.i], timeStart, timeEnd)
  }

  lemma NoRepeatsAppend<T>(a: seq<T>, b: seq<T>)
    requires NoRepeats(a) && NoRepeats(b)
    requires forall x :: x in a ==> x !in b
    ensures NoRepeats(a + b)
  {
    forall i, j | 0 <= i < j < |a + b| ensures (a + b)[i] != (a + b)[j] {
      if j < |a| {
        assert (a + b)[i] == a[i] && (a + b)[j] == a[j];
      } else if i >= |a| {
        assert (a + b)[i] == b[i - |a|] && (a + b)[j] == b[j - |a|];
      } else {
        assert (a + b)[i] == a[i] && (a + b)[j] == b[j - |a|];
        assert a[i] in a && b[j - |a|] in b;
      }
    }
  }

  /** The counted samples of one group among its first n, in index order. */
  function GroupSamples(chunks: seq<ChunkData>, c: nat, g: nat, timeStart: int, timeEnd: int, n: nat): seq<Pos>
    requires c < |chunks| && g < |chunks[c].groups| && n <= |chunks[c].groups[g].t|
  {
    if n == 0 then []
    else
      var prev := GroupSamples(chunks, c, g, timeStart, timeEnd, n - 1);
      if InWindow(chunks[c].groups[g].t[n - 1], timeStart, timeEnd) then prev + [Pos(c, g, n - 1)] else prev
  }

  /** The counted samples of the first m groups of a chunk, group by group. */
  function ChunkSamples(chunks: seq<ChunkData>, c: nat, timeStart: int, timeEnd: int, m: nat): seq<Pos>
    requires c < |chunks| && m <= |chunks[c].groups|
  {
    if m == 0 then []
    else
      ChunkSamples(chunks, c, timeStart, timeEnd, m - 1)
      + GroupSamples(chunks, c, m - 1, timeStart, timeEnd, |chunks[c].groups[m - 1].t|)
  }

  /** The counted samples of the first k chunks, in the loop's order. */
  function AllSamples(chunks: seq<ChunkData>, timeStart: int, timeEnd: int, k: nat): seq<Pos>
    requires k <= |chunks|
  {
    if k == 0 then []
    else
      AllSamples(chunks, timeStart, timeEnd, k - 1)
      + ChunkSamples(chunks, k - 1, timeStart, timeEnd, |chunks[k - 1].groups|)
  }

  lemma {:induction false} GroupSamplesSpec(chunks: seq<ChunkData>, c: nat, g: nat, timeStart: int, timeEnd: int, n: nat)
    requires c < |chunks| && g < |chunks[c].groups| && n <= |chunks[c].groups[g].t|
    ensures forall p :: p in GroupSamples(chunks, c, g, timeStart, timeEnd, n) <==>
      p.c == c && p.g == g && p.i < n && IsSample(chunks, p, timeStart, timeEnd)
    ensures NoRepeats(GroupSamples(chunks, c, g, timeStart, timeEnd, n))
  {
    if n > 0 {
      GroupSamplesSpec(chunks, c, g, timeStart, timeEnd, n - 1);
      var prev := GroupSamples(chunks, c, g, timeStart, timeEnd, n - 1);
      NoRepeatsAppend(prev, [Pos(c, g, n - 1)]);
    }
  }

  lemma {:induction false} ChunkSamplesSpec(chunks: seq<ChunkData>, c: nat, timeStart: int, timeEnd: int, m: nat)
    requires c < |chunks| && m <= |chunks[c].groups|
    ensures forall p :: p in ChunkSamples(chunks, c, timeStart, timeEnd, m) <==>
      p.c == c && p.g < m && IsSample(chunks, p, timeStart, timeEnd)
    ensures NoRepeats(ChunkSamples(chunks, c, timeStart, timeEnd, m))
  {
    if m > 0 {
      ChunkSamplesSpec(chunks, c, timeStart, timeEnd, m - 1);
      GroupSamplesSpec(chunks, c, m - 1, timeStart, timeEnd, |chunks[c].groups[m - 1].t|);
      NoRepeatsAppend(ChunkSamples(chunks, c, timeStart, timeEnd, m - 1),
                      GroupSamples(chunks, c, m - 1, timeStart, timeEnd, |chunks[c].groups[m - 1].t|));
    }
  }

  /** The samples the loops count are exactly the samples of the window,
      each once: so `count` is the number of samples with
      timeStart <= t <= timeEnd over every group of every chunk. */
  lemma {:induction false} AllSamplesSpec(chunks: seq<ChunkData>, timeStart: int, timeEnd: int, k: nat)
    requires k <= |chunks|
    ensures forall p :: p in AllSamples(chunks, timeStart, timeEnd, k) <==> p.c < k && IsSample(chunks, p, timeStart, timeEnd)
    ensures NoRepeats(AllSamples(chunks, timeStart, timeEnd, k))
  {
    if k > 0 {
      AllSamplesSpec(chunks, timeStart, timeEnd, k - 1);
      ChunkSamplesSpec(chunks, k - 1, timeStart, timeEnd, |chunks[k - 1].groups|);
      NoRepeatsAppend(AllSamples(chunks, timeStart, timeEnd, k - 1),
                      ChunkSamples(chunks, k - 1, timeStart, timeEnd, |chunks[k - 1].groups|));
    }
  }

  /** Every group of every chunk has an array for the variable (reading a
      missing one throws). */
  predicate HasColumn(chunks: seq<ChunkData>, variable: string)
  {
    forall c, g :: 0 <= c < |chunks| && 0 <= g < |chunks[c].groups| ==> variable in chunks[c].groups[g].columns
  }

  /** `item[variable][i]`; past the end of the array it is undefined, which
      behaves as NaN. */
  function ValueAt(chunks: seq<ChunkData>, variable: string, p: Pos): Num
  {
    if p.c < |chunks| && p.g < |chunks[p.c].groups| && variable in chunks[p.c].groups[p.g].columns
       && p.i < |chunks[p.c].groups[p.g].columns[variable]|
    then chunks[p.c].groups[p.g].columns[variable][p.i]
    else NaN
  }

  /** The values at a list of samples. */
  function Values(chunks: seq<ChunkData>, variable: string, ps: seq<Pos>): (r: seq<Num>)
    ensures |r| == |ps|
  {
    if ps == [] then []
    else Values(chunks, variable, ps[..|ps| - 1]) + [ValueAt(chunks, variable, ps[|ps| - 1])]
  }

  lemma {:induction false} ValuesIndex(chunks: seq<ChunkData>, variable: string, ps: seq<Pos>)
    ensures forall k :: 0 <= k < |ps| ==> Values(chunks, variable, ps)[k] == ValueAt(chunks, variable, ps[k])
  {
    if ps != [] {
      ValuesIndex(chunks, variable, ps[..|ps| - 1]);
    }
  }

  /** What getCurrentViewStats counts, over given chunks: `count` is the
      number of samples whose time lies in the window, each sample counted
      once, and every finite value of such a sample lies between `min` and
      `max`. */
  lemma ViewStatsMeaning(chunks: seq<ChunkData>, timeStart: int, timeEnd: int, variable: string)
    ensures var ps := AllSamples(chunks, timeStart, timeEnd, |chunks|);
      var a := Fold(Values(chunks, variable, ps));
      && a.count == |ps| && NoRepeats(ps)
      && (forall p :: p in ps <==> IsSample(chunks, p, timeStart, timeEnd))
      && (forall p :: IsSample(chunks, p, timeStart, timeEnd) && ValueAt(chunks, variable, p).Fin? ==>
            AtMost(a.min, ValueAt(chunks, variable, p).r) && AtLeast(a.max, ValueAt(chunks, variable, p).r))
  {
    var ps := AllSamples(chunks, timeStart, timeEnd, |chunks|);
    var vals := Values(chunks, variable, ps);
    AllSamplesSpec(chunks, timeStart, timeEnd, |chunks|);
    FoldSums(vals);
    FoldBounds(vals);
    ValuesIndex(chunks, variable, ps);
    forall p | IsSample(chunks, p, timeStart, timeEnd) && ValueAt(chunks, variable, p).Fin?
      ensures AtMost(Fold(vals).min, ValueAt(chunks, variable, p).r) && AtLeast(Fold(vals).max, ValueAt(chunks, variable, p).r)
    {
      var k :| 0 <= k < |ps| && ps[k] == p;
      assert vals[k] == ValueAt(chunks, variable, p);
    }
  }

  /** The counted samples of a one-row, one-group chunk pair: each chunk
      contributes its row when the row's time lies in the window. */
  lemma PairSamples(chunks: seq<ChunkData>, timeStart: int, timeEnd: int)
    requires |chunks| == 2
    requires forall c :: 0 <= c < 2 ==> |chunks[c].groups| == 1 && |chunks[c].groups[0].t| == 1
    ensures AllSamples(chunks, timeStart, timeEnd, 2) ==
      (if InWindow(chunks[0].groups[0].t[0], timeStart, timeEnd) then [Pos(0, 0, 0)] else [])
      + (if InWindow(chunks[1].groups[0].t[0], timeStart, timeEnd) then [Pos(1, 0, 0)] else [])
  {
    assert AllSamples(chunks, timeStart, timeEnd, 1) == ChunkSamples(chunks, 0, timeStart, timeEnd, 1);
    assert ChunkSamples(chunks, 0, timeStart, timeEnd, 1) == GroupSamples(chunks, 0, 0, timeStart, timeEnd, 1);
    assert ChunkSamples(chunks, 1, timeStart, timeEnd, 1) == GroupSamples(chunks, 1, 0, timeStart, timeEnd, 1);
  }

  /** The double count of a shared boundary, as the cache is written: when
      the queries of the adjacent chunks [s, e] and [e, e2] both return the
      row of the bucket at e, both stored chunks hold it, and the view
      statistics over [s, e2] count that one row twice. */
  lemma BoundaryCountedTwice(row: ResultRow, s: int, e: int, e2: int, variables: seq<string>, variable: string)
    requires s <= e <= e2
    requires Field(row, "t") == NumV(Fin(e as real))
    ensures var chunks := [ChunkOf(s, e, 1, variables, [[row]]), ChunkOf(e, e2, 1, variables, [[row]])];
      var ps := AllSamples(chunks, s, e2, |chunks|);
      ps == [Pos(0, 0, 0), Pos(1, 0, 0)] && Fold(Values(chunks, variable, ps)).count == 2
  {
    var chunks := [ChunkOf(s, e, 1, variables, [[row]]), ChunkOf(e, e2, 1, variables, [[row]])];
    assert chunks[0].groups[0].t == [Fin(e as real)] && chunks[1].groups[0].t == [Fin(e as real)];
    PairSamples(chunks, s, e2);
    FoldSums(Values(chunks, variable, AllSamples(chunks, s, e2, 2)));
  }

  /** The corrected cache counts that row once: under the half-open rule
      only the chunk [e, e2] owns it. */
  lemma BoundaryCountedOnce(row: ResultRow, s: int, e: int, e2: int, variables: seq<string>, variable: string)
    requires s < e < e2
    requires Field(row, "t") == NumV(Fin(e as real))
    ensures var chunks := [OwnedChunkOf(s, e, 1, variables, [[row]]), OwnedChunkOf(e, e2, 1, variables, [[row]])];
      var ps := AllSamples(chunks, s, e2, |chunks|);
      ps == [Pos(1, 0, 0)] && Fold(Values(chunks, variable, ps)).count == 1
  {
    var chunks := [OwnedChunkOf(s, e, 1, variables, [[row]]), OwnedChunkOf(e, e2, 1, variables, [[row]])];
    assert [row][..0] == [];
    assert OwnedRows([row], s, e) == [];
    assert OwnedRows([row], e, e2) == [row];
    assert chunks[1].groups[0].t == [Fin(e as real)];
    assert |chunks[0].groups[0].t| == 0;
    assert GroupSamples(chunks, 0, 0, s, e2, 0) == [];
    assert ChunkSamples(chunks, 0, s, e2, 1) == [];
    assert AllSamples(chunks, s, e2, 1) == [];
    assert ChunkSamples(chunks, 1, s, e2, 1) == GroupSamples(chunks, 1, 0, s, e2, 1);
    FoldSums(Values(chunks, variable, AllSamples(chunks, s, e2, 2)));
  }

  lemma ValuesSnoc(chunks: seq<ChunkData>, variable: string, ps: seq<Pos>, p: Pos)
    ensures Values(chunks, variable, ps + [p]) == Values(chunks, variable, ps) + [ValueAt(chunks, variable, p)]
  {
    assert (ps + [p])[..|ps|] == ps;
  }

  lemma FoldSnoc(vals: seq<Num>, v: Num)
    ensures var a := Fold(vals);
      Fold(vals + [v]) == Acc(Plus(a.sum, v), Plus(a.sumSq, Mul(v, v)), a.count + 1,
        if Below(v, a.min) then Real(v.r) else a.min,
        if Above(v, a.max) then Real(v.r) else a.max)
  {
    assert (vals + [v])[..|vals|] == vals;
  }

  /** The innermost loop of getCurrentViewStats, over one group: the
      accumulators go on from the fold of the values counted so far to the
      fold that also counts this group's in-window values. */
  method CountGroup(chunks: seq<ChunkData>, ci: nat, gi: nat, timeStart: int, timeEnd: int, variable: string,
                    acc0: Acc, ghost seen0: seq<Pos>) returns (acc: Acc)
    requires HasColumn(chunks, variable) && ci < |chunks| && gi < |chunks[ci].groups|
    requires acc0 == Fold(Values(chunks, variable, seen0))
    ensures acc == Fold(Values(chunks, variable,
                        seen0 + GroupSamples(chunks, ci, gi, timeStart, timeEnd, |chunks[ci].groups[gi].t|)))
  {
    var item := chunks[ci].groups[gi];
    var sumX, sumX2, count, minX, maxX := acc0.sum, acc0.sumSq, acc0.count, acc0.min, acc0.max;
    ghost var seen := seen0;
    for i := 0 to |item.t|
      invariant seen == seen0 + GroupSamples(chunks, ci, gi, timeStart, timeEnd, i)
      invariant Acc(sumX, sumX2, count, minX, maxX) == Fold(Values(chunks, variable, seen))
    {
      var t := item.t[i];
      ghost var gs := GroupSamples(chunks, ci, gi, timeStart, timeEnd, i);
      if t.Fin? && t.r >= timeStart as real && t.r <= timeEnd as real {
        assert GroupSamples(chunks, ci, gi, timeStart, timeEnd, i + 1) == gs + [Pos(ci, gi, i)];
        assert seen0 + (gs + [Pos(ci, gi, i)]) == seen + [Pos(ci, gi, i)];
        var col := item.columns[variable];
        var value := if i < |col| then col[i] else NaN;
        assert value == ValueAt(chunks, variable, Pos(ci, gi, i));
        ValuesSnoc(chunks, variable, seen, Pos(ci, gi, i));
        FoldSnoc(Values(chunks, variable, seen), value);
        if value.Fin? && (maxX.NegInf? || (maxX.Real? && value.r > maxX.r)) {
          maxX := Real(value.r);
        }
        if value.Fin? && (minX.PosInf? || (minX.Real? && value.r < minX.r)) {
          minX := Real(value.r);
        }
        sumX := Plus(sumX, value);
        sumX2 := Plus(sumX2, Mul(value, value));
        count := count + 1;
        seen := seen + [Pos(ci, gi, i)];
      } else {
        assert GroupSamples(chunks, ci, gi, timeStart, timeEnd, i + 1) == gs;
      }
    }
    acc := Acc(sumX, sumX2, count, minX, maxX);
  }

  lemma AppendAssoc<T>(a: seq<T>, b: seq<T>, c: seq<T>)
    ensures (a + b) + c == a + (b + c)
  {
  }

  /** The middle loop of getCurrentViewStats, over the groups of one chunk. */
  method CountChunk(chunks: seq<ChunkData>, ci: nat, timeStart: int, timeEnd: int, variable: string,
                    acc0: Acc, ghost seen0: seq<Pos>) returns (acc: Acc)
    requires HasColumn(chunks, variable) && ci < |chunks|
    requires acc0 == Fold(Values(chunks, variable, seen0))
    ensures acc == Fold(Values(chunks, variable,
                        seen0 + ChunkSamples(chunks, ci, timeStart, timeEnd, |chunks[ci].groups|)))
  {
    acc := acc0;
    assert seen0 + [] == seen0;
    for gi := 0 to |chunks[ci].groups|
      invariant acc == Fold(Values(chunks, variable, seen0 + ChunkSamples(chunks, ci, timeStart, timeEnd, gi)))
    {
      ghost var done := ChunkSamples(chunks, ci, timeStart, timeEnd, gi);
      ghost var group := GroupSamples(chunks, ci, gi, timeStart, timeEnd, |chunks[ci].groups[gi].t|);
      acc := CountGroup(chunks, ci, gi, timeStart, timeEnd, variable, acc, seen0 + done);
      assert ChunkSamples(chunks, ci, timeStart, timeEnd, gi + 1) == done + group;
      AppendAssoc(seen0, done, group);
    }
  }

  /** The nested loops of getCurrentViewStats over a list of chunks: the
      accumulators end as the fold of the counted samples' values, taken
      chunk by chunk, group by group, index by index. */
  method CollectStats(chunks: seq<ChunkData>, timeStart: int, timeEnd: int, variable: string) returns (acc: Acc)
    requires HasColumn(chunks, variable)
    ensures acc == Fold(Values(chunks, variable, AllSamples(chunks, timeStart, timeEnd, |chunks|)))
  {
    acc := Acc(Fin(0.0), Fin(0.0), 0, PosInf, NegInf);
    for ci := 0 to |chunks|
      invariant acc == Fold(Values(chunks, variable, AllSamples(chunks, timeStart, timeEnd, ci)))
    {
      acc := CountChunk(chunks, ci, timeStart, timeEnd, variable, acc, AllSamples(chunks, timeStart, timeEnd, ci));
    }
  }

  // ---------------------------------------------------------------------
  // The plot

  datatype PlotGroup = PlotGroup(values: seq<string>, color: string, lineWidth: real, opacity: real)

  datatype PlotProps = PlotProps(
    timeStart: int, timeEnd: int, granularity: Granularity, filter: Option<Filter>,
    variable: string, groupsBy: seq<string>, groups: seq<PlotGroup>, logScale: bool)

  /** The grouping render hands the fetcher: the groupsBy columns and each
      group's values. */
  function FetcherGroups(props: PlotProps): (gs: Groups)
    ensures gs.variables == props.groupsBy && |gs.groups| == |props.groups|
    ensures forall k :: 0 <= k < |props.groups| ==> gs.groups[k] == props.groups[k].values
  {
    Groups(props.groupsBy, seq(|props.groups|, k requires 0 <= k < |props.groups| => props.groups[k].values))
  }

  class TimeseriesPlot {
    var props: PlotProps
    const fetcher: ChunkFetcher

    constructor(initial: PlotProps)
      ensures props == initial && fresh(fetcher) && fetcher.Valid()
      ensures fetcher.cache == map[] && fetcher.requested == {}
    {
      props := initial;
      fetcher := new ChunkFetcher();
    }

    /** The fetcher-facing part of render: the four setters, then a request
        for the window. When every parameter is as before, only chunks
        neither cached nor requested are asked for; when any changed, the
        fetcher was cleared and every planned chunk is asked for. */
    method Render() returns (queries: seq<PendingQuery>)
      requires fetcher.Valid()
      modifies fetcher
      ensures fetcher.Valid()
      ensures fetcher.variables == [props.variable] && fetcher.granularity == props.granularity
      ensures fetcher.filter == props.filter && fetcher.groups == FetcherGroups(props)
      ensures var same := old(fetcher.variables) == [props.variable] && old(fetcher.granularity) == props.granularity
                          && old(fetcher.filter) == props.filter && old(fetcher.groups) == FetcherGroups(props);
        && (same ==> fetcher.generation == old(fetcher.generation)
                     && queries == Requests(Planned(props.timeStart, props.timeEnd, RangeSize(props.granularity)),
                                            old(fetcher.cache).Keys + old(fetcher.requested), fetcher.Params()))
        && (!same ==> fetcher.generation > old(fetcher.generation)
                      && queries == Requests(Planned(props.timeStart, props.timeEnd, RangeSize(props.granularity)),
                                             {}, fetcher.Params()))
    {
      fetcher.SetVariables([props.variable]);
      fetcher.SetGranularity(props.granularity);
      fetcher.SetFilter(props.filter);
      fetcher.SetGroups(FetcherGroups(props));
      ghost var known := fetcher.cache.Keys + fetcher.requested;
      if fetcher.generation != old(fetcher.generation) {
        assert fetcher.cache == map[] && fetcher.requested == {};
        assert known == {};
      }
      queries := fetcher.Request(props.timeStart, props.timeEnd);
    }

    /** getCurrentViewStats: the statistics of the window's samples over the
        chunks the fetcher serves for the window. */
    method GetCurrentViewStats() returns (stats: ViewStats, ghost chunks: seq<ChunkData>)
      requires fetcher.Valid()
      requires forall k :: k in fetcher.cache ==> HasColumn([fetcher.cache[k]], props.variable)
      ensures forall c :: c in chunks <==> c in fetcher.cache.Values && Overlaps(c, props.timeStart, props.timeEnd)
      ensures SortedByStart(chunks) && NoRepeats(chunks)
      ensures HasColumn(chunks, props.variable)
      ensures stats == Summary(Fold(Values(chunks, props.variable, AllSamples(chunks, props.timeStart, props.timeEnd, |chunks|))))
    {
      var r := fetcher.GetChunks(props.timeStart, props.timeEnd);
      forall c, g | 0 <= c < |r| && 0 <= g < |r[c].groups| ensures props.variable in r[c].groups[g].columns {
        assert r[c] in fetcher.cache.Values;
        var k :| k in fetcher.cache && fetcher.cache[k] == r[c];
        assert HasColumn([fetcher.cache[k]], props.variable);
        assert [fetcher.cache[k]][0] == r[c];
      }
      var acc := CollectStats(r, props.timeStart, props.timeEnd, props.variable);
      stats := Summary(acc);
      chunks := r;
    }
  }

  // ---------------------------------------------------------------------
  // The line of one chunk

  datatype YTransform = Linear | Log

  /** `yK * value + yB`, or `yK * ln(value) + yB` on a log scale, where
      `ln` stands for Math.log on positive arguments; on zero or a negative
      value Math.log is -Infinity or NaN, and the point is not finite. */
  function YOf(v: Num, mode: YTransform, yK: real, yB: real, ln: real -> real): Num
  {
    match mode
    case Linear => Plus(Mul(Fin(yK), v), Fin(yB))
    case Log => if v.Fin? && v.r > 0.0 then Fin(yK * ln(v.r) + yB) else NaN
  }

  /** `tK * t + tB`. */
  function XOf(t: Num, tK: real, tB: real): Num
  {
    Plus(Mul(Fin(tK), t), Fin(tB))
  }

  /** `arrayV[i]`, undefined (NaN) past the end. */
  function At(vals: seq<Num>, i: nat): Num
  {
    if i < |vals| then vals[i] else NaN
  }

  /** The props a TimeseriesChunk draws with. */
  datatype ChunkScale = ChunkScale(tK: real, tB: real, yK: real, yB: real, mode: YTransform, ln: real -> real)

  predicate Drawable(t: seq<Num>, vals: seq<Num>, i: nat, sc: ChunkScale)
    requires i < |t|
  {
    XOf(t[i], sc.tK, sc.tB).Fin? && YOf(At(vals, i), sc.mode, sc.yK, sc.yB, sc.ln).Fin?
  }

  /** The point of a drawable index. */
  function PointAt(t: seq<Num>, vals: seq<Num>, i: nat, sc: ChunkScale): (real, real)
    requires i < |t| && Drawable(t, vals, i, sc)
  {
    (XOf(t[i], sc.tK, sc.tB).r, YOf(At(vals, i), sc.mode, sc.yK, sc.yB, sc.ln).r)
  }

  /** The indices below n whose point is finite, ascending. */
  function KeptIndices(t: seq<Num>, vals: seq<Num>, n: nat, sc: ChunkScale): seq<nat>
    requires n <= |t|
  {
    if n == 0 then []
    else
      var prev := KeptIndices(t, vals, n - 1, sc);
      if Drawable(t, vals, n - 1, sc) then prev + [n - 1] else prev
  }

  /** The points of the first n indices that are finite, in index order. */
  function KeptPoints(t: seq<Num>, vals: seq<Num>, n: nat, sc: ChunkScale): seq<(real, real)>
    requires n <= |t|
  {
    if n == 0 then []
    else
      var prev := KeptPoints(t, vals, n - 1, sc);
      if Drawable(t, vals, n - 1, sc) then prev + [PointAt(t, vals, n - 1, sc)] else prev
  }

  /** A point is dropped exactly when its x or y is not finite, and the kept
      ones stay in index order: the k-th point is the point of the k-th
      drawable index. */
  lemma {:induction false} KeptPointsSpec(t: seq<Num>, vals: seq<Num>, n: nat, sc: ChunkScale)
    requires n <= |t|
    ensures var kept := KeptIndices(t, vals, n, sc);
      && (forall k :: 0 <= k < |kept| ==> kept[k] < n && Drawable(t, vals, kept[k], sc))
      && (forall i :: 0 <= i < n && Drawable(t, vals, i, sc) ==> i in kept)
      && (forall a, b :: 0 <= a < b < |kept| ==> kept[a] < kept[b])
      && |KeptPoints(t, vals, n, sc)| == |kept|
      && (forall k :: 0 <= k < |kept| ==> KeptPoints(t, vals, n, sc)[k] == PointAt(t, vals, kept[k], sc))
  {
    if n > 0 {
      KeptPointsSpec(t, vals, n - 1, sc);
    }
  }

  /** The loops of TimeseriesChunk. */
  method ChunkPoints(t: seq<Num>, vals: seq<Num>, sc: ChunkScale) returns (points: seq<(real, real)>)
    ensures points == KeptPoints(t, vals, |t|, sc)
  {
    points := [];
    for i := 0 to |t|
      invariant points == KeptPoints(t, vals, i, sc)
    {
      var x := XOf(t[i], sc.tK, sc.tB);
      var v := if i < |vals| then vals[i] else NaN;
      var y := if sc.mode == Log then (if v.Fin? && v.r > 0.0 then Fin(sc.yK * sc.ln(v.r) + sc.yB) else NaN)
               else Plus(Mul(Fin(sc.yK), v), Fin(sc.yB));
      assert v == At(vals, i) && y == YOf(v, sc.mode, sc.yK, sc.yB, sc.ln);
      if x.Fin? && y.Fin? {
        points := points + [(x.r, y.r)];
      }
    }
  }

  /** The `d` attribute: "M" followed by the entries joined with "L". */
  function PathOf(entries: seq<string>): string
  {
    "M" + Join(entries, "L")
  }

  /** An entry is "x,y" with both numbers written by `fmt` (toFixed(2)),
      which never writes an 'L'. */
  function Entry(p: (real, real), fmt: real -> string): string
  {
    fmt(p.0) + "," + fmt(p.1)
  }

  /** The path names its points back: it starts with 'M', and cutting the
      rest at each 'L' gives the entries again; with no entries it is "M". */
  lemma PathEntries(entries: seq<string>)
    requires forall k :: 0 <= k < |entries| ==> 'L' !in entries[k]
    ensures |PathOf(entries)| >= 1 && PathOf(entries)[0] == 'M'
    ensures entries == [] ==> PathOf(entries) == "M"
    ensures entries != [] ==> Split(PathOf(entries)[1..], 'L') == entries
  {
    if entries != [] {
      assert PathOf(entries)[1..] == Join(entries, ['L']);
      SplitJoin(entries, 'L');
    }
  }
}
