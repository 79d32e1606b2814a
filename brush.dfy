/** The brush and pan handles over a linear time scale. `Emit` turns a
    dragged pair of values into the interval handed to `onBrush`, either
    clamped into the visible domain or shifted so that its length is kept;
    the drag sessions record every interval they hand over. */
module Brush {

  /** A linear scale with domain [d0, d1], written as the affine map
      x |-> k*x + b; its range is [k*d0 + b, k*d1 + b]. */
  datatype LinearScale = LinearScale(d0: real, d1: real, k: real, b: real)

  predicate ValidScale(s: LinearScale)
  {
    s.k != 0.0
  }

  /** `scale(x)`. */
  function Apply(s: LinearScale, x: real): real
  {
    s.k * x + s.b
  }

  /** `scale.invert(y)`. */
  function Invert(s: LinearScale, y: real): real
    requires ValidScale(s)
  {
    (y - s.b) / s.k
  }

  /** Moving a pixel position by dy moves the value under it by dy/k. */
  lemma InvertShift(s: LinearScale, x: real, dy: real)
    requires ValidScale(s)
    ensures Invert(s, Apply(s, x) + dy) == x + dy / s.k
  {
    calc {
      Invert(s, Apply(s, x) + dy);
      (s.k * x + dy) / s.k;
      { assert (s.k * x + dy) / s.k == s.k * x / s.k + dy / s.k; }
      x + dy / s.k;
    }
  }

  /** `scale.invert` undoes `scale`, and the other way round. */
  lemma ScaleRoundTrip(s: LinearScale, x: real, y: real)
    requires ValidScale(s)
    ensures Invert(s, Apply(s, x)) == x
    ensures Apply(s, Invert(s, y)) == y
  {
    InvertShift(s, x, 0.0);
  }

  function Min(a: real, b: real): real { if a < b then a else b }
  function Max(a: real, b: real): real { if a > b then a else b }

  /** `Math.max(min, Math.min(max, p))`. */
  function Clamp(lo: real, hi: real, p: real): (r: real)
    ensures lo <= hi ==> lo <= r <= hi
    ensures lo <= p <= hi ==> r == p
  {
    Max(lo, Min(hi, p))
  }

  /** `emit(p1, p2, keepDistance)` with the scale's domain [lo, hi]: the
      interval handed to `onBrush`. Without keepDistance both ends are
      clamped into the domain; with it the ends are ordered and the interval
      is slid back into the domain, keeping its length. */
  function Emit(lo: real, hi: real, p1: real, p2: real, keepDistance: bool): (r: (real, real))
    ensures r.0 <= r.1
    ensures !keepDistance ==>
      r == (Min(Clamp(lo, hi, p1), Clamp(lo, hi, p2)), Max(Clamp(lo, hi, p1), Clamp(lo, hi, p2)))
    ensures !keepDistance && lo <= hi ==> lo <= r.0 && r.1 <= hi
    ensures keepDistance ==> r.1 - r.0 == Max(p1, p2) - Min(p1, p2)
    ensures keepDistance && Max(p1, p2) - Min(p1, p2) <= hi - lo ==> lo <= r.0 && r.1 <= hi
    ensures keepDistance && lo <= Min(p1, p2) && Max(p1, p2) <= hi ==> r == (Min(p1, p2), Max(p1, p2))
  {
    if keepDistance then
      var (a, b) := if p1 > p2 then (p2, p1) else (p1, p2);
      var dist := b - a;
      var (a', b') := if a < lo then (lo, lo + dist) else (a, b);
      if b' > hi then (hi - dist, hi) else (a', b')
    else
      var c1 := Clamp(lo, hi, p1);
      var c2 := Clamp(lo, hi, p2);
      if c1 < c2 then (c1, c2) else (c2, c1)
  }

  datatype Side = MinSide | MaxSide | BothSides

  /** The values a BrushX drag by dx hands to emit: each dragged end is the
      value under its pixel position at mouse-down moved by dx, each other
      end the value under its unmoved position. */
  function Dragged(s: LinearScale, side: Side, min0: real, max0: real, dx: real): (real, real)
    requires ValidScale(s)
  {
    (if side == MinSide || side == BothSides then Invert(s, min0 + dx) else Invert(s, min0),
     if side == MaxSide || side == BothSides then Invert(s, max0 + dx) else Invert(s, max0))
  }

  /** Dragging the min line moves only the min value, dragging the max
      line only the max value, and dragging the rectangle moves both by the
      same amount, dx/k in value terms. */
  lemma DraggedMoves(s: LinearScale, side: Side, valueMin: real, valueMax: real, dx: real)
    requires ValidScale(s)
    ensures var d := Dragged(s, side, Apply(s, valueMin), Apply(s, valueMax), dx);
      && (side == MinSide ==> d == (valueMin + dx / s.k, valueMax))
      && (side == MaxSide ==> d == (valueMin, valueMax + dx / s.k))
      && (side == BothSides ==> d == (valueMin + dx / s.k, valueMax + dx / s.k))
  {
    InvertShift(s, valueMin, dx);
    InvertShift(s, valueMax, dx);
    InvertShift(s, valueMin, 0.0);
    InvertShift(s, valueMax, 0.0);
  }

  datatype BrushProps = BrushProps(scale: LinearScale, valueMin: real, valueMax: real, hasOnBrush: bool)

  /** A BrushX and its drag session: while `dragging`, the window listeners
      of the last mouse-down are attached. `emitted` records every call of
      `onBrush`. */
  class BrushX {
    var props: BrushProps
    var dragging: bool
    var side: Side
    var x0: real
    var min0: real
    var max0: real
    var emitted: seq<(real, real)>

    constructor(p: BrushProps)
      ensures props == p && !dragging && emitted == []
    {
      props := p;
      dragging := false;
      side := BothSides;
      x0, min0, max0 := 0.0, 0.0, 0.0;
      emitted := [];
    }

    /** New props from the parent, for instance after an `onBrush`. */
    method SetProps(p: BrushProps)
      modifies this
      ensures props == p
      ensures dragging == old(dragging) && side == old(side) && x0 == old(x0)
      ensures min0 == old(min0) && max0 == old(max0) && emitted == old(emitted)
    {
      props := p;
    }

    /** handleMouseDown: without `onBrush` nothing happens; otherwise the
        pixel positions of both ends are captured and the listeners attached. */
    method MouseDown(s: Side, pageX: real)
      modifies this
      ensures !old(props).hasOnBrush ==> unchanged(this)
      ensures old(props).hasOnBrush ==>
        && dragging && side == s && x0 == pageX
        && min0 == Apply(props.scale, props.valueMin) && max0 == Apply(props.scale, props.valueMax)
        && props == old(props) && emitted == old(emitted)
    {
      if !props.hasOnBrush {
        return;
      }
      side := s;
      x0 := pageX;
      min0 := Apply(props.scale, props.valueMin);
      max0 := Apply(props.scale, props.valueMax);
      dragging := true;
    }

    /** The mouse-move listener: emit the dragged values, keeping the
        distance when the whole interval is dragged. */
    method MouseMove(pageX: real)
      requires ValidScale(props.scale)
      modifies this
      ensures props == old(props) && dragging == old(dragging) && side == old(side)
      ensures x0 == old(x0) && min0 == old(min0) && max0 == old(max0)
      ensures !old(dragging) ==> unchanged(this)
      ensures old(dragging) ==>
        var d := Dragged(props.scale, side, min0, max0, pageX - x0);
        emitted == old(emitted) + [Emit(props.scale.d0, props.scale.d1, d.0, d.1, side == BothSides)]
    {
      if !dragging {
        return;
      }
      var dx := pageX - x0;
      var min1 := if side == MinSide || side == BothSides then Invert(props.scale, min0 + dx) else Invert(props.scale, min0);
      var max1 := if side == MaxSide || side == BothSides then Invert(props.scale, max0 + dx) else Invert(props.scale, max0);
      emitted := emitted + [Emit(props.scale.d0, props.scale.d1, min1, max1, side == BothSides)];
    }

    /** The mouse-up listener: detach both listeners. */
    method MouseUp()
      modifies this
      ensures !dragging
      ensures props == old(props) && emitted == old(emitted)
    {
      dragging := false;
    }
  }

  /** The interval a PanX drag by dx hands to `onBrush`: the values under
      the range ends moved back by dx, in ascending order. */
  function PanEmit(s: LinearScale, r0: real, r1: real, dx: real): (real, real)
    requires ValidScale(s)
  {
    var min1 := Invert(s, r0 - dx);
    var max1 := Invert(s, r1 - dx);
    (Min(min1, max1), Max(min1, max1))
  }

  /** A pan moves the whole domain by -dx/k, unclamped, so the emitted
      interval is the domain shifted and keeps its width. */
  lemma PanShifts(s: LinearScale, dx: real)
    requires ValidScale(s)
    ensures var r := PanEmit(s, Apply(s, s.d0), Apply(s, s.d1), dx);
      && r == (Min(s.d0, s.d1) - dx / s.k, Max(s.d0, s.d1) - dx / s.k)
      && r.1 - r.0 == Max(s.d0, s.d1) - Min(s.d0, s.d1)
  {
    InvertShift(s, s.d0, -dx);
    InvertShift(s, s.d1, -dx);
    assert -dx / s.k == -(dx / s.k);
  }

  /** A PanX and its drag session; the scale and its range are captured at
      mouse-down. */
  class PanX {
    var scale: LinearScale
    var hasOnBrush: bool
    var dragging: bool
    var x0: real
    var dragScale: LinearScale
    var emitted: seq<(real, real)>

    constructor(s: LinearScale, onBrush: bool)
      ensures scale == s && hasOnBrush == onBrush && !dragging && emitted == []
    {
      scale := s;
      hasOnBrush := onBrush;
      dragging := false;
      x0 := 0.0;
      dragScale := s;
      emitted := [];
    }

    method MouseDown(pageX: real)
      modifies this
      ensures !old(hasOnBrush) ==> unchanged(this)
      ensures old(hasOnBrush) ==> dragging && x0 == pageX && dragScale == scale && emitted == old(emitted)
      ensures scale == old(scale) && hasOnBrush == old(hasOnBrush)
    {
      if !hasOnBrush {
        return;
      }
      x0 := pageX;
      dragScale := scale;
      dragging := true;
    }

    method MouseMove(pageX: real)
      requires ValidScale(dragScale)
      modifies this
      ensures scale == old(scale) && hasOnBrush == old(hasOnBrush) && dragging == old(dragging)
      ensures x0 == old(x0) && dragScale == old(dragScale)
      ensures !old(dragging) ==> unchanged(this)
      ensures old(dragging) ==>
        emitted == old(emitted) + [PanEmit(dragScale, Apply(dragScale, dragScale.d0), Apply(dragScale, dragScale.d1), pageX - x0)]
    {
      if !dragging {
        return;
      }
      var dx := pageX - x0;
      var min1 := Invert(dragScale, Apply(dragScale, dragScale.d0) - dx);
      var max1 := Invert(dragScale, Apply(dragScale, dragScale.d1) - dx);
      emitted := emitted + [(Min(min1, max1), Max(min1, max1))];
    }

    /** The mouse-up listener: one last emit at the release position, then
        both listeners are detached. */
    method MouseUp(pageX: real)
      requires ValidScale(dragScale)
      modifies this
      ensures scale == old(scale) && hasOnBrush == old(hasOnBrush) && dragScale == old(dragScale) && x0 == old(x0)
      ensures !old(dragging) ==> unchanged(this)
      ensures old(dragging) ==>
        !dragging && emitted == old(emitted)
          + [PanEmit(dragScale, Apply(dragScale, dragScale.d0), Apply(dragScale, dragScale.d1), pageX - x0)]
    {
      if !dragging {
        return;
      }
      MouseMove(pageX);
      dragging := false;
    }
  }
}
