/** The part of p5's 2D vector arithmetic the discrete core relies on. */
module Geometry {

  /** A point or vector of the canvas or of the video frame (p5.Vector, z left out). */
  datatype Point = Point(x: real, y: real)

  function Add(a: Point, b: Point): Point
  {
    Point(a.x + b.x, a.y + b.y)
  }

  function Sub(a: Point, b: Point): Point
  {
    Point(a.x - b.x, a.y - b.y)
  }

  /** p5's lerp: the point a fraction t of the way from a to b. */
  function Lerp(a: Point, b: Point, t: real): (r: Point)
    ensures t == 0.0 ==> r == a
    ensures t == 1.0 ==> r == b
    ensures a == b ==> r == a
  {
    Point(a.x + (b.x - a.x) * t, a.y + (b.y - a.y) * t)
  }

  /** The square of p5's dist(a, b); the model compares squares, since Dafny has no square root. */
  function DistSq(a: Point, b: Point): (r: real)
    ensures r >= 0.0
  {
    var dx, dy := a.x - b.x, a.y - b.y;
    dx * dx + dy * dy
  }

  lemma MulPositive(p: real, q: real)
    requires p > 0.0 && q > 0.0
    ensures p * q > 0.0
  {
  }

  lemma MulNonNegative(p: real, q: real)
    requires p >= 0.0 && q >= 0.0
    ensures p * q >= 0.0
  {
  }

  /** A value between 0 and a positive bound, divided by that bound, lies in [0, 1]. */
  lemma UnitFraction(v: real, bound: real)
    requires bound > 0.0 && 0.0 <= v <= bound
    ensures 0.0 <= v / bound <= 1.0
  {
    var f := v / bound;
    assert f * bound == v;
    if f < 0.0 {
      MulPositive(-f, bound);
    }
    if f > 1.0 {
      MulPositive(f - 1.0, bound);
    }
  }

  /**
   * p5's map(v, 0, span, lo, lo + len): v scaled from [0, span] onto
   * [lo, lo + len]. The ends go to the ends, and for a non-negative len the
   * interval lands inside the target interval.
   */
  function MapRange(v: real, span: real, lo: real, len: real): (r: real)
    requires span > 0.0
    ensures v == 0.0 ==> r == lo
    ensures v == span ==> r == lo + len
    ensures 0.0 <= v <= span && len >= 0.0 ==> lo <= r <= lo + len
  {
    var f := v / span;
    assert 0.0 <= v <= span ==> 0.0 <= f <= 1.0 by {
      if 0.0 <= v <= span {
        UnitFraction(v, span);
      }
    }
    assert 0.0 <= f && len >= 0.0 ==> 0.0 <= f * len by {
      if 0.0 <= f && len >= 0.0 { MulNonNegative(f, len); }
    }
    assert f <= 1.0 && len >= 0.0 ==> f * len <= len by {
      if f <= 1.0 && len >= 0.0 { MulNonNegative(1.0 - f, len); }
    }
    lo + f * len
  }

  /** For non-negative reals, comparing squares is comparing the values. */
  lemma SquareMonotone(d: real, c: real)
    requires d >= 0.0 && c >= 0.0
    ensures d < c <==> d * d < c * c
  {
    var gap, sum := c - d, c + d;
    assert c * c - d * d == gap * sum;
    if d < c {
      MulPositive(gap, sum);
    } else {
      MulNonNegative(-gap, sum);
    }
  }
}
