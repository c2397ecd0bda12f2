/**
 * A tentacle: a chain of 20 points trailing from a creature's core toward a
 * target, relaxed in place every frame.
 */
module Tentacles {
  import opened Options
  import opened Geometry

  const SegmentCount: nat := 20
  /** Tentacles come in five groups, one per fingertip. */
  const GroupCount: nat := 5
  /** The tip eases 10% of the way to its target each frame. */
  const TipEase: real := 0.1
  /** Every other point eases 40% of the way to its predecessor. */
  const FollowEase: real := 0.4
  /** Points closer than this to their predecessor are pushed out. */
  const MinSpacing: real := 3.0
  /** Amplitude of the tip's wave offset. */
  const WaveAmplitude: real := 10.0

  function Scaled(v: Point, k: real): Point
  {
    Point(v.x * k, v.y * k)
  }

  /**
   * One interior point's relaxation: eased toward its predecessor, then, when
   * closer than 3, moved by setMag3 of its offset from the predecessor
   * (p5's setMag(3), which the caller supplies, since it needs a square root).
   */
  function Relax(prev: Point, curr: Point, setMag3: Point -> Point): Point
  {
    var eased := Lerp(curr, prev, FollowEase);
    if DistSq(eased, prev) < MinSpacing * MinSpacing then Add(eased, setMag3(Sub(eased, prev))) else eased
  }

  /**
   * The spacing rule: when the eased point does not coincide with its
   * predecessor and setMag3 scales its offset by some k > 0 to length 3, the
   * relaxed point ends at least 3 from its predecessor.
   */
  lemma SpacingRestored(prev: Point, curr: Point, setMag3: Point -> Point, k: real)
    requires Lerp(curr, prev, FollowEase) != prev
    requires k > 0.0
    requires var off := Sub(Lerp(curr, prev, FollowEase), prev);
             setMag3(off) == Scaled(off, k) && k * k * DistSq(off, Point(0.0, 0.0)) == MinSpacing * MinSpacing
    ensures DistSq(Relax(prev, curr, setMag3), prev) >= MinSpacing * MinSpacing
  {
    var eased := Lerp(curr, prev, FollowEase);
    var off := Sub(eased, prev);
    if DistSq(eased, prev) < MinSpacing * MinSpacing {
      var r := Add(eased, Scaled(off, k));
      assert Relax(prev, curr, setMag3) == r;
      var dx, dy := r.x - prev.x, r.y - prev.y;
      PushedOut(dx, dy, off.x, off.y, k);
      assert DistSq(r, prev) == dx * dx + dy * dy;
    }
  }

  /**
   * The arithmetic of the spacing rule: an offset (ox, oy) that k scales
   * to length 3, pushed out by k times itself to (dx, dy), has length at
   * least 3.
   */
  lemma PushedOut(dx: real, dy: real, ox: real, oy: real, k: real)
    requires k > 0.0 && k * k * (ox * ox + oy * oy) == MinSpacing * MinSpacing
    requires dx == ox + ox * k && dy == oy + oy * k
    ensures dx * dx + dy * dy >= MinSpacing * MinSpacing
  {
    var m, c := ox * ox + oy * oy, 1.0 + k;
    assert dx == ox * c && dy == oy * c;
    assert dx * dx == c * c * (ox * ox);
    assert dy * dy == c * c * (oy * oy);
    assert c * c * (ox * ox) + c * c * (oy * oy) == c * c * m;
    assert c * c * m == k * k * m + (2.0 * k + 1.0) * m;
    MulNonNegative(2.0 * k + 1.0, m);
  }

  /**
   * The exception to the spacing rule: a point that coincides with its
   * predecessor stays on it, since setMag of the zero vector is the zero
   * vector. This happens on a tentacle's first update when the root is the
   * canvas centre, where the constructor put every point.
   */
  lemma CoincidentPointStays(prev: Point, setMag3: Point -> Point)
    requires setMag3(Point(0.0, 0.0)) == Point(0.0, 0.0)
    ensures Relax(prev, prev, setMag3) == prev
    ensures DistSq(Relax(prev, prev, setMag3), prev) == 0.0
  {
    assert Lerp(prev, prev, FollowEase) == prev;
    assert Sub(prev, prev) == Point(0.0, 0.0);
  }

  class Tentacle {
    /** Which fingertip the tentacle follows, and its phase offset. */
    const groupIndex: nat
    const segments: array<Point>

    ghost predicate Valid()
      reads this
    {
      segments.Length == SegmentCount && groupIndex < GroupCount
    }

    /** A tentacle of group idx with all 20 points at the canvas centre. */
    constructor (idx: nat, center: Point)
      requires idx < GroupCount
      ensures Valid() && groupIndex == idx && fresh(segments)
      ensures forall i :: 0 <= i < SegmentCount ==> segments[i] == center
    {
      groupIndex := idx;
      segments := new Point[SegmentCount] (_ => center);
    }

    /**
     * update(root, target), with waveSin = sin(0.1 * frame + groupIndex).
     * Nothing changes when the root or the target is missing. Otherwise the
     * chain keeps its 20 points, the first is pinned to the root, the tip is
     * eased toward the waved target, and every later point is relaxed toward
     * its already relaxed predecessor.
     */
    method Update(root: Option<Point>, target: Option<Point>, waveSin: real, setMag3: Point -> Point)
      requires Valid()
      modifies segments
      ensures segments.Length == SegmentCount
      ensures root.None? || target.None? ==> segments[..] == old(segments[..])
      ensures root.Some? && target.Some? ==> segments[0] == root.value
      ensures root.Some? && target.Some? ==>
        var wave := waveSin * WaveAmplitude;
        var goal := Point(target.value.x + wave, target.value.y + wave);
        forall i :: 1 <= i < SegmentCount ==>
          segments[i] == Relax(segments[i - 1],
                               if i == SegmentCount - 1 then Lerp(old(segments[i]), goal, TipEase) else old(segments[i]),
                               setMag3)
    {
      if root.None? || target.None? {
        return;
      }
      segments[0] := root.value;
      var wave := waveSin * WaveAmplitude;
      var goal := Point(target.value.x + wave, target.value.y + wave);
      segments[SegmentCount - 1] := Lerp(segments[SegmentCount - 1], goal, TipEase);
      ghost var pre := segments[..];
      var i := 1;
      while i < SegmentCount
        invariant 1 <= i <= SegmentCount
        invariant segments[0] == root.value
        invariant forall j :: 1 <= j < i ==> segments[j] == Relax(segments[j - 1], pre[j], setMag3)
        invariant forall j :: i <= j < SegmentCount ==> segments[j] == pre[j]
      {
        RelaxAt(i, setMag3);
        i := i + 1;
      }
    }

    /** One turn of the relaxation loop: point i follows point i - 1; no other point moves. */
    method RelaxAt(i: nat, setMag3: Point -> Point)
      requires 1 <= i < segments.Length
      modifies segments
      ensures segments[i] == Relax(old(segments[i - 1]), old(segments[i]), setMag3)
      ensures forall j :: 0 <= j < segments.Length && j != i ==> segments[j] == old(segments[j])
    {
      var prev := segments[i - 1];
      var curr := Lerp(segments[i], prev, FollowEase);
      if DistSq(curr, prev) < MinSpacing * MinSpacing {
        curr := Add(curr, setMag3(Sub(curr, prev)));
      }
      segments[i] := curr;
    }
  }
}
