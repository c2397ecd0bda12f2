/**
 * The edge vines: decorative lines that spawn just outside an edge of the
 * canvas, leave a trail of bounded length, and die when their life runs out.
 * Their steering (noise field, pull to the centre, speed limit) is supplied
 * by the caller as the velocity of each update.
 */
module Vines {
  import opened Geometry

  /** Never more than this many vines at once. */
  const MaxVines: nat := 150
  /** A vine may spawn on every 6th frame. */
  const SpawnPeriod: nat := 6
  const InitialLife: real := 255.0
  /** Life lost per update. */
  const LifeDecay: real := 1.5
  /** maxLen is drawn from random(50, 150). */
  const MinTrail: real := 50.0
  const MaxTrail: real := 150.0
  /** A new vine starts this far outside the edge it spawns on. */
  const SpawnMargin: real := 10.0

  /** The spawn gate in draw: every 6th frame, and only while fewer than 150 vines live. */
  predicate SpawnGate(frame: nat, count: nat)
    ensures SpawnGate(frame, count) ==> count + 1 <= MaxVines
  {
    frame % SpawnPeriod == 0 && count < MaxVines
  }

  /**
   * The constructor's start: edge 0 is the top, 1 the right, 2 the bottom and
   * 3 the left; `along` is the random coordinate along that edge and `speed`
   * the random magnitude of the initial velocity. Returns position and velocity.
   */
  function SpawnMotion(edge: nat, along: real, speed: real, width: real, height: real): (r: (Point, Point))
    requires edge < 4 && speed > 0.0
    ensures edge == 0 ==> r.0.y == -SpawnMargin && r.1.x == 0.0 && r.1.y > 0.0
    ensures edge == 1 ==> r.0.x == width + SpawnMargin && r.1.x < 0.0 && r.1.y == 0.0
    ensures edge == 2 ==> r.0.y == height + SpawnMargin && r.1.x == 0.0 && r.1.y < 0.0
    ensures edge == 3 ==> r.0.x == -SpawnMargin && r.1.x > 0.0 && r.1.y == 0.0
  {
    if edge == 0 then (Point(along, -SpawnMargin), Point(0.0, speed))
    else if edge == 1 then (Point(width + SpawnMargin, along), Point(-speed, 0.0))
    else if edge == 2 then (Point(along, height + SpawnMargin), Point(0.0, -speed))
    else (Point(-SpawnMargin, along), Point(speed, 0.0))
  }

  /**
   * The trail queue: the new point is pushed, and the oldest one shifted out
   * when the trail grows past maxLen. The result is no longer than maxLen and
   * at most the oldest point is lost.
   */
  function BoundedPush(trail: seq<Point>, p: Point, maxLen: real): (r: seq<Point>)
    requires |trail| as real <= maxLen && maxLen >= 1.0
    ensures |r| as real <= maxLen
    ensures |trail| <= |r| <= |trail| + 1
  {
    var pushed := trail + [p];
    if |pushed| as real > maxLen then pushed[1..] else pushed
  }

  /**
   * What the queue holds after a push: the trail with the point appended,
   * less its oldest point exactly when that would exceed maxLen; so it ends
   * in the new point.
   */
  lemma BoundedPushContents(trail: seq<Point>, p: Point, maxLen: real)
    requires |trail| as real <= maxLen && maxLen >= 1.0
    ensures var r := BoundedPush(trail, p, maxLen);
      r == (trail + [p])[|trail| + 1 - |r|..] && r[|r| - 1] == p &&
      (|r| == |trail| <==> (|trail| + 1) as real > maxLen)
  {
  }

  /** The fields of a vine that its update changes, as a value. */
  datatype VineState = VineState(pos: Point, vel: Point, history: seq<Point>, maxLen: real, life: real)

  predicate ValidVine(s: VineState)
  {
    MinTrail <= s.maxLen < MaxTrail && |s.history| as real <= s.maxLen
  }

  /**
   * update(): life drops by 1.5, the position before the move is pushed on the
   * trail, and the vine moves by its new velocity. The trail stays within
   * maxLen.
   */
  function Advance(s: VineState, vel: Point): (r: VineState)
    requires ValidVine(s)
    ensures ValidVine(r) && r.maxLen == s.maxLen
    ensures r.life == s.life - LifeDecay
    ensures r.vel == vel && r.pos == Add(s.pos, vel)
  {
    s.(life := s.life - LifeDecay, history := BoundedPush(s.history, s.pos, s.maxLen),
       vel := vel, pos := Add(s.pos, vel))
  }

  /**
   * What an update does to the trail: the pre-move position is pushed and is
   * now the trail's last point, and at most the oldest point was shifted out.
   */
  lemma AdvanceRecordsPosition(s: VineState, vel: Point)
    requires ValidVine(s)
    ensures var h := Advance(s, vel).history;
      1 <= |h| && h[|h| - 1] == s.pos && h == (s.history + [s.pos])[|s.history| + 1 - |h|..]
  {
    BoundedPushContents(s.history, s.pos, s.maxLen);
  }

  /** isDead(). */
  predicate Dead(s: VineState)
  {
    s.life < 0.0
  }

  /** The state after n updates with the given velocities, from a vine's start. */
  function Grown(s: VineState, vels: seq<Point>): (r: VineState)
    requires ValidVine(s)
    ensures ValidVine(r) && r.maxLen == s.maxLen
    ensures r.life == s.life - LifeDecay * |vels| as real
    decreases |vels|
  {
    if vels == [] then s else Advance(Grown(s, vels[..|vels| - 1]), vels[|vels| - 1])
  }

  /** A fresh vine (life 255) is alive through its 170th update and dead from its 171st on. */
  lemma DeadFrom171stUpdate(s: VineState, vels: seq<Point>)
    requires ValidVine(s) && s.life == InitialLife
    ensures Dead(Grown(s, vels)) <==> |vels| >= 171
  {
  }

  /**
   * From an empty trail, n updates leave a trail of min(n, floor(maxLen))
   * points: it grows by one per frame until it is as long as maxLen allows.
   */
  lemma {:induction false} GrownTrailLength(s: VineState, vels: seq<Point>)
    requires ValidVine(s) && s.history == []
    ensures |Grown(s, vels).history| == if |vels| < s.maxLen.Floor then |vels| else s.maxLen.Floor
    decreases |vels|
  {
    if vels != [] {
      GrownTrailLength(s, vels[..|vels| - 1]);
    }
  }

  class EdgeVine {
    var pos: Point
    var vel: Point
    var history: seq<Point>
    const maxLen: real
    var life: real

    function State(): VineState
      reads this
    {
      VineState(pos, vel, history, maxLen, life)
    }

    ghost predicate Valid()
      reads this
    {
      ValidVine(State())
    }

    /** A vine at its spawn point, with an empty trail and full life. */
    constructor (edge: nat, along: real, speed: real, maxLen: real, width: real, height: real)
      requires edge < 4 && speed > 0.0
      requires MinTrail <= maxLen < MaxTrail
      ensures Valid()
      ensures State() == VineState(SpawnMotion(edge, along, speed, width, height).0,
                                   SpawnMotion(edge, along, speed, width, height).1, [], maxLen, InitialLife)
    {
      var start := SpawnMotion(edge, along, speed, width, height);
      pos, vel := start.0, start.1;
      history := [];
      this.maxLen := maxLen;
      life := InitialLife;
    }

    /** update(), with vel the steered and speed-limited velocity of this frame. */
    method Update(vel: Point)
      requires Valid()
      modifies this
      ensures Valid()
      ensures State() == Advance(old(State()), vel)
    {
      life := life - LifeDecay;
      history := history + [pos];
      if |history| as real > maxLen {
        history := history[1..];
      }
      this.vel := vel;
      pos := Add(pos, vel);
    }

    predicate IsDead()
      reads this
      ensures IsDead() <==> Dead(State())
    {
      life < 0.0
    }
  }
}
