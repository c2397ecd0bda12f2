/**
 * A creature: the glowing core bound to one tracked hand (or wandering idly
 * when none is tracked), with its own ambient audio voice.
 */
module Creatures {
  import opened Options
  import opened Geometry
  import opened Hands

  /** The core eases 10% of the way to its target per frame under a hand ... */
  const ActiveEase: real := 0.1
  /** ... and 4% while idle. */
  const IdleEase: real := 0.04
  /** Rotation of the core's rings per frame. */
  const SpinRate: real := 0.04
  /** The idle wander samples noise at frame * 0.002 plus the creature's offset. */
  const WanderTimeScale: real := 0.002
  const WanderYShift: real := 100.0

  /**
   * What the creature tells its audio voice in a frame: the square of its
   * velocity (the distance the core moved) and its fist flag.
   */
  datatype AudioUpdate = AudioUpdate(speedSq: real, fist: bool)

  /** What a frame offers a creature: the frame number, the canvas size and the video size. */
  datatype View = View(frame: nat, width: real, height: real, videoW: int, videoH: int)

  predicate ValidView(v: View)
  {
    v.width >= 0.0 && v.height >= 0.0
  }

  /**
   * A creature's fields as a value: its core position and the one before this
   * frame, the ring angle, its noise offset, the fist and idle flags, whether
   * its audio voice runs, the updates its voice received and how often the
   * voice was disposed.
   */
  datatype CreatureState = CreatureState(
    pos: Point, prevPos: Point, angle: real, noiseOff: real,
    isFist: bool, isIdle: bool,
    audioOn: bool, audioLog: seq<AudioUpdate>, disposals: nat)

  /** The new creature: idle, not a fist, at the canvas centre, its voice running iff audio has started. */
  function Initial(noiseOff: real, audioStarted: bool, v: View): (s: CreatureState)
    ensures s.isIdle && !s.isFist
    ensures s.pos == s.prevPos == Point(v.width / 2.0, v.height / 2.0)
    ensures s.audioOn == audioStarted && s.audioLog == [] && s.disposals == 0
  {
    var center := Point(v.width / 2.0, v.height / 2.0);
    CreatureState(center, center, 0.0, noiseOff, false, true, audioStarted, [], 0)
  }

  /** The idle target: a coherent-noise sample scaled to the canvas. */
  function WanderTarget(noiseOff: real, v: View, noise: real -> real): (r: Point)
    ensures ValidView(v) && NoiseInUnit(noise) ==> 0.0 <= r.x <= v.width && 0.0 <= r.y <= v.height
  {
    var time := v.frame as real * WanderTimeScale;
    var nx, ny := noise(time + noiseOff), noise(time + noiseOff + WanderYShift);
    assert ValidView(v) && NoiseInUnit(noise) ==> 0.0 <= nx * v.width <= v.width && 0.0 <= ny * v.height <= v.height by {
      if ValidView(v) && NoiseInUnit(noise) {
        MulNonNegative(nx, v.width);
        MulNonNegative(1.0 - nx, v.width);
        MulNonNegative(ny, v.height);
        MulNonNegative(1.0 - ny, v.height);
      }
    }
    Point(nx * v.width, ny * v.height)
  }

  /** p5's noise() returns values in [0, 1]. */
  ghost predicate NoiseInUnit(noise: real -> real)
  {
    forall t :: 0.0 <= noise(t) <= 1.0
  }

  /**
   * Creature.update(handData, isFist): the flags and the core's motion. With
   * a hand the creature is active and eases toward the palm; without one it
   * is idle and eases, more slowly, toward its wander target. Once audio has
   * started, its voice receives the velocity, forced to 0 while idle, and the
   * fist flag.
   */
  function Step(s: CreatureState, hand: Option<HandData>, fist: bool, audioStarted: bool, v: View,
                noise: real -> real): (r: CreatureState)
    requires ValidView(v)
    ensures r.isIdle <==> hand.None?
    ensures r.isFist == fist
    ensures r.prevPos == s.pos
    ensures hand.Some? ==> r.pos == Lerp(s.pos, MapHandToCanvas(hand.value.palm, v.videoW, v.videoH, v.width, v.height), ActiveEase)
    ensures hand.None? ==> r.pos == Lerp(s.pos, WanderTarget(s.noiseOff, v, noise), IdleEase)
    ensures r.noiseOff == s.noiseOff && r.audioOn == s.audioOn && r.disposals == s.disposals
    ensures !audioStarted ==> r.audioLog == s.audioLog
    ensures audioStarted ==> |r.audioLog| == |s.audioLog| + 1 && r.audioLog[..|s.audioLog|] == s.audioLog
    ensures audioStarted ==> r.audioLog[|s.audioLog|].fist == fist
    ensures audioStarted ==> r.audioLog[|s.audioLog|].speedSq == if hand.None? then 0.0 else DistSq(r.pos, s.pos)
  {
    var idle := hand.None?;
    var target := if idle then WanderTarget(s.noiseOff, v, noise)
                  else MapHandToCanvas(hand.value.palm, v.videoW, v.videoH, v.width, v.height);
    var pos := Lerp(s.pos, target, if idle then IdleEase else ActiveEase);
    var speedSq := if idle then 0.0 else DistSq(pos, s.pos);
    s.(isFist := fist, isIdle := idle, prevPos := s.pos, pos := pos, angle := s.angle + SpinRate,
       audioLog := if audioStarted then s.audioLog + [AudioUpdate(speedSq, fist)] else s.audioLog)
  }

  /** The creature count manageCreatures reconciles to: one per hand, and never fewer than one. */
  function TargetCount(hands: nat): (n: nat)
    ensures n >= 1 && n >= hands
    ensures n == hands || (hands == 0 && n == 1)
  {
    if hands == 0 then 1 else hands
  }

  /**
   * The update manageCreatures gives creature i: idle when no hand is tracked;
   * the parsed hand i with its fist flag when it exists and parses; otherwise
   * nothing, so the creature keeps its state.
   */
  function Dispatch(s: CreatureState, hands: seq<Observation>, i: nat, audioStarted: bool, v: View,
                    noise: real -> real): (r: CreatureState)
    requires ValidView(v)
    ensures r.noiseOff == s.noiseOff && r.audioOn == s.audioOn && r.disposals == s.disposals
  {
    if |hands| == 0 then Step(s, None, false, audioStarted, v, noise)
    else if i < |hands| && ParseHand(hands[i]).Some? then
      var hand := ParseHand(hands[i]).value;
      Step(s, Some(hand), IsFist(hand), audioStarted, v, noise)
    else s
  }

  /**
   * With no hand tracked, every creature is idle and not a fist, and the
   * velocity its voice receives is exactly 0; the voice is told anything only
   * once audio has started.
   */
  lemma IdleDispatch(s: CreatureState, hands: seq<Observation>, i: nat, audioStarted: bool, v: View,
                     noise: real -> real)
    requires ValidView(v) && |hands| == 0
    ensures Dispatch(s, hands, i, audioStarted, v, noise).isIdle
    ensures !Dispatch(s, hands, i, audioStarted, v, noise).isFist
    ensures audioStarted ==> Dispatch(s, hands, i, audioStarted, v, noise).audioLog == s.audioLog + [AudioUpdate(0.0, false)]
    ensures !audioStarted ==> Dispatch(s, hands, i, audioStarted, v, noise).audioLog == s.audioLog
  {
  }

  /**
   * With hands tracked, creature i is updated exactly when hand i exists and
   * has keypoints; it then is active, and a fist iff its thumb tip (landmark 4)
   * and index tip (landmark 8) are closer than 35. Otherwise it keeps its state.
   */
  lemma HandDispatch(s: CreatureState, hands: seq<Observation>, i: nat, audioStarted: bool, v: View,
                     noise: real -> real)
    requires ValidView(v) && |hands| > 0
    ensures var r := Dispatch(s, hands, i, audioStarted, v, noise);
      if i < |hands| && hands[i].Hand? && hands[i].keypoints.Some? then
        var kp := hands[i].keypoints.value;
        !r.isIdle && (r.isFist <==> DistSq(kp[4], kp[8]) < FistRadius * FistRadius)
      else r == s
  {
  }

  class Creature {
    var pos: Point
    var prevPos: Point
    var angle: real
    const noiseOff: real
    var isFist: bool
    var isIdle: bool
    /** CreatureAudio: whether its wind and pulse sources run, what it was told, how often it was disposed. */
    var audioOn: bool
    var audioLog: seq<AudioUpdate>
    var disposals: nat

    function State(): CreatureState
      reads this
    {
      CreatureState(pos, prevPos, angle, noiseOff, isFist, isIdle, audioOn, audioLog, disposals)
    }

    /** new Creature(), with noiseOff the draw of random(1000). */
    constructor (noiseOff: real, audioStarted: bool, v: View)
      ensures State() == Initial(noiseOff, audioStarted, v)
    {
      var center := Point(v.width / 2.0, v.height / 2.0);
      pos, prevPos, angle := center, center, 0.0;
      this.noiseOff := noiseOff;
      isFist, isIdle := false, true;
      audioOn, audioLog, disposals := audioStarted, [], 0;
    }

    /** update(handData, isFist). */
    method Update(hand: Option<HandData>, fist: bool, audioStarted: bool, v: View, noise: real -> real)
      requires ValidView(v)
      modifies this
      ensures State() == Step(old(State()), hand, fist, audioStarted, v, noise)
    {
      isFist := fist;
      prevPos := pos;
      var target;
      if hand.Some? {
        isIdle := false;
        target := MapHandToCanvas(hand.value.palm, v.videoW, v.videoH, v.width, v.height);
      } else {
        isIdle := true;
        target := WanderTarget(noiseOff, v, noise);
      }
      var ease := if isIdle then IdleEase else ActiveEase;
      pos := Lerp(pos, target, ease);
      angle := angle + SpinRate;
      var speedSq := DistSq(pos, prevPos);
      if isIdle {
        speedSq := 0.0;
      }
      if audioStarted {
        audioLog := audioLog + [AudioUpdate(speedSq, isFist)];
      }
    }

    /** dispose(): stops and releases the wind and pulse sources; safe whether or not audio ever started. */
    method Dispose()
      modifies this
      ensures State() == old(State()).(audioOn := false, disposals := old(disposals) + 1)
    {
      audioOn := false;
      disposals := disposals + 1;
    }

    /** The per-creature part of mousePressed: the voice's wind and pulse start. */
    method StartAudio()
      modifies this
      ensures State() == old(State()).(audioOn := true)
    {
      audioOn := true;
    }
  }
}
