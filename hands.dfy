/**
 * The input boundary of the creature loop: one tracked hand as the hand-pose
 * model reports it, its parsing into a palm and five fingertips, the fist
 * rule, and the mapping from video coordinates to canvas coordinates.
 */
module Hands {
  import opened Options
  import opened Geometry

  /** The hand-pose model reports 21 landmarks per hand. */
  const LandmarkCount: nat := 21
  /** Landmark 9 is the base of the middle finger, used as the palm. */
  const PalmLandmark: nat := 9
  /** Landmarks 4, 8, 12, 16 and 20 are the tips of thumb, index, middle, ring and pinky. */
  const TipLandmarks: seq<nat> := [4, 8, 12, 16, 20]
  /** Thumb and index tips closer than this many video pixels make a fist. */
  const FistRadius: real := 35.0
  /** The video size mapHandToCanvas falls back to when the capture reports none. */
  const DefaultVideoWidth: nat := 320
  const DefaultVideoHeight: nat := 240

  /** A keypoint list long enough for every landmark the parser reads. */
  type Landmarks = s: seq<Point> | |s| >= LandmarkCount
    witness seq(LandmarkCount, _ => Point(0.0, 0.0))

  /** Five fingertips, thumb first. */
  type Tips = s: seq<Point> | |s| == 5
    witness seq(5, _ => Point(0.0, 0.0))

  /**
   * One entry of the tracked-hands list: a missing (falsy) entry, or a hand
   * object whose `keypoints` property may itself be missing.
   */
  datatype Observation = NoHand | Hand(keypoints: Option<Landmarks>)

  /** What parseHand returns: the palm and the fingertips in thumb-to-pinky order. */
  datatype HandData = HandData(palm: Point, tips: Tips)

  /** parseHand: null for a missing hand or missing keypoints, else the palm and five tips. */
  function ParseHand(h: Observation): (r: Option<HandData>)
    ensures r.None? <==> (h.NoHand? || h.keypoints.None?)
    ensures r.Some? ==> r.value.palm == h.keypoints.value[PalmLandmark]
    ensures r.Some? ==> forall k :: 0 <= k < 5 ==> r.value.tips[k] == h.keypoints.value[4 * (k + 1)]
  {
    match h
    case NoHand => None
    case Hand(kp) =>
      if kp.None? then None
      else
        var p := kp.value;
        Some(HandData(p[PalmLandmark], [p[TipLandmarks[0]], p[TipLandmarks[1]], p[TipLandmarks[2]],
                                        p[TipLandmarks[3]], p[TipLandmarks[4]]]))
  }

  /** The fist rule, on squared distance: thumb tip and index tip closer than FistRadius. */
  predicate IsFist(hand: HandData)
  {
    DistSq(hand.tips[0], hand.tips[1]) < FistRadius * FistRadius
  }

  /**
   * The fist rule as the source writes it: with d the Euclidean distance of
   * thumb tip and index tip, the hand is a fist exactly when d < 35, so a
   * distance of exactly 35 is not a fist.
   */
  lemma FistIffCloserThan35(hand: HandData, d: real)
    requires d >= 0.0 && d * d == DistSq(hand.tips[0], hand.tips[1])
    ensures IsFist(hand) <==> d < FistRadius
    ensures d == FistRadius ==> !IsFist(hand)
  {
    SquareMonotone(d, FistRadius);
  }

  /** The video size mapHandToCanvas divides by: the capture's, or 320 by 240 when it reports none. */
  function VideoWidth(videoW: int): (w: nat)
    ensures w > 0
    ensures videoW > 0 ==> w == videoW
  {
    if videoW > 0 then videoW else DefaultVideoWidth
  }

  function VideoHeight(videoH: int): (h: nat)
    ensures h > 0
    ensures videoH > 0 ==> h == videoH
  {
    if videoH > 0 then videoH else DefaultVideoHeight
  }

  /** mapHandToCanvas: a point of the video frame scaled onto the canvas. */
  function MapHandToCanvas(v: Point, videoW: int, videoH: int, width: real, height: real): (r: Point)
    requires width >= 0.0 && height >= 0.0
    ensures 0.0 <= v.x <= VideoWidth(videoW) as real ==> 0.0 <= r.x <= width
    ensures 0.0 <= v.y <= VideoHeight(videoH) as real ==> 0.0 <= r.y <= height
  {
    Point(MapRange(v.x, VideoWidth(videoW) as real, 0.0, width), MapRange(v.y, VideoHeight(videoH) as real, 0.0, height))
  }
}
