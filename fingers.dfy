/** Finger-state extraction: which of the five fingers of a detected hand are
    extended, read off the hand skeleton that the landmark detector produces. */
module Fingers {

  /** One normalized landmark of the skeleton: x grows to the right and y grows
      downwards, both in fractions of the camera frame. The detector's depth
      coordinate is never read by the controller and is not kept. */
  datatype Point = Point(x: real, y: real)

  // Indices into the 21-point hand skeleton (the detector's numbering).
  const ThumbIp: nat := 3
  const ThumbTip: nat := 4
  const IndexPip: nat := 6
  const IndexTip: nat := 8
  const MiddlePip: nat := 10
  const MiddleTip: nat := 12
  const RingPip: nat := 14
  const RingTip: nat := 16
  const PinkyPip: nat := 18
  const PinkyTip: nat := 20
  const LandmarkCount: nat := 21

  /** A skeleton as the detector delivers it for one hand. */
  predicate IsSkeleton(lm: seq<Point>) {
    |lm| == LandmarkCount
  }

  /** The five up/down flags, in the order thumb, index, middle, ring, pinky. */
  datatype FingerState = FingerState(thumb: bool, index: bool, middle: bool, ring: bool, pinky: bool)

  /** A finger other than the thumb is up when its tip lies strictly above its
      middle joint; the thumb is up when its tip lies strictly left of its
      interphalangeal joint, the convention for a mirrored, front-facing camera. */
  function FingersUp(lm: seq<Point>): (f: FingerState)
    requires IsSkeleton(lm)
    ensures f.thumb <==> lm[ThumbTip].x < lm[ThumbIp].x
    ensures f.index <==> lm[IndexTip].y < lm[IndexPip].y
    ensures f.middle <==> lm[MiddleTip].y < lm[MiddlePip].y
    ensures f.ring <==> lm[RingTip].y < lm[RingPip].y
    ensures f.pinky <==> lm[PinkyTip].y < lm[PinkyPip].y
  {
    FingerState(
      lm[ThumbTip].x < lm[ThumbIp].x,
      lm[IndexTip].y < lm[IndexPip].y,
      lm[MiddleTip].y < lm[MiddlePip].y,
      lm[RingTip].y < lm[RingPip].y,
      lm[PinkyTip].y < lm[PinkyPip].y)
  }

  /** The skeleton seen after scaling the frame by a > 0 and shifting it. */
  function Placed(lm: seq<Point>, a: real, dx: real, dy: real): (r: seq<Point>)
    ensures |r| == |lm|
  {
    seq(|lm|, i requires 0 <= i < |lm| => Point(a * lm[i].x + dx, a * lm[i].y + dy))
  }

  /** The skeleton seen after flipping the frame left to right. */
  function Mirrored(lm: seq<Point>): (r: seq<Point>)
    ensures |r| == |lm|
  {
    seq(|lm|, i requires 0 <= i < |lm| => Point(1.0 - lm[i].x, lm[i].y))
  }

  /** Scaling by a positive factor and shifting keeps the order of two coordinates. */
  lemma PlacedKeepsOrder(lm: seq<Point>, a: real, dx: real, dy: real, i: nat, j: nat)
    requires i < |lm| && j < |lm| && a > 0.0
    ensures Placed(lm, a, dx, dy)[i].x < Placed(lm, a, dx, dy)[j].x <==> lm[i].x < lm[j].x
    ensures Placed(lm, a, dx, dy)[i].y < Placed(lm, a, dx, dy)[j].y <==> lm[i].y < lm[j].y
  {
    var p := Placed(lm, a, dx, dy);
    assert p[j].x - p[i].x == a * (lm[j].x - lm[i].x);
    assert p[j].y - p[i].y == a * (lm[j].y - lm[i].y);
  }

  /** Finger state depends only on where the joints lie relative to each other:
      a hand closer to or further from the camera, or elsewhere in the frame,
      shows the same fingers. */
  lemma FingersUpIgnoresPlacement(lm: seq<Point>, a: real, dx: real, dy: real)
    requires IsSkeleton(lm) && a > 0.0
    ensures IsSkeleton(Placed(lm, a, dx, dy))
    ensures FingersUp(Placed(lm, a, dx, dy)) == FingersUp(lm)
  {
    PlacedKeepsOrder(lm, a, dx, dy, ThumbTip, ThumbIp);
    PlacedKeepsOrder(lm, a, dx, dy, IndexTip, IndexPip);
    PlacedKeepsOrder(lm, a, dx, dy, MiddleTip, MiddlePip);
    PlacedKeepsOrder(lm, a, dx, dy, RingTip, RingPip);
    PlacedKeepsOrder(lm, a, dx, dy, PinkyTip, PinkyPip);
  }

  /** The thumb test is tied to a mirrored camera: flipping the frame can never
      keep a raised thumb raised, while the other four fingers are unaffected. */
  lemma MirroringLowersThumb(lm: seq<Point>)
    requires IsSkeleton(lm)
    ensures IsSkeleton(Mirrored(lm))
    ensures FingersUp(lm).thumb ==> !FingersUp(Mirrored(lm)).thumb
    ensures var f, g := FingersUp(lm), FingersUp(Mirrored(lm));
      g.index == f.index && g.middle == f.middle && g.ring == f.ring && g.pinky == f.pinky
  {
  }

  /** Coordinates of landmark i in a skeleton that shows exactly the state f. */
  function PoseAt(f: FingerState, i: int): Point {
    var tipY := (up: bool) => if up then 0.25 else 0.75;
    if i == ThumbTip then Point(if f.thumb then 0.25 else 0.75, 0.5)
    else if i == IndexTip then Point(0.5, tipY(f.index))
    else if i == MiddleTip then Point(0.5, tipY(f.middle))
    else if i == RingTip then Point(0.5, tipY(f.ring))
    else if i == PinkyTip then Point(0.5, tipY(f.pinky))
    else Point(0.5, 0.5)
  }

  /** Every one of the 32 finger states is shown by some skeleton. */
  function SkeletonFor(f: FingerState): (lm: seq<Point>)
    ensures IsSkeleton(lm)
    ensures FingersUp(lm) == f
  {
    seq(LandmarkCount, i => PoseAt(f, i))
  }
}
