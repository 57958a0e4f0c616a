/** Gesture classification: the five hand poses the controller reacts to, and
    the priority chain that picks one of them from the finger state. */
module Gestures {
  import opened Fingers

  /** What a hand frame asks for; Idle is every pose outside the five patterns. */
  datatype Gesture = Idle | Move | Click | RightClick | Scroll | Zoom

  /** The one finger state that selects each gesture. */
  function Pattern(g: Gesture): (f: FingerState)
    requires g != Idle
    ensures g == Zoom <==> f.thumb && f.index
    ensures g == Click <==> f.thumb && !f.index
    ensures g == Scroll <==> f.middle
    ensures g == RightClick <==> f.ring
    ensures !f.pinky
  {
    match g
    case Zoom => FingerState(true, true, false, false, false)
    case Click => FingerState(true, false, false, false, false)
    case RightClick => FingerState(false, false, false, true, false)
    case Scroll => FingerState(false, true, true, false, false)
    case Move => FingerState(false, true, false, false, false)
  }

  /** The controller's if/elif chain: zoom is tried first, then left click,
      right click, scroll and move; anything else is idle. Each gesture is
      chosen exactly when the finger state is its pattern. */
  function Classify(f: FingerState): (g: Gesture)
    ensures g != Idle ==> f == Pattern(g)
    ensures forall h :: h != Idle && f == Pattern(h) ==> g == h
  {
    if f.thumb && f.index && !f.middle && !f.ring && !f.pinky then Zoom
    else if f.thumb && !f.index && !f.middle && !f.ring && !f.pinky then Click
    else if f.ring && !f.index && !f.middle && !f.thumb && !f.pinky then RightClick
    else if f.index && f.middle && !f.thumb && !f.ring && !f.pinky then Scroll
    else if f.index && !f.thumb && !f.middle && !f.ring && !f.pinky then Move
    else Idle
  }

  /** No finger state matches two rows of the gesture table, so the order in
      which the chain tries them never decides the outcome. */
  lemma PatternsDisjoint(g: Gesture, h: Gesture)
    requires g != Idle && h != Idle && g != h
    ensures Pattern(g) != Pattern(h)
  {
  }

  /** Classification inverts the table. */
  lemma ClassifyPattern(g: Gesture)
    requires g != Idle
    ensures Classify(Pattern(g)) == g
  {
  }

  /** The gesture a detected hand shows, read straight from its skeleton. */
  function GestureOfSkeleton(lm: seq<Point>): (g: Gesture)
    requires IsSkeleton(lm)
    ensures g != Idle ==> FingersUp(lm) == Pattern(g)
    ensures forall h :: h != Idle && FingersUp(lm) == Pattern(h) ==> g == h
  {
    Classify(FingersUp(lm))
  }

  /** Every gesture is reachable from some skeleton. */
  lemma EveryGestureHasSkeleton(g: Gesture)
    ensures g != Idle ==> GestureOfSkeleton(SkeletonFor(Pattern(g))) == g
    ensures GestureOfSkeleton(SkeletonFor(FingerState(true, true, true, true, true))) == Idle
  {
  }
}
