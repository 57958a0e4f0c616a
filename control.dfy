/** The per-frame mode state machine: the controller's memory across camera
    frames, what one frame does to it, and the pointer commands it emits. */
module Control {
  import opened Fingers
  import opened Gestures

  // The controller's tuning constants.
  const SmoothingFactor: real := 0.8
  const ClickCooldown: real := 0.3
  const RightClickCooldown: real := 0.3
  const ScrollClickThreshold: real := 20.0
  const ZoomClickThreshold: real := 20.0
  const FrameDelay: real := 0.01

  datatype Button = Left | Right

  /** What the controller asks of the pointer: an absolute move in screen
      pixels, a press-and-release, wheel notches (positive = up), and wheel
      notches sent while the ctrl key is held (positive = zoom in). */
  datatype Command =
    | MoveTo(x: real, y: real)
    | Press(button: Button)
    | Wheel(notches: int)
    | CtrlWheel(notches: int)

  /** One frame as the controller sees it: no hand, or the hand skeleton with
      the quantities the frame loop derives from it in pixels: the thumb to
      index tip distance, the mid-height of the index and middle tips, and the
      index tip mapped to the screen. */
  datatype Observation =
    | NoHand
    | Hand(lm: seq<Point>, pinchDist: real, scrollMidY: real, targetX: real, targetY: real)

  predicate ValidObservation(obs: Observation) {
    obs.Hand? ==> IsSkeleton(obs.lm)
  }

  /** One frame together with the clock reading taken at its start. */
  datatype Tick = Tick(obs: Observation, now: real)

  /** The controller's memory across frames. */
  datatype ControllerState = ControllerState(
    prevX: real, prevY: real,
    lastClickTime: real, lastRightClickTime: real,
    scrollActive: bool, prevScrollMidY: real,
    zoomActive: bool, initialZoomDist: real, prevZoomDist: real)

  const Initial := ControllerState(0.0, 0.0, 0.0, 0.0, false, 0.0, false, 0.0, 0.0)

  /** The new memory and the commands produced by one frame. */
  datatype Outcome = Outcome(state: ControllerState, cmds: seq<Command>)

  function Abs(x: real): real {
    if x < 0.0 then -x else x
  }

  /** The gesture a frame shows; a frame without a hand shows none. */
  function GestureOf(obs: Observation): (g: Gesture)
    requires ValidObservation(obs)
    ensures obs.NoHand? ==> g == Idle
  {
    if obs.NoHand? then Idle else GestureOfSkeleton(obs.lm)
  }

  /** The gesture whose frames can produce a command. */
  function ActionOf(c: Command): Gesture {
    match c
    case MoveTo(_, _) => Move
    case Press(b) => if b == Left then Click else RightClick
    case Wheel(_) => Scroll
    case CtrlWheel(_) => Zoom
  }

  function Cooldown(b: Button): real {
    if b == Left then ClickCooldown else RightClickCooldown
  }

  function LastFire(s: ControllerState, b: Button): real {
    if b == Left then s.lastClickTime else s.lastRightClickTime
  }

  /** A zoom frame with the given thumb to index distance. On entry the distance
      becomes the reference and nothing is sent; afterwards a notch is sent only
      when the distance has moved strictly more than the threshold from the
      reference, towards zoom-in when the fingers spread, and the reference then
      moves to the current distance. */
  function ZoomFrame(s: ControllerState, dist: real): (r: Outcome)
    ensures r.state.zoomActive
    ensures r.state == s.(zoomActive := true, initialZoomDist := r.state.initialZoomDist,
                          prevZoomDist := r.state.prevZoomDist)
    ensures !s.zoomActive ==>
      r.cmds == [] && r.state.prevZoomDist == dist && r.state.initialZoomDist == dist
    ensures s.zoomActive ==> r.state.initialZoomDist == s.initialZoomDist
    ensures s.zoomActive ==> (r.cmds != [] <==> Abs(dist - s.prevZoomDist) > ZoomClickThreshold)
    ensures r.cmds != [] ==> r.state.prevZoomDist == dist
    ensures r.cmds == [] && s.zoomActive ==> r.state.prevZoomDist == s.prevZoomDist
    ensures r.cmds == [CtrlWheel(1)] || r.cmds == [CtrlWheel(-1)] || r.cmds == []
    ensures r.cmds == [CtrlWheel(1)] ==> dist > s.prevZoomDist
    ensures r.cmds == [CtrlWheel(-1)] ==> dist < s.prevZoomDist
  {
    if !s.zoomActive then
      Outcome(s.(zoomActive := true, initialZoomDist := dist, prevZoomDist := dist), [])
    else
      var delta := dist - s.prevZoomDist;
      if Abs(delta) > ZoomClickThreshold then
        Outcome(s.(prevZoomDist := dist), [CtrlWheel(if delta > 0.0 then 1 else -1)])
      else
        Outcome(s, [])
  }

  /** A scroll frame with the given mid-height of the index and middle tips.
      On entry the height becomes the reference and nothing is sent; afterwards
      a raise of strictly more than the threshold scrolls one notch up, a drop
      of strictly more than the threshold one notch down, and either moves the
      reference to the current height; inside the band nothing happens. */
  function ScrollFrame(s: ControllerState, midY: real): (r: Outcome)
    ensures r.state.scrollActive
    ensures r.state == s.(scrollActive := true, prevScrollMidY := r.state.prevScrollMidY)
    ensures !s.scrollActive ==> r.cmds == [] && r.state.prevScrollMidY == midY
    ensures s.scrollActive ==>
      (r.cmds == [Wheel(1)] <==> s.prevScrollMidY - midY > ScrollClickThreshold)
    ensures s.scrollActive ==>
      (r.cmds == [Wheel(-1)] <==> s.prevScrollMidY - midY < -ScrollClickThreshold)
    ensures r.cmds == [Wheel(1)] || r.cmds == [Wheel(-1)] || r.cmds == []
    ensures r.state.prevScrollMidY == (if r.cmds == [] && s.scrollActive then s.prevScrollMidY else midY)
  {
    if !s.scrollActive then
      Outcome(s.(scrollActive := true, prevScrollMidY := midY), [])
    else
      var deltaY := s.prevScrollMidY - midY;
      if deltaY > ScrollClickThreshold then
        Outcome(s.(prevScrollMidY := midY), [Wheel(1)])
      else if deltaY < -ScrollClickThreshold then
        Outcome(s.(prevScrollMidY := midY), [Wheel(-1)])
      else
        Outcome(s, [])
  }

  /** A click frame for button b: the click fires only when strictly more than
      the button's cooldown has passed since it last fired, and then records
      the current time; the other button's timestamp is never touched. */
  function ClickFrame(s: ControllerState, b: Button, now: real): (r: Outcome)
    ensures r.cmds == [] || r.cmds == [Press(b)]
    ensures r.cmds == [Press(b)] <==> now - LastFire(s, b) > Cooldown(b)
    ensures LastFire(r.state, b) == (if r.cmds == [] then LastFire(s, b) else now)
    ensures LastFire(s, b) <= LastFire(r.state, b)
    ensures b == Left ==> r.state == s.(lastClickTime := r.state.lastClickTime)
    ensures b == Right ==> r.state == s.(lastRightClickTime := r.state.lastRightClickTime)
  {
    if now - LastFire(s, b) > Cooldown(b) then
      match b
      case Left => Outcome(s.(lastClickTime := now), [Press(Left)])
      case Right => Outcome(s.(lastRightClickTime := now), [Press(Right)])
    else
      Outcome(s, [])
  }

  /** One step of the cursor's exponential smoothing towards target: the new
      position's offset from the target is the old offset scaled by sf. */
  function Smooth(prev: real, target: real, sf: real): (c: real)
    ensures c - target == sf * (prev - target)
  {
    prev + (target - prev) * (1.0 - sf)
  }

  lemma ProductNonNegative(a: real, b: real)
    requires a >= 0.0 && b >= 0.0
    ensures a * b >= 0.0
  {
  }

  predicate Between(a: real, x: real, b: real) {
    (a <= x <= b) || (b <= x <= a)
  }

  /** With a smoothing factor in [0, 1] a step never passes the target and
      never moves away from it. */
  lemma {:induction false} SmoothStaysBetween(prev: real, target: real, sf: real)
    requires 0.0 <= sf <= 1.0
    ensures Between(prev, Smooth(prev, target, sf), target)
    ensures Abs(Smooth(prev, target, sf) - target) == sf * Abs(prev - target)
  {
    var c := Smooth(prev, target, sf);
    assert c - prev == (target - prev) * (1.0 - sf);
    if prev <= target {
      ProductNonNegative(target - prev, sf);
      ProductNonNegative(target - prev, 1.0 - sf);
    } else {
      ProductNonNegative(prev - target, sf);
      ProductNonNegative(prev - target, 1.0 - sf);
    }
  }

  /** A move frame: the cursor eases from the last smoothed position (never
      reset on entry) towards the screen target and is moved there. */
  function MoveFrame(s: ControllerState, tx: real, ty: real): (r: Outcome)
    ensures r.cmds == [MoveTo(r.state.prevX, r.state.prevY)]
    ensures r.state.prevX - tx == SmoothingFactor * (s.prevX - tx)
    ensures r.state.prevY - ty == SmoothingFactor * (s.prevY - ty)
    ensures r.state == s.(prevX := r.state.prevX, prevY := r.state.prevY)
  {
    var x := Smooth(s.prevX, tx, SmoothingFactor);
    var y := Smooth(s.prevY, ty, SmoothingFactor);
    Outcome(s.(prevX := x, prevY := y), [MoveTo(x, y)])
  }

  /** One frame of the controller. A frame without a hand changes nothing. A
      hand frame runs the handler of its gesture; every hand frame that is not
      zoom leaves zoom mode, and every hand frame that is neither zoom, a click,
      a right click nor scroll leaves scroll mode. */
  function Next(s: ControllerState, t: Tick): (r: Outcome)
    requires ValidObservation(t.obs)
    ensures t.obs.NoHand? ==> r == Outcome(s, [])
    ensures |r.cmds| <= 1
    ensures forall c :: c in r.cmds ==> ActionOf(c) == GestureOf(t.obs)
    ensures t.obs.Hand? ==> (r.state.zoomActive <==> GestureOf(t.obs) == Zoom)
    ensures t.obs.Hand? ==>
      (r.state.scrollActive <==>
         GestureOf(t.obs) == Scroll ||
         (s.scrollActive && GestureOf(t.obs) in {Zoom, Click, RightClick}))
    ensures GestureOf(t.obs) != Move ==> r.state.prevX == s.prevX && r.state.prevY == s.prevY
    ensures GestureOf(t.obs) != Scroll ==> r.state.prevScrollMidY == s.prevScrollMidY
    ensures GestureOf(t.obs) != Zoom ==>
      r.state.prevZoomDist == s.prevZoomDist && r.state.initialZoomDist == s.initialZoomDist
    ensures GestureOf(t.obs) != Click ==> r.state.lastClickTime == s.lastClickTime
    ensures GestureOf(t.obs) != RightClick ==> r.state.lastRightClickTime == s.lastRightClickTime
    ensures s.lastClickTime <= r.state.lastClickTime
    ensures s.lastRightClickTime <= r.state.lastRightClickTime
    ensures Press(Left) in r.cmds <==>
      GestureOf(t.obs) == Click && t.now - s.lastClickTime > ClickCooldown
    ensures Press(Right) in r.cmds <==>
      GestureOf(t.obs) == RightClick && t.now - s.lastRightClickTime > RightClickCooldown
    ensures Press(Left) in r.cmds ==> r.state.lastClickTime == t.now
    ensures Press(Right) in r.cmds ==> r.state.lastRightClickTime == t.now
    ensures Press(Left) !in r.cmds ==> r.state.lastClickTime == s.lastClickTime
    ensures Press(Right) !in r.cmds ==> r.state.lastRightClickTime == s.lastRightClickTime
    // What the zoom, scroll and move frames compute, with the exit flags
    // they inherit from the frames before them in the chain.
    ensures t.obs.Hand? && GestureOf(t.obs) == Zoom ==> r == ZoomFrame(s, t.obs.pinchDist)
    ensures t.obs.Hand? && GestureOf(t.obs) == Scroll ==>
      r == ScrollFrame(s.(zoomActive := false), t.obs.scrollMidY)
    ensures t.obs.Hand? && GestureOf(t.obs) == Move ==>
      r == MoveFrame(s.(zoomActive := false, scrollActive := false), t.obs.targetX, t.obs.targetY)
  {
    match t.obs
    case NoHand => Outcome(s, [])
    case Hand(lm, dist, midY, tx, ty) =>
      match GestureOfSkeleton(lm)
      case Zoom => ZoomFrame(s, dist)
      case Click => ClickFrame(s.(zoomActive := false), Left, t.now)
      case RightClick => ClickFrame(s.(zoomActive := false), Right, t.now)
      case Scroll => ScrollFrame(s.(zoomActive := false), midY)
      case Move => MoveFrame(s.(zoomActive := false, scrollActive := false), tx, ty)
      case Idle => Outcome(s.(zoomActive := false, scrollActive := false), [])
  }

  /** The frame-rate limiter: a clock reading starts a new frame only when at
      least the frame delay has passed since the last frame started. */
  function AdmitsFrame(now: real, prevFrameTime: real): (ok: bool)
    ensures ok <==> now - prevFrameTime >= FrameDelay
  {
    !(FrameDelay > 0.0 && now - prevFrameTime < FrameDelay)
  }

  /** The running controller: the frame loop's variables, updated in place
      once per frame. */
  class Controller {
    var prevX: real
    var prevY: real
    var lastClickTime: real
    var lastRightClickTime: real
    var scrollActive: bool
    var prevScrollMidY: real
    var zoomActive: bool
    var initialZoomDist: real
    var prevZoomDist: real

    function Current(): ControllerState
      reads this
    {
      ControllerState(prevX, prevY, lastClickTime, lastRightClickTime,
                      scrollActive, prevScrollMidY, zoomActive, initialZoomDist, prevZoomDist)
    }

    /** Every position, distance and timestamp starts at zero, both modes off. */
    constructor ()
      ensures Current() == Initial
    {
      prevX, prevY := 0.0, 0.0;
      lastClickTime, lastRightClickTime := 0.0, 0.0;
      scrollActive, prevScrollMidY := false, 0.0;
      zoomActive, initialZoomDist, prevZoomDist := false, 0.0, 0.0;
    }

    /** Processes one frame taken at time now: updates the fields exactly as
        Next says and returns the commands to send. */
    method Step(obs: Observation, now: real) returns (cmds: seq<Command>)
      requires ValidObservation(obs)
      modifies this
      ensures Current() == Next(old(Current()), Tick(obs, now)).state
      ensures cmds == Next(old(Current()), Tick(obs, now)).cmds
      ensures obs.NoHand? ==> unchanged(this) && cmds == []
    {
      cmds := [];
      if obs.Hand? {
        var f := FingersUp(obs.lm);
        if f.thumb && f.index && !f.middle && !f.ring && !f.pinky {
          var currDist := obs.pinchDist;
          if !zoomActive {
            zoomActive := true;
            initialZoomDist := currDist;
            prevZoomDist := currDist;
          } else {
            var delta := currDist - prevZoomDist;
            if Abs(delta) > ZoomClickThreshold {
              if delta > 0.0 {
                cmds := [CtrlWheel(1)];
              } else {
                cmds := [CtrlWheel(-1)];
              }
              prevZoomDist := currDist;
            }
          }
        } else {
          zoomActive := false;
          if f.thumb && !f.index && !f.middle && !f.ring && !f.pinky {
            if now - lastClickTime > ClickCooldown {
              cmds := [Press(Left)];
              lastClickTime := now;
            }
          } else if f.ring && !f.index && !f.middle && !f.thumb && !f.pinky {
            if now - lastRightClickTime > RightClickCooldown {
              cmds := [Press(Right)];
              lastRightClickTime := now;
            }
          } else if f.index && f.middle && !f.thumb && !f.ring && !f.pinky {
            var currMidY := obs.scrollMidY;
            if !scrollActive {
              scrollActive := true;
              prevScrollMidY := currMidY;
            } else {
              var deltaY := prevScrollMidY - currMidY;
              if deltaY > ScrollClickThreshold {
                cmds := [Wheel(1)];
                prevScrollMidY := currMidY;
              } else if deltaY < -ScrollClickThreshold {
                cmds := [Wheel(-1)];
                prevScrollMidY := currMidY;
              }
            }
          } else {
            scrollActive := false;
            if f.index && !f.thumb && !f.middle && !f.ring && !f.pinky {
              var currX := prevX + (obs.targetX - prevX) * (1.0 - SmoothingFactor);
              var currY := prevY + (obs.targetY - prevY) * (1.0 - SmoothingFactor);
              cmds := [MoveTo(currX, currY)];
              prevX, prevY := currX, currY;
            }
          }
        }
      }
    }
  }
}
