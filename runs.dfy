/** Properties of the controller over a run of consecutive frames. */
module Runs {
  import opened Fingers
  import opened Gestures
  import opened Control

  predicate ValidTicks(ticks: seq<Tick>) {
    forall k :: 0 <= k < |ticks| ==> ValidObservation(ticks[k].obs)
  }

  /** The memory after feeding the ticks, in order, to a controller in state s. */
  function After(s: ControllerState, ticks: seq<Tick>): ControllerState
    requires ValidTicks(ticks)
    decreases |ticks|
  {
    if ticks == [] then s
    else Next(After(s, ticks[..|ticks| - 1]), ticks[|ticks| - 1]).state
  }

  /** The commands sent while processing tick i of the run. */
  function Emitted(s: ControllerState, ticks: seq<Tick>, i: nat): seq<Command>
    requires ValidTicks(ticks) && i < |ticks|
  {
    Next(After(s, ticks[..i]), ticks[i]).cmds
  }

  lemma AfterOneMore(s: ControllerState, ticks: seq<Tick>, i: nat)
    requires ValidTicks(ticks) && i < |ticks|
    ensures After(s, ticks[..i + 1]) == Next(After(s, ticks[..i]), ticks[i]).state
  {
    assert ticks[..i + 1][..i] == ticks[..i];
  }

  /** Neither click timestamp ever moves backwards over a run. */
  lemma {:induction false} FireTimesNeverDecrease(s: ControllerState, ticks: seq<Tick>, b: Button, i: nat, j: nat)
    requires ValidTicks(ticks) && i <= j <= |ticks|
    ensures LastFire(After(s, ticks[..i]), b) <= LastFire(After(s, ticks[..j]), b)
  {
    if i < j {
      FireTimesNeverDecrease(s, ticks, b, i, j - 1);
      AfterOneMore(s, ticks, j - 1);
    }
  }

  /** Two clicks of the same button within one run are always strictly more
      than that button's cooldown apart, whatever happens between them: holding
      the pose repeats the click no faster than once per cooldown period
      (ClickRepeatsAfterCooldown shows that it does repeat). */
  lemma ClicksAreSpacedByCooldown(s: ControllerState, ticks: seq<Tick>, b: Button, i: nat, j: nat)
    requires ValidTicks(ticks) && i < j < |ticks|
    requires Press(b) in Emitted(s, ticks, i) && Press(b) in Emitted(s, ticks, j)
    ensures ticks[j].now - ticks[i].now > Cooldown(b)
  {
    AfterOneMore(s, ticks, i);
    FireTimesNeverDecrease(s, ticks, b, i + 1, j);
  }

  /** The gesture whose frames press button b. */
  function ClickGesture(b: Button): Gesture {
    if b == Left then Click else RightClick
  }

  /** Between a click at tick i and tick j, with no click of the same button
      in between, the button's timestamp stays at the time of tick i. */
  lemma {:induction false} FireTimeHeld(s: ControllerState, ticks: seq<Tick>, b: Button, i: nat, j: nat)
    requires ValidTicks(ticks) && i < j <= |ticks|
    requires Press(b) in Emitted(s, ticks, i)
    requires forall k :: i < k < j ==> Press(b) !in Emitted(s, ticks, k)
    ensures LastFire(After(s, ticks[..j]), b) == ticks[i].now
  {
    AfterOneMore(s, ticks, j - 1);
    if j - 1 > i {
      FireTimeHeld(s, ticks, b, i, j - 1);
      assert Press(b) !in Emitted(s, ticks, j - 1);
    }
  }

  /** Holding a click pose repeats the click once the cooldown has passed:
      after a click at tick i and none since, a frame of that button's pose
      at tick j clicks exactly when strictly more than the cooldown separates
      the two ticks. */
  lemma ClickRepeatsAfterCooldown(s: ControllerState, ticks: seq<Tick>, b: Button, i: nat, j: nat)
    requires ValidTicks(ticks) && i < j < |ticks|
    requires Press(b) in Emitted(s, ticks, i)
    requires forall k :: i < k < j ==> Press(b) !in Emitted(s, ticks, k)
    requires GestureOf(ticks[j].obs) == ClickGesture(b)
    ensures Press(b) in Emitted(s, ticks, j) <==> ticks[j].now - ticks[i].now > Cooldown(b)
  {
    FireTimeHeld(s, ticks, b, i, j);
  }

  /** The position after n smoothing steps towards a fixed target. */
  function Iterate(p: real, target: real, sf: real, n: nat): real {
    if n == 0 then p else Smooth(Iterate(p, target, sf, n - 1), target, sf)
  }

  function Pow(sf: real, n: nat): real {
    if n == 0 then 1.0 else sf * Pow(sf, n - 1)
  }

  /** Every power of a smoothing factor in [0, 1] lies in [0, 1]. */
  lemma {:induction false} PowBounded(sf: real, n: nat)
    requires 0.0 <= sf <= 1.0
    ensures 0.0 <= Pow(sf, n) <= 1.0
  {
    if n > 0 {
      var q := Pow(sf, n - 1);
      PowBounded(sf, n - 1);
      ProductNonNegative(sf, q);
      ProductNonNegative(1.0 - sf, q);
      assert q - sf * q == (1.0 - sf) * q;
    }
  }

  /** For a constant target, the cursor's offset from the target after n
      steps is the start offset scaled by sf^n. */
  lemma {:induction false} SmoothingConverges(p: real, target: real, sf: real, n: nat)
    ensures Iterate(p, target, sf, n) - target == Pow(sf, n) * (p - target)
  {
    if n > 0 {
      var e0 := Iterate(p, target, sf, n - 1) - target;
      var q, d := Pow(sf, n - 1), p - target;
      SmoothingConverges(p, target, sf, n - 1);
      assert Iterate(p, target, sf, n) - target == sf * e0;
      assert e0 == q * d;
      MulAssoc(sf, q, d);
      assert Pow(sf, n) == sf * q;
    }
  }

  lemma MulAssoc(a: real, b: real, c: real)
    ensures a * (b * c) == (a * b) * c
  {
  }

  /** For a factor in [0, 1] the distance to a fixed target after n steps is
      the start distance scaled by sf^n, a factor in [0, 1]: the cursor never
      ends further from the target than where it started. */
  lemma SmoothingDistanceShrinks(p: real, target: real, sf: real, n: nat)
    requires 0.0 <= sf <= 1.0
    ensures Abs(Iterate(p, target, sf, n) - target) == Pow(sf, n) * Abs(p - target)
    ensures 0.0 <= Pow(sf, n) <= 1.0
    ensures Abs(Iterate(p, target, sf, n) - target) <= Abs(p - target)
  {
    var x, k, d := Iterate(p, target, sf, n), Pow(sf, n), p - target;
    SmoothingConverges(p, target, sf, n);
    PowBounded(sf, n);
    ScaledAbs(k, d);
    assert x - target == k * d;
    assert Abs(x - target) == Abs(k * d);
  }

  lemma ScaledAbs(k: real, d: real)
    requires 0.0 <= k <= 1.0
    ensures Abs(k * d) == k * Abs(d)
    ensures k * Abs(d) <= Abs(d)
  {
    ProductNonNegative(1.0 - k, Abs(d));
    assert Abs(d) - k * Abs(d) == (1.0 - k) * Abs(d);
    if d >= 0.0 {
      ProductNonNegative(k, d);
    } else {
      ProductNonNegative(k, -d);
      assert k * d == -(k * (-d));
    }
  }

  /** The cursor never passes the target: every position on the way lies
      between the start and the target, and each step lands no further from
      the target than the one before. */
  lemma {:induction false} SmoothingNeverOvershoots(p: real, target: real, sf: real, n: nat)
    requires 0.0 <= sf <= 1.0
    ensures Between(p, Iterate(p, target, sf, n), target)
    ensures Abs(Iterate(p, target, sf, n + 1) - target) <= Abs(Iterate(p, target, sf, n) - target)
  {
    var cur := Iterate(p, target, sf, n);
    SmoothStaysBetween(cur, target, sf);
    assert Abs(cur - target) - sf * Abs(cur - target) == (1.0 - sf) * Abs(cur - target);
    ProductNonNegative(1.0 - sf, Abs(cur - target));
    if n > 0 {
      SmoothingNeverOvershoots(p, target, sf, n - 1);
      SmoothStaysBetween(Iterate(p, target, sf, n - 1), target, sf);
    }
  }

  /** Every tick shows the move pose with the same screen target. */
  predicate HeldMove(ticks: seq<Tick>, tx: real, ty: real) {
    ValidTicks(ticks) &&
    forall k :: 0 <= k < |ticks| ==>
      ticks[k].obs.Hand? && GestureOf(ticks[k].obs) == Move &&
      ticks[k].obs.targetX == tx && ticks[k].obs.targetY == ty
  }

  /** Holding the move pose on a fixed target runs the smoothing filter from
      wherever the cursor last was: the filter is never reset to the target. */
  lemma {:induction false} HeldMoveSmoothsFromLastPosition(s: ControllerState, ticks: seq<Tick>, tx: real, ty: real)
    requires HeldMove(ticks, tx, ty)
    ensures After(s, ticks).prevX == Iterate(s.prevX, tx, SmoothingFactor, |ticks|)
    ensures After(s, ticks).prevY == Iterate(s.prevY, ty, SmoothingFactor, |ticks|)
  {
    if ticks != [] {
      var n := |ticks| - 1;
      assert HeldMove(ticks[..n], tx, ty);
      HeldMoveSmoothsFromLastPosition(s, ticks[..n], tx, ty);
    }
  }

  /** Frames without a hand leave the memory untouched and send nothing. */
  lemma {:induction false} NoHandFramesChangeNothing(s: ControllerState, ticks: seq<Tick>)
    requires forall k :: 0 <= k < |ticks| ==> ticks[k].obs.NoHand?
    ensures ValidTicks(ticks)
    ensures After(s, ticks) == s
    ensures forall i :: 0 <= i < |ticks| ==> Emitted(s, ticks, i) == []
  {
    if ticks != [] {
      NoHandFramesChangeNothing(s, ticks[..|ticks| - 1]);
      forall i | 0 <= i < |ticks|
        ensures Emitted(s, ticks, i) == []
      {
        assert ticks[..i] == ticks[..|ticks| - 1][..i];
      }
    }
  }

  /** Zoom frames leave scroll mode set, so going back to the scroll pose
      after one is no fresh entry: with scroll at 100 and then a zoom frame,
      scrolling again at 70 sends a notch up measured from 100. */
  lemma ScrollReferenceSurvivesZoom(s: ControllerState, dist: real, now: real)
    requires !s.scrollActive
    ensures
      var o1 := Next(s, PoseTick(Scroll, 0.0, 100.0, 0.0, 0.0, now));
      var o2 := Next(o1.state, PoseTick(Zoom, dist, 0.0, 0.0, 0.0, now));
      var o3 := Next(o2.state, PoseTick(Scroll, 0.0, 70.0, 0.0, 0.0, now));
      o2.state.scrollActive && o2.state.prevScrollMidY == 100.0 &&
      o3.cmds == [Wheel(1)] && o3.state.prevScrollMidY == 70.0
  {
  }

  /** Losing the hand does not leave zoom mode: a zoom frame at 100, a frame
      without a hand, then a zoom frame at 130 is no fresh entry and sends a
      zoom-in notch measured from 100. */
  lemma ZoomReferenceSurvivesLostHand(s: ControllerState, now: real)
    requires !s.zoomActive
    ensures
      var o1 := Next(s, PoseTick(Zoom, 100.0, 0.0, 0.0, 0.0, now));
      var o2 := Next(o1.state, Tick(NoHand, now));
      var o3 := Next(o2.state, PoseTick(Zoom, 130.0, 0.0, 0.0, 0.0, now));
      o2.state.zoomActive && o2.state.prevZoomDist == 100.0 &&
      o3.cmds == [CtrlWheel(1)] && o3.state.prevZoomDist == 130.0
  {
  }

  /** Leaving zoom for any other hand pose forgets the zoom reference: coming
      back to zoom starts again from the distance seen then, with no notch. */
  lemma ZoomReentryStartsFresh(s: ControllerState, leave: Tick, enter: Tick)
    requires ValidObservation(leave.obs) && ValidObservation(enter.obs)
    requires leave.obs.Hand? && GestureOf(leave.obs) != Zoom
    requires enter.obs.Hand? && GestureOf(enter.obs) == Zoom
    ensures Next(Next(s, leave).state, enter).cmds == []
    ensures Next(Next(s, leave).state, enter).state.prevZoomDist == enter.obs.pinchDist
  {
  }

  /** A hand tick showing gesture g with the given measurements. */
  function PoseTick(g: Gesture, dist: real, midY: real, tx: real, ty: real, now: real): (t: Tick)
    requires g != Idle
    ensures ValidObservation(t.obs) && GestureOf(t.obs) == g
  {
    EveryGestureHasSkeleton(g);
    Tick(Hand(SkeletonFor(Pattern(g)), dist, midY, tx, ty), now)
  }

  /** Move, move, enter scroll, raise the fingers by 25 pixels against a
      20 pixel threshold, then an idle pose: two cursor moves, nothing on
      scroll entry, exactly one notch up, nothing on the idle frame, and scroll
      mode left afterwards. */
  lemma ScrollScenario(s: ControllerState, tx: real, ty: real)
    ensures
      var o1 := Next(s, PoseTick(Move, 0.0, 0.0, tx, ty, 1.0));
      var o2 := Next(o1.state, PoseTick(Move, 0.0, 0.0, tx, ty, 2.0));
      var o3 := Next(o2.state, PoseTick(Scroll, 0.0, 100.0, 0.0, 0.0, 3.0));
      var o4 := Next(o3.state, PoseTick(Scroll, 0.0, 75.0, 0.0, 0.0, 4.0));
      var idle := Tick(Hand(SkeletonFor(FingerState(true, true, true, true, true)), 0.0, 0.0, 0.0, 0.0), 5.0);
      var o5 := Next(o4.state, idle);
      |o1.cmds| == 1 && o1.cmds[0].MoveTo? &&
      |o2.cmds| == 1 && o2.cmds[0].MoveTo? &&
      o3.cmds == [] && o4.cmds == [Wheel(1)] && o5.cmds == [] &&
      o4.state.prevScrollMidY == 75.0 && !o5.state.scrollActive
  {
    EveryGestureHasSkeleton(Idle);
  }

  /** Spreading the fingers by the threshold plus any margin from the zoom
      reference gives one zoom-in notch and moves the reference; closing them
      again by as much gives one zoom-out notch. */
  lemma ZoomNotchSymmetry(s: ControllerState, eps: real)
    requires s.zoomActive && eps > 0.0
    ensures
      var d := s.prevZoomDist + ZoomClickThreshold + eps;
      var o1 := ZoomFrame(s, d);
      var o2 := ZoomFrame(o1.state, s.prevZoomDist);
      o1.cmds == [CtrlWheel(1)] && o1.state.prevZoomDist == d &&
      o2.cmds == [CtrlWheel(-1)] && o2.state.prevZoomDist == s.prevZoomDist
  {
  }
}
