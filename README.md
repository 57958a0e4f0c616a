# Hand-gesture mouse controller — verified model of the control core

The controller watches one hand through a webcam and drives the mouse. Each
camera frame either shows no hand or gives a 21-point hand skeleton. From the
skeleton the controller reads which fingers are up. It matches that finger
state against five poses: zoom, left click, right click, scroll and move. A
small memory carried from frame to frame then decides what to send to the
pointer. The memory holds the smoothed cursor position, the two click
timestamps, and the scroll and zoom references with their "active" flags.

This project models that core in Dafny and proves its behaviour:

- `Fingers` (fingers.dfy) is the finger-state extractor. It is a pure function
  of the skeleton, with its invariance and realisability lemmas.
- `Gestures` (gestures.dfy) is the gesture table and the priority chain that
  classifies a finger state.
- `Control` (control.dfy) holds the tuning constants, the commands and the
  controller's memory. Each pose has a pure handler, and `Next` composes them
  into one frame of the state machine. The class `Controller` has the frame
  loop's nine variables as fields. Its method `Step` updates them in place,
  branch for branch as the frame loop does, and is proved to agree with `Next`.
- `Runs` (runs.dfy) has the properties that span several frames: click
  spacing and repetition, smoothing convergence, zoom and scroll re-entry, and
  two scenarios.

Inputs the frame loop computes with floating point and truncation arrive
already computed, as `real`s. These are the thumb–index pixel distance, the
index/middle mid-height in pixels, and the screen target of the index tip.
The clock reading `now` is a parameter. Commands are returned as values:
`MoveTo`, `Press(Left|Right)`, `Wheel(±1)`, and `CtrlWheel(±1)` for a wheel
notch sent while ctrl is held.

Behaviour of the code that the model keeps:

- A frame with no hand changes nothing. Zoom and scroll stay active across it.
- Zoom, click and right-click frames leave `scrollActive` set. Only move and
  idle hand frames clear it. So a return to the scroll pose after such a frame
  is not a fresh entry: it compares against the mid-height recorded before
  (`Runs.ScrollReferenceSurvivesZoom`). A return to zoom after any other hand
  pose starts fresh (`Runs.ZoomReentryStartsFresh`), but a frame with no hand
  keeps zoom active with its reference (`Runs.ZoomReferenceSurvivesLostHand`).
- Thresholds, cooldowns, the smoothing factor and the thumb convention are
  the code's fixed constants, not configuration.
- There is no error path for a malformed skeleton. The detector always
  delivers 21 points, and `IsSkeleton` states that as a precondition.

## Model

| member | source | states |
|---|---|---|
| Fingers.FingersUp | HandGestureMouseController.py:43-82 | index, middle, ring and pinky are up exactly when the tip is strictly above the middle joint; the thumb exactly when its tip is strictly left of its joint; a tip level with its joint is down |
| Fingers.FingersUpIgnoresPlacement | HandGestureMouseController.py:74-80 | scaling the skeleton by any positive factor and shifting it leaves all five flags unchanged |
| Fingers.MirroringLowersThumb | HandGestureMouseController.py:73-74 | flipping the frame left to right never keeps a raised thumb raised and leaves the other four flags unchanged |
| Fingers.SkeletonFor | HandGestureMouseController.py:74-80 | every one of the 32 finger states is produced by some 21-point skeleton |
| Gestures.Pattern | HandGestureMouseController.py:121-231 | the five gesture rows; zoom and click are the thumb poses (told apart by the index finger), scroll alone raises the middle finger, right click alone the ring finger, and no pattern raises the pinky |
| Gestures.Classify | HandGestureMouseController.py:121-243 | the chain returns a gesture other than idle exactly when the finger state equals that gesture's pattern, and idle for every other state |
| Gestures.PatternsDisjoint | HandGestureMouseController.py:123-231 | no finger state matches two gesture patterns, so the order of the chain never decides the outcome |
| Gestures.ClassifyPattern | HandGestureMouseController.py:121-243 | classifying each gesture's pattern gives back that gesture |
| Gestures.GestureOfSkeleton | HandGestureMouseController.py:119-123 | a skeleton is classified as a gesture other than idle exactly when its finger state is that gesture's pattern |
| Gestures.EveryGestureHasSkeleton | HandGestureMouseController.py:119-243 | every gesture, idle included, is shown by some skeleton |
| Control.ZoomFrame | HandGestureMouseController.py:136-167 | on entry: zoom becomes active, both references take the current distance, nothing is sent; afterwards one ctrl+wheel notch exactly when the distance moved strictly more than the threshold, +1 when it grew and −1 when it shrank, the reference then reset to the current distance and otherwise unchanged; no other field changes |
| Control.ScrollFrame | HandGestureMouseController.py:193-223 | on entry: records the mid-height and sends nothing; afterwards Wheel(+1) exactly when the fingers rose strictly more than the threshold, Wheel(−1) exactly when they fell strictly more, and the reference moves only on a notch; no other field changes |
| Control.ClickFrame | HandGestureMouseController.py:175-187 | a click fires exactly when strictly more than the button's cooldown has passed since its last click, then records now; otherwise nothing changes; only that button's timestamp can change, and it never decreases |
| Control.Smooth | HandGestureMouseController.py:235-236 | the new position's offset from the target is the old offset times the smoothing factor |
| Control.SmoothStaysBetween | HandGestureMouseController.py:235-236 | for a factor in [0, 1] one step lands between the old position and the target, with the distance scaled by the factor |
| Control.MoveFrame | HandGestureMouseController.py:231-238 | moves the cursor to the smoothed position computed from the last stored position (no reset on entry) and stores it; no other field changes |
| Control.Next | HandGestureMouseController.py:114-243 | a frame with no hand changes nothing and sends nothing; at most one command per frame, always one belonging to the frame's gesture; after a hand frame zoom is active exactly when the frame is zoom, and scroll is active exactly when the frame is scroll or scroll was active and the frame is zoom, click or right click; each reference and timestamp changes only on its own gesture's frames; zoom, scroll and move frames give exactly their handler's outcome (scroll and move after the exit flags are cleared); a button's click is sent exactly when its gesture meets its strict cooldown, and its timestamp then becomes now and otherwise stays as it was |
| Control.AdmitsFrame | HandGestureMouseController.py:94-98 | the limiter starts a frame exactly when at least the frame delay has passed since the previous frame began |
| Control.Controller.constructor | HandGestureMouseController.py:33-41 | positions, timestamps, references and distances start at zero, both modes inactive |
| Control.Controller.Step | HandGestureMouseController.py:114-243 | the in-place update of the nine variables gives the memory and commands that Next specifies; a frame without a hand leaves every field unchanged and sends nothing |
| Runs.FireTimesNeverDecrease | HandGestureMouseController.py:175-187 | over any run of frames neither click timestamp moves backwards |
| Runs.ClicksAreSpacedByCooldown | HandGestureMouseController.py:175-187 | any two clicks of the same button in a run are strictly more than that button's cooldown apart, whatever frames lie between them |
| Runs.ClickRepeatsAfterCooldown | HandGestureMouseController.py:175-187 | after a click at one frame and none of that button since, a later frame of that button's pose clicks exactly when strictly more than the cooldown has passed since the earlier click, so holding the pose repeats the click |
| Runs.SmoothingDistanceShrinks | HandGestureMouseController.py:235-238 | for a factor in [0, 1] the distance to a fixed target after n steps is the start distance times a power of the factor lying in [0, 1], so it never exceeds the start distance |
| Runs.SmoothingConverges | HandGestureMouseController.py:235-238 | for a fixed target the offset after n smoothing steps is the start offset times the factor to the n |
| Runs.SmoothingNeverOvershoots | HandGestureMouseController.py:235-238 | for a factor in [0, 1] every position on the way lies between the start and the target, and no step ends further from the target than the one before |
| Runs.HeldMoveSmoothsFromLastPosition | HandGestureMouseController.py:231-238 | holding the move pose on a fixed target gives exactly the smoothing iterates started from the stored position |
| Runs.NoHandFramesChangeNothing | HandGestureMouseController.py:114 | any run of frames without a hand leaves the memory unchanged and sends nothing |
| Runs.ScrollReferenceSurvivesZoom | HandGestureMouseController.py:193-227 | from outside scroll mode: scroll entry at height 100, a zoom frame, then scroll at 70; the zoom frame keeps scroll active with reference 100, so the return is no entry and sends Wheel(+1) measured from 100 |
| Runs.ZoomReferenceSurvivesLostHand | HandGestureMouseController.py:114-171 | from outside zoom mode: a zoom frame at distance 100, a frame with no hand, then a zoom frame at 130; the lost hand keeps zoom active with reference 100, so the return is no entry and sends CtrlWheel(+1) measured from 100 |
| Runs.ZoomReentryStartsFresh | HandGestureMouseController.py:136-171 | after any non-zoom hand frame, the next zoom frame sends nothing and takes its reference from the current distance |
| Runs.ScrollScenario | HandGestureMouseController.py:193-243 | move, move, scroll entry, a 25-pixel rise against the 20-pixel threshold, idle: two cursor moves, nothing on entry, exactly one Wheel(+1), nothing on idle, scroll mode left |
| Runs.ZoomNotchSymmetry | HandGestureMouseController.py:143-163 | spreading by the threshold plus any margin gives one zoom-in notch and moves the reference there; closing back by as much gives one zoom-out notch |

## Left out

- Webcam capture, mirroring and colour conversion are I/O and are not modelled.
- The landmark detector is a foreign library. Its output is an input: no hand, or a 21-point skeleton.
- Sending mouse and key events is modelled as returned commands. The screen-size query is folded into the given screen target.
- The ctrl key-down, scroll and key-up sequence of a zoom notch is modelled as one `CtrlWheel` command.
- Drawing, overlays, `imshow` and the quit key are display only and are not modelled.
- The pixel conversions with `int(...)` truncation, `math.hypot` and the mid-height division are floating-point computations. Their results are given `real` inputs.
- The clock is a parameter `now`. The busy-wait loop around the frame limiter is not modelled; only its admission test is (`AdmitsFrame`).
- The landmarks' depth coordinate is never read and is not kept.
- Floating-point rounding in the smoothing, distance and threshold arithmetic is not modelled: the model computes with exact reals.
