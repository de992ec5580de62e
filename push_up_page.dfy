/** The push-up counter of app/pushUp/page.tsx: the left shoulder, elbow, wrist
    and hip must not score below 0.3 and the nose not below 0.4; the body must
    be horizontal (nose and left hip at most 100 px apart vertically); the left
    elbow angle is down below 90 degrees and counted on the way back above 150. */
module PushUpPage {
  import opened Keypoints
  import opened PhaseMachine

  const MinLimbScore: real := 0.3
  const MinNoseScore: real := 0.4
  const MaxVerticalDistance: real := 100.0
  const DownBelow: real := 90.0
  const UpAbove: real := 150.0

  /** Every keypoint is present and none scores below its threshold. */
  predicate Confident(f: Frame) {
    && ScoreAtLeast(f, "left_shoulder", MinLimbScore)
    && ScoreAtLeast(f, "left_elbow", MinLimbScore)
    && ScoreAtLeast(f, "left_wrist", MinLimbScore)
    && ScoreAtLeast(f, "nose", MinNoseScore)
    && ScoreAtLeast(f, "left_hip", MinLimbScore)
  }

  /** The torso check: `Math.abs(head.y - leftHip.y) <= 100`. */
  predicate Horizontal(f: Frame)
    requires "nose" in f && "left_hip" in f
  {
    Abs(f["nose"].y - f["left_hip"].y) <= MaxVerticalDistance
  }

  /** The frames the counter looks at. */
  predicate Accepted(f: Frame) {
    Confident(f) && Horizontal(f)
  }

  function ElbowAngle(f: Frame, angle: AngleFn): real
    requires Confident(f)
  {
    angle(f["left_shoulder"], f["left_elbow"], f["left_wrist"])
  }

  /** The effect of one frame on (isPushDown, pushupCount). */
  function Step(p: Phase, f: Frame, angle: AngleFn): Phase {
    if !Accepted(f) then p
    else Hysteresis(p, ElbowAngle(f, angle), DownBelow, UpAbove)
  }

  /** The component's refs and state: `isPushDownRef` and `pushupCount`. */
  class PushUpCounter {
    var isPushDown: bool
    var pushupCount: nat

    function State(): Phase
      reads this
    {
      Phase(isPushDown, pushupCount)
    }

    constructor ()
      ensures State() == Rest
    {
      isPushDown := false;
      pushupCount := 0;
    }

    /** `detectPushUp` without its drawing. */
    method DetectPushUp(f: Frame, angle: AngleFn)
      modifies this
      ensures State() == Step(old(State()), f, angle)
    {
      if !Confident(f) {
        return;
      }
      var verticalDistance := Abs(f["nose"].y - f["left_hip"].y);
      if verticalDistance > MaxVerticalDistance {
        return;
      }
      var elbowAngle := ElbowAngle(f, angle);
      if elbowAngle < DownBelow && !isPushDown {
        isPushDown := true;
      }
      if elbowAngle > UpAbove && isPushDown {
        isPushDown := false;
        pushupCount := pushupCount + 1;
      }
    }
  }

  /** A missing or low-confidence keypoint, or a body that is not horizontal,
      skips the frame with no change. */
  lemma SkippedFrames(p: Phase, f: Frame, angle: AngleFn)
    ensures forall n :: (n in ["left_shoulder", "left_elbow", "left_wrist", "left_hip"]
                         && (n !in f || f[n].score < MinLimbScore))
                         ==> Step(p, f, angle) == p
    ensures "nose" !in f || f["nose"].score < MinNoseScore ==> Step(p, f, angle) == p
    ensures "nose" in f && "left_hip" in f && Abs(f["nose"].y - f["left_hip"].y) > MaxVerticalDistance
         ==> Step(p, f, angle) == p
  {
  }

  /** Down is entered below 90 at rest without counting; a push-up is counted,
      and down cleared, exactly when the angle exceeds 150 while down; an angle
      in [90, 150] changes nothing; the count grows by at most one. */
  lemma StepTransitions(p: Phase, f: Frame, angle: AngleFn)
    requires Accepted(f)
    ensures var a := ElbowAngle(f, angle);
      && (!p.active && a < DownBelow ==> Step(p, f, angle) == p.(active := true))
      && (Step(p, f, angle).count == p.count + 1 <==> p.active && a > UpAbove)
      && (Step(p, f, angle).count == p.count + 1 ==> !Step(p, f, angle).active)
      && (DownBelow <= a <= UpAbove ==> Step(p, f, angle) == p)
      && p.count <= Step(p, f, angle).count <= p.count + 1
  {
    HysteresisTransitions(p, ElbowAngle(f, angle), DownBelow, UpAbove);
  }

  /** The state after a sequence of frames. */
  function Run(p: Phase, frames: seq<Frame>, angle: AngleFn): Phase {
    if frames == [] then p
    else Step(Run(p, frames[..|frames| - 1], angle), frames[|frames| - 1], angle)
  }

  /** The elbow angles of the accepted frames, in order. */
  function Signals(frames: seq<Frame>, angle: AngleFn): (vs: seq<real>)
    ensures |vs| <= |frames|
  {
    if frames == [] then []
    else
      var rest := Signals(frames[..|frames| - 1], angle);
      var f := frames[|frames| - 1];
      if Accepted(f) then rest + [ElbowAngle(f, angle)] else rest
  }

  /** Running frames is running the 90/150 hysteresis over the accepted frames'
      elbow angles. */
  lemma {:induction false} RunIsHysteresisRun(p: Phase, frames: seq<Frame>, angle: AngleFn)
    ensures Run(p, frames, angle) == PhaseMachine.Run(p, Signals(frames, angle), DownBelow, UpAbove)
  {
    if frames != [] {
      var init := frames[..|frames| - 1];
      RunIsHysteresisRun(p, init, angle);
      var f := frames[|frames| - 1];
      if Accepted(f) {
        RunSnoc(p, Signals(init, angle), ElbowAngle(f, angle), DownBelow, UpAbove);
      }
    }
  }

  /** Over any run the count is monotone, grows by at most one per frame, and
      each counted push-up was preceded by its own entry into down. */
  lemma RunCounts(p: Phase, frames: seq<Frame>, angle: AngleFn)
    ensures p.count <= Run(p, frames, angle).count <= p.count + |frames|
    ensures var q := Run(p, frames, angle);
      q.count + Ord(q.active)
        == p.count + Ord(p.active) + Entries(p, Signals(frames, angle), DownBelow, UpAbove)
  {
    RunIsHysteresisRun(p, frames, angle);
    PhaseMachine.RunCountBounds(p, Signals(frames, angle), DownBelow, UpAbove);
    PhaseMachine.RunConserves(p, Signals(frames, angle), DownBelow, UpAbove);
  }
}
