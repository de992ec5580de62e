/** The squat counter of app/detectSquat/ui/SquatDetector.tsx: a leg passes
    the gate when hip, knee and ankle are present with score > 0.5; the knee
    angle of the passing legs is averaged; the squat is down below 100 degrees
    and is counted on the way back above 160 degrees. */
module SquatPage {
  import opened Wrappers
  import opened Keypoints
  import opened PhaseMachine

  const MinScore: real := 0.5
  const DownBelow: real := 100.0
  const UpAbove: real := 160.0

  predicate LegValid(f: Frame, hip: string, knee: string, ankle: string) {
    ScoreAbove(f, hip, MinScore) && ScoreAbove(f, knee, MinScore) && ScoreAbove(f, ankle, MinScore)
  }

  predicate LeftValid(f: Frame) {
    LegValid(f, "left_hip", "left_knee", "left_ankle")
  }

  predicate RightValid(f: Frame) {
    LegValid(f, "right_hip", "right_knee", "right_ankle")
  }

  function LeftAngle(f: Frame, angle: AngleFn): real
    requires LeftValid(f)
  {
    angle(f["left_hip"], f["left_knee"], f["left_ankle"])
  }

  function RightAngle(f: Frame, angle: AngleFn): real
    requires RightValid(f)
  {
    angle(f["right_hip"], f["right_knee"], f["right_ankle"])
  }

  /** The knee angle the counter compares, or None when the frame is skipped. */
  function Signal(f: Frame, angle: AngleFn): Option<real> {
    BestAvailable(if LeftValid(f) then Some(LeftAngle(f, angle)) else None,
                  if RightValid(f) then Some(RightAngle(f, angle)) else None)
  }

  /** The signal is the left angle alone, the right angle alone or the mean of
      both, as the legs pass the gate; no leg, no signal. */
  lemma SignalSides(f: Frame, angle: AngleFn)
    ensures Signal(f, angle).None? <==> !LeftValid(f) && !RightValid(f)
    ensures LeftValid(f) && !RightValid(f) ==> Signal(f, angle) == Some(LeftAngle(f, angle))
    ensures !LeftValid(f) && RightValid(f) ==> Signal(f, angle) == Some(RightAngle(f, angle))
    ensures LeftValid(f) && RightValid(f)
         ==> Signal(f, angle) == Some((LeftAngle(f, angle) + RightAngle(f, angle)) / 2.0)
  {
  }

  /** The effect of one frame on (isDown, squatCount). */
  function Step(p: Phase, f: Frame, angle: AngleFn): Phase {
    match Signal(f, angle)
    case None => p
    case Some(a) => Hysteresis(p, a, DownBelow, UpAbove)
  }

  /** The component's refs and state: `isDownRef` and `squatCount`. */
  class SquatCounter {
    var isDown: bool
    var squatCount: nat

    function State(): Phase
      reads this
    {
      Phase(isDown, squatCount)
    }

    constructor ()
      ensures State() == Rest
    {
      isDown := false;
      squatCount := 0;
    }

    /** `detectSquat` without its drawing. */
    method DetectSquat(f: Frame, angle: AngleFn)
      modifies this
      ensures State() == Step(old(State()), f, angle)
    {
      var isLeftValid := LeftValid(f);
      var isRightValid := RightValid(f);
      if !isLeftValid && !isRightValid {
        return;
      }
      var angles: seq<real> := [];
      if isLeftValid {
        angles := angles + [LeftAngle(f, angle)];
      }
      if isRightValid {
        angles := angles + [RightAngle(f, angle)];
      }
      var avgAngle := Mean(angles);
      PushedAverage(if isLeftValid then Some(LeftAngle(f, angle)) else None,
                    if isRightValid then Some(RightAngle(f, angle)) else None, angles);
      if avgAngle < DownBelow && !isDown {
        isDown := true;
      }
      if avgAngle > UpAbove && isDown {
        isDown := false;
        squatCount := squatCount + 1;
      }
    }
  }

  /** A frame in which neither leg passes the gate changes nothing. */
  lemma GateSkips(p: Phase, f: Frame, angle: AngleFn)
    requires !LeftValid(f) && !RightValid(f)
    ensures Step(p, f, angle) == p
  {
  }

  /** Down is entered only below 100 at rest, without counting; a squat is
      counted, and down cleared, exactly when the signal exceeds 160 while down;
      a signal in [100, 160] changes nothing. */
  lemma StepTransitions(p: Phase, f: Frame, angle: AngleFn)
    requires Signal(f, angle).Some?
    ensures var a := Signal(f, angle).value;
      && (!p.active && a < DownBelow ==> Step(p, f, angle) == p.(active := true))
      && (Step(p, f, angle).count == p.count + 1 <==> p.active && a > UpAbove)
      && (Step(p, f, angle).count == p.count + 1 ==> !Step(p, f, angle).active)
      && (DownBelow <= a <= UpAbove ==> Step(p, f, angle) == p)
  {
    HysteresisTransitions(p, Signal(f, angle).value, DownBelow, UpAbove);
  }

  /** The count never decreases and grows by at most one per frame. */
  lemma StepCount(p: Phase, f: Frame, angle: AngleFn)
    ensures p.count <= Step(p, f, angle).count <= p.count + 1
  {
  }

  /** The state after a sequence of frames. */
  function Run(p: Phase, frames: seq<Frame>, angle: AngleFn): Phase {
    if frames == [] then p
    else Step(Run(p, frames[..|frames| - 1], angle), frames[|frames| - 1], angle)
  }

  /** The signal values of the frames that pass the gate, in order. */
  function Signals(frames: seq<Frame>, angle: AngleFn): seq<real> {
    if frames == [] then []
    else
      var rest := Signals(frames[..|frames| - 1], angle);
      match Signal(frames[|frames| - 1], angle)
      case None => rest
      case Some(a) => rest + [a]
  }

  /** Running frames is running the 100/160 hysteresis over the signals of the
      frames that pass the gate; skipped frames vanish from the trace. */
  lemma {:induction false} RunIsHysteresisRun(p: Phase, frames: seq<Frame>, angle: AngleFn)
    ensures Run(p, frames, angle) == PhaseMachine.Run(p, Signals(frames, angle), DownBelow, UpAbove)
  {
    if frames != [] {
      var init := frames[..|frames| - 1];
      RunIsHysteresisRun(p, init, angle);
      var vs := Signals(init, angle);
      match Signal(frames[|frames| - 1], angle)
      case None =>
      case Some(a) =>
        assert (vs + [a])[..|vs|] == vs;
    }
  }

  /** Over any run the count never decreases, grows by at most one per frame,
      and every counted squat was preceded by its own entry into down. */
  lemma RunCounts(p: Phase, frames: seq<Frame>, angle: AngleFn)
    ensures p.count <= Run(p, frames, angle).count <= p.count + |frames|
    ensures var q := Run(p, frames, angle);
      q.count + Ord(q.active)
        == p.count + Ord(p.active) + Entries(p, Signals(frames, angle), DownBelow, UpAbove)
  {
    RunIsHysteresisRun(p, frames, angle);
    SignalsLength(frames, angle);
    PhaseMachine.RunCountBounds(p, Signals(frames, angle), DownBelow, UpAbove);
    PhaseMachine.RunConserves(p, Signals(frames, angle), DownBelow, UpAbove);
  }

  lemma {:induction false} SignalsLength(frames: seq<Frame>, angle: AngleFn)
    ensures |Signals(frames, angle)| <= |frames|
  {
    if frames != [] {
      SignalsLength(frames[..|frames| - 1], angle);
    }
  }

  /** The knee-angle trace 170, 95, 95, 170 counts exactly one squat; in the
      trace 170, 170, 95, 95, 170 the squat is counted at the last frame only;
      a second value below 100 while down is a no-op. */
  lemma Traces()
    ensures PhaseMachine.Run(Rest, [170.0, 95.0, 95.0, 170.0], DownBelow, UpAbove) == Phase(false, 1)
    ensures PhaseMachine.Run(Rest, [170.0, 170.0, 95.0, 95.0], DownBelow, UpAbove) == Phase(true, 0)
    ensures PhaseMachine.Run(Rest, [170.0, 170.0, 95.0, 95.0, 170.0], DownBelow, UpAbove) == Phase(false, 1)
  {
    var up, down := 170.0, 95.0;
    RunSnoc(Rest, [], up, DownBelow, UpAbove);
    assert [] + [up] == [up];
    RunSnoc(Rest, [up], down, DownBelow, UpAbove);
    assert [up] + [down] == [up, down];
    RunSnoc(Rest, [up, down], down, DownBelow, UpAbove);
    assert [up, down] + [down] == [up, down, down];
    RunSnoc(Rest, [up, down, down], up, DownBelow, UpAbove);
    assert [up, down, down] + [up] == [up, down, down, up];
    RunSnoc(Rest, [up], up, DownBelow, UpAbove);
    assert [up] + [up] == [up, up];
    RunSnoc(Rest, [up, up], down, DownBelow, UpAbove);
    assert [up, up] + [down] == [up, up, down];
    RunSnoc(Rest, [up, up, down], down, DownBelow, UpAbove);
    assert [up, up, down] + [down] == [up, up, down, down];
    RunSnoc(Rest, [up, up, down, down], up, DownBelow, UpAbove);
    assert [up, up, down, down] + [up] == [up, up, down, down, up];
  }
}
