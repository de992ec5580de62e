/** The jumping-jack counter of app/JumpingJacksDetector/page.tsx: all eight
    arm and ankle keypoints must be present with shoulders above 0.4, elbows
    above 0.5, wrists and ankles above 0.3; the jack opens with both hands up
    and the ankles more than 116 px apart, and is counted when it closes with
    the hands down and the ankles less than 48 px apart. */
module JumpingJacksPage {
  import opened Keypoints
  import opened PhaseMachine

  const MinShoulderScore: real := 0.4
  const MinElbowScore: real := 0.5
  const MinWristScore: real := 0.3
  const MinAnkleScore: real := 0.3
  const OpenFeetDistance: real := 116.0
  const ClosedFeetDistance: real := 48.0

  predicate Confident(f: Frame) {
    && "left_shoulder" in f && "left_elbow" in f && "left_wrist" in f
    && "right_shoulder" in f && "right_elbow" in f && "right_wrist" in f
    && "left_ankle" in f && "right_ankle" in f
    && ScoreAbove(f, "left_shoulder", MinShoulderScore)
    && ScoreAbove(f, "left_elbow", MinElbowScore)
    && ScoreAbove(f, "left_wrist", MinWristScore)
    && ScoreAbove(f, "right_shoulder", MinShoulderScore)
    && ScoreAbove(f, "right_elbow", MinElbowScore)
    && ScoreAbove(f, "right_wrist", MinWristScore)
    && ScoreAbove(f, "left_ankle", MinAnkleScore)
    && ScoreAbove(f, "right_ankle", MinAnkleScore)
  }

  /** Each wrist is higher in the image (smaller y) than its own shoulder. */
  predicate HandsUp(f: Frame)
    requires Confident(f)
  {
    f["left_wrist"].y < f["left_shoulder"].y && f["right_wrist"].y < f["right_shoulder"].y
  }

  function FeetDistance(f: Frame): real
    requires Confident(f)
  {
    Abs(f["left_ankle"].x - f["right_ankle"].x)
  }

  /** The effect of one frame on (isOpen, jumpCount). */
  function Step(p: Phase, f: Frame): Phase {
    if !Confident(f) then p
    else
      Toggle(p, HandsUp(f) && FeetDistance(f) > OpenFeetDistance,
                !HandsUp(f) && FeetDistance(f) < ClosedFeetDistance)
  }

  /** The component's refs and state: `isOpenRef` and `jumpCount`. */
  class JumpingJackCounter {
    var isOpen: bool
    var jumpCount: nat

    function State(): Phase
      reads this
    {
      Phase(isOpen, jumpCount)
    }

    constructor ()
      ensures State() == Rest
    {
      isOpen := false;
      jumpCount := 0;
    }

    /** `detectJumpingJack` without its drawing, logging and arm angles (which
        are only displayed). */
    method DetectJumpingJack(f: Frame)
      modifies this
      ensures State() == Step(old(State()), f)
    {
      if Confident(f) {
        var feetDistance := Abs(f["left_ankle"].x - f["right_ankle"].x);
        var handsUp := f["left_wrist"].y < f["left_shoulder"].y
                    && f["right_wrist"].y < f["right_shoulder"].y;
        if handsUp && feetDistance > OpenFeetDistance && !isOpen {
          isOpen := true;
        }
        if !handsUp && feetDistance < ClosedFeetDistance && isOpen {
          isOpen := false;
          jumpCount := jumpCount + 1;
        }
      }
    }
  }

  /** Nothing changes unless all eight keypoints pass their gates. */
  lemma GateSkips(p: Phase, f: Frame)
    requires !Confident(f)
    ensures Step(p, f) == p
  {
  }

  /** Open is entered exactly when the hands are up, the feet more than 116 px
      apart and the state was closed; a jack is counted, and open cleared,
      exactly when the hands are down, the feet less than 48 px apart and the
      state was open; a feet distance in [48, 116] changes nothing. */
  lemma StepTransitions(p: Phase, f: Frame)
    requires Confident(f)
    ensures !p.active ==> (Step(p, f).active
                           <==> HandsUp(f) && FeetDistance(f) > OpenFeetDistance)
    ensures Step(p, f).count == p.count + 1
        <==> p.active && !HandsUp(f) && FeetDistance(f) < ClosedFeetDistance
    ensures Step(p, f).count == p.count + 1 ==> !Step(p, f).active
    ensures p.count <= Step(p, f).count <= p.count + 1
    ensures ClosedFeetDistance <= FeetDistance(f) <= OpenFeetDistance ==> Step(p, f) == p
  {
  }

  function Run(p: Phase, frames: seq<Frame>): Phase {
    if frames == [] then p else Step(Run(p, frames[..|frames| - 1]), frames[|frames| - 1])
  }

  /** How many frames of the run entered the open state. */
  function OpenEntries(p: Phase, frames: seq<Frame>): nat {
    if frames == [] then 0
    else
      var before := Run(p, frames[..|frames| - 1]);
      OpenEntries(p, frames[..|frames| - 1]) + Ord(!before.active && Step(before, frames[|frames| - 1]).active)
  }

  /** Every counted jack closes an earlier entry into open: over any run from
      rest, the count plus the open flag equals the number of entries, so the
      count never exceeds it. */
  lemma {:induction false} RunConserves(p: Phase, frames: seq<Frame>)
    ensures Run(p, frames).count + Ord(Run(p, frames).active)
         == p.count + Ord(p.active) + OpenEntries(p, frames)
    ensures p == Rest ==> Run(p, frames).count <= OpenEntries(p, frames)
  {
    if frames != [] {
      var init := frames[..|frames| - 1];
      var f := frames[|frames| - 1];
      RunConserves(p, init);
      var before := Run(p, init);
      if Confident(f) {
        var enter := HandsUp(f) && FeetDistance(f) > OpenFeetDistance;
        var exit := !HandsUp(f) && FeetDistance(f) < ClosedFeetDistance;
        ToggleConserves(before, enter, exit);
        assert Ord(enter && !before.active) == Ord(!before.active && Step(before, f).active);
      }
    }
  }
}
