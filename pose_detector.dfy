/** components/PoseDetector.tsx: one component that feeds every pose to four
    detectors in turn (squat, push-up, jumping jack, vertical jump), each with
    its own refs and counter. */
module PoseDetector {
  import opened Wrappers
  import opened Keypoints
  import opened PhaseMachine
  import SquatPage
  import PushUpPage

  // ---------------------------------------------------------------- push-up

  const PushUpMinScore: real := 0.5

  /** The component's push-up gate: all five keypoints present and none below
      0.5, and the torso horizontal as on the push-up page. */
  predicate PushUpAccepted(f: Frame) {
    && ScoreAtLeast(f, "left_shoulder", PushUpMinScore)
    && ScoreAtLeast(f, "left_elbow", PushUpMinScore)
    && ScoreAtLeast(f, "left_wrist", PushUpMinScore)
    && ScoreAtLeast(f, "nose", PushUpMinScore)
    && ScoreAtLeast(f, "left_hip", PushUpMinScore)
    && PushUpPage.Horizontal(f)
  }

  /** The effect of one frame on (isPushDownRef, pushupCount). */
  function PushUpStep(p: Phase, f: Frame, angle: AngleFn): Phase {
    if !PushUpAccepted(f) then p
    else Hysteresis(p, PushUpPage.ElbowAngle(f, angle), PushUpPage.DownBelow, PushUpPage.UpAbove)
  }

  /** The component's gate is the page's gate with every threshold raised to
      0.5: a frame it accepts the page accepts too, and on such a frame the two
      counters take the same 90/150 step; a frame it rejects changes nothing. */
  lemma PushUpAsOnPage(p: Phase, f: Frame, angle: AngleFn)
    ensures PushUpAccepted(f) ==> PushUpPage.Accepted(f)
    ensures PushUpAccepted(f) ==> PushUpStep(p, f, angle) == PushUpPage.Step(p, f, angle)
    ensures !PushUpAccepted(f) ==> PushUpStep(p, f, angle) == p
    ensures ("left_shoulder" !in f || f["left_shoulder"].score < PushUpMinScore) ==> PushUpStep(p, f, angle) == p
    ensures ("nose" !in f || f["nose"].score < PushUpMinScore) ==> PushUpStep(p, f, angle) == p
  {
  }

  // ----------------------------------------------------------- jumping jack

  const JackMinScore: real := 0.6
  /** `minFrames`: consecutive frames that confirm the open or closed pose. */
  const MinFrames: nat := 5

  /** `isJumpingJackRef`/`jumpCount` as a phase, and the two frame counters. */
  datatype JackState = JackState(phase: Phase, framesOpen: nat, framesClosed: nat)

  const JackInitial := JackState(Rest, 0, 0)

  /** None of the eight required keypoints is missing or below 0.6. */
  predicate JackConfident(f: Frame) {
    && ScoreAtLeast(f, "left_wrist", JackMinScore)
    && ScoreAtLeast(f, "right_wrist", JackMinScore)
    && ScoreAtLeast(f, "left_ankle", JackMinScore)
    && ScoreAtLeast(f, "right_ankle", JackMinScore)
    && ScoreAtLeast(f, "left_hip", JackMinScore)
    && ScoreAtLeast(f, "right_hip", JackMinScore)
    && ScoreAtLeast(f, "left_shoulder", JackMinScore)
    && ScoreAtLeast(f, "right_shoulder", JackMinScore)
  }

  datatype JackPose = OpenPose | ClosedPose | OtherPose

  /** Open: both wrists above 95% of the mean shoulder height and the ankles
      more than 1.5 hip widths apart. Closed: both wrists below 105% of it and
      the ankles less than 1.1 hip widths apart. */
  function PoseOf(f: Frame): (k: JackPose)
    requires JackConfident(f)
  {
    var avgShoulderY := (f["left_shoulder"].y + f["right_shoulder"].y) / 2.0;
    var ankleDistance := Abs(f["left_ankle"].x - f["right_ankle"].x);
    var hipWidth := Abs(f["left_hip"].x - f["right_hip"].x);
    var armsUp := f["left_wrist"].y < avgShoulderY * 0.95 && f["right_wrist"].y < avgShoulderY * 0.95;
    var armsDown := f["left_wrist"].y > avgShoulderY * 1.05 && f["right_wrist"].y > avgShoulderY * 1.05;
    var legsOpen := ankleDistance > hipWidth * 1.5;
    var legsClosed := ankleDistance < hipWidth * 1.1;
    if armsUp && legsOpen then OpenPose
    else if armsDown && legsClosed then ClosedPose
    else OtherPose
  }

  /** The effect of one frame on the jumping-jack refs. */
  function JackStep(s: JackState, f: Frame): JackState {
    if !JackConfident(f) then s
    else
      var k := PoseOf(f);
      var framesOpen := if k == OpenPose then s.framesOpen + 1 else 0;
      var framesClosed := if k == ClosedPose then s.framesClosed + 1 else 0;
      JackState(Toggle(s.phase, framesOpen >= MinFrames, framesClosed >= MinFrames),
                framesOpen, framesClosed)
  }

  /** A gated frame changes nothing; otherwise an open pose extends the open
      streak and ends the closed one, a closed pose the reverse, and any other
      pose ends both, so at most one counter is nonzero afterwards. The open
      phase is entered only on a streak of at least five open frames; a jack
      is counted only from the open phase on a streak of at least five closed
      frames, and counting leaves the open phase. */
  lemma JackStepRules(s: JackState, f: Frame)
    ensures !JackConfident(f) ==> JackStep(s, f) == s
    ensures JackConfident(f) ==> JackStep(s, f).framesOpen == 0 || JackStep(s, f).framesClosed == 0
    ensures JackConfident(f) && PoseOf(f) == OpenPose
        ==> JackStep(s, f).framesOpen == s.framesOpen + 1 && JackStep(s, f).framesClosed == 0
    ensures JackConfident(f) && PoseOf(f) == ClosedPose
        ==> JackStep(s, f).framesClosed == s.framesClosed + 1 && JackStep(s, f).framesOpen == 0
    ensures JackConfident(f) && PoseOf(f) == OtherPose
        ==> JackStep(s, f).framesOpen == 0 && JackStep(s, f).framesClosed == 0
    ensures !s.phase.active && JackStep(s, f).phase.active ==> JackStep(s, f).framesOpen >= MinFrames
    ensures JackStep(s, f).phase.count != s.phase.count
        ==> (&& JackStep(s, f).phase.count == s.phase.count + 1
             && s.phase.active && !JackStep(s, f).phase.active
             && JackStep(s, f).framesClosed >= MinFrames)
  {
  }

  function JackRun(s: JackState, frames: seq<Frame>): JackState {
    if frames == [] then s else JackStep(JackRun(s, frames[..|frames| - 1]), frames[|frames| - 1])
  }

  /** The poses of the frames that pass the gate, in order. */
  function JackPoses(frames: seq<Frame>): (ps: seq<JackPose>)
    ensures |ps| <= |frames|
  {
    if frames == [] then []
    else
      var f := frames[|frames| - 1];
      JackPoses(frames[..|frames| - 1]) + (if JackConfident(f) then [PoseOf(f)] else [])
  }

  /** The length of the longest suffix of `ps` made only of `k`. */
  function Trailing(ps: seq<JackPose>, k: JackPose): (n: nat)
    ensures n <= |ps|
    ensures forall i :: |ps| - n <= i < |ps| ==> ps[i] == k
    ensures n < |ps| ==> ps[|ps| - 1 - n] != k
  {
    if ps == [] || ps[|ps| - 1] != k then 0 else Trailing(ps[..|ps| - 1], k) + 1
  }

  lemma TrailingSnoc(ps: seq<JackPose>, x: JackPose, k: JackPose)
    ensures Trailing(ps + [x], k) == if x == k then Trailing(ps, k) + 1 else 0
  {
    assert (ps + [x])[..|ps|] == ps;
  }

  /** From the initial refs, the two counters are exactly the lengths of the
      current streaks of open and of closed poses among the gated frames
      (frames that fail the gate neither extend nor break a streak). */
  lemma {:induction false} JackCountersAreStreaks(frames: seq<Frame>)
    ensures JackRun(JackInitial, frames).framesOpen == Trailing(JackPoses(frames), OpenPose)
    ensures JackRun(JackInitial, frames).framesClosed == Trailing(JackPoses(frames), ClosedPose)
  {
    if frames != [] {
      var init := frames[..|frames| - 1];
      var f := frames[|frames| - 1];
      JackCountersAreStreaks(init);
      JackStepRules(JackRun(JackInitial, init), f);
      if JackConfident(f) {
        var ps := JackPoses(init);
        var k := PoseOf(f);
        assert JackPoses(frames) == ps + [k];
        TrailingSnoc(ps, k, OpenPose);
        TrailingSnoc(ps, k, ClosedPose);
      } else {
        assert JackPoses(frames) == JackPoses(init) + [] == JackPoses(init);
        assert JackRun(JackInitial, frames) == JackRun(JackInitial, init);
      }
    }
  }

  /** From the initial refs, the frame that enters the open phase ends a run
      of at least five consecutive open poses, and the frame that counts a
      jack ends a run of at least five consecutive closed poses. */
  lemma JackNeedsFiveFrames(frames: seq<Frame>)
    requires frames != []
    ensures var before := JackRun(JackInitial, frames[..|frames| - 1]);
            var after := JackRun(JackInitial, frames);
            var ps := JackPoses(frames);
            && ((!before.phase.active && after.phase.active)
                ==> |ps| >= MinFrames && forall i :: |ps| - MinFrames <= i < |ps| ==> ps[i] == OpenPose)
            && ((after.phase.count > before.phase.count)
                ==> |ps| >= MinFrames && forall i :: |ps| - MinFrames <= i < |ps| ==> ps[i] == ClosedPose)
  {
    JackStepRules(JackRun(JackInitial, frames[..|frames| - 1]), frames[|frames| - 1]);
    JackCountersAreStreaks(frames);
  }

  // ---------------------------------------------------------- vertical jump

  const AnkleMinScore: real := 0.5
  /** `maxCalibrationFrames` */
  const MaxCalibrationFrames: nat := 60
  /** `minFramesJumps` */
  const MinFramesJumps: nat := 3
  /** Take-off: the ankles more than this above the ground line. */
  const JumpMargin: real := 30.0
  /** Landing: the ankles less than this above the ground line. */
  const GroundMargin: real := 10.0

  /** The vertical-jump refs and state. `groundY` is set once, from the mean
      of the calibration samples. */
  datatype JumpState = JumpState(calibration: seq<real>, groundY: Option<real>, isJumping: bool,
                                 framesInAir: nat, framesOnGround: nat, count: nat)

  const JumpInitial := JumpState([], None, false, 0, 0, 0)

  /** Neither ankle is missing or below 0.5. */
  predicate AnklesValid(f: Frame) {
    ScoreAtLeast(f, "left_ankle", AnkleMinScore) && ScoreAtLeast(f, "right_ankle", AnkleMinScore)
  }

  function AnkleY(f: Frame): real
    requires AnklesValid(f)
  {
    (f["left_ankle"].y + f["right_ankle"].y) / 2.0
  }

  /** The effect of one frame on the vertical-jump refs. */
  function JumpStep(s: JumpState, f: Frame): JumpState {
    if !AnklesValid(f) then s
    else
      var y := AnkleY(f);
      match s.groundY
      case None =>
        var samples := s.calibration + [y];
        s.(calibration := samples,
           groundY := if |samples| >= MaxCalibrationFrames then Some(Mean(samples)) else None)
      case Some(g) =>
        if y < g - JumpMargin then
          var air := s.framesInAir + 1;
          s.(framesInAir := air, framesOnGround := 0,
             isJumping := s.isJumping || air >= MinFramesJumps)
        else if y > g - GroundMargin then
          var ground := s.framesOnGround + 1;
          var landed := ground >= MinFramesJumps && s.isJumping;
          s.(framesOnGround := ground, framesInAir := 0,
             isJumping := s.isJumping && !landed, count := s.count + Ord(landed))
        else s
  }

  /** A frame without both ankles changes nothing; while uncalibrated a frame
      only adds its sample (and may fix the ground line); once fixed, the
      ground line and the samples never change again. */
  lemma JumpCalibrationRules(s: JumpState, f: Frame)
    ensures !AnklesValid(f) ==> JumpStep(s, f) == s
    ensures AnklesValid(f) && s.groundY == None
        ==> (&& JumpStep(s, f).calibration == s.calibration + [AnkleY(f)]
             && JumpStep(s, f) == s.(calibration := JumpStep(s, f).calibration,
                                     groundY := JumpStep(s, f).groundY)
             && (JumpStep(s, f).groundY.Some? <==> |s.calibration| + 1 >= MaxCalibrationFrames))
    ensures s.groundY.Some?
        ==> JumpStep(s, f).groundY == s.groundY && JumpStep(s, f).calibration == s.calibration
  {
  }

  /** Once calibrated: above the take-off line the air counter grows and the
      ground counter is reset; below the landing line the reverse; in between
      nothing changes. Jumping starts only after at least three air frames;
      a jump is counted only when jumping and after at least three ground
      frames, and counting ends the jump. At most one counter stays nonzero. */
  lemma JumpRegionRules(s: JumpState, f: Frame)
    requires AnklesValid(f) && s.groundY.Some?
    ensures var t := JumpStep(s, f); var g := s.groundY.value;
      && (AnkleY(f) < g - JumpMargin ==> t.framesInAir == s.framesInAir + 1 && t.framesOnGround == 0)
      && (AnkleY(f) > g - GroundMargin ==> t.framesOnGround == s.framesOnGround + 1 && t.framesInAir == 0)
      && (g - JumpMargin <= AnkleY(f) <= g - GroundMargin ==> t == s)
      && (!s.isJumping && t.isJumping ==> t.framesInAir >= MinFramesJumps)
      && (t.count != s.count
          ==> t.count == s.count + 1 && s.isJumping && !t.isJumping && t.framesOnGround >= MinFramesJumps)
      && (s.framesInAir == 0 || s.framesOnGround == 0 ==> t.framesInAir == 0 || t.framesOnGround == 0)
  {
  }

  function JumpRun(s: JumpState, frames: seq<Frame>): JumpState {
    if frames == [] then s else JumpStep(JumpRun(s, frames[..|frames| - 1]), frames[|frames| - 1])
  }

  /** The ankle heights of the frames with both ankles valid, in order. */
  function AnkleYs(frames: seq<Frame>): (ys: seq<real>)
    ensures |ys| <= |frames|
  {
    if frames == [] then []
    else
      var f := frames[|frames| - 1];
      AnkleYs(frames[..|frames| - 1]) + (if AnklesValid(f) then [AnkleY(f)] else [])
  }

  /** From the initial refs, the first sixty valid ankle heights are the
      calibration samples: before the sixtieth nothing but the samples has
      changed (in particular nothing is counted), and from the sixtieth on the
      ground line is their mean. */
  lemma {:induction false} Calibration(frames: seq<Frame>)
    ensures var s := JumpRun(JumpInitial, frames); var ys := AnkleYs(frames);
      && (|ys| < MaxCalibrationFrames ==> s == JumpInitial.(calibration := ys))
      && (|ys| == MaxCalibrationFrames
          ==> s == JumpInitial.(calibration := ys, groundY := Some(Mean(ys))))
      && (|ys| >= MaxCalibrationFrames
          ==> s.calibration == ys[..MaxCalibrationFrames]
              && s.groundY == Some(Mean(ys[..MaxCalibrationFrames])))
  {
    if frames != [] {
      var init := frames[..|frames| - 1];
      var f := frames[|frames| - 1];
      Calibration(init);
      var ys0 := AnkleYs(init);
      var s0 := JumpRun(JumpInitial, init);
      assert JumpRun(JumpInitial, frames) == JumpStep(s0, f);
      if !AnklesValid(f) {
        assert JumpStep(s0, f) == s0;
        assert AnkleYs(frames) == ys0 + [] == ys0;
      } else {
        var ys := ys0 + [AnkleY(f)];
        assert AnkleYs(frames) == ys;
        if |ys0| >= MaxCalibrationFrames {
          assert s0.groundY.Some?;
          assert ys[..MaxCalibrationFrames] == ys0[..MaxCalibrationFrames];
        } else {
          assert s0 == JumpInitial.(calibration := ys0);
          if |ys| == MaxCalibrationFrames {
            assert ys[..MaxCalibrationFrames] == ys;
          }
        }
      }
    }
  }

  // -------------------------------------------------------------- component

  /** The state of all four detectors. */
  datatype Detectors = Detectors(squat: Phase, pushUp: Phase, jack: JackState, jump: JumpState)

  const Initial := Detectors(Rest, Rest, JackInitial, JumpInitial)

  /** One pose through the four detectors, in the order the detection loop
      calls them; they share no state, so the order does not matter. */
  function PoseStep(d: Detectors, f: Frame, angle: AngleFn): Detectors {
    Detectors(SquatPage.Step(d.squat, f, angle), PushUpStep(d.pushUp, f, angle),
              JackStep(d.jack, f), JumpStep(d.jump, f))
  }

  class PoseDetectorComponent {
    var isDown: bool
    var squatCount: nat
    var isPushDown: bool
    var pushupCount: nat
    var framesOpen: nat
    var framesClosed: nat
    var isJumpingJack: bool
    var jumpCount: nat
    var calibrationFrames: seq<real>
    var groundY: Option<real>
    var isJumping: bool
    var framesInAir: nat
    var framesOnGround: nat
    var onlyJumpCount: nat

    function State(): Detectors
      reads this
    {
      Detectors(Phase(isDown, squatCount), Phase(isPushDown, pushupCount),
                JackState(Phase(isJumpingJack, jumpCount), framesOpen, framesClosed),
                JumpState(calibrationFrames, groundY, isJumping, framesInAir, framesOnGround, onlyJumpCount))
    }

    constructor ()
      ensures State() == Initial
    {
      isDown, squatCount := false, 0;
      isPushDown, pushupCount := false, 0;
      framesOpen, framesClosed, isJumpingJack, jumpCount := 0, 0, false, 0;
      calibrationFrames, groundY := [], None;
      isJumping, framesInAir, framesOnGround, onlyJumpCount := false, 0, 0, 0;
    }

    /** The body of the loop over the estimated poses. */
    method OnPose(f: Frame, angle: AngleFn)
      modifies this
      ensures State() == PoseStep(old(State()), f, angle)
    {
      DetectSquat(f, angle);
      DetectPushUp(f, angle);
      DetectJumpingJack(f);
      DetectVerticalJump(f);
    }

    /** `detectSquat`: the same gate, averaging and 100/160 hysteresis as the
        standalone squat detector, on the component's own refs. */
    method DetectSquat(f: Frame, angle: AngleFn)
      modifies this
      ensures State() == old(State()).(squat := SquatPage.Step(old(State()).squat, f, angle))
    {
      var isLeftValid := SquatPage.LeftValid(f);
      var isRightValid := SquatPage.RightValid(f);
      if !isLeftValid && !isRightValid {
        return;
      }
      var angles: seq<real> := [];
      if isLeftValid {
        angles := angles + [SquatPage.LeftAngle(f, angle)];
      }
      if isRightValid {
        angles := angles + [SquatPage.RightAngle(f, angle)];
      }
      var avgAngle := Mean(angles);
      PushedAverage(if isLeftValid then Some(SquatPage.LeftAngle(f, angle)) else None,
                    if isRightValid then Some(SquatPage.RightAngle(f, angle)) else None, angles);
      if avgAngle < SquatPage.DownBelow && !isDown {
        isDown := true;
      }
      if avgAngle > SquatPage.UpAbove && isDown {
        isDown := false;
        squatCount := squatCount + 1;
      }
    }

    /** `detectPushUp` without its drawing. */
    method DetectPushUp(f: Frame, angle: AngleFn)
      modifies this
      ensures State() == old(State()).(pushUp := PushUpStep(old(State()).pushUp, f, angle))
    {
      if || "left_shoulder" !in f || "left_elbow" !in f || "left_wrist" !in f
         || "nose" !in f || "left_hip" !in f
         || f["left_shoulder"].score < PushUpMinScore || f["left_elbow"].score < PushUpMinScore
         || f["left_wrist"].score < PushUpMinScore || f["nose"].score < PushUpMinScore
         || f["left_hip"].score < PushUpMinScore
      {
        return;
      }
      var verticalDistance := Abs(f["nose"].y - f["left_hip"].y);
      if verticalDistance > PushUpPage.MaxVerticalDistance {
        return;
      }
      var a := angle(f["left_shoulder"], f["left_elbow"], f["left_wrist"]);
      if a < PushUpPage.DownBelow && !isPushDown {
        isPushDown := true;
      }
      if a > PushUpPage.UpAbove && isPushDown {
        isPushDown := false;
        pushupCount := pushupCount + 1;
      }
    }

    /** `detectJumpingJack` without its optional drawing. */
    method DetectJumpingJack(f: Frame)
      modifies this
      ensures State() == old(State()).(jack := JackStep(old(State()).jack, f))
    {
      if !JackConfident(f) {
        return;
      }
      var leftWristY := f["left_wrist"].y;
      var rightWristY := f["right_wrist"].y;
      var avgShoulderY := (f["left_shoulder"].y + f["right_shoulder"].y) / 2.0;
      var ankleDistance := Abs(f["left_ankle"].x - f["right_ankle"].x);
      var hipWidth := Abs(f["left_hip"].x - f["right_hip"].x);
      var armsUp := leftWristY < avgShoulderY * 0.95 && rightWristY < avgShoulderY * 0.95;
      var armsDown := leftWristY > avgShoulderY * 1.05 && rightWristY > avgShoulderY * 1.05;
      var legsOpen := ankleDistance > hipWidth * 1.5;
      var legsClosed := ankleDistance < hipWidth * 1.1;
      var openPose := armsUp && legsOpen;
      var closedPose := armsDown && legsClosed;
      ghost var before := old(State()).jack;
      assert openPose <==> PoseOf(f) == OpenPose;
      assert !openPose ==> (closedPose <==> PoseOf(f) == ClosedPose);
      if openPose {
        framesOpen := framesOpen + 1;
        framesClosed := 0;
      } else if closedPose {
        framesClosed := framesClosed + 1;
        framesOpen := 0;
      } else {
        framesOpen := 0;
        framesClosed := 0;
      }
      if framesOpen >= MinFrames && !isJumpingJack {
        isJumpingJack := true;
      }
      if framesClosed >= MinFrames && isJumpingJack {
        isJumpingJack := false;
        jumpCount := jumpCount + 1;
      }
      assert Phase(isJumpingJack, jumpCount)
          == Toggle(before.phase, framesOpen >= MinFrames, framesClosed >= MinFrames);
    }

    /** `detectVerticalJump`, with `groundY` read from the field. */
    method DetectVerticalJump(f: Frame)
      modifies this
      ensures State() == old(State()).(jump := JumpStep(old(State()).jump, f))
    {
      if || "left_ankle" !in f || "right_ankle" !in f
         || f["left_ankle"].score < AnkleMinScore || f["right_ankle"].score < AnkleMinScore
      {
        return;
      }
      var avgY := (f["left_ankle"].y + f["right_ankle"].y) / 2.0;
      if groundY == None {
        calibrationFrames := calibrationFrames + [avgY];
        if |calibrationFrames| >= MaxCalibrationFrames {
          groundY := Some(Mean(calibrationFrames));
        }
        return;
      }
      var jumpThreshold := groundY.value - JumpMargin;
      var groundThreshold := groundY.value - GroundMargin;
      if avgY < jumpThreshold {
        framesInAir := framesInAir + 1;
        framesOnGround := 0;
        if framesInAir >= MinFramesJumps && !isJumping {
          isJumping := true;
        }
      } else if avgY > groundThreshold {
        framesOnGround := framesOnGround + 1;
        framesInAir := 0;
        if framesOnGround >= MinFramesJumps && isJumping {
          isJumping := false;
          onlyJumpCount := onlyJumpCount + 1;
        }
      }
    }
  }
}
