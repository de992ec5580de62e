/** The bench-dip counter of app/biceps/page.tsx: an arm passes the gate when
    shoulder, elbow and wrist score above 0.4; the elbow angles of the passing
    arms are averaged, pushed into a history of at most 5 samples and smoothed
    as its mean; down below 90 degrees, and a repetition is counted above 160
    degrees only when more than 800 ms have passed since the last one. */
module BicepsPage {
  import opened Wrappers
  import opened Keypoints
  import opened PhaseMachine

  const MinScore: real := 0.4
  const HistorySize: nat := 5
  const DownBelow: real := 90.0
  const UpAbove: real := 160.0
  const MinTimeBetweenReps: int := 800

  /** The counter's refs and state: `angleHistoryRef`, (`isDownRef`,
      `repCount`) and `lastRepTimeRef`, in milliseconds. */
  datatype DipState = DipState(history: seq<real>, phase: Phase, lastRepTime: int)

  const Initial := DipState([], Rest, 0)

  predicate ArmValid(f: Frame, shoulder: string, elbow: string, wrist: string) {
    ScoreAbove(f, shoulder, MinScore) && ScoreAbove(f, elbow, MinScore) && ScoreAbove(f, wrist, MinScore)
  }

  predicate LeftValid(f: Frame) {
    ArmValid(f, "left_shoulder", "left_elbow", "left_wrist")
  }

  predicate RightValid(f: Frame) {
    ArmValid(f, "right_shoulder", "right_elbow", "right_wrist")
  }

  function LeftAngle(f: Frame, angle: AngleFn): real
    requires LeftValid(f)
  {
    angle(f["left_shoulder"], f["left_elbow"], f["left_wrist"])
  }

  function RightAngle(f: Frame, angle: AngleFn): real
    requires RightValid(f)
  {
    angle(f["right_shoulder"], f["right_elbow"], f["right_wrist"])
  }

  /** The raw (unsmoothed) angle: the mean over the arms that pass the gate. */
  function Signal(f: Frame, angle: AngleFn): Option<real> {
    BestAvailable(if LeftValid(f) then Some(LeftAngle(f, angle)) else None,
                  if RightValid(f) then Some(RightAngle(f, angle)) else None)
  }

  /** `push` then, when longer than 5, one `shift`. The result ends with the new
      sample, is a suffix of the old history followed by it, and loses at most
      the oldest sample. */
  function Push(history: seq<real>, raw: real): (h: seq<real>)
    ensures |h| > 0 && h[|h| - 1] == raw
    ensures |h| == if |history| + 1 > HistorySize then |history| else |history| + 1
    ensures h == (history + [raw])[|history| + 1 - |h|..]
  {
    var pushed := history + [raw];
    if |pushed| > HistorySize then pushed[1..] else pushed
  }

  /** The effect of a frame whose raw angle is `raw`, seen at time `now`. */
  function Update(s: DipState, raw: real, now: int): DipState {
    var h := Push(s.history, raw);
    var smoothed := Mean(h);
    var q := Toggle(s.phase, smoothed < DownBelow,
                    smoothed > UpAbove && now - s.lastRepTime > MinTimeBetweenReps);
    DipState(h, q, if q.count > s.phase.count then now else s.lastRepTime)
  }

  /** Update, read in terms of the new history and the smoothed angle. */
  lemma UpdateBySmoothed(s: DipState, raw: real, now: int, h: seq<real>, smoothed: real)
    requires h == Push(s.history, raw) && smoothed == Mean(h)
    ensures Update(s, raw, now)
         == var q := Toggle(s.phase, smoothed < DownBelow,
                            smoothed > UpAbove && now - s.lastRepTime > MinTimeBetweenReps);
            DipState(h, q, if q.count > s.phase.count then now else s.lastRepTime)
  {
  }

  /** The effect of one frame seen at time `now` (the source's `Date.now()`). */
  function Step(s: DipState, f: Frame, angle: AngleFn, now: int): DipState {
    match Signal(f, angle)
    case None => s
    case Some(raw) => Update(s, raw, now)
  }

  class BenchDipCounter {
    var angleHistory: seq<real>
    var isDown: bool
    var lastRepTime: int
    var repCount: nat

    function State(): DipState
      reads this
    {
      DipState(angleHistory, Phase(isDown, repCount), lastRepTime)
    }

    ghost predicate Valid()
      reads this
    {
      |angleHistory| <= HistorySize
    }

    constructor ()
      ensures Valid() && State() == Initial
    {
      angleHistory := [];
      isDown := false;
      lastRepTime := 0;
      repCount := 0;
    }

    /** `detectBenchDip` without its drawing and logging; `now` is `Date.now()`. */
    method DetectBenchDip(f: Frame, angle: AngleFn, now: int)
      requires Valid()
      modifies this
      ensures Valid()
      ensures State() == Step(old(State()), f, angle, now)
    {
      var isLeftValid := LeftValid(f);
      var isRightValid := RightValid(f);
      if !isLeftValid && !isRightValid {
        return;
      }
      var angles: seq<real> := [];
      if isLeftValid {
        angles := angles + [LeftAngle(f, angle)];
      }
      if isRightValid {
        angles := angles + [RightAngle(f, angle)];
      }
      var currentAngle := Mean(angles);
      PushedAverage(if isLeftValid then Some(LeftAngle(f, angle)) else None,
                    if isRightValid then Some(RightAngle(f, angle)) else None, angles);
      Record(currentAngle, now);
    }

    /** The part of `detectBenchDip` after the raw angle is known: push it,
        smooth the history and run the phase tests. */
    method Record(raw: real, now: int)
      requires Valid()
      modifies this
      ensures Valid()
      ensures State() == Update(old(State()), raw, now)
    {
      ghost var before := State();
      angleHistory := angleHistory + [raw];
      if |angleHistory| > HistorySize {
        angleHistory := angleHistory[1..];
      }
      assert angleHistory == Push(before.history, raw);
      var currentAngle := Mean(angleHistory);
      UpdateBySmoothed(before, raw, now, angleHistory, currentAngle);
      ghost var q := Toggle(before.phase, currentAngle < DownBelow,
                            currentAngle > UpAbove && now - lastRepTime > MinTimeBetweenReps);
      if currentAngle < DownBelow && !isDown {
        isDown := true;
      }
      if currentAngle > UpAbove && isDown && now - lastRepTime > MinTimeBetweenReps {
        isDown := false;
        lastRepTime := now;
        repCount := repCount + 1;
      }
      assert Phase(isDown, repCount) == q;
    }
  }

  /** A frame in which neither arm passes the gate leaves history, phase,
      last repetition time and count untouched. */
  lemma GateSkips(s: DipState, f: Frame, angle: AngleFn, now: int)
    requires !LeftValid(f) && !RightValid(f)
    ensures Step(s, f, angle, now) == s
  {
  }

  /** The transitions of one accepted frame, in terms of the smoothed angle:
      down is entered below 90 at rest; a repetition is counted exactly when the
      smoothed angle exceeds 160 while down and more than 800 ms have passed,
      and counting clears down and records `now`; otherwise the time is kept. */
  lemma UpdateTransitions(s: DipState, raw: real, now: int)
    ensures var t := Update(s, raw, now);
      var smoothed := Mean(Push(s.history, raw));
      && (!s.phase.active && smoothed < DownBelow ==> t.phase == s.phase.(active := true))
      && (t.phase.count == s.phase.count + 1
          <==> (s.phase.active && smoothed > UpAbove && now - s.lastRepTime > MinTimeBetweenReps))
      && (t.phase.count == s.phase.count + 1 ==> !t.phase.active && t.lastRepTime == now)
      && (t.phase.count == s.phase.count ==> t.lastRepTime == s.lastRepTime)
      && s.phase.count <= t.phase.count <= s.phase.count + 1
  {
  }

  /** A repetition blocked by the debounce leaves the counter down with nothing
      counted, so a later frame can still count it. */
  lemma DebounceKeepsDown(s: DipState, raw: real, now: int)
    requires s.phase.active
    requires Mean(Push(s.history, raw)) > UpAbove
    requires now - s.lastRepTime <= MinTimeBetweenReps
    ensures Update(s, raw, now).phase == s.phase
    ensures Update(s, raw, now).lastRepTime == s.lastRepTime
  {
  }

  /** Two genuine repetitions 500 ms apart count once; 900 ms apart, twice. */
  lemma DebounceExamples(s: DipState, raw: real, t: int)
    requires s.phase.active && s.lastRepTime == t
    requires Mean(Push(s.history, raw)) > UpAbove
    ensures Update(s, raw, t + 500).phase.count == s.phase.count
    ensures Update(s, raw, t + 900).phase.count == s.phase.count + 1
  {
  }

  /** A frame with its timestamp. */
  datatype Tick = Tick(frame: Frame, now: int)

  function Run(s: DipState, ticks: seq<Tick>, angle: AngleFn): DipState {
    if ticks == [] then s
    else
      var last := ticks[|ticks| - 1];
      Step(Run(s, ticks[..|ticks| - 1], angle), last.frame, angle, last.now)
  }

  /** The timestamps at which repetitions were counted, in order. */
  function RepTimes(s: DipState, ticks: seq<Tick>, angle: AngleFn): seq<int> {
    if ticks == [] then []
    else
      var last := ticks[|ticks| - 1];
      var before := Run(s, ticks[..|ticks| - 1], angle);
      RepTimes(s, ticks[..|ticks| - 1], angle)
        + if Step(before, last.frame, angle, last.now).phase.count > before.phase.count
          then [last.now] else []
  }

  /** Over any run, whatever order the timestamps come in: each counted
      repetition is one element of RepTimes, any two counted repetitions are
      more than 800 ms apart (later minus earlier), and each is more than 800 ms
      after the starting last-repetition time. */
  lemma {:induction false} DebounceRun(s: DipState, ticks: seq<Tick>, angle: AngleFn)
    ensures var q := Run(s, ticks, angle);
      var ts := RepTimes(s, ticks, angle);
      && q.phase.count == s.phase.count + |ts|
      && (ts == [] ==> q.lastRepTime == s.lastRepTime)
      && (ts != [] ==> q.lastRepTime == ts[|ts| - 1])
      && (forall i :: 0 <= i < |ts| ==> ts[i] - s.lastRepTime > MinTimeBetweenReps)
      && (forall i :: 0 <= i < |ts| ==> ts[i] <= q.lastRepTime)
      && (forall i, j :: 0 <= i < j < |ts| ==> ts[j] - ts[i] > MinTimeBetweenReps)
  {
    if ticks != [] {
      var init := ticks[..|ticks| - 1];
      var last := ticks[|ticks| - 1];
      DebounceRun(s, init, angle);
      var before := Run(s, init, angle);
      var ts0 := RepTimes(s, init, angle);
      var q := Run(s, ticks, angle);
      var ts := RepTimes(s, ticks, angle);
      StepDebounce(before, last.frame, angle, last.now);
      if q.phase.count > before.phase.count {
        assert ts == ts0 + [last.now];
        assert last.now - s.lastRepTime > MinTimeBetweenReps by {
          if ts0 != [] {
            assert ts0[|ts0| - 1] - s.lastRepTime > MinTimeBetweenReps;
          }
        }
        forall i | 0 <= i < |ts|
          ensures ts[i] - s.lastRepTime > MinTimeBetweenReps && ts[i] <= q.lastRepTime
        {
          if i < |ts0| {
            assert ts[i] == ts0[i];
          }
        }
        forall i, j | 0 <= i < j < |ts|
          ensures ts[j] - ts[i] > MinTimeBetweenReps
        {
          if j == |ts| - 1 {
            assert ts[i] == ts0[i] && ts0[i] <= before.lastRepTime;
          } else {
            assert ts[i] == ts0[i] && ts[j] == ts0[j];
          }
        }
      } else {
        assert ts == ts0 + [] == ts0;
      }
    }
  }

  /** What one frame does to the count and the last repetition time: the
      count grows by at most one, and when it grows the time becomes `now`,
      more than 800 ms after the previous one. */
  lemma StepDebounce(s: DipState, f: Frame, angle: AngleFn, now: int)
    ensures var t := Step(s, f, angle, now);
      && (t.phase.count == s.phase.count || t.phase.count == s.phase.count + 1)
      && (t.phase.count == s.phase.count + 1 ==> t.lastRepTime == now && now - s.lastRepTime > MinTimeBetweenReps)
      && (t.phase.count == s.phase.count ==> t.lastRepTime == s.lastRepTime)
  {
    match Signal(f, angle)
    case None =>
    case Some(raw) =>
      UpdateTransitions(s, raw, now);
  }

  /** The raw angles of the accepted frames, in order. */
  function Raws(ticks: seq<Tick>, angle: AngleFn): seq<real> {
    if ticks == [] then []
    else
      var rest := Raws(ticks[..|ticks| - 1], angle);
      match Signal(ticks[|ticks| - 1].frame, angle)
      case None => rest
      case Some(raw) => rest + [raw]
  }

  /** The last (at most) n elements of s. */
  function LastN(s: seq<real>, n: nat): (r: seq<real>)
    ensures |r| <= n && |r| <= |s|
  {
    if |s| <= n then s else s[|s| - n..]
  }

  /** Pushing onto the last five samples keeps the last five. */
  lemma PushLastN(all: seq<real>, raw: real)
    ensures Push(LastN(all, HistorySize), raw) == LastN(all + [raw], HistorySize)
  {
    var h := LastN(all, HistorySize);
    var n := |all|;
    if n > HistorySize {
      assert h == all[n - 5..];
      calc {
        Push(h, raw);
        (h + [raw])[1..];
        all[n - 4..] + [raw];
        (all + [raw])[n + 1 - 5..];
      }
    }
  }

  /** From a history of at most 5 samples, the history after any run is the
      last 5 raw angles of the accepted frames (fewer at first): the smoothed
      angle is the moving average of the last 5 accepted samples. */
  lemma {:induction false} HistoryIsLastFive(s: DipState, ticks: seq<Tick>, angle: AngleFn)
    requires |s.history| <= HistorySize
    ensures Run(s, ticks, angle).history == LastN(s.history + Raws(ticks, angle), HistorySize)
  {
    if ticks == [] {
      assert s.history + [] == s.history;
    } else {
      var init := ticks[..|ticks| - 1];
      var last := ticks[|ticks| - 1];
      HistoryIsLastFive(s, init, angle);
      var all := s.history + Raws(init, angle);
      var before := Run(s, init, angle);
      match Signal(last.frame, angle)
      case None =>
        assert Run(s, ticks, angle) == before;
        assert Raws(ticks, angle) == Raws(init, angle);
      case Some(raw) =>
        assert Run(s, ticks, angle).history == Push(before.history, raw);
        assert s.history + Raws(ticks, angle) == all + [raw] by {
          assert Raws(ticks, angle) == Raws(init, angle) + [raw];
        }
        PushLastN(all, raw);
    }
  }
}
