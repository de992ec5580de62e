/** Keypoints and frames as the pose estimator delivers them, and the numeric
    helpers (absolute value, sum, mean) that every detector shares. */
module Keypoints {
  import opened Wrappers

  /** A landmark's position in frame pixels and the estimator's confidence. */
  datatype Keypoint = Keypoint(x: real, y: real, score: real)

  /** One pose: landmark name ("left_hip", "nose", ...) to its keypoint.
      A name the estimator could not place is absent. */
  type Frame = map<string, Keypoint>

  /** The angle at the middle point, in degrees: the detectors' `getAngle`,
      which is left to the caller (it is floating-point trigonometry). */
  type AngleFn = (Keypoint, Keypoint, Keypoint) -> real

  /** `k && k.score > t`: the keypoint is present and strictly above `t`. */
  predicate ScoreAbove(f: Frame, name: string, t: real) {
    name in f && f[name].score > t
  }

  /** `!(!k || k.score < t)`: the keypoint is present and not below `t`. */
  predicate ScoreAtLeast(f: Frame, name: string, t: real) {
    name in f && f[name].score >= t
  }

  /** `Math.abs` */
  function Abs(r: real): (a: real)
    ensures a >= 0.0 && (a == r || a == -r)
  {
    if r < 0.0 then -r else r
  }

  /** `s.reduce((a, b) => a + b, 0)`, folded from the left. */
  function Sum(s: seq<real>): real {
    if s == [] then 0.0 else Sum(s[..|s| - 1]) + s[|s| - 1]
  }

  /** `s.reduce((a, b) => a + b, 0) / s.length`: how every detector averages. */
  function Mean(s: seq<real>): real
    requires s != []
  {
    Sum(s) / (|s| as real)
  }

  lemma SumAppend(s: seq<real>, x: real)
    ensures Sum(s + [x]) == Sum(s) + x
  {
    assert (s + [x])[..|s|] == s;
  }

  /** A sum of values that all lie in [lo, hi] lies between |s|*lo and |s|*hi. */
  lemma {:induction false} SumBounds(s: seq<real>, lo: real, hi: real)
    requires forall i :: 0 <= i < |s| ==> lo <= s[i] <= hi
    ensures (|s| as real) * lo <= Sum(s) <= (|s| as real) * hi
  {
    if s != [] {
      SumBounds(s[..|s| - 1], lo, hi);
    }
  }

  /** The mean of values in [lo, hi] lies in [lo, hi]. */
  lemma MeanBounds(s: seq<real>, lo: real, hi: real)
    requires s != []
    requires forall i :: 0 <= i < |s| ==> lo <= s[i] <= hi
    ensures lo <= Mean(s) <= hi
  {
    SumBounds(s, lo, hi);
    var n := |s| as real;
    assert n * lo <= Sum(s) <= n * hi;
    assert Sum(s) / n >= lo by {
      assert Sum(s) >= lo * n;
    }
    assert Sum(s) / n <= hi by {
      assert Sum(s) <= hi * n;
    }
  }

  lemma MeanOfOne(a: real)
    ensures Mean([a]) == a
  {
    SumAppend([], a);
    assert [] + [a] == [a];
  }

  lemma MeanOfTwo(a: real, b: real)
    ensures Mean([a, b]) == (a + b) / 2.0
  {
    SumAppend([], a);
    assert [] + [a] == [a];
    SumAppend([a], b);
    assert [a] + [b] == [a, b];
  }

  /** The "best available side" policy: the angles of the sides that passed
      their gate are pushed, left first, and averaged; no side, no signal. */
  function BestAvailable(left: Option<real>, right: Option<real>): (r: Option<real>)
    ensures r.None? <==> left.None? && right.None?
    ensures left.Some? && right.None? ==> r == left
    ensures left.None? && right.Some? ==> r == right
    ensures left.Some? && right.Some? ==> r == Some((left.value + right.value) / 2.0)
  {
    var angles := (if left.Some? then [left.value] else [])
                + (if right.Some? then [right.value] else []);
    if angles == [] then None
    else
      assert left.Some? && right.Some? ==> Mean(angles) == (left.value + right.value) / 2.0 by {
        if left.Some? && right.Some? {
          assert angles == [left.value, right.value];
          MeanOfTwo(left.value, right.value);
        }
      }
      assert |angles| == 1 ==> Mean(angles) == angles[0] by {
        if |angles| == 1 {
          assert angles == [angles[0]];
          MeanOfOne(angles[0]);
        }
      }
      Some(Mean(angles))
  }

  /** The angles pushed for the sides that passed, averaged as the detectors
      do it, are BestAvailable's value. */
  lemma PushedAverage(left: Option<real>, right: Option<real>, angles: seq<real>)
    requires angles == (if left.Some? then [left.value] else [])
                     + (if right.Some? then [right.value] else [])
    requires angles != []
    ensures BestAvailable(left, right) == Some(Mean(angles))
  {
  }
}
