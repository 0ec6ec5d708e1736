/** The stereo-linked lookahead limiter `_limit`: a delay line and a gain that drops at once and recovers slowly. */
module Limiter {

  /** Real multiplication under a name, so that the proofs can choose when it is unfolded. */
  function Mul(a: real, b: real): real { a * b }

  lemma MulLaws(a: real, b: real, c: real)
    ensures Mul(a, b) == Mul(b, a)
    ensures Mul(a, Mul(b, c)) == Mul(Mul(a, b), c)
    ensures Mul(a, b - c) == Mul(a, b) - Mul(a, c)
    ensures Mul(a, 1.0) == a && Mul(a, 0.0) == 0.0
  {}

  lemma MulOrder(a: real, b: real, c: real)
    requires a >= 0.0 && b <= c
    ensures Mul(a, b) <= Mul(a, c)
  {}

  lemma MulStrict(a: real, b: real, c: real)
    requires a > 0.0 && b < c
    ensures Mul(a, b) < Mul(a, c)
  {
    assert a * (c - b) > 0.0;
  }

  datatype Settings = Settings(ceiling: real, release: real, size: nat)

  /** limiter_ceiling is 10^(dB/20) with dB <= 0; limiter_release is 1 - exp(-x) with x > 0; the size is at least 8. */
  predicate Usable(s: Settings) {
    0.0 < s.ceiling <= 1.0 && 0.0 < s.release < 1.0 && s.size >= 8
  }

  function Target(s: Settings, peak: real): real
    requires Usable(s)
  {
    if peak > s.ceiling then s.ceiling / peak else 1.0
  }

  lemma TargetFacts(s: Settings, peak: real)
    requires Usable(s)
    ensures 0.0 < Target(s, peak) <= 1.0
    ensures peak > s.ceiling ==> Mul(Target(s, peak), peak) == s.ceiling && Target(s, peak) < 1.0
    ensures peak <= s.ceiling ==> Target(s, peak) == 1.0
  {
    if peak > s.ceiling {
      var q := s.ceiling / peak;
      assert q * peak == s.ceiling;
      Fraction(q, s.ceiling, peak);
    }
  }

  lemma Fraction(q: real, a: real, b: real)
    requires 0.0 < a < b && q * b == a
    ensures 0.0 < q < 1.0
  {
    if q >= 1.0 {
      MulOrder(b, 1.0, q);
    }
  }

  function NextGain(s: Settings, gain: real, target: real): real {
    if target < gain then target else gain + Mul(s.release, target - gain)
  }

  /** The gain after the first n frames of a stream; limiter_gain starts at 1. */
  function GainAfter(s: Settings, peaks: seq<real>, n: nat): real
    requires Usable(s) && n <= |peaks|
  {
    if n == 0 then 1.0 else NextGain(s, GainAfter(s, peaks, n - 1), Target(s, peaks[n - 1]))
  }

  lemma GainStep(s: Settings, peaks: seq<real>, n: nat)
    requires Usable(s) && n <= |peaks|
    ensures GainAfter(s, peaks, 0) == 1.0
    ensures n < |peaks| ==> GainAfter(s, peaks, n + 1) == NextGain(s, GainAfter(s, peaks, n), Target(s, peaks[n]))
  {}

  lemma NextGainFacts(s: Settings, g: real, t: real)
    requires Usable(s) && 0.0 < g <= 1.0 && 0.0 < t <= 1.0
    ensures 0.0 < NextGain(s, g, t) <= t
    ensures t < g ==> NextGain(s, g, t) == t
    ensures 1.0 - NextGain(s, g, t) >= Mul(1.0 - s.release, 1.0 - g)
    ensures t == 1.0 ==> 1.0 - NextGain(s, g, t) == Mul(1.0 - s.release, 1.0 - g)
  {
    var r := s.release;
    assert NextGain(s, g, t) == if t < g then t else g + Mul(r, t - g);
    hide *;
    MulLaws(1.0 - g, 1.0, r);
    MulLaws(1.0 - r, 1.0 - g, 0.0);
    MulLaws(1.0 - g, 1.0 - r, 0.0);
    MulLaws(r, 1.0 - g, 0.0);
    MulOrder(1.0 - g, 0.0, r);
    if t >= g {
      MulLaws(t - g, 1.0, 0.0);
      MulLaws(t - g, r, 0.0);
      MulOrder(t - g, r, 1.0);
      MulOrder(t - g, 0.0, r);
      MulOrder(r, t - g, 1.0 - g);
    }
  }

  /** The gain is always in (0, 1] and never above the current target. */
  lemma {:induction false} GainRange(s: Settings, peaks: seq<real>, n: nat)
    requires Usable(s) && n <= |peaks|
    ensures 0.0 < GainAfter(s, peaks, n) <= 1.0
    ensures n > 0 ==> GainAfter(s, peaks, n) <= Target(s, peaks[n - 1])
  {
    hide GainAfter, NextGain, Target;
    GainStep(s, peaks, 0);
    if n > 0 {
      GainRange(s, peaks, n - 1);
      GainStep(s, peaks, n - 1);
      TargetFacts(s, peaks[n - 1]);
      NextGainFacts(s, GainAfter(s, peaks, n - 1), Target(s, peaks[n - 1]));
    }
  }

  function Power(b: real, k: nat): real {
    if k == 0 then 1.0 else Mul(b, Power(b, k - 1))
  }

  lemma PowerStep(b: real, k: nat)
    ensures Power(b, 0) == 1.0 && Power(b, k + 1) == Mul(b, Power(b, k))
  {}

  lemma {:induction false} PowerRange(b: real, k: nat)
    requires 0.0 < b < 1.0
    ensures 0.0 < Power(b, k) <= 1.0
    ensures k > 0 ==> Power(b, k) < 1.0
  {
    hide *;
    PowerStep(b, 0);
    if k > 0 {
      PowerRange(b, k - 1);
      PowerStep(b, k - 1);
      MulLaws(b, 1.0, 0.0);
      MulOrder(b, Power(b, k - 1), 1.0);
      MulStrict(b, 0.0, Power(b, k - 1));
    }
  }

  /** In k frames the gain can recover at most what the release allows. */
  lemma {:induction false} Recovery(s: Settings, peaks: seq<real>, n: nat, k: nat)
    requires Usable(s) && n + k <= |peaks|
    ensures 1.0 - GainAfter(s, peaks, n + k) >= Mul(Power(1.0 - s.release, k), 1.0 - GainAfter(s, peaks, n))
    ensures (forall i | n <= i < n + k :: peaks[i] <= s.ceiling) ==>
      1.0 - GainAfter(s, peaks, n + k) == Mul(Power(1.0 - s.release, k), 1.0 - GainAfter(s, peaks, n))
  {
    hide GainAfter, NextGain, Target, Power, Mul;
    var b, c := 1.0 - s.release, 1.0 - GainAfter(s, peaks, n);
    PowerStep(b, 0);
    MulLaws(c, 1.0, 0.0);
    if k == 0 {
      MulLaws(1.0, c, 0.0);
    } else {
      Recovery(s, peaks, n, k - 1);
      GainStep(s, peaks, n + k - 1);
      GainRange(s, peaks, n + k - 1);
      TargetFacts(s, peaks[n + k - 1]);
      var g := GainAfter(s, peaks, n + k - 1);
      NextGainFacts(s, g, Target(s, peaks[n + k - 1]));
      PowerStep(b, k - 1);
      MulLaws(b, Power(b, k - 1), c);
      MulOrder(b, Mul(Power(b, k - 1), c), 1.0 - g);
    }
  }

  function Abs(r: real): real {
    if r < 0.0 then -r else r
  }

  /** The sample that leaves at frame n: the one that entered `size` frames before, at the gain of frame n. */
  function Output(s: Settings, x: seq<real>, peaks: seq<real>, n: nat): real
    requires Usable(s) && |x| == |peaks| && n < |x|
  {
    Mul(if n < s.size then 0.0 else x[n - s.size], GainAfter(s, peaks, n + 1))
  }

  /** The most that can be left of a loud sample when it leaves. */
  function Residue(s: Settings, x: real): real {
    Abs(x) - Mul(Power(1.0 - s.release, s.size), Abs(x) - s.ceiling)
  }

  lemma AbsFacts(x: real, g: real)
    requires g >= 0.0
    ensures Abs(Mul(x, g)) == Mul(Abs(x), g) && Abs(x) >= 0.0
  {}

  lemma OutputAt(s: Settings, x: seq<real>, peaks: seq<real>, t: nat)
    requires Usable(s) && |x| == |peaks| && t + s.size < |x|
    ensures Abs(Output(s, x, peaks, t + s.size)) == Mul(Abs(x[t]), GainAfter(s, peaks, t + s.size + 1))
  {
    hide GainAfter, Abs, Mul;
    GainRange(s, peaks, t + s.size + 1);
    AbsFacts(x[t], GainAfter(s, peaks, t + s.size + 1));
  }

  /**
   * Before the first delay is over the output is silent; after that a sample comes out on its own side of zero and no
   * larger than it went in, and exactly as it went in if no peak up to then was over the ceiling.
   */
  lemma DelayedAndShrunk(s: Settings, x: seq<real>, peaks: seq<real>, n: nat)
    requires Usable(s) && |x| == |peaks| && n < |x|
    ensures n < s.size ==> Output(s, x, peaks, n) == 0.0
    ensures n >= s.size ==>
      var sample := x[n - s.size];
      && (sample >= 0.0 ==> 0.0 <= Output(s, x, peaks, n) <= sample)
      && (sample <= 0.0 ==> sample <= Output(s, x, peaks, n) <= 0.0)
      && (sample != 0.0 ==> Output(s, x, peaks, n) != 0.0)
      && ((forall i | 0 <= i <= n :: peaks[i] <= s.ceiling) ==> Output(s, x, peaks, n) == sample)
  {
    hide GainAfter, Mul;
    var g := GainAfter(s, peaks, n + 1);
    GainRange(s, peaks, n + 1);
    MulLaws(g, 1.0, 0.0);
    MulLaws(0.0, g, 0.0);
    if n >= s.size {
      var sample := x[n - s.size];
      MulLaws(sample, g, 0.0);
      MulLaws(sample, 1.0, g);
      Shrunk(sample, g);
      if forall i | 0 <= i <= n :: peaks[i] <= s.ceiling {
        QuietGain(s, peaks, n + 1);
      }
    }
  }

  lemma Shrunk(x: real, g: real)
    requires 0.0 < g <= 1.0
    ensures x >= 0.0 ==> 0.0 <= Mul(x, g) <= x
    ensures x <= 0.0 ==> x <= Mul(x, g) <= 0.0
    ensures x != 0.0 ==> Mul(x, g) != 0.0
  {
    var y := if x < 0.0 then -x else x;
    assert Mul(x, g) == if x < 0.0 then -Mul(y, g) else Mul(y, g);
    hide Mul;
    MulLaws(y, 1.0, g);
    MulLaws(y, 0.0, g);
    MulOrder(y, 0.0, g);
    MulOrder(y, g, 1.0);
    if y > 0.0 {
      MulStrict(y, 0.0, g);
    }
  }

  /** A sample over the ceiling, seen by the peak detector, leaves with at most the residue. */
  lemma LoudSampleBound(s: Settings, x: seq<real>, peaks: seq<real>, t: nat)
    requires Usable(s) && |x| == |peaks| && t + s.size < |x|
    requires peaks[t] >= Abs(x[t]) > s.ceiling
    ensures Abs(Output(s, x, peaks, t + s.size)) <= Residue(s, x[t])
  {
    hide Output, GainAfter, Power, Target, Abs, Mul;
    OutputAt(s, x, peaks, t);
    PowerRange(1.0 - s.release, s.size);
    GainRange(s, peaks, t + 1);
    Recovery(s, peaks, t + 1, s.size);
    TargetFacts(s, peaks[t]);
    var a, p := Abs(x[t]), Power(1.0 - s.release, s.size);
    var g0, q := GainAfter(s, peaks, t + 1), Target(s, peaks[t]);
    ShareBound(a, g0, q, peaks[t], s.ceiling);
    LoudArithmetic(a, g0, GainAfter(s, peaks, t + s.size + 1), p, s.ceiling);
  }

  lemma LoudArithmetic(a: real, g0: real, g: real, p: real, ceiling: real)
    requires 0.0 < a && 0.0 < p && Mul(a, g0) <= ceiling && 1.0 - g >= Mul(p, 1.0 - g0)
    ensures Mul(a, g) <= a - Mul(p, a - ceiling)
    ensures Mul(a, g0) == ceiling && 1.0 - g == Mul(p, 1.0 - g0) ==> Mul(a, g) == a - Mul(p, a - ceiling)
  {
    hide *;
    MulLaws(a, 1.0, g); MulLaws(a, 1.0, g0); MulLaws(a, p, 1.0 - g0); MulLaws(p, a, 1.0 - g0);
    MulOrder(a, Mul(p, 1.0 - g0), 1.0 - g);
    MulOrder(p, a - ceiling, a - Mul(a, g0));
  }

  /** A gain within q = ceiling / peak keeps every a up to the peak within the ceiling. */
  lemma ShareBound(a: real, g: real, q: real, peak: real, ceiling: real)
    requires 0.0 <= a <= peak && 0.0 <= g <= q <= 1.0
    requires peak <= ceiling || Mul(q, peak) == ceiling
    ensures Mul(a, g) <= ceiling
  {
    hide *;
    MulOrder(a, g, q); MulOrder(q, a, peak); MulOrder(a, g, 1.0);
    MulLaws(a, q, 0.0); MulLaws(a, 1.0, 0.0);
  }

  /** The bound is reached: a lone attack in a quiet passage comes out at exactly the residue... */
  lemma BoundIsExact(s: Settings, x: seq<real>, peaks: seq<real>, t: nat)
    requires Usable(s) && |x| == |peaks| && t + s.size < |x|
    requires peaks[t] == Abs(x[t]) > s.ceiling
    requires forall i | 0 <= i < t || t < i <= t + s.size :: peaks[i] <= s.ceiling
    ensures Abs(Output(s, x, peaks, t + s.size)) == Residue(s, x[t])
  {
    hide Output, GainAfter, Power, Target, NextGain, Abs, Mul;
    OutputAt(s, x, peaks, t);
    QuietGain(s, peaks, t);
    GainStep(s, peaks, t);
    TargetFacts(s, peaks[t]);
    NextGainFacts(s, 1.0, Target(s, peaks[t]));
    Recovery(s, peaks, t + 1, s.size);
    PowerRange(1.0 - s.release, s.size);
    var a, g0 := Abs(x[t]), GainAfter(s, peaks, t + 1);
    MulLaws(a, g0, 0.0);
    LoudArithmetic(a, g0, GainAfter(s, peaks, t + s.size + 1), Power(1.0 - s.release, s.size), s.ceiling);
  }

  lemma {:induction false} QuietGain(s: Settings, peaks: seq<real>, n: nat)
    requires Usable(s) && n <= |peaks| && forall i | 0 <= i < n :: peaks[i] <= s.ceiling
    ensures GainAfter(s, peaks, n) == 1.0
  {
    if n > 0 {
      QuietGain(s, peaks, n - 1);
    }
  }

  /** ... which is above the ceiling just when the sample is: lookahead does not by itself keep the output under it. */
  lemma ResidueOvershoots(s: Settings, x: real)
    requires Usable(s)
    ensures s.ceiling < Residue(s, x) <==> Abs(x) > s.ceiling
    ensures Abs(x) > s.ceiling ==> Residue(s, x) < Abs(x)
  {
    hide Power, Abs, Mul;
    var p, d := Power(1.0 - s.release, s.size), Abs(x) - s.ceiling;
    PowerRange(1.0 - s.release, s.size);
    MulLaws(d, p, 0.0); MulLaws(d, 1.0, 0.0);
    if d > 0.0 {
      MulStrict(d, 0.0, p); MulStrict(d, p, 1.0);
    } else {
      MulLaws(p, d, 0.0); MulLaws(1.0 - p, d, 0.0); MulLaws(d, 1.0 - p, 0.0); MulLaws(d, 1.0, p);
      MulOrder(1.0 - p, d, 0.0);
    }
  }

  /** A stream that overshoots: ceiling one half, a lone frame of full scale, and silence. */
  lemma LoneAttackOvershoots()
    ensures
      var s, x := Settings(0.5, 0.5, 8), [1.0, 0.0, 0.0, 0.0, 0.0, 0.0, 0.0, 0.0, 0.0];
      Usable(s) && Abs(Output(s, x, x, 8)) == 511.0 / 512.0 > s.ceiling
  {
    var s, x := Settings(0.5, 0.5, 8), [1.0, 0.0, 0.0, 0.0, 0.0, 0.0, 0.0, 0.0, 0.0];
    assert Power(0.5, 4) == 0.0625;
    assert Power(0.5, 8) == 0.00390625;
    assert Residue(s, 1.0) == 511.0 / 512.0;
    hide Output, Power, Mul;
    BoundIsExact(s, x, x, 0);
  }

  /** It is enough that the peak, at the moment the sample leaves, is at least as large as the sample. */
  lemma SustainedPeakHolds(s: Settings, x: seq<real>, peaks: seq<real>, t: nat)
    requires Usable(s) && |x| == |peaks| && t + s.size < |x|
    requires peaks[t + s.size] >= Abs(x[t])
    ensures Abs(Output(s, x, peaks, t + s.size)) <= s.ceiling
  {
    hide Output, GainAfter, Target, Abs, Mul;
    var n := t + s.size;
    OutputAt(s, x, peaks, t);
    GainRange(s, peaks, n + 1);
    TargetFacts(s, peaks[n]);
    AbsFacts(x[t], 0.0);
    ShareBound(Abs(x[t]), GainAfter(s, peaks, n + 1), Target(s, peaks[n]), peaks[n], s.ceiling);
  }

  // ---------------------------------------------------------------- when the output is under the ceiling

  /**
   * The targets of frames i to n - 1 averaged as the release does: each frame weighs `release`, the first one
   * the rest.
   */
  ghost function Mean(s: Settings, peaks: seq<real>, i: nat, n: nat): real
    requires Usable(s) && i < n <= |peaks|
  {
    if n == i + 1 then Target(s, peaks[i])
    else Mul(1.0 - s.release, Mean(s, peaks, i, n - 1)) + Mul(s.release, Target(s, peaks[n - 1]))
  }

  lemma MeanStep(s: Settings, peaks: seq<real>, i: nat, n: nat)
    requires Usable(s) && i < n <= |peaks|
    ensures Mean(s, peaks, n - 1, n) == Target(s, peaks[n - 1])
    ensures i + 1 < n ==>
      Mean(s, peaks, i, n) == Mul(1.0 - s.release, Mean(s, peaks, i, n - 1)) + Mul(s.release, Target(s, peaks[n - 1]))
  {}

  /** The smaller of an attack and a step of the release. */
  lemma NextGainIsLeast(s: Settings, g: real, t: real)
    requires Usable(s)
    ensures NextGain(s, g, t) <= t && NextGain(s, g, t) <= Mul(1.0 - s.release, g) + Mul(s.release, t)
    ensures NextGain(s, g, t) == t || (t >= g && NextGain(s, g, t) == Mul(1.0 - s.release, g) + Mul(s.release, t))
  {
    var r, n := s.release, NextGain(s, g, t);
    assert n == if t < g then t else g + Mul(r, t - g);
    hide *;
    MulLaws(g, 1.0, r); MulLaws(g, 1.0 - r, 0.0); MulLaws(g, r, 0.0); MulLaws(t, 1.0, r); MulLaws(t, 1.0 - r, 0.0);
    MulLaws(t, r, 0.0); MulLaws(r, t, g);
    if t < g {
      MulOrder(1.0 - r, t, g);
    } else {
      MulOrder(1.0 - r, g, t);
    }
  }

  /** The gain is the least of all the averages that end with the current frame. */
  lemma {:induction false} GainIsLeastMean(s: Settings, peaks: seq<real>, n: nat) returns (least: nat)
    requires Usable(s) && 0 < n <= |peaks|
    ensures least < n && GainAfter(s, peaks, n) == Mean(s, peaks, least, n)
    ensures forall i: nat | i < n :: GainAfter(s, peaks, n) <= Mean(s, peaks, i, n)
  {
    hide GainAfter, NextGain, Target, Mean, Mul;
    var g, t := GainAfter(s, peaks, n - 1), Target(s, peaks[n - 1]);
    GainStep(s, peaks, n - 1);
    GainStep(s, peaks, 0);
    NextGainIsLeast(s, g, t);
    TargetFacts(s, peaks[n - 1]);
    MeanStep(s, peaks, n - 1, n);
    least := n - 1;
    if n > 1 {
      var before := GainIsLeastMean(s, peaks, n - 1);
      MeanStep(s, peaks, before, n);
      if GainAfter(s, peaks, n) != t {
        least := before;
      }
      forall i: nat | i < n
        ensures GainAfter(s, peaks, n) <= Mean(s, peaks, i, n)
      {
        if i < n - 1 {
          MeanStep(s, peaks, i, n);
          MulOrder(1.0 - s.release, g, Mean(s, peaks, i, n - 1));
        }
      }
    } else {
      FirstGain(s, t);
    }
  }

  lemma FirstGain(s: Settings, t: real)
    requires Usable(s) && t <= 1.0
    ensures NextGain(s, 1.0, t) == t
  {
    if t == 1.0 {
      MulLaws(s.release, 1.0, 0.0);
    }
  }

  /**
   * Exactly when a sample leaves within the ceiling, for any sample and any peaks: some stretch of frames that ends
   * with the one it leaves at has an average target small enough for it.
   */
  lemma WithinCeilingIff(s: Settings, x: seq<real>, peaks: seq<real>, t: nat)
    requires Usable(s) && |x| == |peaks| && t + s.size < |x|
    ensures
      var n := t + s.size + 1;
      Abs(Output(s, x, peaks, n - 1)) <= s.ceiling
      <==> exists i: nat :: i < n && Mul(Abs(x[t]), Mean(s, peaks, i, n)) <= s.ceiling
  {
    hide Output, GainAfter, Mean, Abs, Mul;
    var n := t + s.size + 1;
    OutputAt(s, x, peaks, t);
    AbsFacts(x[t], 0.0);
    var least := GainIsLeastMean(s, peaks, n);
    forall i: nat | i < n
      ensures Mul(Abs(x[t]), GainAfter(s, peaks, n)) <= Mul(Abs(x[t]), Mean(s, peaks, i, n))
    {
      MulOrder(Abs(x[t]), GainAfter(s, peaks, n), Mean(s, peaks, i, n));
    }
  }

  lemma TargetOrder(s: Settings, a: real, b: real)
    requires Usable(s) && a <= b
    ensures Target(s, b) <= Target(s, a)
    ensures a < b && b > s.ceiling ==> Target(s, b) < Target(s, a)
  {
    hide Target, Mul;
    TargetFacts(s, a);
    TargetFacts(s, b);
    var q, r := Target(s, a), Target(s, b);
    if a > s.ceiling && q <= r {
      MulLaws(q, a, 0.0); MulLaws(r, b, 0.0);
      MulOrder(a, q, r); MulLaws(r, a, 0.0);
      if a < b {
        MulStrict(r, a, b);
      }
    }
  }

  /** The gain never falls below the target of the largest peak. */
  lemma {:induction false} GainFloor(s: Settings, peaks: seq<real>, n: nat, top: real)
    requires Usable(s) && n <= |peaks| && forall i | 0 <= i < n :: peaks[i] <= top
    ensures GainAfter(s, peaks, n) >= Target(s, top)
    ensures n > 0 && peaks[n - 1] < top && top > s.ceiling ==> GainAfter(s, peaks, n) > Target(s, top)
  {
    hide GainAfter, NextGain, Target, Mul;
    GainStep(s, peaks, 0);
    TargetFacts(s, top);
    if n > 0 {
      GainFloor(s, peaks, n - 1, top);
      GainStep(s, peaks, n - 1);
      TargetOrder(s, peaks[n - 1], top);
      var g, t, q, r := GainAfter(s, peaks, n - 1), Target(s, peaks[n - 1]), Target(s, top), s.release;
      NextGainIsLeast(s, g, t);
      MulLaws(q, 1.0, r); MulLaws(q, 1.0 - r, 0.0); MulLaws(q, r, 0.0);
      MulOrder(1.0 - r, q, g); MulOrder(r, q, t);
      if q < t {
        MulStrict(r, q, t);
      }
    }
  }

  /** The loudest sample so far leaves within the ceiling just when the peak is that high again as it leaves. */
  lemma LoudestSampleIff(s: Settings, x: seq<real>, peaks: seq<real>, t: nat)
    requires Usable(s) && |x| == |peaks| && t + s.size < |x|
    requires peaks[t] == Abs(x[t]) > s.ceiling
    requires forall i | 0 <= i <= t + s.size :: peaks[i] <= peaks[t]
    ensures Abs(Output(s, x, peaks, t + s.size)) <= s.ceiling <==> peaks[t + s.size] == peaks[t]
  {
    hide Output, GainAfter, Target, Abs, Mul;
    if peaks[t + s.size] == peaks[t] {
      SustainedPeakHolds(s, x, peaks, t);
    } else {
      var a, q, g := Abs(x[t]), Target(s, peaks[t]), GainAfter(s, peaks, t + s.size + 1);
      OutputAt(s, x, peaks, t);
      GainFloor(s, peaks, t + s.size + 1, peaks[t]);
      TargetFacts(s, peaks[t]);
      MulLaws(q, a, 0.0);
      MulStrict(a, q, g);
    }
  }

  /** The `n` newest samples, oldest first; silence stands in for samples not yet seen. */
  ghost function Newest(x: seq<real>, n: nat): (r: seq<real>)
    ensures |r| == n
  {
    seq(n, k requires 0 <= k < n => if |x| + k < n then 0.0 else x[|x| + k - n])
  }

  /** A delay line read from its write position round to just before it. */
  ghost function FromPosition(line: seq<real>, position: nat): seq<real>
    requires position <= |line|
  {
    line[position..] + line[..position]
  }

  lemma LineStep(line: seq<real>, position: nat, x: seq<real>, v: real, next: nat)
    requires position < |line| && FromPosition(line, position) == Newest(x, |line|)
    requires next == if position + 1 == |line| then 0 else position + 1
    ensures FromPosition(line[position := v], next) == Newest(x + [v], |line|)
    ensures line[position] == if |x| < |line| then 0.0 else x[|x| - |line|]
  {
    var n, after := |line|, line[position := v];
    assert line[position] == FromPosition(line, position)[0];
    assert Newest(x + [v], n) == Newest(x, n)[1..] + [v];
    assert FromPosition(after, next) == FromPosition(line, position)[1..] + [v];
  }

  /** The limiter fields of `struct chain`. */
  class Line {
    const settings: Settings
    const left: array<real>
    const right: array<real>
    var position: nat
    var gain: real
    ghost var ls: seq<real>      // every left sample since the last flush
    ghost var rs: seq<real>
    ghost var peaks: seq<real>

    ghost predicate Valid()
      reads this, left, right
    {
      && Usable(settings) && left != right
      && left.Length == right.Length == settings.size
      && |ls| == |rs| == |peaks| && position < settings.size
      && gain == GainAfter(settings, peaks, |peaks|)
      && FromPosition(left[..], position) == Newest(ls, settings.size)
      && FromPosition(right[..], position) == Newest(rs, settings.size)
    }

    constructor (settings: Settings)
      requires Usable(settings)
      ensures Valid() && ls == [] && this.settings == settings && fresh(left) && fresh(right)
    {
      this.settings := settings;
      left := new real[settings.size](_ => 0.0);
      right := new real[settings.size](_ => 0.0);
      position, gain := 0, 1.0;
      ls, rs, peaks := [], [], [];
    }

    /** `_limit` on one frame. */
    method Limit(peak: real, l: real, r: real) returns (outL: real, outR: real)
      requires Valid()
      modifies this, left, right
      ensures Valid()
      ensures ls == old(ls) + [l] && rs == old(rs) + [r] && peaks == old(peaks) + [peak]
      ensures outL == Output(settings, ls, peaks, |old(ls)|)
      ensures outR == Output(settings, rs, peaks, |old(rs)|)
    {
      hide Newest, FromPosition, Mul, Target, GainAfter;
      var delayedL, delayedR := left[position], right[position];
      ghost var lineL, lineR := left[..], right[..];
      left[position], right[position] := l, r;
      var next := (position + 1) % settings.size;
      assert next == if position + 1 == settings.size then 0 else position + 1 by {
        NextPosition(position, settings.size);
      }
      LineStep(lineL, position, ls, l, next);
      LineStep(lineR, position, rs, r, next);
      assert left[..] == lineL[position := l] && right[..] == lineR[position := r];
      position := next;
      var target := Target(settings, peak);
      GainExtends(settings, peaks, peak);
      if target < gain {
        gain := target;
      } else {
        gain := gain + Mul(settings.release, target - gain);
      }
      outL, outR := Mul(delayedL, gain), Mul(delayedR, gain);
      ls, rs, peaks := ls + [l], rs + [r], peaks + [peak];
    }

    static lemma NextPosition(p: nat, n: nat)
      requires p < n
      ensures (p + 1) % n == if p + 1 == n then 0 else p + 1
    {}

    static lemma {:induction false} GainPrefix(s: Settings, peaks: seq<real>, more: seq<real>, n: nat)
      requires Usable(s) && n <= |peaks|
      ensures GainAfter(s, peaks + more, n) == GainAfter(s, peaks, n)
    {
      hide NextGain, Target;
      if n > 0 {
        GainPrefix(s, peaks, more, n - 1);
      }
    }

    static lemma GainExtends(s: Settings, peaks: seq<real>, peak: real)
      requires Usable(s)
      ensures GainAfter(s, peaks + [peak], |peaks| + 1) == NextGain(s, GainAfter(s, peaks, |peaks|), Target(s, peak))
    {
      GainStep(s, peaks + [peak], |peaks|);
      GainPrefix(s, peaks, [peak], |peaks|);
    }

    /** The limiter's part of `dsp_flush`. */
    method Flush()
      requires Valid()
      modifies this, left, right
      ensures Valid() && ls == [] && rs == [] && peaks == []
    {
      var i := 0;
      while i < settings.size
        modifies left, right
        invariant 0 <= i <= settings.size
        invariant forall k | 0 <= k < i :: left[k] == 0.0 && right[k] == 0.0
      {
        left[i], right[i] := 0.0, 0.0;
        i := i + 1;
      }
      position, gain := 0, 1.0;
      ls, rs, peaks := [], [], [];
    }
  }
}
