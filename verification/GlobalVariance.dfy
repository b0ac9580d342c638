/** The global-variance stage: statistics over the switched-on frames, the stretch that gives a
    trajectory a wanted variance, and the Newton-like step that follows it. */
module GlobalVariance {
  import opened RealSums
  import opened Gram
  import opened Ldl

  /** Compile-time constants of the stage, and the square root of a quotient as computed by the
      mathematics library (defined even where the quotient is not). */
  datatype Tuning = Tuning(w1: real, w2: real, stepInit: real, stepDec: real, stepInc: real, lzero: real,
                           maxIteration: nat, rootOfRatio: (real, real) -> real)

  ghost function OfSeq(s: seq<real>): Vector {
    t => if 0 <= t < |s| then s[t] else 0.0
  }

  ghost function Switched(on: seq<bool>, x: Vector): Vector {
    t => if 0 <= t < |on| && on[t] then x(t) else 0.0
  }

  ghost function Deviation(x: Vector, avg: real): Vector {
    t => (x(t) - avg) * (x(t) - avg)
  }

  ghost function GvMean(on: seq<bool>, n: int, count: nat, x: Vector): real
    requires count > 0
  {
    Sum(0, n, Switched(on, x)) / count as real
  }

  ghost function GvVariance(on: seq<bool>, n: int, count: nat, x: Vector): real
    requires count > 0
  {
    Sum(0, n, Switched(on, Deviation(x, GvMean(on, n, count, x)))) / count as real
  }

  ghost function Rescaled(on: seq<bool>, x: Vector, ratio: real, avg: real): Vector {
    t => if 0 <= t < |on| && on[t] then ratio * (x(t) - avg) + avg else x(t)
  }

  /** Number of switched-on frames among the first n. */
  ghost function OnCount(on: seq<bool>, n: int): real {
    Sum(0, n, Switched(on, t => 1.0))
  }

  // ----- the stretch -----

  lemma RescaledTerm(on: seq<bool>, x: Vector, ratio: real, avg: real, t: int)
    ensures Switched(on, Rescaled(on, x, ratio, avg))(t)
            == ratio * Switched(on, x)(t) + (avg - ratio * avg) * Switched(on, t' => 1.0)(t)
  {
  }

  lemma RescaledSum(on: seq<bool>, n: int, x: Vector, ratio: real, avg: real)
    ensures Sum(0, n, Switched(on, Rescaled(on, x, ratio, avg)))
            == ratio * Sum(0, n, Switched(on, x)) + (avg - ratio * avg) * OnCount(on, n)
  {
    var one, k := Switched(on, t => 1.0), avg - ratio * avg;
    var sum, y := Switched(on, x), Switched(on, Rescaled(on, x, ratio, avg));
    forall t
      ensures y(t) == ratio * sum(t) + k * one(t)
    {
      RescaledTerm(on, x, ratio, avg, t);
    }
    assert OnCount(on, n) == Sum(0, n, one);
    LinearSum(n, ratio, sum, k, one, y);
  }

  lemma LinearSum(n: int, a: real, x: Vector, b: real, y: Vector, z: Vector)
    requires forall t :: z(t) == a * x(t) + b * y(t)
    ensures Sum(0, n, z) == a * Sum(0, n, x) + b * Sum(0, n, y)
  {
    SumScale(0, n, a, x, t => a * x(t));
    SumScale(0, n, b, y, t => b * y(t));
    SumAdd(0, n, t => a * x(t), t => b * y(t), z);
  }

  lemma DeviationSum(on: seq<bool>, n: int, x: Vector, ratio: real, avg: real, k: real)
    requires k == ratio * ratio
    ensures Sum(0, n, Switched(on, Deviation(Rescaled(on, x, ratio, avg), avg)))
            == k * Sum(0, n, Switched(on, Deviation(x, avg)))
  {
    var y := Rescaled(on, x, ratio, avg);
    var before, after := Switched(on, Deviation(x, avg)), Switched(on, Deviation(y, avg));
    hide Sum;
    forall t | 0 <= t < n
      ensures after(t) == k * before(t)
    {
      if 0 <= t < |on| && on[t] {
        ScaledSquare(ratio, k, x(t) - avg, y(t) - avg);
      }
    }
    SumScale(0, n, k, before, after);
  }

  lemma ScaledSquare(ratio: real, k: real, d: real, e: real)
    requires k == ratio * ratio && e == ratio * d
    ensures e * e == k * (d * d)
  {
    assert (ratio * d) * (ratio * d) == (ratio * ratio) * (d * d);
  }

  lemma MeanArithmetic(ratio: real, avg: real, sum: real, c: real)
    requires c > 0.0 && sum / c == avg
    ensures (ratio * sum + (avg - ratio * avg) * c) / c == avg
  {
    assert sum == avg * c;
    assert ratio * sum == (ratio * avg) * c;
    assert ratio * sum + (avg - ratio * avg) * c == avg * c;
  }

  lemma ScaledQuotient(k: real, v: real, w: real, c: real)
    requires c > 0.0 && w == k * v
    ensures w / c == k * (v / c)
  {
    var q := v / c;
    assert k * v == (k * q) * c;
  }

  /** Stretching around the mean keeps the mean ... */
  lemma RescaledMean(on: seq<bool>, n: int, count: nat, x: Vector, ratio: real)
    requires count > 0 && OnCount(on, n) == count as real
    ensures GvMean(on, n, count, Rescaled(on, x, ratio, GvMean(on, n, count, x))) == GvMean(on, n, count, x)
  {
    hide Sum, OnCount;
    var avg := GvMean(on, n, count, x);
    RescaledSum(on, n, x, ratio, avg);
    MeanArithmetic(ratio, avg, Sum(0, n, Switched(on, x)), count as real);
  }

  /** ... and multiplies the variance by the square of the ratio. */
  lemma RescaledVariance(on: seq<bool>, n: int, count: nat, x: Vector, ratio: real, k: real)
    requires count > 0 && OnCount(on, n) == count as real && k == ratio * ratio
    ensures GvVariance(on, n, count, Rescaled(on, x, ratio, GvMean(on, n, count, x))) == k * GvVariance(on, n, count, x)
  {
    hide Sum, OnCount, GvMean, Rescaled, Deviation, Switched;
    var avg := GvMean(on, n, count, x);
    RescaledMean(on, n, count, x, ratio);
    DeviationSum(on, n, x, ratio, avg, k);
    ScaledQuotient(k, Sum(0, n, Switched(on, Deviation(x, avg))),
                   Sum(0, n, Switched(on, Deviation(Rescaled(on, x, ratio, avg), avg))), count as real);
  }

  /** With the ratio the code aims for, the variance becomes exactly the wanted one. */
  lemma ReachesWantedVariance(on: seq<bool>, n: int, count: nat, x: Vector, ratio: real, wanted: real)
    requires count > 0 && OnCount(on, n) == count as real
    requires GvVariance(on, n, count, x) != 0.0
    requires ratio * ratio == wanted / GvVariance(on, n, count, x)
    ensures var y := Rescaled(on, x, ratio, GvMean(on, n, count, x));
            && GvMean(on, n, count, y) == GvMean(on, n, count, x)
            && GvVariance(on, n, count, y) == wanted
  {
    hide Sum, OnCount, GvMean, GvVariance;
    RescaledMean(on, n, count, x, ratio);
    var v := GvVariance(on, n, count, x);
    var k := wanted / v;
    RescaledVariance(on, n, count, x, ratio, k);
    Cancel(k, v, wanted);
  }

  /** Only the frames of the stream are measured. */
  lemma MeasuresSame(on: seq<bool>, n: int, count: nat, x: Vector, y: Vector)
    requires count > 0 && forall t :: 0 <= t < n ==> x(t) == y(t)
    ensures GvMean(on, n, count, x) == GvMean(on, n, count, y)
    ensures GvVariance(on, n, count, x) == GvVariance(on, n, count, y)
  {
    hide Sum;
    SumSame(0, n, Switched(on, x), Switched(on, y));
    var avg := GvMean(on, n, count, x);
    SumSame(0, n, Switched(on, Deviation(x, avg)), Switched(on, Deviation(y, avg)));
  }

  /** With every switch off there is nothing to measure and nothing to stretch. */
  lemma AllOff(on: seq<bool>, n: int, count: nat, x: Vector)
    requires count > 0 && forall t :: 0 <= t < |on| ==> !on[t]
    ensures GvMean(on, n, count, x) == 0.0 && GvVariance(on, n, count, x) == 0.0
  {
    SumZero(0, n, Switched(on, x));
    SumZero(0, n, Switched(on, Deviation(x, GvMean(on, n, count, x))));
  }

  // ----- the banded product -----

  /** Row t of A x restricted to columns less than i away from t. */
  ghost function BandPart(a: Matrix, x: Vector, t: int, n: int, i: int): real {
    Sum(if t - i + 1 < 0 then 0 else t - i + 1, if t + i > n then n else t + i, s => a(t, s) * x(s))
  }

  lemma BandStart(a: Matrix, x: Vector, t: int, n: int)
    requires 0 <= t < n
    ensures BandPart(a, x, t, n, 1) == a(t, t) * x(t)
  {
    SumSingle(t, t, t + 1, s => a(t, s) * x(s));
  }

  lemma BandStep(a: Matrix, x: Vector, t: int, n: int, i: int)
    requires 0 <= t < n && 1 <= i
    ensures BandPart(a, x, t, n, i + 1)
            == BandPart(a, x, t, n, i) + (if t + i < n then a(t, t + i) * x(t + i) else 0.0)
               + (if t - i >= 0 then a(t, t - i) * x(t - i) else 0.0)
  {
    var f := s => a(t, s) * x(s);
    var lo, hi := if t - i + 1 < 0 then 0 else t - i + 1, if t + i > n then n else t + i;
    if t + i < n {
      SumLast(lo, hi + 1, f);
    }
  }

  lemma BandFull(a: Matrix, x: Vector, t: int, n: int, w: int)
    requires 0 <= t < n && 1 <= w && Banded(a, w) && Symmetric(a)
    ensures BandPart(a, x, t, n, w) == Apply(a, n, x, t)
  {
    var f := s => a(t, s) * x(s);
    var lo, hi := if t - w + 1 < 0 then 0 else t - w + 1, if t + w > n then n else t + w;
    forall s | 0 <= s < lo || hi <= s < n
      ensures f(s) == 0.0
    {
      assert a(t, s) == a(s, t);
    }
    SumNarrow(0, lo, hi, n, f);
  }

  // ----- the step -----

  /** Everything about one dimension the step depends on besides the equations. */
  datatype Setting = Setting(n: nat, windowCount: nat, count: nat, mean: real, vari: real,
                             on: seq<bool>, tuning: Tuning) {
    predicate Valid() {
      n > 0 && windowCount > 0 && count > 0
    }

    ghost function Mean(x: Vector): real
      requires Valid()
    {
      GvMean(on, n, count, x)
    }

    ghost function Variance(x: Vector): real
      requires Valid()
    {
      GvVariance(on, n, count, x)
    }

    /** 1 / (windows * frames). */
    ghost function Share(): real
      requires Valid()
    {
      1.0 / (windowCount * n) as real
    }
  }

  /** The code's expression for h, and for the numerator of the step. */
  function CurvatureFormula(tuning: Tuning, n: nat, w: real, diagonal: real, gvVari: real, gvMean: real,
                            vari: real, avg: real, v: real): real
    requires n > 0
  {
    -tuning.w1 * w * diagonal
    - tuning.w2 * 2.0 / (n * n) as real
      * ((n - 1) as real * gvVari * (vari - gvMean) + 2.0 * gvVari * (v - avg) * (v - avg))
  }

  function SlopeFormula(tuning: Tuning, w: real, residual: real, on: bool, dv: real, avg: real, v: real): real {
    if on then tuning.w1 * w * residual + tuning.w2 * dv * (v - avg) else tuning.w1 * w * residual
  }

  /** The code's expressions for dv, for one frame of hmmobj, and for gvobj. */
  function PullFormula(n: nat, gvVari: real, gvMean: real, vari: real): real
    requires n > 0
  {
    -2.0 * gvVari * (vari - gvMean) / n as real
  }

  function LikelihoodFormula(tuning: Tuning, w: real, v: real, wum: real, g: real): real {
    tuning.w1 * w * v * (wum - 0.5 * g)
  }

  function VarianceFormula(tuning: Tuning, gvVari: real, gvMean: real, vari: real): real {
    -0.5 * tuning.w2 * vari * gvVari * (vari - 2.0 * gvMean)
  }

  /** The second derivative of the joint objective along frame t, when all frames are switched on. */
  ghost function Curvature(s: Setting, a: Matrix, x: Vector, t: int): real
    requires s.Valid()
  {
    CurvatureFormula(s.tuning, s.n, s.Share(), a(t, t), s.vari, s.mean, s.Variance(x), s.Mean(x), x(t))
  }

  /** The derivative of the joint objective at frame t: the residual of the equations, and the
      pull of the variance term where the frame is switched on. */
  ghost function Slope(s: Setting, a: Matrix, b: Vector, x: Vector, t: int): real
    requires s.Valid()
  {
    SlopeFormula(s.tuning, s.Share(), b(t) - Apply(a, s.n, x, t), 0 <= t < |s.on| && s.on[t],
                 PullFormula(s.n, s.vari, s.mean, s.Variance(x)), s.Mean(x), x(t))
  }

  ghost function ObjectiveTerm(s: Setting, a: Matrix, b: Vector, x: Vector): Vector
    requires s.Valid()
  {
    t => LikelihoodFormula(s.tuning, s.Share(), x(t), b(t), Apply(a, s.n, x, t))
  }

  /** Model likelihood plus global-variance likelihood, up to constants. */
  ghost function Objective(s: Setting, a: Matrix, b: Vector, x: Vector): real
    requires s.Valid()
  {
    Sum(0, s.n, ObjectiveTerm(s, a, b, x))
    + VarianceFormula(s.tuning, s.vari, s.mean, s.Variance(x))
  }

  /** Where the equations hold and the frame is switched off, the step is zero. */
  lemma StillAtSolution(s: Setting, a: Matrix, b: Vector, x: Vector, t: int)
    requires s.Valid() && 0 <= t < |s.on| && !s.on[t]
    requires Apply(a, s.n, x, t) == b(t) && Curvature(s, a, x, t) != 0.0
    ensures Slope(s, a, b, x, t) / Curvature(s, a, x, t) == 0.0
  {
    hide Curvature, Apply, Setting.Share;
    assert Slope(s, a, b, x, t) == s.tuning.w1 * s.Share() * 0.0;
  }
}
