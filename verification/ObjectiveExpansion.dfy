/** That the global-variance step divides a slope by a curvature: along any single frame the joint
    objective is a polynomial, and these are its first and second derivatives. */
module ObjectiveExpansion {
  import opened RealSums
  import opened Gram
  import opened Ldl
  import opened NormalEquations
  import opened LeastSquares
  import opened GlobalVariance

  // ----- the model likelihood -----

  lemma ImageOfNudge(a: Matrix, n: int, x: Vector, t: int, k: real, i: int)
    requires 0 <= t < n && Symmetric(a)
    ensures Apply(a, n, Plus(x, Bump(t, k)), i) == Apply(a, n, x, i) + k * a(t, i)
  {
    ApplyPlus(a, n, x, Bump(t, k), i);
    hide Sum;
    var f := s => a(i, s) * Bump(t, k)(s);
    forall s | 0 <= s < n && s != t
      ensures f(s) == 0.0
    {
    }
    SumSingle(0, t, n, f);
    SumSame(0, n, f, s => a(i, s) * Bump(t, k)(s));
    SameProduct(k, a(i, t), a(t, i));
  }

  lemma SameProduct(k: real, u: real, v: real)
    requires u == v
    ensures u * k == k * v
  {
  }

  /** after differs from before by a multiple of u, by a constant, and by d at frame t. */
  ghost predicate Changes(before: Vector, after: Vector, u: Vector, p: real, q: real, t: int, d: real, i: int) {
    after(i) == before(i) + (p * u(i) + q + Bump(t, d)(i))
  }

  lemma SumChanges(n: nat, before: Vector, after: Vector, u: Vector, p: real, q: real, t: int, d: real, all: real)
    requires 0 <= t < n && all == p * Sum(0, n, u)
    requires forall i {:trigger Changes(before, after, u, p, q, t, d, i)} :: 0 <= i < n
               ==> Changes(before, after, u, p, q, t, d, i)
    ensures Sum(0, n, after) == Sum(0, n, before) + all + q * n as real + d
  {
    var scaled, constant := i => p * u(i), i => q * 1.0;
    var even := i => scaled(i) + constant(i);
    var change := i => even(i) + Bump(t, d)(i);
    SumOnes(n);
    hide Sum;
    forall i | 0 <= i < n
      ensures after(i) == before(i) + change(i)
    {
      assert Changes(before, after, u, p, q, t, d, i);
    }
    SumAdd(0, n, before, change, after);
    SumAdd(0, n, even, Bump(t, d), change);
    SumAdd(0, n, scaled, constant, even);
    SumScale(0, n, p, u, scaled);
    SumScale(0, n, q, i => 1.0, constant);
    SumSingle(0, t, n, Bump(t, d));
  }

  lemma {:induction false} SumOnes(n: nat)
    ensures Sum(0, n, i => 1.0) == n as real
  {
    if n > 0 {
      SumOnes(n - 1);
      SumLast(0, n, i => 1.0);
      SumSame(0, n - 1, i => 1.0, i => 1.0);
    } else {
      SumZero(0, 0, i => 1.0);
    }
  }

  /** One frame's share, elsewhere and at the nudged frame itself. */
  lemma ShareArithmetic(tuning: Tuning, w: real, v: real, v': real, b: real, g: real, g': real, k: real, h: real, c: real,
                        p: real, r: real)
    requires c == tuning.w1 * w && p == c * k * -0.5 && g' == g + k * h && r == h * v
    ensures v' == v ==> LikelihoodFormula(tuning, w, v', b, g') == LikelihoodFormula(tuning, w, v, b, g) + p * r
    ensures v' == v + k ==> LikelihoodFormula(tuning, w, v', b, g')
                            == LikelihoodFormula(tuning, w, v, b, g) + p * r + OwnChange(c, k, b, g, h)
  {
    LikelihoodIs(tuning, w, v, b, g, c);
    LikelihoodIs(tuning, w, v', b, g', c);
    hide LikelihoodFormula;
    assert p * r == (c * k * -0.5) * (h * v);
    assert c * v * (b - 0.5 * (g + k * h)) == c * v * (b - 0.5 * g) + (c * k * -0.5) * (h * v);
    assert c * (v + k) * (b - 0.5 * (g + k * h))
           == c * v * (b - 0.5 * g) + (c * k * -0.5) * (h * v) + OwnChange(c, k, b, g, h);
  }

  lemma LikelihoodIs(tuning: Tuning, w: real, v: real, b: real, g: real, c: real)
    requires c == tuning.w1 * w
    ensures LikelihoodFormula(tuning, w, v, b, g) == c * v * (b - 0.5 * g)
  {
  }

  /** What the nudge adds at its own frame. */
  ghost function OwnChange(c: real, k: real, b: real, g: real, h: real): real {
    c * k * (b - 0.5 * g - 0.5 * k * h)
  }

  lemma TermIs(s: Setting, a: Matrix, b: Vector, x: Vector, i: int)
    requires s.Valid()
    ensures ObjectiveTerm(s, a, b, x)(i) == LikelihoodFormula(s.tuning, s.Share(), x(i), b(i), Apply(a, s.n, x, i))
  {
  }

  lemma TermChange(s: Setting, a: Matrix, b: Vector, x: Vector, t: int, k: real, c: real, p: real, u: Vector, i: int)
    requires s.Valid() && Symmetric(a) && 0 <= t < s.n && c == s.tuning.w1 * s.Share() && p == c * k * -0.5
    requires u(i) == a(t, i) * x(i)
    ensures Changes(ObjectiveTerm(s, a, b, x), ObjectiveTerm(s, a, b, Plus(x, Bump(t, k))), u, p, 0.0, t,
                    OwnChange(c, k, b(t), Apply(a, s.n, x, t), a(t, t)), i)
  {
    hide Sum, Apply, Setting.Share, LikelihoodFormula, ObjectiveTerm;
    var y := Plus(x, Bump(t, k));
    assert y(i) == if i == t then x(i) + k else x(i);
    TermIs(s, a, b, x, i);
    TermIs(s, a, b, y, i);
    ImageOfNudge(a, s.n, x, t, k, i);
    ShareArithmetic(s.tuning, s.Share(), x(i), y(i), b(i), Apply(a, s.n, x, i), Apply(a, s.n, y, i), k, a(t, i), c, p, u(i));
    if i == t {
      assert Bump(t, OwnChange(c, k, b(t), Apply(a, s.n, x, t), a(t, t)))(i) == OwnChange(c, k, b(i), Apply(a, s.n, x, i), a(t, i));
    }
  }

  lemma LikelihoodShifts(s: Setting, a: Matrix, b: Vector, x: Vector, t: int, k: real, c: real, p: real, all: real)
    requires s.Valid() && Symmetric(a) && 0 <= t < s.n && c == s.tuning.w1 * s.Share() && p == c * k * -0.5
    requires all == p * Apply(a, s.n, x, t)
    ensures Sum(0, s.n, ObjectiveTerm(s, a, b, Plus(x, Bump(t, k))))
            == Sum(0, s.n, ObjectiveTerm(s, a, b, x)) + all + OwnChange(c, k, b(t), Apply(a, s.n, x, t), a(t, t))
  {
    hide Sum, Apply, Setting.Share, ObjectiveTerm, Symmetric, OwnChange, Bump, Plus, Changes;
    var before, after := ObjectiveTerm(s, a, b, x), ObjectiveTerm(s, a, b, Plus(x, Bump(t, k)));
    var d := OwnChange(c, k, b(t), Apply(a, s.n, x, t), a(t, t));
    var row := i => a(t, i) * x(i);
    forall i | 0 <= i < s.n
      ensures Changes(before, after, row, p, 0.0, t, d, i)
    {
      TermChange(s, a, b, x, t, k, c, p, row, i);
    }
    RowIs(a, s.n, x, t);
    SumChanges(s.n, before, after, row, p, 0.0, t, d, all);
  }

  /** What the likelihood part gains when frame t moves by k. */
  ghost function LikelihoodGain(k: real, c: real, r: real, d: real): real {
    k * (c * r) + k * k * (-0.5 * c * d)
  }

  lemma LikelihoodExpands(s: Setting, a: Matrix, b: Vector, x: Vector, t: int, k: real, c: real, r: real)
    requires s.Valid() && Symmetric(a) && 0 <= t < s.n && c == s.tuning.w1 * s.Share() && r == b(t) - Apply(a, s.n, x, t)
    ensures Sum(0, s.n, ObjectiveTerm(s, a, b, Plus(x, Bump(t, k))))
            == Sum(0, s.n, ObjectiveTerm(s, a, b, x))
               + LikelihoodGain(k, c, r, a(t, t))
  {
    hide Sum, Apply, Setting.Share, ObjectiveTerm, Symmetric, OwnChange, Bump, Plus, LikelihoodGain;
    var g := Apply(a, s.n, x, t);
    LikelihoodShifts(s, a, b, x, t, k, c, c * k * -0.5, (c * k * -0.5) * g);
    ChangeArithmetic(c, k, b(t), g, r, a(t, t));
  }

  lemma RowIs(a: Matrix, n: int, x: Vector, t: int)
    ensures Sum(0, n, i => a(t, i) * x(i)) == Apply(a, n, x, t)
  {
  }

  lemma ChangeArithmetic(c: real, k: real, b: real, g: real, r: real, h: real)
    requires r == b - g
    ensures (c * k * -0.5) * g + OwnChange(c, k, b, g, h) == LikelihoodGain(k, c, r, h)
  {
  }

  // ----- mean and variance -----

  ghost predicate AllOn(s: Setting) {
    s.count == s.n && s.n <= |s.on| && forall i :: 0 <= i < s.n ==> s.on[i]
  }

  lemma MeanShifts(s: Setting, x: Vector, t: int, k: real)
    requires s.Valid() && AllOn(s) && 0 <= t < s.n
    ensures s.Mean(Plus(x, Bump(t, k))) == s.Mean(x) + k / s.n as real
  {
    var y := Plus(x, Bump(t, k));
    hide Sum;
    SumAdd(0, s.n, Switched(s.on, x), Bump(t, k), Switched(s.on, y));
    SumSingle(0, t, s.n, Bump(t, k));
  }

  /** The deviations from the mean cancel out. */
  lemma DeviationsCancel(s: Setting, x: Vector)
    requires s.Valid() && AllOn(s)
    ensures Sum(0, s.n, i => x(i) - s.Mean(x)) == 0.0
  {
    var avg, n := s.Mean(x), s.n;
    var u := i => x(i) - avg;
    var minus := i => -avg * 1.0;
    SumOnes(n);
    hide Sum;
    SumAdd(0, n, Switched(s.on, x), minus, u);
    SumScale(0, n, -avg, i => 1.0, minus);
    Cancel(avg, n as real, Sum(0, n, Switched(s.on, x)));
    SumSame(0, n, u, i => x(i) - s.Mean(x));
  }

  lemma SquareArithmetic(u: real, k: real, q: real)
    ensures (u - q) * (u - q) == u * u + (-2.0 * q) * u + q * q
    ensures (u + k - q) * (u + k - q) == u * u + (-2.0 * q) * u + q * q + (k * k + 2.0 * k * (u - q))
  {
  }

  /** The derivatives of the variance along one frame. */
  ghost function Alpha(s: Setting, x: Vector, t: int): real
    requires s.Valid()
  {
    2.0 * (x(t) - s.Mean(x)) / s.n as real
  }

  ghost function Beta(s: Setting): real
    requires s.Valid()
  {
    (1.0 - 1.0 / s.n as real) / s.n as real
  }

  lemma SquareChange(s: Setting, x: Vector, t: int, k: real, avg: real, q: real, p: real, r: real, d: real, u: Vector, i: int)
    requires AllOn(s) && 0 <= i < s.n && u(i) == x(i) - avg
    requires p == -2.0 * q && r == q * q && d == k * k + 2.0 * k * (x(t) - avg - q)
    ensures Changes(Switched(s.on, Deviation(x, avg)), Switched(s.on, Deviation(Plus(x, Bump(t, k)), avg + q)), u, p, r, t, d, i)
  {
    SquareArithmetic(u(i), k, q);
    var y := Plus(x, Bump(t, k));
    assert y(i) == if i == t then x(i) + k else x(i);
    assert y(i) - (avg + q) == if i == t then u(i) + k - q else u(i) - q;
  }

  lemma SquaresShift(s: Setting, x: Vector, t: int, k: real, avg: real, q: real, r: real, d: real)
    requires s.Valid() && AllOn(s) && 0 <= t < s.n && avg == s.Mean(x)
    requires r == q * q && d == k * k + 2.0 * k * (x(t) - avg - q)
    ensures Sum(0, s.n, Switched(s.on, Deviation(Plus(x, Bump(t, k)), avg + q)))
            == Sum(0, s.n, Switched(s.on, Deviation(x, avg))) + r * s.n as real + d
  {
    var n, p := s.n, -2.0 * q;
    var before, after := Switched(s.on, Deviation(x, avg)), Switched(s.on, Deviation(Plus(x, Bump(t, k)), avg + q));
    var u := i => x(i) - avg;
    hide Sum, Setting.Mean, Switched, Bump, Plus, Deviation, AllOn, Changes;
    DeviationsCancel(s, x);
    forall i | 0 <= i < n
      ensures Changes(before, after, u, p, r, t, d, i)
    {
      SquareChange(s, x, t, k, avg, q, p, r, d, u, i);
    }
    SumSame(0, n, u, i => x(i) - s.Mean(x));
    NoProduct(p, Sum(0, n, u));
    SumChanges(n, before, after, u, p, r, t, d, 0.0);
  }

  /** The variance is a polynomial of the second degree along one frame. */
  lemma VarianceShifts(s: Setting, x: Vector, t: int, k: real)
    requires s.Valid() && AllOn(s) && 0 <= t < s.n
    ensures s.Variance(Plus(x, Bump(t, k))) == s.Variance(x) + Alpha(s, x, t) * k + Beta(s) * (k * k)
  {
    hide Sum, Setting.Mean, Setting.Variance, Switched, Bump, Plus, Alpha, Beta, Deviation, AllOn;
    var y, avg, q := Plus(x, Bump(t, k)), s.Mean(x), k / s.n as real;
    var r, d := q * q, k * k + 2.0 * k * (x(t) - avg - q);
    var before, after := Switched(s.on, Deviation(x, avg)), Switched(s.on, Deviation(y, avg + q));
    MeanShifts(s, x, t, k);
    SquaresShift(s, x, t, k, avg, q, r, d);
    VarianceIs(s, x, before);
    VarianceIs(s, y, after);
    QuotientArithmetic(s, x, t, Sum(0, s.n, before), Sum(0, s.n, after), q, r, d, k);
  }

  lemma NoProduct(p: real, z: real)
    requires z == 0.0
    ensures p * z == 0.0
  {
  }

  lemma VarianceIs(s: Setting, x: Vector, f: Vector)
    requires s.Valid() && AllOn(s)
    requires forall i :: f(i) == Switched(s.on, Deviation(x, s.Mean(x)))(i)
    ensures s.Variance(x) == Sum(0, s.n, f) / s.n as real
  {
    hide Sum;
    SumSame(0, s.n, f, Switched(s.on, Deviation(x, GvMean(s.on, s.n, s.count, x))));
  }

  lemma QuotientArithmetic(s: Setting, x: Vector, t: int, before: real, after: real, q: real, r: real, d: real,
                           k: real)
    requires s.Valid() && q == k / s.n as real && r == q * q && d == k * k + 2.0 * k * (x(t) - s.Mean(x) - q)
    requires after == before + r * s.n as real + d
    ensures after / s.n as real == before / s.n as real + Alpha(s, x, t) * k + Beta(s) * (k * k)
  {
    var n, u := s.n as real, x(t) - s.Mean(x);
    var z := 1.0 / n;
    assert z * n == 1.0;
    Reciprocals(k, n, z);
    SquareTimes(r, q, k, z, n);
    Reciprocals(before, n, z);
    Reciprocals(2.0 * u, n, z);
    Reciprocals(1.0 - z, n, z);
    Reciprocals(after, n, z);
    PolynomialArithmetic(before, after, z, k, u);
  }

  lemma SquareTimes(r: real, q: real, k: real, z: real, n: real)
    requires r == q * q && q == k * z && z * n == 1.0
    ensures r * n == k * k * z
  {
    assert r * n == (k * k * z) * (z * n);
  }

  lemma PolynomialArithmetic(before: real, after: real, r: real, k: real, u: real)
    requires after == before + k * k * r + (k * k + 2.0 * k * (u - k * r))
    ensures after * r == before * r + (2.0 * u * r) * k + ((1.0 - r) * r) * (k * k)
  {
  }

  lemma Reciprocals(v: real, n: real, r: real)
    requires n > 0.0 && r * n == 1.0
    ensures v / n == v * r
  {
    assert (v * r) * n == v * (r * n);
  }

  // ----- the joint objective -----

  /** The coefficients of k^3 and k^4. */
  ghost function Cubic(s: Setting, x: Vector, t: int): real
    requires s.Valid()
  {
    -s.tuning.w2 * s.vari * Alpha(s, x, t) * Beta(s)
  }

  ghost function Quartic(s: Setting): real
    requires s.Valid()
  {
    -0.5 * s.tuning.w2 * s.vari * Beta(s) * Beta(s)
  }

  /** What the variance part gains, in the first and second degree of k. */
  ghost function PenaltyGain(k: real, w2: real, g: real, v: real, a: real, b: real): real {
    k * (w2 * (-2.0 * g * v) * a * 0.5) + k * k * (-0.5 * w2 * g * (a * a + 2.0 * b * v))
  }

  ghost function HigherGain(k: real, cubic: real, quartic: real): real {
    k * k * k * cubic + k * k * k * k * quartic
  }

  lemma PenaltyArithmetic(tuning: Tuning, g: real, m: real, v: real, v': real, e: real, a: real, b: real, k: real,
                          cubic: real, quartic: real)
    requires e == v - m && v' == v + a * k + b * (k * k)
    requires cubic == -tuning.w2 * g * a * b && quartic == -0.5 * tuning.w2 * g * b * b
    ensures VarianceFormula(tuning, g, m, v')
            == VarianceFormula(tuning, g, m, v) + PenaltyGain(k, tuning.w2, g, e, a, b) + HigherGain(k, cubic, quartic)
  {
    assert VarianceFormula(tuning, g, m, v') == -0.5 * tuning.w2 * (v + a * k + b * (k * k)) * g * (v + a * k + b * (k * k) - 2.0 * m);
  }

  /** The pull on a frame and its own curvature, in terms of the variance's derivatives. */
  lemma PullIs(s: Setting, x: Vector, t: int, v: real)
    requires s.Valid() && v == s.Variance(x) - s.mean
    ensures s.tuning.w2 * PullFormula(s.n, s.vari, s.mean, s.Variance(x)) * (x(t) - s.Mean(x))
            == s.tuning.w2 * (-2.0 * s.vari * v) * Alpha(s, x, t) * 0.5
  {
    var n, z := s.n as real, 1.0 / s.n as real;
    var u, e := x(t) - s.Mean(x), -2.0 * s.vari * v;
    assert z * n == 1.0;
    Reciprocals(2.0 * u, n, z);
    Reciprocals(e, n, z);
    hide Setting.Variance, Setting.Mean;
    PullArithmetic(s.tuning.w2, e, u, z, Alpha(s, x, t), PullFormula(s.n, s.vari, s.mean, s.Variance(x)));
  }

  lemma PullArithmetic(w2: real, e: real, u: real, z: real, alpha: real, dv: real)
    requires alpha == 2.0 * u * z && dv == e * z
    ensures w2 * dv * u == w2 * e * alpha * 0.5
  {
  }

  lemma CurvatureIs(s: Setting, a: Matrix, x: Vector, t: int, c: real, v: real)
    requires s.Valid() && c == s.tuning.w1 * s.Share() && v == s.Variance(x) - s.mean
    ensures Curvature(s, a, x, t)
            == -c * a(t, t) - s.tuning.w2 * s.vari * (Alpha(s, x, t) * Alpha(s, x, t) + 2.0 * Beta(s) * v)
  {
    var n, z := s.n as real, 1.0 / s.n as real;
    assert z * n == 1.0;
    Reciprocals(2.0 * (x(t) - s.Mean(x)), n, z);
    Reciprocals(1.0 - z, n, z);
    assert (s.n * s.n) as real == n * n;
    assert (2.0 * z * z) * (n * n) == 2.0 * (z * n) * (z * n);
    assert 2.0 / (n * n) == 2.0 * z * z;
    assert ((s.n - 1) as real) * z == 1.0 - z;
    hide Setting.Variance, Setting.Mean, Setting.Share;
    CurvatureArithmetic(s.tuning.w2, s.vari, v, x(t) - s.Mean(x), z, (s.n - 1) as real,
                        Alpha(s, x, t), Beta(s));
  }

  lemma CurvatureArithmetic(w2: real, g: real, v: real, u: real, z: real, n1: real, alpha: real, beta: real)
    requires alpha == 2.0 * u * z && beta == (1.0 - z) * z && n1 * z == 1.0 - z
    ensures w2 * (2.0 * z * z) * (n1 * g * v + 2.0 * g * u * u) == w2 * g * (alpha * alpha + 2.0 * beta * v)
  {
    assert z * z * n1 == z * (1.0 - z);
    assert w2 * (2.0 * z * z) * (n1 * g * v) == 2.0 * w2 * g * v * (z * z * n1);
  }

  /** c, r and d are what they stand for, so are v, alpha and beta: the gain of both parts. */
  ghost function Gain(k: real, c: real, r: real, d: real, w2: real, g: real, v: real, alpha: real, beta: real): real {
    LikelihoodGain(k, c, r, d) + PenaltyGain(k, w2, g, v, alpha, beta)
  }

  ghost predicate Meant(s: Setting, a: Matrix, b: Vector, x: Vector, t: int, c: real, r: real, v: real)
    requires s.Valid()
  {
    c == s.tuning.w1 * s.Share() && r == b(t) - Apply(a, s.n, x, t) && v == s.Variance(x) - s.mean
  }

  lemma ObjectiveGains(s: Setting, a: Matrix, b: Vector, x: Vector, t: int, k: real, c: real, r: real, v: real)
    requires s.Valid() && AllOn(s) && Symmetric(a) && 0 <= t < s.n && Meant(s, a, b, x, t, c, r, v)
    ensures Objective(s, a, b, Plus(x, Bump(t, k)))
            == Objective(s, a, b, x) + Gain(k, c, r, a(t, t), s.tuning.w2, s.vari, v, Alpha(s, x, t), Beta(s))
               + HigherGain(k, Cubic(s, x, t), Quartic(s))
  {
    hide Sum, Apply, Setting.Share, Setting.Mean, Setting.Variance, Alpha, Beta, VarianceFormula, Plus, Bump,
      ObjectiveTerm, Objective, AllOn, Symmetric, LikelihoodGain, PenaltyGain, HigherGain;
    var y := Plus(x, Bump(t, k));
    LikelihoodExpands(s, a, b, x, t, k, c, r);
    VarianceShifts(s, x, t, k);
    PenaltyArithmetic(s.tuning, s.vari, s.mean, s.Variance(x), s.Variance(y), v, Alpha(s, x, t), Beta(s), k,
                      Cubic(s, x, t), Quartic(s));
    ObjectiveParts(s, a, b, x);
    ObjectiveParts(s, a, b, y);
  }

  lemma GainIs(s: Setting, a: Matrix, b: Vector, x: Vector, t: int, k: real, c: real, r: real, v: real)
    requires s.Valid() && AllOn(s) && 0 <= t < s.n && Meant(s, a, b, x, t, c, r, v)
    ensures Gain(k, c, r, a(t, t), s.tuning.w2, s.vari, v, Alpha(s, x, t), Beta(s))
            == k * Slope(s, a, b, x, t) + k * k * (0.5 * Curvature(s, a, x, t))
  {
    hide Sum, Apply, Setting.Share, Setting.Mean, Setting.Variance, Alpha, Beta, Curvature, Slope, PullFormula, AllOn,
      LikelihoodGain, PenaltyGain;
    PullIs(s, x, t, v);
    CurvatureIs(s, a, x, t, c, v);
    SlopeIs(s, a, b, x, t, c, r);
    CollectArithmetic(k, c, r, a(t, t), s.tuning.w2, s.vari, v, Alpha(s, x, t), Beta(s),
                      Slope(s, a, b, x, t), Curvature(s, a, x, t));
  }

  /** Along one frame the joint objective is a polynomial of the fourth degree: its first
      derivative is the slope, its second the curvature that the step divides by. */
  lemma ObjectiveExpands(s: Setting, a: Matrix, b: Vector, x: Vector, t: int, k: real)
    requires s.Valid() && AllOn(s) && Symmetric(a) && 0 <= t < s.n
    ensures Objective(s, a, b, Plus(x, Bump(t, k)))
            == Objective(s, a, b, x) + (k * Slope(s, a, b, x, t) + k * k * (0.5 * Curvature(s, a, x, t)))
               + HigherGain(k, Cubic(s, x, t), Quartic(s))
  {
    hide Gain, Objective, Slope, Curvature, HigherGain, Cubic, Quartic, AllOn, Symmetric, Plus, Bump;
    var c, r, v := s.tuning.w1 * s.Share(), b(t) - Apply(a, s.n, x, t), s.Variance(x) - s.mean;
    ObjectiveGains(s, a, b, x, t, k, c, r, v);
    GainIs(s, a, b, x, t, k, c, r, v);
  }

  lemma ObjectiveParts(s: Setting, a: Matrix, b: Vector, x: Vector)
    requires s.Valid()
    ensures Objective(s, a, b, x)
            == Sum(0, s.n, ObjectiveTerm(s, a, b, x)) + VarianceFormula(s.tuning, s.vari, s.mean, s.Variance(x))
  {
  }

  lemma SlopeIs(s: Setting, a: Matrix, b: Vector, x: Vector, t: int, c: real, r: real)
    requires s.Valid() && AllOn(s) && 0 <= t < s.n && c == s.tuning.w1 * s.Share() && r == b(t) - Apply(a, s.n, x, t)
    ensures Slope(s, a, b, x, t)
            == c * r
               + s.tuning.w2 * PullFormula(s.n, s.vari, s.mean, s.Variance(x)) * (x(t) - s.Mean(x))
  {
  }

  lemma CollectArithmetic(k: real, c: real, r: real, d: real, w2: real, g: real, v: real, alpha: real, beta: real,
                          slope: real, curvature: real)
    requires slope == c * r + w2 * (-2.0 * g * v) * alpha * 0.5
    requires curvature == -c * d - w2 * g * (alpha * alpha + 2.0 * beta * v)
    ensures LikelihoodGain(k, c, r, d) + PenaltyGain(k, w2, g, v, alpha, beta) == k * slope + k * k * (0.5 * curvature)
  {
  }

  // ----- what the objective is -----

  ghost function Nowhere(): Vector {
    t => 0.0
  }

  /** The error of a trajectory, from that of the trajectory that is zero throughout. */
  lemma ErrorFromZero(p: Problem, x: Vector)
    requires p.Valid()
    ensures Error(p, x) == Error(p, Nowhere()) - 2.0 * Dot(p.length, x, NormalVector(p)) + Form(NormalMatrix(p), p.length, x)
  {
    hide Sum, Error, Energy, NormalMatrix, NormalVector, HalfGradient, Form;
    var n, zero := p.length, Nowhere();
    ErrorExpands(p, zero, x);
    FormIsEnergy(p, n, x);
    ErrorSame(p, Plus(zero, x), x);
    forall t | 0 <= t < n
      ensures x(t) * HalfGradient(p, zero)(t) == -1.0 * (x(t) * NormalVector(p)(t))
    {
      HalfGradientIs(p, zero, t);
      SumZero(0, n, i => NormalMatrix(p)(t, i) * zero(i));
      Negated(x(t), HalfGradient(p, zero)(t), NormalVector(p)(t));
    }
    SumScale(0, n, -1.0, t => x(t) * NormalVector(p)(t), t => x(t) * HalfGradient(p, zero)(t));
  }

  lemma Negated(x: real, g: real, b: real)
    requires g == -b
    ensures x * g == -1.0 * (x * b)
  {
  }

  /** The likelihood part is minus half the weighted error, up to a constant and the weight. */
  lemma LikelihoodIsError(s: Setting, p: Problem, x: Vector, c: real)
    requires s.Valid() && p.Valid() && s.n == p.length && c == s.tuning.w1 * s.Share()
    ensures Sum(0, s.n, ObjectiveTerm(s, NormalMatrix(p), NormalVector(p), x))
            == -0.5 * c * (Error(p, x) - Error(p, Nowhere()))
  {
    hide Sum, Error, NormalMatrix, NormalVector, LikelihoodFormula, Setting.Share, Apply;
    var n, a, b := p.length, NormalMatrix(p), NormalVector(p);
    var f, g: Vector, h := ObjectiveTerm(s, a, b, x), t => x(t) * b(t), t => x(t) * Image(a, n, x)(t);
    forall t | 0 <= t < n
      ensures f(t) == c * g(t) + (-0.5 * c) * h(t)
    {
      TermIs(s, a, b, x, t);
      LikelihoodIs(s.tuning, s.Share(), x(t), b(t), Apply(a, n, x, t), c);
      TermParts(c, x(t), b(t), Apply(a, n, x, t));
    }
    WeighedSums(n, c, g, -0.5 * c, h, f, Sum(0, n, f));
    ErrorFromZero(p, x);
    LikelihoodTotal(c, Error(p, x), Error(p, Nowhere()), Dot(n, x, b), Form(a, n, x));
  }

  lemma TermParts(c: real, x: real, b: real, g: real)
    ensures c * x * (b - 0.5 * g) == c * (x * b) + (-0.5 * c) * (x * g)
  {
  }

  lemma WeighedSums(n: nat, p: real, g: Vector, q: real, h: Vector, f: Vector, total: real)
    requires (forall t :: 0 <= t < n ==> f(t) == p * g(t) + q * h(t)) && total == Sum(0, n, f)
    ensures total == p * Sum(0, n, g) + q * Sum(0, n, h)
  {
    hide Sum;
    var pg: Vector, qh: Vector := t => p * g(t), t => q * h(t);
    SumScale(0, n, p, g, pg);
    SumScale(0, n, q, h, qh);
    SumAdd(0, n, pg, qh, f);
  }

  lemma LikelihoodTotal(c: real, error: real, zero: real, dot: real, form: real)
    requires error == zero - 2.0 * dot + form
    ensures c * dot + (-0.5 * c) * form == -0.5 * c * (error - zero)
  {
  }

  /** The joint objective in full: minus half the weighted error per window and frame, and minus half the
      weighted square by which the variance misses the wanted one, each up to a constant. */
  lemma ObjectiveIs(s: Setting, p: Problem, x: Vector)
    requires s.Valid() && p.Valid() && s.n == p.length && s.windowCount == |p.windows|
    ensures var miss := s.Variance(x) - s.mean;
            Objective(s, NormalMatrix(p), NormalVector(p), x)
            == -0.5 * (s.tuning.w1 * (1.0 / (|p.windows| * p.length) as real)) * (Error(p, x) - Error(p, Nowhere()))
               - 0.5 * s.tuning.w2 * s.vari * (miss * miss - s.mean * s.mean)
  {
    hide Sum, Error, NormalMatrix, NormalVector, Setting.Variance, ObjectiveTerm;
    LikelihoodIsError(s, p, x, s.tuning.w1 * s.Share());
    MissSquared(s.tuning, s.vari, s.mean, s.Variance(x), s.Variance(x) - s.mean);
  }

  lemma MissSquared(tuning: Tuning, vari: real, mean: real, v: real, miss: real)
    requires miss == v - mean
    ensures VarianceFormula(tuning, vari, mean, v) == -0.5 * tuning.w2 * vari * (miss * miss - mean * mean)
  {
    assert miss * miss - mean * mean == v * (v - 2.0 * mean);
  }
}
