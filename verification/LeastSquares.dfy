/** Why the normal equations are the right ones to solve: their solutions are exactly the
    trajectories of least weighted squared error. */
module LeastSquares {
  import opened RealSums
  import opened Gram
  import opened NormalEquations

  ghost function Plus(x: Vector, y: Vector): Vector {
    t => x(t) + y(t)
  }

  ghost function Scaled(k: real, x: Vector): Vector {
    t => k * x(t)
  }

  /** Window i's response to c, minus what the model expects. */
  ghost function Residual(p: Problem, c: Vector, i: int): Vector
    requires p.Valid()
  {
    r => Apply(Rows(p, i), p.length, c, r) - p.mean(r, i)
  }

  ghost function WindowError(p: Problem, c: Vector, i: int): real
    requires p.Valid()
  {
    SumSquares(Weights(p, i), Residual(p, c, i), p.length)
  }

  /** Sum of ivar (Wc - mu)^2 over windows and frames. */
  ghost function Error(p: Problem, c: Vector): real
    requires p.Valid()
  {
    Sum(0, |p.windows|, i => WindowError(p, c, i))
  }

  ghost predicate Optimal(p: Problem, c: Vector)
    requires p.Valid()
  {
    forall c': Vector :: Error(p, c) <= Error(p, c')
  }

  // ----- one window -----

  lemma ApplyPlus(h: Matrix, n: int, c: Vector, d: Vector, r: int)
    ensures Apply(h, n, Plus(c, d), r) == Apply(h, n, c, r) + Apply(h, n, d, r)
  {
    var x := Plus(c, d);
    forall s | 0 <= s < n
      ensures h(r, s) * x(s) == h(r, s) * c(s) + h(r, s) * d(s)
    {
    }
    SumAdd(0, n, s => h(r, s) * c(s), s => h(r, s) * d(s), s => h(r, s) * x(s));
  }

  lemma SquareOfSum(w: real, y: real, z: real)
    ensures Square(w, y + z) == Square(w, y) + 2.0 * (w * z * y) + Square(w, z)
  {
    assert (y + z) * (y + z) == y * y + 2.0 * (z * y) + z * z;
  }

  lemma SquaresExpand(w: Vector, y: Vector, z: Vector, s: Vector, cross: Vector, n: int)
    requires forall r :: 0 <= r < n ==> s(r) == y(r) + z(r) && cross(r) == w(r) * z(r) * y(r)
    ensures SumSquares(w, s, n) == SumSquares(w, y, n) + 2.0 * Sum(0, n, cross) + SumSquares(w, z, n)
  {
    hide Sum, Square;
    var ys, zs, ss := r => Square(w(r), y(r)), r => Square(w(r), z(r)), r => Square(w(r), s(r));
    forall r | 0 <= r < n
      ensures ss(r) == ys(r) + 2.0 * cross(r) + zs(r)
    {
      SquareOfSum(w(r), y(r), z(r));
    }
    ThreeSums(n, ys, cross, zs, ss);
  }

  /** Expanding the error of one window around c. */
  lemma WindowErrorExpands(p: Problem, c: Vector, d: Vector, i: int)
    requires p.Valid()
    ensures WindowError(p, Plus(c, d), i)
            == WindowError(p, c, i)
               + 2.0 * Dot(p.length, d, Back(Rows(p, i), Weights(p, i), p.length, Residual(p, c, i)))
               + WindowEnergy(p, p.length, d, i)
  {
    var n, h, w := p.length, Rows(p, i), Weights(p, i);
    var y, z, s := Residual(p, c, i), Image(h, n, d), Residual(p, Plus(c, d), i);
    var cross := r => w(r) * Apply(h, n, d, r) * y(r);
    forall r | 0 <= r < n
      ensures s(r) == y(r) + z(r) && cross(r) == w(r) * z(r) * y(r)
    {
      ApplyPlus(h, n, c, d, r);
      assert Apply(h, n, d, r) == z(r);
    }
    SquaresExpand(w, y, z, s, cross, n);
    Adjoint(h, w, n, n, d, y);
  }

  // ----- all windows -----

  /** Half the gradient of the error at c: W' U^-1 (Wc - mu). */
  ghost function HalfGradient(p: Problem, c: Vector): Vector
    requires p.Valid()
  {
    t => Sum(0, |p.windows|, i => Back(Rows(p, i), Weights(p, i), p.length, Residual(p, c, i))(t))
  }

  lemma BackMinus(h: Matrix, v: Vector, m: int, y: Vector, z: Vector, d: Vector, t: int)
    requires forall r :: 0 <= r < m ==> d(r) == y(r) - z(r)
    ensures Back(h, v, m, d)(t) == Back(h, v, m, y)(t) - Back(h, v, m, z)(t)
  {
    forall r | 0 <= r < m
      ensures h(r, t) * v(r) * y(r) == h(r, t) * v(r) * d(r) + h(r, t) * v(r) * z(r)
    {
    }
    SumAdd(0, m, r => h(r, t) * v(r) * d(r), r => h(r, t) * v(r) * z(r), r => h(r, t) * v(r) * y(r));
  }

  lemma WindowGradient(p: Problem, c: Vector, i: int, t: int)
    requires p.Valid()
    ensures Apply(Shares(p)(i), p.length, c, t)
            == Back(Rows(p, i), Weights(p, i), p.length, Residual(p, c, i))(t) + TargetShare(p, i)(t)
  {
    var n := p.length;
    Compose(Rows(p, i), Weights(p, i), n, n, c, t);
    BackMinus(Rows(p, i), Weights(p, i), n, Image(Rows(p, i), n, c), Targets(p, i), Residual(p, c, i), t);
  }

  /** The gradient vanishes exactly where the normal equations hold. */
  lemma HalfGradientIs(p: Problem, c: Vector, t: int)
    requires p.Valid()
    ensures HalfGradient(p, c)(t) == Apply(NormalMatrix(p), p.length, c, t) - NormalVector(p)(t)
  {
    var n, m := p.length, |p.windows|;
    var g := i => Back(Rows(p, i), Weights(p, i), n, Residual(p, c, i))(t);
    var a := i => Apply(Shares(p)(i), n, c, t);
    var b := i => TargetShare(p, i)(t);
    forall i | 0 <= i < m
      ensures a(i) == g(i) + b(i)
    {
      WindowGradient(p, c, i, t);
    }
    SumAdd(0, m, g, b, a);
    TotalApply(Shares(p), m, n, c, t);
  }

  /** The exact expansion of the error: a quadratic with the normal residual as slope. */
  lemma ErrorExpands(p: Problem, c: Vector, d: Vector)
    requires p.Valid()
    ensures Error(p, Plus(c, d)) == Error(p, c) + 2.0 * Dot(p.length, d, HalfGradient(p, c)) + Energy(p, p.length, d)
  {
    hide Sum, WindowError, WindowEnergy, Dot, HalfGradient, Back, Plus;
    var n, m := p.length, |p.windows|;
    var parts := i => Back(Rows(p, i), Weights(p, i), n, Residual(p, c, i));
    var before, after := i => WindowError(p, c, i), i => WindowError(p, Plus(c, d), i);
    var cross, energy := i => Dot(n, d, parts(i)), i => WindowEnergy(p, n, d, i);
    forall i | 0 <= i < m
      ensures after(i) == before(i) + 2.0 * cross(i) + energy(i)
    {
      WindowErrorExpands(p, c, d, i);
      assert parts(i) == Back(Rows(p, i), Weights(p, i), n, Residual(p, c, i));
    }
    ThreeSums(m, before, cross, energy, after);
    CrossTotal(p, c, d, parts);
  }

  lemma ThreeSums(m: int, x: Vector, y: Vector, z: Vector, sum: Vector)
    requires forall i :: 0 <= i < m ==> sum(i) == x(i) + 2.0 * y(i) + z(i)
    ensures Sum(0, m, sum) == Sum(0, m, x) + 2.0 * Sum(0, m, y) + Sum(0, m, z)
  {
    hide Sum;
    var e := i => x(i) + 2.0 * y(i);
    SumScale(0, m, 2.0, y, i => 2.0 * y(i));
    SumAdd(0, m, x, i => 2.0 * y(i), e);
    SumAdd(0, m, e, z, sum);
  }

  lemma CrossTotal(p: Problem, c: Vector, d: Vector, parts: int -> Vector)
    requires p.Valid()
    requires forall i :: parts(i) == Back(Rows(p, i), Weights(p, i), p.length, Residual(p, c, i))
    ensures Sum(0, |p.windows|, i => Dot(p.length, d, parts(i))) == Dot(p.length, d, HalfGradient(p, c))
  {
    forall t | 0 <= t < p.length
      ensures HalfGradient(p, c)(t) == Sum(0, |p.windows|, i => parts(i)(t))
    {
      SumSame(0, |p.windows|, i => Back(Rows(p, i), Weights(p, i), p.length, Residual(p, c, i))(t), i => parts(i)(t));
    }
    DotTotal(|p.windows|, p.length, d, parts, HalfGradient(p, c));
  }

  lemma ErrorSame(p: Problem, c: Vector, c': Vector)
    requires p.Valid()
    requires forall t :: 0 <= t < p.length ==> c(t) == c'(t)
    ensures Error(p, c) == Error(p, c')
  {
    forall i | 0 <= i < |p.windows|
      ensures WindowError(p, c, i) == WindowError(p, c', i)
    {
      var w, y, y' := Weights(p, i), Residual(p, c, i), Residual(p, c', i);
      forall r | 0 <= r < p.length
        ensures Square(w(r), y(r)) == Square(w(r), y'(r))
      {
        ApplySameVector(Rows(p, i), p.length, c, c', r);
      }
      SumSame(0, p.length, r => Square(w(r), y(r)), r => Square(w(r), y'(r)));
    }
    SumSame(0, |p.windows|, i => WindowError(p, c, i), i => WindowError(p, c', i));
  }

  lemma DotZero(n: int, x: Vector, y: Vector)
    requires forall t :: 0 <= t < n ==> y(t) == 0.0
    ensures Dot(n, x, y) == 0.0
  {
    SumZero(0, n, t => x(t) * y(t));
  }

  /** Around a solution the error grows by the energy of the deviation, and by nothing else. */
  lemma DeviationCosts(p: Problem, c: Vector, c': Vector)
    requires p.Valid() && Solves(p, c)
    ensures Error(p, c') == Error(p, c) + Energy(p, p.length, Plus(c', Scaled(-1.0, c)))
  {
    var d := Plus(c', Scaled(-1.0, c));
    ErrorExpands(p, c, d);
    forall t | 0 <= t < p.length
      ensures HalfGradient(p, c)(t) == 0.0
    {
      HalfGradientIs(p, c, t);
    }
    DotZero(p.length, d, HalfGradient(p, c));
    ErrorSame(p, c', Plus(c, d));
  }

  /** Solving the normal equations minimises the error ... */
  lemma SolvesIsOptimal(p: Problem, c: Vector)
    requires p.Valid() && NonnegativeWeights(p) && Solves(p, c)
    ensures Optimal(p, c)
  {
    forall c': Vector
      ensures Error(p, c) <= Error(p, c')
    {
      DeviationCosts(p, c, c');
      EnergyNonnegative(p, p.length, Plus(c', Scaled(-1.0, c)));
    }
  }

  /** ... and, when the static window is anchored, only they do: every other trajectory is
      strictly worse. */
  lemma SolvesIsUniquelyOptimal(p: Problem, c: Vector, c': Vector, k: int)
    requires p.Valid() && NonnegativeWeights(p) && Anchored(p) && Solves(p, c)
    requires 0 <= k < p.length && c'(k) != c(k)
    ensures Error(p, c) < Error(p, c')
  {
    DeviationCosts(p, c, c');
    EnergyPositive(p, p.length, Plus(c', Scaled(-1.0, c)), k);
  }

  // ----- the converse -----

  ghost function Bump(t: int, k: real): Vector {
    s => if s == t then k else 0.0
  }

  lemma BumpDot(n: int, t: int, k: real, y: Vector)
    requires 0 <= t < n
    ensures Dot(n, Bump(t, k), y) == k * y(t)
  {
    hide Sum;
    var f := s => Bump(t, k)(s) * y(s);
    forall s | 0 <= s < n && s != t
      ensures f(s) == 0.0
    {
    }
    SumSingle(0, t, n, f);
  }

  /** The energy of a bump is k^2 times that of the unit bump. */
  lemma BumpEnergy(p: Problem, t: int, k: real)
    requires p.Valid() && 0 <= t < p.length
    ensures Energy(p, p.length, Bump(t, k)) == k * (k * NormalMatrix(p)(t, t))
  {
    hide Sum, NormalMatrix, Energy;
    var n, a, x := p.length, NormalMatrix(p), Bump(t, k);
    FormIsEnergy(p, n, x);
    BumpDot(n, t, k, Image(a, n, x));
    SumSingle(0, t, n, s => a(t, s) * x(s));
    assert Image(a, n, x)(t) == a(t, t) * k;
  }

  lemma DownhillStep(r: real, e: real)
    requires r != 0.0 && e >= 0.0
    ensures var k := -r / (e + 1.0); 2.0 * (k * r) + k * (k * e) < 0.0
  {
    var k := -r / (e + 1.0);
    assert k * (e + 1.0) == -r;
    assert k != 0.0;
    assert k * r == -(k * k) * (e + 1.0);
    assert k * (k * e) == (k * k) * e;
    var q := Squared(k);
    assert k * r == -(q * (e + 1.0)) && k * (k * e) == q * e;
    assert q * (e + 1.0) == q * e + q;
    assert Times(q, e) == q * e;
  }

  /** Where the gradient does not vanish some step along that frame lowers the error. */
  lemma Downhill(p: Problem, c: Vector, t: int) returns (k: real)
    requires p.Valid() && NonnegativeWeights(p) && 0 <= t < p.length && HalfGradient(p, c)(t) != 0.0
    ensures Error(p, Plus(c, Bump(t, k))) < Error(p, c)
  {
    hide Error, Energy, Dot, HalfGradient, NormalMatrix, Plus, Bump;
    var r, e := HalfGradient(p, c)(t), NormalMatrix(p)(t, t);
    BumpEnergy(p, t, 1.0);
    EnergyNonnegative(p, p.length, Bump(t, 1.0));
    k := -r / (e + 1.0);
    DownhillStep(r, e);
    BumpEnergy(p, t, k);
    BumpDot(p.length, t, k, HalfGradient(p, c));
    ErrorExpands(p, c, Bump(t, k));
  }

  /** A trajectory is optimal exactly when it satisfies the normal equations. */
  lemma OptimalIffSolves(p: Problem, c: Vector)
    requires p.Valid() && NonnegativeWeights(p)
    ensures Optimal(p, c) <==> Solves(p, c)
  {
    hide Error, NormalMatrix, NormalVector, Apply, HalfGradient, Plus, Bump;
    if Solves(p, c) {
      SolvesIsOptimal(p, c);
    } else {
      var t :| 0 <= t < p.length && Apply(NormalMatrix(p), p.length, c, t) != NormalVector(p)(t);
      HalfGradientIs(p, c, t);
      var k := Downhill(p, c, t);
      assert Error(p, Plus(c, Bump(t, k))) < Error(p, c);
    }
  }
}
