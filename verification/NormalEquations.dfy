/** What parameter generation is asked to solve: the trajectory c of `length` frames that best
    explains, in the inverse-variance weighted least-squares sense, the means of its static and
    delta features. Each feature is one window slid over c. */
module NormalEquations {
  import opened RealSums
  import opened Gram
  import opened Ldl

  /** A window symmetric in extent: coefficients for offsets -radius .. radius. */
  datatype Window = Window(radius: nat, coef: seq<real>) {
    predicate Valid() {
      |coef| == 2 * radius + 1
    }

    /** The coefficient at an offset; zero outside the window. */
    function At(x: int): real
      requires Valid()
    {
      if -(radius as int) <= x <= radius then coef[x + radius] else 0.0
    }
  }

  /** One dimension of a stream. `ivar` and `mean` are indexed by frame and window. */
  datatype Problem = Problem(length: nat, windows: seq<Window>, ivar: Matrix, mean: Matrix) {
    ghost predicate Valid() {
      forall i :: 0 <= i < |windows| ==> windows[i].Valid()
    }
  }

  /** Row r is the window centred at frame r. */
  ghost function Rows(p: Problem, i: int): Matrix
    requires p.Valid()
  {
    (r: int, s: int) => if 0 <= i < |p.windows| then p.windows[i].At(s - r) else 0.0
  }

  ghost function Weights(p: Problem, i: int): Vector {
    r => p.ivar(r, i)
  }

  ghost function Targets(p: Problem, i: int): Vector {
    r => p.mean(r, i)
  }

  /** Window i's share of W' U^-1 W. */
  ghost function Share(p: Problem, i: int): Matrix
    requires p.Valid()
  {
    Weighted(Rows(p, i), Weights(p, i), p.length)
  }

  ghost function Shares(p: Problem): int -> Matrix
    requires p.Valid()
  {
    i => Share(p, i)
  }

  /** Window i's share of W' U^-1 mu. */
  ghost function TargetShare(p: Problem, i: int): Vector
    requires p.Valid()
  {
    Back(Rows(p, i), Weights(p, i), p.length, Targets(p, i))
  }

  /** W' U^-1 W, defined by sums over windows and frames. */
  ghost function NormalMatrix(p: Problem): Matrix
    requires p.Valid()
  {
    Total(Shares(p), |p.windows|)
  }

  /** W' U^-1 mu. */
  ghost function NormalVector(p: Problem): Vector
    requires p.Valid()
  {
    t => Sum(0, |p.windows|, i => TargetShare(p, i)(t))
  }

  /** W' U^-1 W c == W' U^-1 mu. */
  ghost predicate Solves(p: Problem, c: Vector)
    requires p.Valid()
  {
    forall t :: 0 <= t < p.length ==> Apply(NormalMatrix(p), p.length, c, t) == NormalVector(p)(t)
  }

  // ----- shape -----

  lemma NormalSymmetric(p: Problem)
    requires p.Valid()
    ensures Symmetric(NormalMatrix(p))
  {
    forall t, s
      ensures NormalMatrix(p)(t, s) == NormalMatrix(p)(s, t)
    {
      forall i | 0 <= i < |p.windows|
        ensures Shares(p)(i)(t, s) == Shares(p)(i)(s, t)
      {
        assert Shares(p)(i) == Share(p, i);
        WeightedSymmetric(Rows(p, i), Weights(p, i), p.length, t, s);
      }
      SumSame(0, |p.windows|, i => Shares(p)(i)(t, s), i => Shares(p)(i)(s, t));
    }
  }

  ghost predicate Fits(p: Problem, width: int) {
    forall i :: 0 <= i < |p.windows| ==> 2 * p.windows[i].radius < width
  }

  lemma ShareBanded(p: Problem, width: int, i: int, t: int, s: int)
    requires p.Valid() && Fits(p, width)
    requires s - t >= width
    ensures Share(p, i)(t, s) == 0.0
  {
    var h, v := Rows(p, i), Weights(p, i);
    forall r | 0 <= r < p.length
      ensures h(r, t) * v(r) * h(r, s) == 0.0
    {
      if 0 <= i < |p.windows| {
        assert h(r, t) == p.windows[i].At(t - r) && h(r, s) == p.windows[i].At(s - r);
      }
    }
    SumZero(0, p.length, r => h(r, t) * v(r) * h(r, s));
  }

  lemma NormalBanded(p: Problem, width: int)
    requires p.Valid() && Fits(p, width)
    ensures Banded(NormalMatrix(p), width)
  {
    forall t: int, s: int | s - t >= width
      ensures NormalMatrix(p)(t, s) == 0.0
    {
      forall i | 0 <= i < |p.windows|
        ensures Shares(p)(i)(t, s) == 0.0
      {
        assert Shares(p)(i) == Share(p, i);
        ShareBanded(p, width, i, t, s);
      }
      SumZero(0, |p.windows|, i => Shares(p)(i)(t, s));
    }
  }

  // ----- the matrix as a quadratic form -----

  /** Energy of one window: the weighted sum of squares of its responses to x. */
  ghost function WindowEnergy(p: Problem, n: int, x: Vector, i: int): real
    requires p.Valid()
  {
    SumSquares(Weights(p, i), Image(Rows(p, i), n, x), p.length)
  }

  ghost function Energy(p: Problem, n: int, x: Vector): real
    requires p.Valid()
  {
    Sum(0, |p.windows|, i => WindowEnergy(p, n, x, i))
  }

  /** x' (W' U^-1 W) x is the energy of x, for vectors supported on the first n frames. */
  lemma FormIsEnergy(p: Problem, n: int, x: Vector)
    requires p.Valid()
    ensures Form(NormalMatrix(p), n, x) == Energy(p, n, x)
  {
    TotalForm(Shares(p), |p.windows|, n, x);
    forall i | 0 <= i < |p.windows|
      ensures Form(Shares(p)(i), n, x) == WindowEnergy(p, n, x, i)
    {
      Quadratic(Rows(p, i), Weights(p, i), p.length, n, x);
    }
    SumSame(0, |p.windows|, i => Form(Shares(p)(i), n, x), i => WindowEnergy(p, n, x, i));
  }

  // ----- the pivots -----

  ghost predicate NonnegativeWeights(p: Problem) {
    forall r, i :: 0 <= r < p.length && 0 <= i < |p.windows| ==> p.ivar(r, i) >= 0.0
  }

  /** Window 0 is the static feature: one nonzero coefficient, weighted positively everywhere. */
  ghost predicate Anchored(p: Problem)
    requires p.Valid()
  {
    && 0 < |p.windows|
    && p.windows[0].At(0) != 0.0
    && (forall x :: x != 0 ==> p.windows[0].At(x) == 0.0)
    && (forall r :: 0 <= r < p.length ==> p.ivar(r, 0) > 0.0)
  }

  lemma EnergyNonnegative(p: Problem, n: int, x: Vector)
    requires p.Valid() && NonnegativeWeights(p)
    ensures forall i :: 0 <= i < |p.windows| ==> WindowEnergy(p, n, x, i) >= 0.0
    ensures Energy(p, n, x) >= 0.0
  {
    forall i | 0 <= i < |p.windows|
      ensures WindowEnergy(p, n, x, i) >= 0.0
    {
      SumSquaresSign(Weights(p, i), Image(Rows(p, i), n, x), p.length);
    }
    SumNonneg(0, |p.windows|, i => WindowEnergy(p, n, x, i));
  }

  /** The anchor hears every frame: energy vanishes only for the zero vector. */
  lemma EnergyPositive(p: Problem, n: int, x: Vector, k: int)
    requires p.Valid() && NonnegativeWeights(p) && Anchored(p)
    requires 0 <= k < n <= p.length && x(k) != 0.0
    ensures Energy(p, n, x) > 0.0
  {
    EnergyNonnegative(p, n, x);
    SumAtLeast(0, 0, |p.windows|, i => WindowEnergy(p, n, x, i));
    AnchorEnergy(p, n, x, k);
  }

  lemma AnchorEnergy(p: Problem, n: int, x: Vector, k: int)
    requires p.Valid() && Anchored(p)
    requires 0 <= k < n <= p.length && x(k) != 0.0
    ensures WindowEnergy(p, n, x, 0) > 0.0
  {
    AnchorHears(p, n, x, k);
    assert Image(Rows(p, 0), n, x)(k) != 0.0;
    SumSquaresSign(Weights(p, 0), Image(Rows(p, 0), n, x), p.length);
  }

  lemma AnchorHears(p: Problem, n: int, x: Vector, k: int)
    requires p.Valid() && Anchored(p)
    requires 0 <= k < n && x(k) != 0.0
    ensures Apply(Rows(p, 0), n, x, k) != 0.0
  {
    var h := Rows(p, 0);
    SumSingle(0, k, n, s => h(k, s) * x(s));
  }

  /** No division by zero: every pivot of the factorisation is strictly positive. */
  lemma {:induction false} PivotPositive(p: Problem, t: int)
    requires p.Valid() && NonnegativeWeights(p) && Anchored(p)
    requires 0 <= t < p.length
    ensures Pivot(NormalMatrix(p), t) > 0.0
    ensures NonzeroPivots(NormalMatrix(p), t)
    decreases t
  {
    var a := NormalMatrix(p);
    forall k | 0 <= k < t
      ensures Pivot(a, k) != 0.0
    {
      PivotPositive(p, k);
    }
    NormalSymmetric(p);
    ProbeIsPivot(a, t);
    FormIsEnergy(p, t + 1, ProbeVector(a, t));
    assert ProbeVector(a, t)(t) == 1.0;
    EnergyPositive(p, t + 1, ProbeVector(a, t), t);
  }

  lemma PivotsPositive(p: Problem)
    requires p.Valid() && NonnegativeWeights(p) && Anchored(p)
    ensures forall t :: 0 <= t < p.length ==> Pivot(NormalMatrix(p), t) > 0.0
    ensures NonzeroPivots(NormalMatrix(p), p.length)
  {
    forall t | 0 <= t < p.length
      ensures Pivot(NormalMatrix(p), t) > 0.0
    {
      PivotPositive(p, t);
    }
  }

  // ----- the solution -----

  /** The trajectory the two substitutions compute. */
  ghost function Trajectory(p: Problem): Vector
    requires p.Valid()
  {
    Solution(NormalMatrix(p), NormalVector(p), p.length)
  }

  lemma TrajectorySolves(p: Problem)
    requires p.Valid() && NonzeroPivots(NormalMatrix(p), p.length)
    ensures Solves(p, Trajectory(p))
  {
    NormalSymmetric(p);
    forall t | 0 <= t < p.length
      ensures Apply(NormalMatrix(p), p.length, Trajectory(p), t) == NormalVector(p)(t)
    {
      SolutionSolves(NormalMatrix(p), NormalVector(p), p.length, t);
    }
  }
}
