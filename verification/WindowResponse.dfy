/** The least-squares problem in full: what a window makes of a trajectory, offset by offset, and what
    the weighted error is without matrices. */
module WindowResponse {
  import opened RealSums
  import opened Gram
  import opened NormalEquations
  import opened LeastSquares

  /** What the window puts out at frame r: its coefficient for each offset times the frame there. */
  ghost function Response(w: Window, c: Vector, n: int, r: int): real
    requires w.Valid()
  {
    Sum(-(w.radius as int), w.radius + 1, x => if 0 <= r + x < n && 0 <= x + w.radius < |w.coef| then w.coef[x + w.radius] * c(r + x) else 0.0)
  }

  lemma {:induction false} SumShift(lo: int, hi: int, k: int, f: Vector, g: Vector)
    requires forall i :: lo <= i < hi ==> g(i) == f(i + k)
    ensures Sum(lo, hi, g) == Sum(lo + k, hi + k, f)
    decreases hi - lo
  {
    if lo < hi {
      SumShift(lo + 1, hi, k, f, g);
    }
  }

  /** Row r of a window's matrix is the window centred at frame r. */
  lemma ResponseIs(p: Problem, i: int, c: Vector, r: int)
    requires p.Valid() && 0 <= i < |p.windows|
    ensures Apply(Rows(p, i), p.length, c, r) == Response(p.windows[i], c, p.length, r)
  {
    hide Sum;
    var w, n := p.windows[i], p.length;
    var f: Vector := s => Rows(p, i)(r, s) * c(s);
    var g: Vector := s => if 0 <= s < n then Rows(p, i)(r, s) * c(s) else 0.0;
    var h: Vector := x => if 0 <= r + x < n && 0 <= x + w.radius < |w.coef| then w.coef[x + w.radius] * c(r + x) else 0.0;
    var from, to := r - w.radius, r + w.radius + 1;
    var lo, hi := if from < 0 then from else 0, if to > n then to else n;
    SumSame(0, n, f, g);
    SumNarrow(lo, 0, n, hi, g);
    forall s | lo <= s < from || to <= s < hi
      ensures g(s) == 0.0
    {
      assert w.At(s - r) == 0.0;
    }
    SumNarrow(lo, from, to, hi, g);
    forall x | -(w.radius as int) <= x < w.radius + 1
      ensures h(x) == g(x + r)
    {
      assert 0 <= r + x < n ==> Rows(p, i)(r, x + r) == w.At(x) == w.coef[x + w.radius];
    }
    SumShift(-(w.radius as int), w.radius + 1, r, g, h);
  }

  /** The weighted squared error of a trajectory: over windows and frames, the weight times the square of
      what the window puts out less what the statistics ask for. */
  ghost function Misfit(p: Problem, c: Vector): real
    requires p.Valid()
  {
    Sum(0, |p.windows|, i => if 0 <= i < |p.windows| then WindowMisfit(p, c, i) else 0.0)
  }

  ghost function WindowMisfit(p: Problem, c: Vector, i: int): real
    requires p.Valid() && 0 <= i < |p.windows|
  {
    Sum(0, p.length, r => p.ivar(r, i) * (Miss(p, c, i, r) * Miss(p, c, i, r)))
  }

  ghost function Miss(p: Problem, c: Vector, i: int, r: int): real
    requires p.Valid() && 0 <= i < |p.windows|
  {
    Response(p.windows[i], c, p.length, r) - p.mean(r, i)
  }

  lemma WindowErrorIsMisfit(p: Problem, c: Vector, i: int)
    requires p.Valid() && 0 <= i < |p.windows|
    ensures WindowError(p, c, i) == WindowMisfit(p, c, i)
  {
    hide Sum, Response;
    var w, y := Weights(p, i), Residual(p, c, i);
    forall r | 0 <= r < p.length
      ensures Square(w(r), y(r)) == p.ivar(r, i) * (Miss(p, c, i, r) * Miss(p, c, i, r))
    {
      ResponseIs(p, i, c, r);
      SquareIs(w(r), y(r));
    }
    SumSame(0, p.length, r => Square(w(r), y(r)), r => p.ivar(r, i) * (Miss(p, c, i, r) * Miss(p, c, i, r)));
  }

  lemma SquareIs(w: real, y: real)
    ensures Square(w, y) == w * (y * y)
  {
  }

  /** That is the error that is minimised. */
  lemma ErrorIsMisfit(p: Problem, c: Vector)
    requires p.Valid()
    ensures Error(p, c) == Misfit(p, c)
  {
    hide Sum, WindowError, WindowMisfit;
    forall i | 0 <= i < |p.windows|
      ensures WindowError(p, c, i) == WindowMisfit(p, c, i)
    {
      WindowErrorIsMisfit(p, c, i);
    }
    SumSame(0, |p.windows|, i => WindowError(p, c, i), i => if 0 <= i < |p.windows| then WindowMisfit(p, c, i) else 0.0);
  }

  /** So the trajectories that solve the normal equations are those of least error in these terms. */
  lemma SolvesIffLeastMisfit(p: Problem, c: Vector)
    requires p.Valid() && NonnegativeWeights(p)
    ensures Solves(p, c) <==> forall c': Vector :: Misfit(p, c) <= Misfit(p, c')
  {
    hide Misfit, Error, Solves;
    OptimalIffSolves(p, c);
    forall c': Vector
      ensures Error(p, c') == Misfit(p, c')
    {
      ErrorIsMisfit(p, c');
    }
  }
}
