/** The textbook dense factorisation A = L D L' and the two triangular solves. The in-place
    banded loops of the synthesiser are proved to compute exactly these functions; what the
    functions achieve (the system is solved, the pivots are positive) is proved here. */
module Ldl {
  import opened RealSums
  import opened Gram

  ghost predicate Symmetric(a: Matrix) {
    forall t, s :: a(t, s) == a(s, t)
  }

  /** Entries w or more off the diagonal are zero. */
  ghost predicate Banded(a: Matrix, w: int) {
    forall t, s :: s - t >= w ==> a(t, s) == 0.0
  }

  /** D[k]. */
  ghost function Pivot(a: Matrix, k: int): real
    requires 0 <= k
    decreases k, 0
  {
    a(k, k) - Sum(0, k, j => if 0 <= j < k then Lower(a, k, j) * Lower(a, k, j) * Pivot(a, j) else 0.0)
  }

  /** L[s][k], unit lower triangular. A zero pivot yields 0.0, so the function is total. */
  ghost function Lower(a: Matrix, s: int, k: int): real
    requires 0 <= k
    decreases k, 1
  {
    if s < k then 0.0
    else if s == k then 1.0
    else if Pivot(a, k) == 0.0 then 0.0
    else (a(k, s) - Sum(0, k, j => if 0 <= j < k then Lower(a, k, j) * Lower(a, s, j) * Pivot(a, j) else 0.0))
         / Pivot(a, k)
  }

  /** The unknown y of L y = b. */
  ghost function Forward(a: Matrix, b: Vector, t: int): real
    requires 0 <= t
  {
    b(t) - Sum(0, t, k => if 0 <= k < t then Lower(a, t, k) * Forward(a, b, k) else 0.0)
  }

  /** The unknown x of D L' x = y, for a system of n equations. */
  ghost function Backward(a: Matrix, b: Vector, n: int, t: int): real
    requires 0 <= t
    decreases n - t
  {
    (if Pivot(a, t) == 0.0 then 0.0 else Forward(a, b, t) / Pivot(a, t))
    - Sum(t + 1, n, s => if t < s < n then Lower(a, s, t) * Backward(a, b, n, s) else 0.0)
  }

  /** The factors as total functions: column k of L is row k of the matrix below. */
  ghost function Columns(a: Matrix): Matrix {
    (k: int, t: int) => if 0 <= k then Lower(a, t, k) else 0.0
  }

  ghost function Pivots(a: Matrix): Vector {
    k => if 0 <= k then Pivot(a, k) else 0.0
  }

  ghost predicate NonzeroPivots(a: Matrix, n: int) {
    forall k :: 0 <= k < n ==> Pivot(a, k) != 0.0
  }

  /** What column j contributes to entry (r, s) of L D L'. */
  ghost function Product(a: Matrix, r: int, s: int): Vector {
    j => if 0 <= j then Lower(a, r, j) * Lower(a, s, j) * Pivot(a, j) else 0.0
  }

  lemma PivotStep(a: Matrix, k: int)
    requires 0 <= k
    ensures Pivot(a, k) == a(k, k) - Sum(0, k, Product(a, k, k))
  {
    SumSame(0, k, Product(a, k, k),
            j => if 0 <= j < k then Lower(a, k, j) * Lower(a, k, j) * Pivot(a, j) else 0.0);
  }

  lemma LowerStep(a: Matrix, s: int, k: int)
    requires 0 <= k < s && Pivot(a, k) != 0.0
    ensures Lower(a, s, k) == (a(k, s) - Sum(0, k, Product(a, k, s))) / Pivot(a, k)
  {
    SumSame(0, k, Product(a, k, s),
            j => if 0 <= j < k then Lower(a, k, j) * Lower(a, s, j) * Pivot(a, j) else 0.0);
  }

  lemma Cancel(l: real, p: real, q: real)
    requires p != 0.0 && l == q / p
    ensures l * p == q
  {
  }

  lemma ProductOnDiagonal(a: Matrix, r: int, s: int)
    requires 0 <= r
    ensures Product(a, r, s)(r) == Lower(a, s, r) * Pivot(a, r)
    ensures r == s ==> Product(a, r, s)(r) == Pivot(a, r)
  {
    hide Lower, Pivot;
    UnitLower(a, r, r);
  }

  lemma UnitLower(a: Matrix, r: int, k: int)
    requires 0 <= k && r <= k
    ensures Lower(a, r, k) == if r == k then 1.0 else 0.0
  {
  }

  /** The defining equation of the factorisation. */
  lemma ProductStep(a: Matrix, r: int, s: int)
    requires 0 <= r <= s && (r == s || Pivot(a, r) != 0.0)
    ensures Product(a, r, s)(r) == a(r, s) - Sum(0, r, Product(a, r, s))
  {
    hide Sum, Pivot, Lower, Product;
    ProductOnDiagonal(a, r, s);
    if r == s {
      PivotStep(a, r);
    } else {
      LowerStep(a, s, r);
      Cancel(Lower(a, s, r), Pivot(a, r), a(r, s) - Sum(0, r, Product(a, r, s)));
    }
  }

  // ----- the factorisation -----

  /** L inherits the band of A: this is why the code may store only `width` columns. */
  lemma {:induction false} LowerBanded(a: Matrix, w: int, s: int, k: int)
    requires Banded(a, w) && 0 < w
    requires 0 <= k && s - k >= w
    ensures Lower(a, s, k) == 0.0
    decreases k
  {
    forall j | 0 <= j < k
      ensures Product(a, k, s)(j) == 0.0
    {
      LowerBanded(a, w, s, j);
    }
    SumZero(0, k, Product(a, k, s));
    if Pivot(a, k) != 0.0 {
      LowerStep(a, s, k);
    }
  }

  lemma DropAfter(f: Vector, n: int, r: int)
    requires 0 <= r < n
    requires forall k :: r < k < n ==> f(k) == 0.0
    ensures Sum(0, n, f) == Sum(0, r, f) + f(r)
  {
    SumNarrow(0, 0, r + 1, n, f);
    SumLast(0, r + 1, f);
  }

  /** The last contributing column is min(r, s): later ones are zero. */
  lemma ProductSum(a: Matrix, n: int, r: int, s: int)
    requires 0 <= r <= s && r < n
    ensures Sum(0, n, Product(a, r, s)) == Sum(0, r, Product(a, r, s)) + Product(a, r, s)(r)
  {
    hide Sum, Pivot, Lower;
    forall k | r < k < n
      ensures Product(a, r, s)(k) == 0.0
    {
      UnitLower(a, r, k);
    }
    DropAfter(Product(a, r, s), n, r);
  }

  lemma WeightedIsProductSum(a: Matrix, n: int, r: int, s: int)
    ensures Weighted(Columns(a), Pivots(a), n)(r, s) == Sum(0, n, Product(a, r, s))
  {
    hide Sum, Pivot, Lower;
    var h, v := Columns(a), Pivots(a);
    var terms := k => h(k, r) * v(k) * h(k, s);
    forall k | 0 <= k < n
      ensures terms(k) == Product(a, r, s)(k)
    {
      LastTwoSwap(Lower(a, r, k), Pivot(a, k), Lower(a, s, k));
    }
    SumSame(0, n, terms, Product(a, r, s));
  }

  lemma LastTwoSwap(x: real, y: real, z: real)
    ensures x * y * z == x * z * y
  {
  }

  /** A == L D L' at (r, s). The diagonal needs the earlier pivots only. */
  lemma Factors(a: Matrix, n: int, r: int, s: int)
    requires 0 <= r <= s && r < n
    requires r == s || Pivot(a, r) != 0.0
    ensures a(r, s) == Weighted(Columns(a), Pivots(a), n)(r, s)
  {
    hide Pivot, Lower, Product, Weighted, Sum;
    WeightedIsProductSum(a, n, r, s);
    ProductSum(a, n, r, s);
    ProductStep(a, r, s);
  }

  /** A == L D L' on the leading block: only the pivots before the last row are divisors. */
  lemma FactorsAll(a: Matrix, n: int, r: int, s: int)
    requires Symmetric(a) && NonzeroPivots(a, n - 1)
    requires 0 <= r < n && 0 <= s < n
    ensures a(r, s) == Weighted(Columns(a), Pivots(a), n)(r, s)
  {
    hide Pivot, Lower, Weighted;
    if r <= s {
      Factors(a, n, r, s);
    } else {
      Factors(a, n, s, r);
      WeightedSymmetric(Columns(a), Pivots(a), n, r, s);
    }
  }

  // ----- the solution -----

  /** If A is L D L' in row t, y solves L y == b there and x solves D L' x == y, then x solves
      row t of A x == b. */
  lemma TwoStageSolve(a: Matrix, h: Matrix, v: Vector, n: int, y: Vector, x: Vector, b: real, t: int)
    requires forall s :: 0 <= s < n ==> a(t, s) == Weighted(h, v, n)(t, s)
    requires Sum(0, n, k => h(k, t) * y(k)) == b
    requires forall k :: 0 <= k < n ==> v(k) * Apply(h, n, x, k) == y(k)
    ensures Apply(a, n, x, t) == b
  {
    hide Sum;
    ApplySame(a, Weighted(h, v, n), n, x, t);
    Compose(h, v, n, n, x, t);
    var z := Image(h, n, x);
    forall k | 0 <= k < n
      ensures h(k, t) * v(k) * z(k) == h(k, t) * y(k)
    {
      assert v(k) * z(k) == y(k);
    }
    SumSame(0, n, k => h(k, t) * v(k) * z(k), k => h(k, t) * y(k));
  }

  ghost function Intermediate(a: Matrix, b: Vector): Vector {
    k => if 0 <= k then Forward(a, b, k) else 0.0
  }

  ghost function Solution(a: Matrix, b: Vector, n: int): Vector {
    t => if 0 <= t then Backward(a, b, n, t) else 0.0
  }

  ghost function ForwardTerms(a: Matrix, b: Vector, t: int): Vector {
    k => if 0 <= k then Lower(a, t, k) * Forward(a, b, k) else 0.0
  }

  ghost function BackwardTerms(a: Matrix, b: Vector, n: int, t: int): Vector {
    s => if 0 <= t && 0 <= s then Lower(a, s, t) * Backward(a, b, n, s) else 0.0
  }

  lemma ForwardStep(a: Matrix, b: Vector, t: int)
    requires 0 <= t
    ensures Forward(a, b, t) == b(t) - Sum(0, t, ForwardTerms(a, b, t))
  {
    SumSame(0, t, ForwardTerms(a, b, t),
            k => if 0 <= k < t then Lower(a, t, k) * Forward(a, b, k) else 0.0);
  }

  lemma BackwardStep(a: Matrix, b: Vector, n: int, t: int)
    requires 0 <= t && Pivot(a, t) != 0.0
    ensures Backward(a, b, n, t) == Forward(a, b, t) / Pivot(a, t) - Sum(t + 1, n, BackwardTerms(a, b, n, t))
  {
    SumSame(t + 1, n, BackwardTerms(a, b, n, t),
            s => if t < s < n then Lower(a, s, t) * Backward(a, b, n, s) else 0.0);
  }

  lemma ForwardTermsSum(a: Matrix, b: Vector, n: int, t: int)
    ensures Sum(0, n, k => Columns(a)(k, t) * Intermediate(a, b)(k)) == Sum(0, n, ForwardTerms(a, b, t))
  {
    var f, l, y := ForwardTerms(a, b, t), Columns(a), Intermediate(a, b);
    forall k | 0 <= k < n
      ensures l(k, t) * y(k) == f(k)
    {
    }
    SumSame(0, n, k => l(k, t) * y(k), f);
    SumSame(0, n, k => l(k, t) * y(k), k => Columns(a)(k, t) * Intermediate(a, b)(k));
  }

  lemma BackwardTermsSum(a: Matrix, b: Vector, n: int, t: int)
    requires 0 <= t
    ensures Sum(t + 1, n, s => Columns(a)(t, s) * Solution(a, b, n)(s)) == Sum(t + 1, n, BackwardTerms(a, b, n, t))
  {
    var f, l, x := BackwardTerms(a, b, n, t), Columns(a), Solution(a, b, n);
    forall s | t + 1 <= s < n
      ensures l(t, s) * x(s) == f(s)
    {
    }
    SumSame(t + 1, n, s => l(t, s) * x(s), f);
    SumSame(t + 1, n, s => l(t, s) * x(s), s => Columns(a)(t, s) * Solution(a, b, n)(s));
  }

  /** L y == b. */
  lemma ForwardSolves(a: Matrix, b: Vector, n: int, t: int)
    requires 0 <= t < n
    ensures Sum(0, n, k => Columns(a)(k, t) * Intermediate(a, b)(k)) == b(t)
  {
    hide Pivot;
    forall k | t < k < n
      ensures ForwardTerms(a, b, t)(k) == 0.0
    {
    }
    DropAfter(ForwardTerms(a, b, t), n, t);
    ForwardStep(a, b, t);
    ForwardTermsSum(a, b, n, t);
  }

  /** L' x expands into a diagonal term and the terms below it. */
  lemma UpperRow(h: Matrix, n: int, x: Vector, t: int)
    requires 0 <= t < n && h(t, t) == 1.0
    requires forall s :: 0 <= s < t ==> h(t, s) == 0.0
    ensures Apply(h, n, x, t) == x(t) + Sum(t + 1, n, s => h(t, s) * x(s))
  {
    var f := s => h(t, s) * x(s);
    SumNarrow(0, t, n, n, f);
    assert f(t) == x(t);
  }

  lemma SolutionRow(a: Matrix, b: Vector, n: int, t: int)
    requires 0 <= t < n
    ensures Apply(Columns(a), n, Solution(a, b, n), t)
            == Backward(a, b, n, t) + Sum(t + 1, n, BackwardTerms(a, b, n, t))
  {
    UnitColumns(a, t);
    hide Sum, Columns, Backward, BackwardTerms, Apply;
    UpperRow(Columns(a), n, Solution(a, b, n), t);
    BackwardTermsSum(a, b, n, t);
  }

  /** D L' x == y. */
  lemma BackwardSolves(a: Matrix, b: Vector, n: int, t: int)
    requires 0 <= t < n && Pivot(a, t) != 0.0
    ensures Pivot(a, t) * Apply(Columns(a), n, Solution(a, b, n), t) == Forward(a, b, t)
  {
    hide Sum, Pivot, Lower, Forward, Backward, Apply;
    SolutionRow(a, b, n, t);
    BackwardStep(a, b, n, t);
    Cancel(Apply(Columns(a), n, Solution(a, b, n), t), Pivot(a, t), Forward(a, b, t));
  }

  lemma StagesCompose(a: Matrix, b: Vector, n: int)
    requires NonzeroPivots(a, n)
    ensures forall k :: 0 <= k < n
              ==> Pivots(a)(k) * Apply(Columns(a), n, Solution(a, b, n), k) == Intermediate(a, b)(k)
  {
    hide Sum, Pivot, Lower, Forward, Backward, Apply;
    forall k | 0 <= k < n
      ensures Pivots(a)(k) * Apply(Columns(a), n, Solution(a, b, n), k) == Intermediate(a, b)(k)
    {
      BackwardSolves(a, b, n, k);
    }
  }

  /** Factorising and substituting twice solves A x == b, whatever the size. */
  lemma SolutionSolves(a: Matrix, b: Vector, n: int, t: int)
    requires Symmetric(a) && NonzeroPivots(a, n)
    requires 0 <= t < n
    ensures Apply(a, n, Solution(a, b, n), t) == b(t)
  {
    hide Sum, Pivot, Lower, Forward, Backward, Weighted, Apply;
    forall s | 0 <= s < n
      ensures a(t, s) == Weighted(Columns(a), Pivots(a), n)(t, s)
    {
      FactorsAll(a, n, t, s);
    }
    ForwardSolves(a, b, n, t);
    StagesCompose(a, b, n);
    TwoStageSolve(a, Columns(a), Pivots(a), n, Intermediate(a, b), Solution(a, b, n), b(t), t);
  }

  // ----- the pivots -----

  /** The vector with L' x == e_t, supported on 0..t. */
  ghost function Probe(a: Matrix, t: int, s: int): real
    decreases t - s
  {
    if s < 0 || s > t then 0.0
    else if s == t then 1.0
    else -Sum(s + 1, t + 1, r => if s < r <= t then Lower(a, r, s) * Probe(a, t, r) else 0.0)
  }

  ghost function ProbeVector(a: Matrix, t: int): Vector {
    s => Probe(a, t, s)
  }

  ghost function ProbeTerms(a: Matrix, t: int, k: int): Vector {
    r => if 0 <= k then Lower(a, r, k) * Probe(a, t, r) else 0.0
  }

  lemma ProbeStep(a: Matrix, t: int, k: int)
    requires 0 <= k <= t
    ensures Probe(a, t, k) + Sum(k + 1, t + 1, ProbeTerms(a, t, k)) == if k == t then 1.0 else 0.0
  {
    if k == t {
      assert Sum(k + 1, t + 1, ProbeTerms(a, t, k)) == 0.0;
    } else {
      SumSame(k + 1, t + 1, ProbeTerms(a, t, k),
              r => if k < r <= t then Lower(a, r, k) * Probe(a, t, r) else 0.0);
    }
  }

  lemma ProbeTermsSum(a: Matrix, t: int, k: int)
    requires 0 <= k
    ensures Sum(k + 1, t + 1, s => Columns(a)(k, s) * ProbeVector(a, t)(s)) == Sum(k + 1, t + 1, ProbeTerms(a, t, k))
  {
    hide Sum, Lower, Probe;
    var f, l, x := ProbeTerms(a, t, k), Columns(a), ProbeVector(a, t);
    forall s
      ensures l(k, s) * x(s) == f(s)
    {
    }
    SumSame(k + 1, t + 1, s => l(k, s) * x(s), f);
    SumSame(k + 1, t + 1, s => l(k, s) * x(s), s => Columns(a)(k, s) * ProbeVector(a, t)(s));
  }

  lemma UnitColumns(a: Matrix, t: int)
    requires 0 <= t
    ensures Columns(a)(t, t) == 1.0
    ensures forall s :: 0 <= s < t ==> Columns(a)(t, s) == 0.0
  {
  }

  lemma ProbeUnit(a: Matrix, t: int, k: int)
    requires 0 <= k <= t
    ensures Apply(Columns(a), t + 1, ProbeVector(a, t), k) == if k == t then 1.0 else 0.0
  {
    UnitColumns(a, k);
    hide Sum, Columns, Probe, ProbeTerms, Apply;
    UpperRow(Columns(a), t + 1, ProbeVector(a, t), k);
    ProbeTermsSum(a, t, k);
    ProbeStep(a, t, k);
  }

  lemma UnitSquares(v: Vector, y: Vector, n: int, t: int)
    requires 0 <= t < n
    requires forall k :: 0 <= k < n ==> y(k) == if k == t then 1.0 else 0.0
    ensures SumSquares(v, y, n) == v(t)
  {
    SumSingle(0, t, n, k => Square(v(k), y(k)));
  }

  /** The quadratic form of A at the probe of t is exactly the pivot of t, once the earlier
      pivots are known to be nonzero. */
  lemma ProbeIsPivot(a: Matrix, t: int)
    requires 0 <= t && Symmetric(a) && NonzeroPivots(a, t)
    ensures Form(a, t + 1, ProbeVector(a, t)) == Pivot(a, t)
  {
    hide Sum, Pivot, Lower, Probe, Weighted, Form, SumSquares, Apply;
    var n := t + 1;
    forall r, s | 0 <= r < n && 0 <= s < n
      ensures a(r, s) == Weighted(Columns(a), Pivots(a), n)(r, s)
    {
      FactorsAll(a, n, r, s);
    }
    FormSame(a, Weighted(Columns(a), Pivots(a), n), n, ProbeVector(a, t));
    Quadratic(Columns(a), Pivots(a), n, n, ProbeVector(a, t));
    forall k | 0 <= k < n
      ensures Image(Columns(a), n, ProbeVector(a, t))(k) == if k == t then 1.0 else 0.0
    {
      ProbeUnit(a, t, k);
    }
    UnitSquares(Pivots(a), Image(Columns(a), n, ProbeVector(a, t)), n, t);
  }
}
