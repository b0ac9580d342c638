/** Matrices of the shape H' V H, with V diagonal. Both W'U^-1 W (rows weighted by inverse
    variances) and L D L' (columns of L weighted by pivots) have this shape, so the identities
    are proved once for both. */
module Gram {
  import opened RealSums

  type Matrix = (int, int) -> real
  type Vector = int -> real

  /** Row t of A times x, over the first n columns. */
  ghost function Apply(a: Matrix, n: int, x: Vector, t: int): real {
    Sum(0, n, s => a(t, s) * x(s))
  }

  /** A x. */
  ghost function Image(a: Matrix, n: int, x: Vector): Vector {
    t => Apply(a, n, x, t)
  }

  /** x' y. */
  ghost function Dot(n: int, x: Vector, y: Vector): real {
    Sum(0, n, t => x(t) * y(t))
  }

  /** x' A x. */
  ghost function Form(a: Matrix, n: int, x: Vector): real {
    Dot(n, x, Image(a, n, x))
  }

  /** H' V H, for H with m rows. */
  ghost function Weighted(h: Matrix, v: Vector, m: int): Matrix {
    (t: int, s: int) => Sum(0, m, r => h(r, t) * v(r) * h(r, s))
  }

  /** H' V z. */
  ghost function Back(h: Matrix, v: Vector, m: int, z: Vector): Vector {
    t => Sum(0, m, r => h(r, t) * v(r) * z(r))
  }

  ghost function Times(a: real, b: real): (q: real)
    ensures a >= 0.0 && b >= 0.0 ==> q >= 0.0
    ensures a > 0.0 && b > 0.0 ==> q > 0.0
  {
    a * b
  }

  ghost function Squared(y: real): (q: real)
    ensures q == y * y
    ensures q >= 0.0
    ensures y != 0.0 ==> q > 0.0
  {
    if y >= 0.0 then Times(y, y) else Times(-y, -y)
  }

  /** A weighted square, w y^2. */
  ghost function Square(w: real, y: real): (q: real)
    ensures w >= 0.0 ==> q >= 0.0
    ensures w > 0.0 && y != 0.0 ==> q > 0.0
  {
    Times(w, Squared(y))
  }

  /** Sum of v y^2 over m components. */
  ghost function SumSquares(v: Vector, y: Vector, m: int): real {
    Sum(0, m, r => Square(v(r), y(r)))
  }

  lemma SumSquaresSign(v: Vector, y: Vector, m: int)
    requires forall r :: 0 <= r < m ==> v(r) >= 0.0
    ensures SumSquares(v, y, m) >= 0.0
    ensures forall k :: 0 <= k < m && v(k) > 0.0 && y(k) != 0.0 ==> SumSquares(v, y, m) > 0.0
  {
    var e := r => Square(v(r), y(r));
    SumNonneg(0, m, e);
    forall k | 0 <= k < m && v(k) > 0.0 && y(k) != 0.0
      ensures Sum(0, m, e) > 0.0
    {
      SumAtLeast(0, k, m, e);
    }
    assert Sum(0, m, e) == SumSquares(v, y, m);
  }

  // ----- congruence -----

  lemma ApplySame(a: Matrix, a': Matrix, n: int, x: Vector, t: int)
    requires forall s :: 0 <= s < n ==> a(t, s) == a'(t, s)
    ensures Apply(a, n, x, t) == Apply(a', n, x, t)
  {
    SumSame(0, n, s => a(t, s) * x(s), s => a'(t, s) * x(s));
  }

  lemma ApplySameVector(h: Matrix, n: int, c: Vector, c': Vector, r: int)
    requires forall t :: 0 <= t < n ==> c(t) == c'(t)
    ensures Apply(h, n, c, r) == Apply(h, n, c', r)
  {
    SumSame(0, n, s => h(r, s) * c(s), s => h(r, s) * c'(s));
  }

  lemma DotSame(n: int, x: Vector, y: Vector, y': Vector)
    requires forall t :: 0 <= t < n ==> y(t) == y'(t)
    ensures Dot(n, x, y) == Dot(n, x, y')
  {
    SumSame(0, n, t => x(t) * y(t), t => x(t) * y'(t));
  }

  lemma FormSame(a: Matrix, a': Matrix, n: int, x: Vector)
    requires forall t, s :: 0 <= t < n && 0 <= s < n ==> a(t, s) == a'(t, s)
    ensures Form(a, n, x) == Form(a', n, x)
  {
    forall t | 0 <= t < n
      ensures Image(a, n, x)(t) == Image(a', n, x)(t)
    {
      ApplySame(a, a', n, x, t);
    }
    DotSame(n, x, Image(a, n, x), Image(a', n, x));
  }

  // ----- H' V H -----

  lemma WeightedSymmetric(h: Matrix, v: Vector, m: int, t: int, s: int)
    ensures Weighted(h, v, m)(t, s) == Weighted(h, v, m)(s, t)
  {
    SumSame(0, m, r => h(r, t) * v(r) * h(r, s), r => h(r, s) * v(r) * h(r, t));
  }

  /** (Hx)' V z == x' (H' V z). */
  lemma Adjoint(h: Matrix, v: Vector, m: int, n: int, x: Vector, z: Vector)
    ensures Sum(0, m, r => v(r) * Apply(h, n, x, r) * z(r)) == Dot(n, x, Back(h, v, m, z))
  {
    var f := (r: int, t: int) => x(t) * (h(r, t) * v(r) * z(r));
    var rows := r => v(r) * Apply(h, n, x, r) * z(r);
    var cols := t => x(t) * Back(h, v, m, z)(t);
    forall r | 0 <= r < m
      ensures rows(r) == Sum(0, n, t => f(r, t))
    {
      forall t: int
        ensures f(r, t) == (v(r) * z(r)) * (h(r, t) * x(t))
      {
      }
      SumScale(0, n, v(r) * z(r), s => h(r, s) * x(s), t => f(r, t));
    }
    forall t | 0 <= t < n
      ensures cols(t) == Sum(0, m, r => f(r, t))
    {
      SumScale(0, m, x(t), r => h(r, t) * v(r) * z(r), r => f(r, t));
    }
    SumSwap(m, n, f, rows, cols);
    SumSame(0, n, cols, t => x(t) * Back(h, v, m, z)(t));
  }

  /** (H' V H) y == H' V (H y). */
  lemma Compose(h: Matrix, v: Vector, m: int, n: int, y: Vector, t: int)
    ensures Apply(Weighted(h, v, m), n, y, t) == Back(h, v, m, Image(h, n, y))(t)
  {
    var f := (r: int, s: int) => h(r, t) * v(r) * (h(r, s) * y(s));
    var z := Image(h, n, y);
    var rows := r => h(r, t) * v(r) * z(r);
    var cols := s => Weighted(h, v, m)(t, s) * y(s);
    forall r | 0 <= r < m
      ensures rows(r) == Sum(0, n, s => f(r, s))
    {
      SumScale(0, n, h(r, t) * v(r), s => h(r, s) * y(s), s => f(r, s));
    }
    forall s | 0 <= s < n
      ensures cols(s) == Sum(0, m, r => f(r, s))
    {
      forall r: int
        ensures f(r, s) == y(s) * (h(r, t) * v(r) * h(r, s))
      {
      }
      SumScale(0, m, y(s), r => h(r, t) * v(r) * h(r, s), r => f(r, s));
    }
    SumSwap(m, n, f, rows, cols);
  }

  lemma SquaresOfImage(h: Matrix, v: Vector, m: int, n: int, x: Vector)
    ensures SumSquares(v, Image(h, n, x), m) == Sum(0, m, r => v(r) * Apply(h, n, x, r) * Image(h, n, x)(r))
  {
    var y := Image(h, n, x);
    var e := r => v(r) * Apply(h, n, x, r) * y(r);
    forall r | 0 <= r < m
      ensures Square(v(r), y(r)) == e(r)
    {
      assert Apply(h, n, x, r) == y(r);
    }
    SumSame(0, m, r => Square(v(r), y(r)), e);
    SumSame(0, m, e, r => v(r) * Apply(h, n, x, r) * Image(h, n, x)(r));
  }

  /** x' (H' V H) x is the weighted sum of squares of Hx. */
  lemma Quadratic(h: Matrix, v: Vector, m: int, n: int, x: Vector)
    ensures Form(Weighted(h, v, m), n, x) == SumSquares(v, Image(h, n, x), m)
  {
    Adjoint(h, v, m, n, x, Image(h, n, x));
    forall t | 0 <= t < n
      ensures Image(Weighted(h, v, m), n, x)(t) == Back(h, v, m, Image(h, n, x))(t)
    {
      Compose(h, v, m, n, x, t);
    }
    DotSame(n, x, Image(Weighted(h, v, m), n, x), Back(h, v, m, Image(h, n, x)));
    SquaresOfImage(h, v, m, n, x);
  }

  // ----- sums of matrices -----

  ghost function Total(parts: int -> Matrix, m: int): Matrix {
    (t: int, s: int) => Sum(0, m, i => parts(i)(t, s))
  }

  /** A row of the total is the sum of the parts' rows. */
  lemma TotalApply(parts: int -> Matrix, m: int, n: int, x: Vector, t: int)
    ensures Apply(Total(parts, m), n, x, t) == Sum(0, m, i => Apply(parts(i), n, x, t))
  {
    var f := (i: int, s: int) => parts(i)(t, s) * x(s);
    var rows := i => Apply(parts(i), n, x, t);
    var cols := s => Total(parts, m)(t, s) * x(s);
    forall i | 0 <= i < m
      ensures rows(i) == Sum(0, n, s => f(i, s))
    {
      SumSame(0, n, s => parts(i)(t, s) * x(s), s => f(i, s));
    }
    forall s | 0 <= s < n
      ensures cols(s) == Sum(0, m, i => f(i, s))
    {
      SumScale(0, m, x(s), i => parts(i)(t, s), i => f(i, s));
    }
    SumSwap(m, n, f, rows, cols);
  }

  /** x' of a sum of vectors is the sum of the dot products. */
  lemma DotTotal(m: int, n: int, x: Vector, parts: int -> Vector, y: Vector)
    requires forall t :: 0 <= t < n ==> y(t) == Sum(0, m, i => parts(i)(t))
    ensures Dot(n, x, y) == Sum(0, m, i => Dot(n, x, parts(i)))
  {
    var f := (i: int, t: int) => x(t) * parts(i)(t);
    var rows := i => Dot(n, x, parts(i));
    var cols := t => x(t) * y(t);
    forall i | 0 <= i < m
      ensures rows(i) == Sum(0, n, t => f(i, t))
    {
      SumSame(0, n, t => x(t) * parts(i)(t), t => f(i, t));
    }
    forall t | 0 <= t < n
      ensures cols(t) == Sum(0, m, i => f(i, t))
    {
      SumScale(0, m, x(t), i => parts(i)(t), i => f(i, t));
    }
    SumSwap(m, n, f, rows, cols);
  }

  /** x' (sum of parts) x is the sum of the parts' quadratic forms. */
  lemma TotalForm(parts: int -> Matrix, m: int, n: int, x: Vector)
    ensures Form(Total(parts, m), n, x) == Sum(0, m, i => Form(parts(i), n, x))
  {
    var images := i => Image(parts(i), n, x);
    forall t | 0 <= t < n
      ensures Image(Total(parts, m), n, x)(t) == Sum(0, m, i => images(i)(t))
    {
      TotalApply(parts, m, n, x, t);
      forall i | 0 <= i < m
        ensures Apply(parts(i), n, x, t) == images(i)(t)
      {
        assert images(i) == Image(parts(i), n, x);
      }
      SumSame(0, m, i => Apply(parts(i), n, x, t), i => images(i)(t));
    }
    DotTotal(m, n, x, images, Image(Total(parts, m), n, x));
    forall i | 0 <= i < m
      ensures Dot(n, x, images(i)) == Form(parts(i), n, x)
    {
      assert images(i) == Image(parts(i), n, x);
    }
    SumSame(0, m, i => Dot(n, x, images(i)), i => Form(parts(i), n, x));
  }
}
