/** The parameter-generation routine of one stream, as it runs: banded storage overwritten in
    place, one dimension after another. */
module ParameterStream {
  import opened RealSums
  import opened Gram
  import opened Ldl
  import opened NormalEquations
  import opened LeastSquares
  import opened GlobalVariance

  /** Term r of entry t of window i's share of W' U^-1 mu. */
  ghost function VectorTerm(p: Problem, i: int, t: int): Vector
    requires p.Valid()
  {
    r => Rows(p, i)(r, t) * Weights(p, i)(r) * Targets(p, i)(r)
  }

  /** Term r of entry (t, t + k) of window i's share of W' U^-1 W. */
  ghost function MatrixTerm(p: Problem, i: int, t: int, k: int): Vector
    requires p.Valid()
  {
    r => Rows(p, i)(r, t) * Weights(p, i)(r) * Rows(p, i)(r, t + k)
  }

  lemma TermsVanish(p: Problem, i: int, t: int, k: int, r: int)
    requires p.Valid() && 0 <= i < |p.windows|
    requires r < t - p.windows[i].radius || t + p.windows[i].radius < r
    ensures VectorTerm(p, i, t)(r) == 0.0 && MatrixTerm(p, i, t, k)(r) == 0.0
  {
    assert Rows(p, i)(r, t) == p.windows[i].At(t - r) == 0.0;
  }

  /** What the frames before `done` contribute to row t through window i. */
  ghost function TapsVector(p: Problem, i: int, t: int, done: int): real
    requires p.Valid()
  {
    Sum(0, done, VectorTerm(p, i, t))
  }

  ghost function TapsMatrix(p: Problem, i: int, t: int, k: int, done: int): real
    requires p.Valid()
  {
    Sum(0, done, MatrixTerm(p, i, t, k))
  }

  lemma TapsStep(p: Problem, i: int, t: int, done: int)
    requires p.Valid() && 0 <= done
    ensures TapsVector(p, i, t, done + 1) == TapsVector(p, i, t, done) + VectorTerm(p, i, t)(done)
    ensures forall k :: TapsMatrix(p, i, t, k, done + 1) == TapsMatrix(p, i, t, k, done) + MatrixTerm(p, i, t, k)(done)
  {
    SumLast(0, done + 1, VectorTerm(p, i, t));
    forall k
      ensures TapsMatrix(p, i, t, k, done + 1) == TapsMatrix(p, i, t, k, done) + MatrixTerm(p, i, t, k)(done)
    {
      SumLast(0, done + 1, MatrixTerm(p, i, t, k));
    }
  }

  lemma TapIsZero(p: Problem, i: int, t: int, r: int)
    requires p.Valid() && Rows(p, i)(r, t) == 0.0
    ensures VectorTerm(p, i, t)(r) == 0.0
    ensures forall k :: MatrixTerm(p, i, t, k)(r) == 0.0
  {
  }

  /** Only frames within the window's radius of t contribute to row t. */
  lemma TapsSuffice(p: Problem, i: int, t: int, lo: int, hi: int)
    requires p.Valid() && 0 <= i < |p.windows| && 0 <= t < p.length
    requires lo == if t - p.windows[i].radius < 0 then 0 else t - p.windows[i].radius
    requires hi == if t + p.windows[i].radius + 1 > p.length then p.length else t + p.windows[i].radius + 1
    ensures TapsVector(p, i, t, lo) == 0.0 && TapsVector(p, i, t, hi) == TargetShare(p, i)(t)
    ensures forall k :: TapsMatrix(p, i, t, k, lo) == 0.0 && TapsMatrix(p, i, t, k, hi) == Share(p, i)(t, t + k)
  {
    forall k
      ensures TapsVector(p, i, t, lo) == 0.0 && TapsVector(p, i, t, hi) == TargetShare(p, i)(t)
      ensures TapsMatrix(p, i, t, k, lo) == 0.0 && TapsMatrix(p, i, t, k, hi) == Share(p, i)(t, t + k)
    {
      forall r | 0 <= r < lo || hi <= r < p.length
        ensures VectorTerm(p, i, t)(r) == 0.0 && MatrixTerm(p, i, t, k)(r) == 0.0
      {
        TermsVanish(p, i, t, k, r);
      }
      SumZero(0, lo, VectorTerm(p, i, t));
      SumZero(0, lo, MatrixTerm(p, i, t, k));
      SumNarrow(0, 0, hi, p.length, VectorTerm(p, i, t));
      SumNarrow(0, 0, hi, p.length, MatrixTerm(p, i, t, k));
    }
    assert TapsMatrix(p, i, t, 0, lo) == 0.0;
  }

  /** Entry t of the right-hand side, and entry (t, t + k) of the matrix, over the first n windows. */
  ghost function PartialVector(p: Problem, n: int, t: int): real
    requires p.Valid()
  {
    Sum(0, n, i => TargetShare(p, i)(t))
  }

  ghost function PartialMatrix(p: Problem, n: int, t: int, k: int): real
    requires p.Valid()
  {
    Sum(0, n, i => Shares(p)(i)(t, t + k))
  }

  lemma PartialEmpty(p: Problem, t: int)
    requires p.Valid()
    ensures PartialVector(p, 0, t) == 0.0
    ensures forall k :: PartialMatrix(p, 0, t, k) == 0.0
  {
  }

  lemma PartialStep(p: Problem, n: int, t: int)
    requires p.Valid() && 0 <= n
    ensures PartialVector(p, n + 1, t) == PartialVector(p, n, t) + TargetShare(p, n)(t)
    ensures forall k :: PartialMatrix(p, n + 1, t, k) == PartialMatrix(p, n, t, k) + Share(p, n)(t, t + k)
  {
    SumLast(0, n + 1, i => TargetShare(p, i)(t));
    forall k
      ensures PartialMatrix(p, n + 1, t, k) == PartialMatrix(p, n, t, k) + Share(p, n)(t, t + k)
    {
      assert Shares(p)(n) == Share(p, n);
      SumLast(0, n + 1, i => Shares(p)(i)(t, t + k));
    }
  }

  lemma PartialFull(p: Problem, t: int)
    requires p.Valid()
    ensures PartialVector(p, |p.windows|, t) == NormalVector(p)(t)
    ensures forall k :: PartialMatrix(p, |p.windows|, t, k) == NormalMatrix(p)(t, t + k)
  {
    forall k
      ensures PartialMatrix(p, |p.windows|, t, k) == NormalMatrix(p)(t, t + k)
    {
      SumSame(0, |p.windows|, i => Shares(p)(i)(t, t + k), i => Shares(p)(i)(t, t + k));
    }
  }

  /** In the band, the columns an elimination step may skip contribute nothing. */
  lemma EliminationBand(a: Matrix, w: int, t: int, i: int, lo: int)
    requires Banded(a, w) && 0 <= i < w && 0 <= t
    requires lo == if t + i - w + 1 < 0 then 0 else t + i - w + 1
    ensures Sum(0, t, Product(a, t, t + i)) == Sum(lo, t, Product(a, t, t + i))
  {
    var s := t + i;
    forall k | 0 <= k < lo
      ensures Product(a, t, s)(k) == 0.0
    {
      LowerBanded(a, w, s, k);
    }
    SumNarrow(0, lo, t, t, Product(a, t, s));
  }

  lemma ForwardBand(a: Matrix, b: Vector, w: int, t: int, lo: int)
    requires Banded(a, w) && 0 < w && 0 <= t
    requires lo == if t - w + 1 < 0 then 0 else t - w + 1
    ensures Forward(a, b, t) == b(t) - Sum(lo, t, ForwardTerms(a, b, t))
  {
    forall k | 0 <= k < lo
      ensures ForwardTerms(a, b, t)(k) == 0.0
    {
      LowerBanded(a, w, t, k);
    }
    SumNarrow(0, lo, t, t, ForwardTerms(a, b, t));
    ForwardStep(a, b, t);
  }

  lemma BackwardBand(a: Matrix, b: Vector, w: int, n: int, t: int, hi: int)
    requires Banded(a, w) && 0 < w && 0 <= t < n && Pivot(a, t) != 0.0
    requires hi == if t + w > n then n else t + w
    ensures Backward(a, b, n, t) == Forward(a, b, t) / Pivot(a, t) - Sum(t + 1, hi, BackwardTerms(a, b, n, t))
  {
    forall s | hi <= s < n
      ensures BackwardTerms(a, b, n, t)(s) == 0.0
    {
      LowerBanded(a, w, s, t);
    }
    SumNarrow(t + 1, t + 1, hi, n, BackwardTerms(a, b, n, t));
    BackwardStep(a, b, n, t);
  }

  class PStream {
    // sizes, windows and statistics: only read
    const length: nat
    const staticLength: nat
    const width: nat
    const windows: seq<Window>
    const ivar: seq<seq<real>>
    const mean: seq<seq<real>>
    // global-variance statistics: only read
    const gvLength: nat
    const gvMean: seq<real>
    const gvVari: seq<real>
    const gvSwitch: seq<bool>
    const tuning: Tuning
    // work space and result: overwritten
    const wuw: array2<real>
    const wum: array<real>
    const g: array<real>
    const par: array2<real>

    constructor (length: nat, staticLength: nat, width: nat, windows: seq<Window>,
                 ivar: seq<seq<real>>, mean: seq<seq<real>>,
                 gvLength: nat, gvMean: seq<real>, gvVari: seq<real>, gvSwitch: seq<bool>, tuning: Tuning,
                 wuw: array2<real>, wum: array<real>, g: array<real>, par: array2<real>)
      ensures this.length == length && this.staticLength == staticLength && this.width == width
      ensures this.windows == windows && this.ivar == ivar && this.mean == mean
      ensures this.gvLength == gvLength && this.gvMean == gvMean && this.gvVari == gvVari
      ensures this.gvSwitch == gvSwitch && this.tuning == tuning
      ensures this.wuw == wuw && this.wum == wum && this.g == g && this.par == par
    {
      this.length, this.staticLength, this.width, this.windows := length, staticLength, width, windows;
      this.ivar, this.mean := ivar, mean;
      this.gvLength, this.gvMean, this.gvVari, this.gvSwitch := gvLength, gvMean, gvVari, gvSwitch;
      this.tuning := tuning;
      this.wuw, this.wum, this.g, this.par := wuw, wum, g, par;
    }

    /** What the caller sets up before the call. */
    ghost predicate Valid() {
      && (forall i :: 0 <= i < |windows| ==> windows[i].Valid() && 2 * windows[i].radius < width)
      && 0 < width
      && length <= |ivar| && length <= |mean|
      && (forall t :: 0 <= t < length ==> |windows| * staticLength <= |ivar[t]|)
      && (forall t :: 0 <= t < length ==> |windows| * staticLength <= |mean[t]|)
      && length <= wuw.Length0 && width <= wuw.Length1
      && length <= wum.Length && length <= g.Length
      && length <= par.Length0 && staticLength <= par.Length1
      && wuw != par && wum != g
      && staticLength <= |gvMean| && staticLength <= |gvVari| && length <= |gvSwitch|
    }

    static lemma Column(i: int, m: int, rows: int, columns: int)
      requires 0 <= i < rows && 0 <= m < columns
      ensures 0 <= i * columns + m < rows * columns
    {
      assert i * columns <= (rows - 1) * columns;
    }

    /** The least-squares problem of dimension m. */
    ghost function Dimension(m: int): (p: Problem)
      requires Valid() && 0 <= m < staticLength
      ensures p.Valid() && Fits(p, width)
      ensures p.length == length && p.windows == windows
    {
      Problem(length, windows,
              (t: int, i: int) => if 0 <= t < length && 0 <= i < |windows| then Cell(ivar, t, i, m) else 0.0,
              (t: int, i: int) => if 0 <= t < length && 0 <= i < |windows| then Cell(mean, t, i, m) else 0.0)
    }

    ghost function Cell(s: seq<seq<real>>, t: int, i: int, m: int): real
      requires Valid() && 0 <= m < staticLength && 0 <= t < length && 0 <= i < |windows|
      requires s == ivar || s == mean
    {
      Column(i, m, |windows|, staticLength);
      s[t][i * staticLength + m]
    }

    /** The innermost loop: what frame t + j adds to row t of W' U^-1 W through window i. */
    method AddTap(m: nat, t: nat, i: nat, j: int, wu: real)
      requires Valid() && m < staticLength && t < length && i < |windows|
      requires -(windows[i].radius as int) <= j <= windows[i].radius && 0 <= t + j < length
      requires wu == Rows(Dimension(m), i)(t + j, t) * Weights(Dimension(m), i)(t + j)
      modifies wuw
      ensures forall k :: 0 <= k < width && t + k < length
                ==> wuw[t, k] == old(wuw[t, k]) + MatrixTerm(Dimension(m), i, t, k)(t + j)
      ensures forall t', k :: 0 <= t' < wuw.Length0 && 0 <= k < wuw.Length1 && t' != t ==> wuw[t', k] == old(wuw[t', k])
    {
      ghost var p := Dimension(m);
      var k := 0;
      while k < width && t + k < length
        invariant 0 <= k <= width && t + k <= length
        invariant forall k' :: 0 <= k' < k ==> wuw[t, k'] == old(wuw[t, k']) + MatrixTerm(p, i, t, k')(t + j)
        invariant forall k' :: k <= k' < wuw.Length1 ==> wuw[t, k'] == old(wuw[t, k'])
        invariant forall t', k' :: 0 <= t' < wuw.Length0 && 0 <= k' < wuw.Length1 && t' != t
                    ==> wuw[t', k'] == old(wuw[t', k'])
      {
        assert Rows(p, i)(t + j, t + k) == windows[i].At(k - j);
        if k - j <= windows[i].radius && windows[i].coef[k - j + windows[i].radius] != 0.0 {
          wuw[t, k] := wuw[t, k] + wu * windows[i].coef[k - j + windows[i].radius];
        }
        k := k + 1;
      }
    }

    /** One offset j: frame t + j, unless window i is deaf to it. */
    method AddOffset(m: nat, t: nat, i: nat, j: int)
      requires Valid() && m < staticLength && t < length && i < |windows|
      requires -(windows[i].radius as int) <= j <= windows[i].radius && 0 <= t + j < length
      modifies wuw, wum
      ensures wum[t] == old(wum[t]) + VectorTerm(Dimension(m), i, t)(t + j)
      ensures forall k :: 0 <= k < width && t + k < length
                ==> wuw[t, k] == old(wuw[t, k]) + MatrixTerm(Dimension(m), i, t, k)(t + j)
      ensures forall t' :: 0 <= t' < wum.Length && t' != t ==> wum[t'] == old(wum[t'])
      ensures forall t', k :: 0 <= t' < wuw.Length0 && 0 <= k < wuw.Length1 && t' != t ==> wuw[t', k] == old(wuw[t', k])
    {
      assert Rows(Dimension(m), i)(t + j, t) == windows[i].At(-j);
      if windows[i].coef[-j + windows[i].radius] != 0.0 {
        Column(i, m, |windows|, staticLength);
        var wu := windows[i].coef[-j + windows[i].radius] * ivar[t + j][i * staticLength + m];
        wum[t] := wum[t] + wu * mean[t + j][i * staticLength + m];
        AddTap(m, t, i, j, wu);
      } else {
        TapIsZero(Dimension(m), i, t, t + j);
      }
    }

    /** The loop over offsets j: window i's whole contribution to row t. */
    method AddWindow(m: nat, t: nat, i: nat)
      requires Valid() && m < staticLength && t < length && i < |windows|
      modifies wuw, wum
      ensures wum[t] == old(wum[t]) + TargetShare(Dimension(m), i)(t)
      ensures forall k :: 0 <= k < width && t + k < length
                ==> wuw[t, k] == old(wuw[t, k]) + Share(Dimension(m), i)(t, t + k)
      ensures forall t' :: 0 <= t' < wum.Length && t' != t ==> wum[t'] == old(wum[t'])
      ensures forall t', k :: 0 <= t' < wuw.Length0 && 0 <= k < wuw.Length1 && t' != t ==> wuw[t', k] == old(wuw[t', k])
    {
      ghost var p := Dimension(m);
      var r := windows[i].radius;
      ghost var lo := if t - r < 0 then 0 else t - r;
      ghost var hi := if t + r + 1 > length then length else t + r + 1;
      TapsSuffice(p, i, t, lo, hi);
      hide TapsVector, TapsMatrix, Share, TargetShare;
      var j := -(r as int);
      ghost var done := lo;
      while j <= r
        invariant -(r as int) <= j <= r + 1
        invariant done == if t + j < lo then lo else if t + j > hi then hi else t + j
        invariant wum[t] == old(wum[t]) + TapsVector(p, i, t, done)
        invariant forall k :: 0 <= k < width && t + k < length
                    ==> wuw[t, k] == old(wuw[t, k]) + TapsMatrix(p, i, t, k, done)
        invariant forall t' :: 0 <= t' < wum.Length && t' != t ==> wum[t'] == old(wum[t'])
        invariant forall t', k :: 0 <= t' < wuw.Length0 && 0 <= k < wuw.Length1 && t' != t
                    ==> wuw[t', k] == old(wuw[t', k])
      {
        if 0 <= t + j < length {
          TapsStep(p, i, t, done);
          AddOffset(m, t, i, j);
          done := done + 1;
        }
        j := j + 1;
      }
    }

    /** The band holds W' U^-1 W of dimension m and wum holds W' U^-1 mu. */
    ghost predicate HoldsEquations(m: int)
      requires Valid() && 0 <= m < staticLength
      reads wuw, wum
    {
      && (forall t :: 0 <= t < length ==> wum[t] == NormalVector(Dimension(m))(t))
      && HoldsBand(NormalMatrix(Dimension(m)))
    }

    ghost predicate HoldsBand(a: Matrix)
      requires Valid()
      reads wuw
    {
      forall t, k :: 0 <= t < length && 0 <= k < width && t + k < length ==> wuw[t, k] == a(t, t + k)
    }

    method CalcWuwAndWum(m: nat)
      requires Valid() && m < staticLength
      modifies wuw, wum
      ensures HoldsEquations(m)
    {
      hide Sum, NormalMatrix, NormalVector;
      ghost var p := Dimension(m);
      var t := 0;
      while t < length
        invariant 0 <= t <= length
        invariant forall t' :: 0 <= t' < t ==> wum[t'] == NormalVector(p)(t')
        invariant forall t', k :: 0 <= t' < t && 0 <= k < width && t' + k < length
                    ==> wuw[t', k] == NormalMatrix(p)(t', t' + k)
      {
        ClearRow(t);
        CalcRow(m, t);
        t := t + 1;
      }
    }

    method ClearRow(t: nat)
      requires Valid() && t < length
      modifies wuw, wum
      ensures wum[t] == 0.0 && forall k :: 0 <= k < width ==> wuw[t, k] == 0.0
      ensures forall t' :: 0 <= t' < wum.Length && t' != t ==> wum[t'] == old(wum[t'])
      ensures forall t', k :: 0 <= t' < wuw.Length0 && 0 <= k < wuw.Length1 && t' != t ==> wuw[t', k] == old(wuw[t', k])
    {
      wum[t] := 0.0;
      var i := 0;
      while i < width
        invariant 0 <= i <= width
        invariant wum[t] == 0.0 && forall t' :: 0 <= t' < wum.Length && t' != t ==> wum[t'] == old(wum[t'])
        invariant forall k :: 0 <= k < i ==> wuw[t, k] == 0.0
        invariant forall t', k :: 0 <= t' < wuw.Length0 && 0 <= k < wuw.Length1 && t' != t
                    ==> wuw[t', k] == old(wuw[t', k])
      {
        wuw[t, i] := 0.0;
        i := i + 1;
      }
    }

    /** The loop over windows: row t of both sides of the equations. */
    method CalcRow(m: nat, t: nat)
      requires Valid() && m < staticLength && t < length
      requires wum[t] == 0.0 && forall k :: 0 <= k < width ==> wuw[t, k] == 0.0
      modifies wuw, wum
      ensures wum[t] == NormalVector(Dimension(m))(t)
      ensures forall k :: 0 <= k < width && t + k < length ==> wuw[t, k] == NormalMatrix(Dimension(m))(t, t + k)
      ensures forall t' :: 0 <= t' < wum.Length && t' != t ==> wum[t'] == old(wum[t'])
      ensures forall t', k :: 0 <= t' < wuw.Length0 && 0 <= k < wuw.Length1 && t' != t ==> wuw[t', k] == old(wuw[t', k])
    {
      ghost var p := Dimension(m);
      PartialEmpty(p, t);
      hide PartialVector, PartialMatrix;
      var i := 0;
      while i < |windows|
        invariant 0 <= i <= |windows|
        invariant wum[t] == PartialVector(p, i, t)
        invariant forall k :: 0 <= k < width && t + k < length ==> wuw[t, k] == PartialMatrix(p, i, t, k)
        invariant forall t' :: 0 <= t' < wum.Length && t' != t ==> wum[t'] == old(wum[t'])
        invariant forall t', k :: 0 <= t' < wuw.Length0 && 0 <= k < wuw.Length1 && t' != t
                    ==> wuw[t', k] == old(wuw[t', k])
      {
        AddWindow(m, t, i);
        PartialStep(p, i, t);
        i := i + 1;
      }
      PartialFull(p, t);
    }

    /** The band holds the factors of a: pivots in column 0, the entries of L in the others. */
    ghost predicate HoldsFactors(a: Matrix)
      requires Valid()
      reads wuw
    {
      forall t, k :: 0 <= t < length && 0 <= k < width && t + k < length
        ==> wuw[t, k] == if k == 0 then Pivot(a, t) else Lower(a, t + k, t)
    }

    /** A = L D L', overwriting the band of A row by row. */
    method LdlFactorization(ghost a: Matrix)
      requires Valid() && HoldsBand(a)
      requires Banded(a, width) && NonzeroPivots(a, length)
      modifies wuw
      ensures HoldsFactors(a)
    {
      hide Pivot, Lower, Forward, Backward;
      var t := 0;
      while t < length
        invariant 0 <= t <= length
        invariant forall t', k :: 0 <= t' < t && 0 <= k < width && t' + k < length
                    ==> wuw[t', k] == if k == 0 then Pivot(a, t') else Lower(a, t' + k, t')
        invariant forall t', k :: t <= t' < length && 0 <= k < width && t' + k < length ==> wuw[t', k] == a(t', t' + k)
      {
        FactorPivot(a, t);
        FactorRow(a, t);
        t := t + 1;
      }
    }

    /** Row t is untouched; the rows above are factored. */
    ghost predicate FactoredAbove(a: Matrix, t: int)
      requires Valid() && t <= length
      reads wuw
    {
      forall t', k :: 0 <= t' < t && 0 <= k < width && t' + k < length
        ==> wuw[t', k] == if k == 0 then Pivot(a, t') else Lower(a, t' + k, t')
    }

    method FactorPivot(ghost a: Matrix, t: nat)
      requires Valid() && Banded(a, width) && t < length && FactoredAbove(a, t)
      requires wuw[t, 0] == a(t, t)
      modifies wuw
      ensures wuw[t, 0] == Pivot(a, t)
      ensures forall t', k :: 0 <= t' < wuw.Length0 && 0 <= k < wuw.Length1 && (t' != t || k != 0)
                ==> wuw[t', k] == old(wuw[t', k])
    {
      hide Pivot, Lower, Forward, Backward;
      var i := 1;
      while i < width && t >= i
        invariant 1 <= i <= width && i <= t + 1
        invariant wuw[t, 0] == a(t, t) - Sum(t - i + 1, t, Product(a, t, t))
        invariant forall t', k :: 0 <= t' < wuw.Length0 && 0 <= k < wuw.Length1 && (t' != t || k != 0)
                    ==> wuw[t', k] == old(wuw[t', k])
      {
        assert Product(a, t, t)(t - i) == wuw[t - i, i] * wuw[t - i, i] * wuw[t - i, 0];
        wuw[t, 0] := wuw[t, 0] - wuw[t - i, i] * wuw[t - i, i] * wuw[t - i, 0];
        i := i + 1;
      }
      EliminationBand(a, width, t, 0, t - i + 1);
      PivotStep(a, t);
    }

    method FactorRow(ghost a: Matrix, t: nat)
      requires Valid() && Banded(a, width) && t < length && FactoredAbove(a, t)
      requires wuw[t, 0] == Pivot(a, t) != 0.0
      requires forall k :: 1 <= k < width && t + k < length ==> wuw[t, k] == a(t, t + k)
      modifies wuw
      ensures FactoredAbove(a, t + 1)
      ensures forall t', k :: t < t' < wuw.Length0 && 0 <= k < wuw.Length1 ==> wuw[t', k] == old(wuw[t', k])
    {
      hide Pivot, Lower, Forward, Backward;
      var i := 1;
      while i < width
        invariant 1 <= i <= width
        invariant FactoredAbove(a, t) && wuw[t, 0] == Pivot(a, t)
        invariant forall k :: 1 <= k < i && t + k < length ==> wuw[t, k] == Lower(a, t + k, t)
        invariant forall k :: i <= k < width && t + k < length ==> wuw[t, k] == a(t, t + k)
        invariant forall t', k :: t < t' < wuw.Length0 && 0 <= k < wuw.Length1 ==> wuw[t', k] == old(wuw[t', k])
      {
        EliminateCell(a, t, i);
        if t + i < length {
          LowerStep(a, t + i, t);
        }
        wuw[t, i] := wuw[t, i] / wuw[t, 0];
        i := i + 1;
      }
    }

    /** The loop over j: subtract what the columns already computed contribute to (t, t + i). */
    method EliminateCell(ghost a: Matrix, t: nat, i: nat)
      requires Valid() && Banded(a, width) && t < length && 1 <= i < width && FactoredAbove(a, t)
      requires t + i < length ==> wuw[t, i] == a(t, t + i)
      modifies wuw
      ensures t + i < length ==> wuw[t, i] == a(t, t + i) - Sum(0, t, Product(a, t, t + i))
      ensures forall t', k :: 0 <= t' < wuw.Length0 && 0 <= k < wuw.Length1 && (t' != t || k != i)
                ==> wuw[t', k] == old(wuw[t', k])
    {
      hide Pivot, Lower, Forward, Backward;
      var j := 1;
      while i + j < width && t >= j
        invariant 1 <= j && i + j <= width && j <= t + 1
        invariant t + i < length ==> wuw[t, i] == a(t, t + i) - Sum(t - j + 1, t, Product(a, t, t + i))
        invariant forall t', k :: 0 <= t' < wuw.Length0 && 0 <= k < wuw.Length1 && (t' != t || k != i)
                    ==> wuw[t', k] == old(wuw[t', k])
      {
        assert t + i < length
          ==> Product(a, t, t + i)(t - j) == wuw[t - j, j] * wuw[t - j, i + j] * wuw[t - j, 0];
        wuw[t, i] := wuw[t, i] - wuw[t - j, j] * wuw[t - j, i + j] * wuw[t - j, 0];
        j := j + 1;
      }
      EliminationBand(a, width, t, i, t - j + 1);
    }

    /** L g = wum. */
    method ForwardSubstitution(ghost a: Matrix, ghost b: Vector)
      requires Valid() && HoldsFactors(a) && Banded(a, width)
      requires forall t :: 0 <= t < length ==> wum[t] == b(t)
      modifies g
      ensures forall t :: 0 <= t < length ==> g[t] == Forward(a, b, t)
    {
      hide Pivot, Lower, Forward, Backward;
      var t := 0;
      while t < length
        invariant 0 <= t <= length
        invariant forall t' :: 0 <= t' < t ==> g[t'] == Forward(a, b, t')
      {
        g[t] := wum[t];
        var i := 1;
        while i < width && t >= i
          invariant 1 <= i <= width && i <= t + 1
          invariant g[t] == b(t) - Sum(t - i + 1, t, ForwardTerms(a, b, t))
          invariant forall t' :: 0 <= t' < t ==> g[t'] == Forward(a, b, t')
        {
          assert ForwardTerms(a, b, t)(t - i) == wuw[t - i, i] * g[t - i];
          g[t] := g[t] - wuw[t - i, i] * g[t - i];
          i := i + 1;
        }
        ForwardBand(a, b, width, t, t - i + 1);
        t := t + 1;
      }
    }

    /** D L' par = g, from the last frame back; the other dimensions of par are left alone. */
    method BackwardSubstitution(ghost a: Matrix, ghost b: Vector, m: nat)
      requires Valid() && HoldsFactors(a) && Banded(a, width) && NonzeroPivots(a, length) && m < staticLength
      requires forall t :: 0 <= t < length ==> g[t] == Forward(a, b, t)
      modifies par
      ensures forall t :: 0 <= t < length ==> par[t, m] == Backward(a, b, length, t)
      ensures forall t, n :: 0 <= t < par.Length0 && 0 <= n < par.Length1 && (n != m || t >= length)
                ==> par[t, n] == old(par[t, n])
    {
      hide Pivot, Lower, Forward, Backward;
      var t := length - 1;
      while t >= 0
        invariant -1 <= t < length
        invariant forall t' :: t < t' < length ==> par[t', m] == Backward(a, b, length, t')
        invariant forall t', n :: 0 <= t' < par.Length0 && 0 <= n < par.Length1 && (n != m || t' >= length)
                    ==> par[t', n] == old(par[t', n])
      {
        par[t, m] := g[t] / wuw[t, 0];
        var i := 1;
        while i < width && t + i < length
          invariant 1 <= i <= width && t + i <= length
          invariant par[t, m] == Forward(a, b, t) / Pivot(a, t) - Sum(t + 1, t + i, BackwardTerms(a, b, length, t))
          invariant forall t' :: t < t' < length ==> par[t', m] == Backward(a, b, length, t')
          invariant forall t', n :: 0 <= t' < par.Length0 && 0 <= n < par.Length1 && (n != m || t' >= length)
                      ==> par[t', n] == old(par[t', n])
        {
          assert BackwardTerms(a, b, length, t)(t + i) == wuw[t, i] * par[t + i, m];
          SumLast(t + 1, t + i + 1, BackwardTerms(a, b, length, t));
          par[t, m] := par[t, m] - wuw[t, i] * par[t + i, m];
          i := i + 1;
        }
        BackwardBand(a, b, width, length, t, t + i);
        t := t - 1;
      }
    }

    /** Dimension m of the trajectory matrix, as it stands. */
    ghost function Track(m: int): Vector
      requires Valid() && 0 <= m < staticLength
      reads par
    {
      OfSeq(Frames(m))
    }

    ghost function Frames(m: int): (s: seq<real>)
      requires Valid() && 0 <= m < staticLength
      reads par
      ensures |s| == length && forall t :: 0 <= t < length ==> s[t] == par[t, m]
    {
      seq(length, t requires 0 <= t < length reads par => par[t, m])
    }

    /** The mean and variance of dimension m over the switched-on frames. */
    method CalcGv(m: nat) returns (avg: real, vari: real)
      requires Valid() && m < staticLength && gvLength > 0
      ensures avg == GvMean(gvSwitch, length, gvLength, Track(m))
      ensures vari == GvVariance(gvSwitch, length, gvLength, Track(m))
    {
      hide Sum;
      ghost var x := Track(m);
      avg := 0.0;
      SumZero(0, 0, Switched(gvSwitch, x));
      var t := 0;
      while t < length
        invariant 0 <= t <= length && avg == Sum(0, t, Switched(gvSwitch, x))
      {
        SumLast(0, t + 1, Switched(gvSwitch, x));
        if gvSwitch[t] {
          avg := avg + par[t, m];
        }
        t := t + 1;
      }
      avg := avg / gvLength as real;
      vari := 0.0;
      SumZero(0, 0, Switched(gvSwitch, Deviation(x, avg)));
      t := 0;
      while t < length
        invariant 0 <= t <= length && vari == Sum(0, t, Switched(gvSwitch, Deviation(x, avg)))
      {
        SumLast(0, t + 1, Switched(gvSwitch, Deviation(x, avg)));
        if gvSwitch[t] {
          vari := vari + (par[t, m] - avg) * (par[t, m] - avg);
        }
        t := t + 1;
      }
      vari := vari / gvLength as real;
    }

    /** Stretch the switched-on frames around their mean. */
    method ConvGv(m: nat)
      requires Valid() && m < staticLength && gvLength > 0
      modifies par
      ensures var x := old(Track(m));
              var avg := GvMean(gvSwitch, length, gvLength, x);
              var ratio := tuning.rootOfRatio(gvMean[m], GvVariance(gvSwitch, length, gvLength, x));
              forall t :: 0 <= t < length ==> par[t, m] == Rescaled(gvSwitch, x, ratio, avg)(t)
      ensures var avg, vari := GvMean(gvSwitch, length, gvLength, old(Track(m))), GvVariance(gvSwitch, length, gvLength, old(Track(m)));
              var ratio := tuning.rootOfRatio(gvMean[m], vari);
              OnCount(gvSwitch, length) == gvLength as real && vari != 0.0 && ratio * ratio == gvMean[m] / vari
              ==> GvMean(gvSwitch, length, gvLength, Track(m)) == avg
                  && GvVariance(gvSwitch, length, gvLength, Track(m)) == gvMean[m]
      ensures forall t, n :: 0 <= t < par.Length0 && 0 <= n < par.Length1 && (n != m || t >= length)
                ==> par[t, n] == old(par[t, n])
    {
      hide Sum, Rescaled, OnCount, GvMean, GvVariance;
      var avg, vari := CalcGv(m);
      var ratio := tuning.rootOfRatio(gvMean[m], vari);
      ghost var x := Track(m);
      Stretch(m, ratio, avg);
      MeasuresSame(gvSwitch, length, gvLength, Track(m), Rescaled(gvSwitch, x, ratio, avg));
      if OnCount(gvSwitch, length) == gvLength as real && vari != 0.0 && ratio * ratio == gvMean[m] / vari {
        ReachesWantedVariance(gvSwitch, length, gvLength, x, ratio, gvMean[m]);
      }
    }

    method Stretch(m: nat, ratio: real, avg: real)
      requires Valid() && m < staticLength
      modifies par
      ensures forall t :: 0 <= t < length ==> par[t, m] == Rescaled(gvSwitch, old(Track(m)), ratio, avg)(t)
      ensures forall t, n :: 0 <= t < par.Length0 && 0 <= n < par.Length1 && (n != m || t >= length)
                ==> par[t, n] == old(par[t, n])
    {
      ghost var x := Track(m);
      var t := 0;
      while t < length
        invariant 0 <= t <= length
        invariant forall t' :: 0 <= t' < t ==> par[t', m] == Rescaled(gvSwitch, x, ratio, avg)(t')
        invariant forall t' :: t <= t' < length ==> par[t', m] == x(t')
        invariant forall t', n :: 0 <= t' < par.Length0 && 0 <= n < par.Length1 && (n != m || t' >= length)
                    ==> par[t', n] == old(par[t', n])
      {
        if gvSwitch[t] {
          par[t, m] := ratio * (par[t, m] - avg) + avg;
        }
        t := t + 1;
      }
    }

    /** Row t of the symmetric matrix times the trajectory, from the upper band alone. */
    method BandProduct(ghost a: Matrix, m: nat)
      requires Valid() && m < staticLength
      requires HoldsBand(a) && Banded(a, width) && Symmetric(a)
      modifies g
      ensures forall t :: 0 <= t < length ==> g[t] == Apply(a, length, Track(m), t)
    {
      hide Sum, Apply;
      ghost var x := Track(m);
      var t := 0;
      while t < length
        invariant 0 <= t <= length
        invariant forall t' :: 0 <= t' < t ==> g[t'] == Apply(a, length, x, t')
      {
        g[t] := wuw[t, 0] * par[t, m];
        BandStart(a, x, t, length);
        var i := 1;
        while i < width
          invariant 1 <= i <= width
          invariant g[t] == BandPart(a, x, t, length, i)
          invariant forall t' :: 0 <= t' < t ==> g[t'] == Apply(a, length, x, t')
        {
          BandStep(a, x, t, length, i);
          if t + i < length {
            g[t] := g[t] + wuw[t, i] * par[t + i, m];
          }
          if t + 1 > i {
            g[t] := g[t] + wuw[t - i, i] * par[t - i, m];
          }
          i := i + 1;
        }
        BandFull(a, x, t, length, width);
        t := t + 1;
      }
    }

    ghost function StageOf(m: int): (s: Setting)
      requires Valid() && 0 <= m < staticLength
    {
      Setting(length, |windows|, gvLength, gvMean[m], gvVari[m], gvSwitch, tuning)
    }

    /** The scaled gradient of the joint objective, and minus the objective itself. */
    method CalcDerivative(m: nat) returns (obj: real)
      requires Valid() && m < staticLength && gvLength > 0 && length > 0 && |windows| > 0
      requires HoldsEquations(m)
      requires forall t :: 0 <= t < length ==> Curvature(StageOf(m), NormalMatrix(Dimension(m)), Track(m), t) != 0.0
      modifies g
      ensures var p := Dimension(m);
              && (forall t :: 0 <= t < length
                    ==> g[t] == Slope(StageOf(m), NormalMatrix(p), NormalVector(p), Track(m), t)
                                / Curvature(StageOf(m), NormalMatrix(p), Track(m), t))
              && obj == -Objective(StageOf(m), NormalMatrix(p), NormalVector(p), Track(m))
    {
      ghost var p := Dimension(m);
      NormalBanded(p, width);
      NormalSymmetric(p);
      var w := 1.0 / (|windows| * length) as real;
      assert w == StageOf(m).Share();
      hide Sum, Apply, NormalMatrix, NormalVector, GvMean, GvVariance, PullFormula, VarianceFormula, Slope, Curvature,
        ObjectiveTerm, HoldsBand, Setting.Share;
      var avg, vari := CalcGv(m);
      var gvobj := VarianceFormula(tuning, gvVari[m], gvMean[m], vari);
      var dv := PullFormula(length, gvVari[m], gvMean[m], vari);
      BandProduct(NormalMatrix(p), m);
      var hmmobj := ScaleGradient(m, StageOf(m), w, avg, vari, dv, NormalMatrix(p), NormalVector(p), Track(m));
      obj := -(hmmobj + gvobj);
    }

    /** The last loop: g holds A x on entry and the step on exit. */
    method ScaleGradient(m: nat, ghost s: Setting, w: real, avg: real, vari: real, dv: real,
                         ghost a: Matrix, ghost b: Vector, ghost x: Vector)
      returns (hmmobj: real)
      requires Valid() && m < staticLength && gvLength > 0 && length > 0 && |windows| > 0
      requires s == StageOf(m) && x == Track(m)
      requires HoldsBand(a) && forall t :: 0 <= t < length ==> wum[t] == b(t)
      requires w == s.Share() && avg == s.Mean(x) && vari == s.Variance(x)
      requires dv == PullFormula(length, gvVari[m], gvMean[m], vari)
      requires forall t :: 0 <= t < length ==> g[t] == Apply(a, length, x, t)
      requires forall t :: 0 <= t < length ==> Curvature(s, a, x, t) != 0.0
      modifies g
      ensures forall t :: 0 <= t < length ==> g[t] == Slope(s, a, b, x, t) / Curvature(s, a, x, t)
      ensures hmmobj == Sum(0, length, ObjectiveTerm(s, a, b, x))
    {
      hide Sum, Apply, PullFormula, LikelihoodFormula, CurvatureFormula, SlopeFormula,
        Setting.Share, Setting.Mean, Setting.Variance;
      ghost var terms := ObjectiveTerm(s, a, b, x);
      hmmobj := 0.0;
      SumZero(0, 0, terms);
      var t := 0;
      while t < length
        invariant 0 <= t <= length
        invariant hmmobj == Sum(0, t, terms)
        invariant forall t' :: 0 <= t' < t ==> g[t'] == Slope(s, a, b, x, t') / Curvature(s, a, x, t')
        invariant forall t' :: t <= t' < length ==> g[t'] == Apply(a, length, x, t')
      {
        SumLast(0, t + 1, terms);
        hmmobj := hmmobj + LikelihoodFormula(tuning, w, par[t, m], wum[t], g[t]);
        var h := CurvatureFormula(tuning, length, w, wuw[t, 0], gvVari[m], gvMean[m], vari, avg, par[t, m]);
        assert h == Curvature(s, a, x, t);
        assert -g[t] + wum[t] == b(t) - Apply(a, length, x, t);
        var slope := SlopeFormula(tuning, w, -g[t] + wum[t], gvSwitch[t], dv, avg, par[t, m]);
        assert slope == Slope(s, a, b, x, t);
        Reciprocal(h, slope);
        g[t] := 1.0 / h * slope;
        t := t + 1;
      }
    }

    static lemma Reciprocal(h: real, slope: real)
      requires h != 0.0
      ensures 1.0 / h * slope == slope / h
    {
    }

    /** What dimension m needs so that no division by zero occurs. */
    ghost predicate Solvable(m: int)
      requires Valid() && 0 <= m < staticLength
    {
      && NonzeroPivots(NormalMatrix(Dimension(m)), length)
      && (gvLength > 0 ==>
            && length > 0 && |windows| > 0
            && forall t :: 0 <= t < length
                 ==> Curvature(StageOf(m), NormalMatrix(Dimension(m)), OfSeq(Wanted(m)), t) != 0.0)
    }

    /** The solution of dimension m, frame by frame. */
    ghost function Wanted(m: int): (s: seq<real>)
      requires Valid() && 0 <= m < staticLength
      ensures |s| == length && forall t :: 0 <= t < length ==> s[t] == Trajectory(Dimension(m))(t)
    {
      seq(length, t => Trajectory(Dimension(m))(t))
    }

    ghost predicate SwitchesOff() {
      forall t :: 0 <= t < |gvSwitch| ==> !gvSwitch[t]
    }

    lemma WantedSolves(m: int)
      requires Valid() && 0 <= m < staticLength && NonzeroPivots(NormalMatrix(Dimension(m)), length)
      ensures Solves(Dimension(m), OfSeq(Wanted(m)))
    {
      var p := Dimension(m);
      TrajectorySolves(p);
      hide Apply, NormalMatrix, NormalVector, Trajectory;
      forall t | 0 <= t < length
        ensures Apply(NormalMatrix(p), length, OfSeq(Wanted(m)), t) == NormalVector(p)(t)
      {
        ApplySameVector(NormalMatrix(p), length, OfSeq(Wanted(m)), Trajectory(p), t);
      }
    }

    /** The global-variance stage. With every switch off, whatever the number of iterations, it
        leaves a solution where it is. */
    method GvParmgen(m: nat)
      requires Valid() && m < staticLength && SwitchesOff() && Solvable(m)
      requires Frames(m) == Wanted(m)
      modifies wuw, wum, g, par
      ensures ParKept()
    {
      var step := tuning.stepInit;
      var prev := -tuning.lzero;
      if gvLength == 0 {
        return;
      }
      StretchNothing(m);
      if tuning.maxIteration > 0 {
        CalcWuwAndWum(m);
        var i := 1;
        while i <= tuning.maxIteration
          invariant HoldsEquations(m) && Frames(m) == Wanted(m) && ParKept()
        {
          step, prev := Iterate(m, step, prev);
          i := i + 1;
        }
      }
    }

    twostate predicate ParKept()
      reads par
    {
      forall t, n :: 0 <= t < par.Length0 && 0 <= n < par.Length1
                ==> par[t, n] == old(par[t, n])
    }

    method StretchNothing(m: nat)
      requires Valid() && m < staticLength && SwitchesOff() && gvLength > 0 && Frames(m) == Wanted(m)
      modifies par
      ensures Frames(m) == Wanted(m) && ParKept()
    {
      ConvGv(m);
      AllOff(gvSwitch, length, gvLength, OfSeq(Wanted(m)));
      assert forall t :: 0 <= t < length ==> par[t, m] == old(Frames(m))[t] == old(par[t, m]);
      assert Frames(m) == Wanted(m);
    }

    /** One gradient iteration; the step size depends on how the objective moved. */
    method Iterate(m: nat, step: real, prev: real) returns (step': real, obj: real)
      requires Valid() && m < staticLength && SwitchesOff() && Solvable(m) && gvLength > 0
      requires HoldsEquations(m) && Frames(m) == Wanted(m)
      modifies g, par
      ensures ParKept() && Frames(m) == Wanted(m)
      ensures HoldsEquations(m)
    {
      hide Solvable, HoldsEquations, Wanted;
      obj := StationaryDerivative(m);
      step' := step;
      if obj > prev {
        step' := step' * tuning.stepDec;
      }
      if obj < prev {
        step' := step' * tuning.stepInc;
      }
      Advance(m, step');
      assert Frames(m) == old(Frames(m));
    }

    /** At a solution the derivative loop finds nothing to do. */
    method StationaryDerivative(m: nat) returns (obj: real)
      requires Valid() && m < staticLength && SwitchesOff() && Solvable(m) && gvLength > 0
      requires HoldsEquations(m) && Frames(m) == Wanted(m)
      modifies g
      ensures forall t :: 0 <= t < length ==> g[t] == 0.0
      ensures HoldsEquations(m)
    {
      StepIsZero(m);
      hide Slope, Curvature, NormalMatrix, NormalVector, Objective, HoldsBand;
      obj := CalcDerivative(m);
    }

    lemma StepIsZero(m: nat)
      requires Valid() && m < staticLength && SwitchesOff() && Solvable(m) && gvLength > 0
      ensures var p := Dimension(m);
              forall t :: 0 <= t < length
                ==> Slope(StageOf(m), NormalMatrix(p), NormalVector(p), OfSeq(Wanted(m)), t)
                    / Curvature(StageOf(m), NormalMatrix(p), OfSeq(Wanted(m)), t) == 0.0
    {
      var p := Dimension(m);
      WantedSolves(m);
      hide Apply, NormalMatrix, NormalVector, Slope, Curvature;
      forall t | 0 <= t < length
        ensures Slope(StageOf(m), NormalMatrix(p), NormalVector(p), OfSeq(Wanted(m)), t)
                / Curvature(StageOf(m), NormalMatrix(p), OfSeq(Wanted(m)), t) == 0.0
      {
        StillAtSolution(StageOf(m), NormalMatrix(p), NormalVector(p), OfSeq(Wanted(m)), t);
      }
    }

    method Advance(m: nat, step: real)
      requires Valid() && m < staticLength
      modifies par
      ensures forall t :: 0 <= t < length ==> par[t, m] == old(par[t, m]) + step * g[t]
      ensures forall t, n :: 0 <= t < par.Length0 && 0 <= n < par.Length1 && (n != m || t >= length)
               
                ==> par[t, n] == old(par[t, n])
    {
      var t := 0;
      while t < length
        invariant 0 <= t <= length
        invariant forall t' :: 0 <= t' < t ==> par[t', m] == old(par[t', m]) + step * g[t']
        invariant forall t', n :: 0 <= t' < par.Length0 && 0 <= n < par.Length1 && (n != m || t' >= t)
                    ==> par[t', n] == old(par[t', n])
      {
        par[t, m] := par[t, m] + step * g[t];
        t := t + 1;
      }
    }

    /** Parameter generation: every dimension ends as the solution of its normal equations,
        hence as the trajectory of least weighted error. */
    method Mlpg()
      requires Valid() && (gvLength > 0 ==> SwitchesOff())
      requires forall m :: 0 <= m < staticLength ==> Solvable(m)
      modifies wuw, wum, g, par
      ensures forall m :: 0 <= m < staticLength ==> Solves(Dimension(m), Track(m))
      ensures forall m :: 0 <= m < staticLength && NonnegativeWeights(Dimension(m)) ==> Optimal(Dimension(m), Track(m))
      ensures forall t, n :: 0 <= t < par.Length0 && 0 <= n < par.Length1 && (staticLength <= n || length <= t)
                ==> par[t, n] == old(par[t, n])
    {
      if length > 0 {
        var m := 0;
        while m < staticLength
          invariant 0 <= m <= staticLength
          invariant forall n :: 0 <= n < m ==> Frames(n) == Wanted(n)
          invariant forall t, n :: 0 <= t < par.Length0 && 0 <= n < par.Length1 && (staticLength <= n || length <= t)
                      ==> par[t, n] == old(par[t, n])
        {
          Generate(m);
          m := m + 1;
        }
      }
      forall m | 0 <= m < staticLength
        ensures Solves(Dimension(m), Track(m))
        ensures NonnegativeWeights(Dimension(m)) ==> Optimal(Dimension(m), Track(m))
      {
        assert Frames(m) == Wanted(m) && Solvable(m);
        WantedSolves(m);
        if NonnegativeWeights(Dimension(m)) {
          SolvesIsOptimal(Dimension(m), Track(m));
        }
      }
    }

    /** One turn of the loop over dimensions. */
    method Generate(m: nat)
      requires Valid() && (gvLength > 0 ==> SwitchesOff()) && m < staticLength && Solvable(m)
      modifies wuw, wum, g, par
      ensures Frames(m) == Wanted(m)
      ensures forall t, n :: 0 <= t < par.Length0 && 0 <= n < par.Length1 && (n != m || t >= length)
                ==> par[t, n] == old(par[t, n])
    {
      ghost var a, b := NormalMatrix(Dimension(m)), NormalVector(Dimension(m));
      NormalBanded(Dimension(m), width);
      CalcWuwAndWum(m);
      LdlFactorization(a);
      ForwardSubstitution(a, b);
      BackwardSubstitution(a, b, m);
      assert Frames(m) == Wanted(m);
      if gvLength > 0 {
        GvParmgen(m);
      }
    }
  }
}
