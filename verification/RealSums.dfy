/** Finite sums of real-valued terms and the three exchange laws every matrix argument
    about parameter generation comes down to. */
module RealSums {

  /** f(lo) + ... + f(hi - 1); zero when the range is empty. */
  ghost function Sum(lo: int, hi: int, f: int -> real): real
    decreases hi - lo
  {
    if hi <= lo then 0.0 else f(lo) + Sum(lo + 1, hi, f)
  }

  lemma {:induction false} SumSplit(lo: int, mid: int, hi: int, f: int -> real)
    requires lo <= mid <= hi
    ensures Sum(lo, hi, f) == Sum(lo, mid, f) + Sum(mid, hi, f)
    decreases mid - lo
  {
    if lo < mid {
      SumSplit(lo + 1, mid, hi, f);
    }
  }

  lemma SumLast(lo: int, hi: int, f: int -> real)
    requires lo < hi
    ensures Sum(lo, hi, f) == Sum(lo, hi - 1, f) + f(hi - 1)
  {
    SumSplit(lo, hi - 1, hi, f);
    assert Sum(hi, hi, f) == 0.0;
  }

  lemma {:induction false} SumSame(lo: int, hi: int, f: int -> real, g: int -> real)
    requires forall i :: lo <= i < hi ==> f(i) == g(i)
    ensures Sum(lo, hi, f) == Sum(lo, hi, g)
    decreases hi - lo
  {
    if lo < hi {
      SumSame(lo + 1, hi, f, g);
    }
  }

  lemma {:induction false} SumZero(lo: int, hi: int, f: int -> real)
    requires forall i :: lo <= i < hi ==> f(i) == 0.0
    ensures Sum(lo, hi, f) == 0.0
    decreases hi - lo
  {
    if lo < hi {
      SumZero(lo + 1, hi, f);
    }
  }

  /** Terms outside [lo', hi') vanish, so they may be dropped. */
  lemma SumNarrow(lo: int, lo': int, hi': int, hi: int, f: int -> real)
    requires lo <= lo' <= hi' <= hi
    requires forall i :: lo <= i < lo' || hi' <= i < hi ==> f(i) == 0.0
    ensures Sum(lo, hi, f) == Sum(lo', hi', f)
  {
    SumSplit(lo, lo', hi, f);
    SumSplit(lo', hi', hi, f);
    SumZero(lo, lo', f);
    SumZero(hi', hi, f);
  }

  /** Only the term at k may differ from zero. */
  lemma SumSingle(lo: int, k: int, hi: int, f: int -> real)
    requires lo <= k < hi
    requires forall i :: lo <= i < hi && i != k ==> f(i) == 0.0
    ensures Sum(lo, hi, f) == f(k)
  {
    SumNarrow(lo, k, k + 1, hi, f);
    assert Sum(k + 1, k + 1, f) == 0.0;
  }

  lemma {:induction false} SumNonneg(lo: int, hi: int, f: int -> real)
    requires forall i :: lo <= i < hi ==> f(i) >= 0.0
    ensures Sum(lo, hi, f) >= 0.0
    decreases hi - lo
  {
    if lo < hi {
      SumNonneg(lo + 1, hi, f);
    }
  }

  /** A sum of non-negative terms is at least any one of them. */
  lemma SumAtLeast(lo: int, k: int, hi: int, f: int -> real)
    requires lo <= k < hi
    requires forall i :: lo <= i < hi ==> f(i) >= 0.0
    ensures Sum(lo, hi, f) >= f(k)
  {
    SumSplit(lo, k, hi, f);
    SumNonneg(lo, k, f);
    SumNonneg(k + 1, hi, f);
  }

  lemma {:induction false} SumAdd(lo: int, hi: int, f: int -> real, g: int -> real, h: int -> real)
    requires forall i :: lo <= i < hi ==> h(i) == f(i) + g(i)
    ensures Sum(lo, hi, h) == Sum(lo, hi, f) + Sum(lo, hi, g)
    decreases hi - lo
  {
    if lo < hi {
      SumAdd(lo + 1, hi, f, g, h);
    }
  }

  lemma {:induction false} SumScale(lo: int, hi: int, c: real, f: int -> real, h: int -> real)
    requires forall i :: lo <= i < hi ==> h(i) == c * f(i)
    ensures Sum(lo, hi, h) == c * Sum(lo, hi, f)
    decreases hi - lo
  {
    if lo < hi {
      SumScale(lo + 1, hi, c, f, h);
    }
  }

  /** Fubini: the order of a double sum does not matter. */
  lemma {:induction false} SumSwap(m: int, n: int, f: (int, int) -> real, rows: int -> real, cols: int -> real)
    requires forall i :: 0 <= i < m ==> rows(i) == Sum(0, n, j => f(i, j))
    requires forall j :: 0 <= j < n ==> cols(j) == Sum(0, m, i => f(i, j))
    ensures Sum(0, m, rows) == Sum(0, n, cols)
    decreases m
  {
    if m <= 0 {
      SumZero(0, n, cols);
    } else {
      var last := j => f(m - 1, j);
      var cols' := j => Sum(0, m - 1, i => f(i, j));
      forall j | 0 <= j < n
        ensures cols(j) == cols'(j) + last(j)
      {
        SumLast(0, m, i => f(i, j));
      }
      SumAdd(0, n, cols', last, cols);
      SumLast(0, m, rows);
      SumSwap(m - 1, n, f, rows, cols');
    }
  }
}
