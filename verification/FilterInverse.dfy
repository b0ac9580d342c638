/** Why negated coefficients undo the filter: each cascade is an approximation of an exponential, and
    the cascade for the negated exponent is its exact inverse. */
module FilterInverse {
  import opened Gram
  import opened MlsaFilter

  ghost function Negated(b: Vector): Vector {
    i => -b(i)
  }

  /** With the sign changed for odd i. */
  ghost function Alternating(i: int, x: real): real {
    if i % 2 == 0 then x else -x
  }

  // ----- one cascade -----

  lemma {:induction false} NegatedSum(v: Vector, u: Vector, i: int, n: int)
    requires forall k :: i <= k <= n ==> u(k) == -v(k)
    ensures SumFrom(u, i, n) == -SumFrom(v, i, n)
    decreases n - i
  {
    if i <= n {
      NegatedSum(v, u, i + 1, n);
    }
  }

  /** With alternating taps, and fed what the cascade put out, it feeds back the same value and puts out
      what the cascade was fed. */
  lemma CascadeUndone(t: Vector, u: Vector, pade: Vector, x: real, pd: nat)
    requires forall i :: 1 <= i <= pd ==> u(i) == Alternating(i, t(i))
    ensures Feed(u, pade, Output(t, pade, x, pd), pd) == Feed(t, pade, x, pd)
    ensures Output(u, pade, Output(t, pade, x, pd), pd) == x
  {
    var w, wu := Weighed(t, pade), Weighed(u, pade);
    forall i | 1 <= i <= pd
      ensures wu(i) == -Signed(w)(i) && Signed(wu)(i) == -w(i)
    {
      AlternatingProduct(i, t(i), u(i), pade(i));
    }
    NegatedSum(Signed(w), wu, 1, pd);
    NegatedSum(w, Signed(wu), 1, pd);
  }

  lemma AlternatingProduct(i: int, t: real, u: real, k: real)
    requires u == Alternating(i, t)
    ensures Times(u, k) == Alternating(i, Times(t, k))
  {
  }

  // ----- the first cascade -----

  /** Value i of the first chain, and of the delays before it, with their signs. */
  ghost predicate ChainFlips(f: Params, d: Vector, e: Vector, i: int) {
    e(f.pd + 1 + i) == Alternating(i, d(f.pd + 1 + i)) && (i > 0 ==> e(i) == Alternating(i - 1, d(i)))
  }

  /** e is the first cascade's memory d with alternating signs. */
  ghost predicate Mirrored1(f: Params, d: Vector, e: Vector) {
    forall i {:trigger ChainFlips(f, d, e, i)} :: 0 <= i <= f.pd ==> ChainFlips(f, d, e, i)
  }

  lemma Taps1Mirrored(f: Params, b: Vector, d: Vector, e: Vector, i: int)
    requires Mirrored1(f, d, e) && 1 <= i <= f.pd
    ensures Delay1(f, e, i) == Alternating(i - 1, Delay1(f, d, i))
    ensures Taps1(f, Negated(b), e)(i) == Alternating(i, Taps1(f, b, d)(i))
  {
    assert ChainFlips(f, d, e, i - 1) && ChainFlips(f, d, e, i);
    DelayMirrored(f.a, d(f.pd + i), d(i), i - 1);
    TapMirrored(Delay1(f, d, i), b(1), i);
  }

  lemma DelayMirrored(a: real, p: real, q: real, i: int)
    ensures Times(1.0 - Times(a, a), Alternating(i, p)) + Times(a, Alternating(i, q))
            == Alternating(i, Times(1.0 - Times(a, a), p) + Times(a, q))
  {
  }

  lemma TapMirrored(delay: real, b: real, i: int)
    ensures Times(Alternating(i - 1, delay), -b) == Alternating(i, Times(delay, b))
  {
  }

  /** A sample through the first cascade, and what it gives through the one with negated coefficients and
      mirrored memory: the sample again, and mirrored memories again. */
  lemma FirstUndone(f: Params, b: Vector, x: real, d: Vector, d': Vector, e: Vector, e': Vector)
    requires Moves(f, b, x, d, d') && Moves(f, Negated(b), Middle(f, b, x, d), e, e') && Mirrored1(f, d, e)
    ensures Mirrored1(f, d', e') && Middle(f, Negated(b), Middle(f, b, x, d), e) == x
  {
    var t, u := Taps1(f, b, d), Taps1(f, Negated(b), e);
    forall i | 1 <= i <= f.pd
      ensures u(i) == Alternating(i, t(i)) && Delay1(f, e, i) == Alternating(i - 1, Delay1(f, d, i))
    {
      Taps1Mirrored(f, b, d, e, i);
    }
    CascadeUndone(t, u, f.pade, x, f.pd);
    hide Taps1, Taps2, Delay1, Feed, Output, SectionMoved, Negated;
    forall i | 0 <= i <= f.pd
      ensures ChainFlips(f, d', e', i)
    {
      if i > 0 {
        assert TapsMoved(f, b, d, d', i) && TapsMoved(f, Negated(b), e, e', i);
      }
    }
  }

  // ----- the second cascade -----

  ghost predicate TapFlips(f: Params, d: Vector, e: Vector, i: int) {
    e(Chain2(f) + i) == Alternating(i, d(Chain2(f) + i))
  }

  ghost predicate ValueFlips(f: Params, d: Vector, e: Vector, j: nat, i: int) {
    e(Block(f, j) + i) == Alternating(j, d(Block(f, j) + i))
  }

  /** e is the second cascade's memory d with the signs of every other section changed. */
  ghost predicate Mirrored2(f: Params, d: Vector, e: Vector) {
    && (forall i {:trigger TapFlips(f, d, e, i)} :: 0 <= i <= f.pd ==> TapFlips(f, d, e, i))
    && (forall j: nat {:trigger BlockMirrored(f, d, e, j)} :: j < f.pd ==> BlockMirrored(f, d, e, j))
  }

  ghost predicate BlockMirrored(f: Params, d: Vector, e: Vector, j: nat) {
    forall i {:trigger ValueFlips(f, d, e, j, i)} :: 0 <= i < f.m + 2 ==> ValueFlips(f, d, e, j, i)
  }

  lemma SectionsMirrored(f: Params, d: Vector, e: Vector, j: nat)
    requires Mirrored2(f, d, e) && j < f.pd
    ensures e(Chain2(f) + j) == Alternating(j, d(Chain2(f) + j))
    ensures forall k :: 0 <= k <= f.m + 1 ==> Shifted(e, Block(f, j))(k) == Alternating(j, Shifted(d, Block(f, j))(k))
  {
    assert BlockMirrored(f, d, e, j) && TapFlips(f, d, e, j);
    forall k | 0 <= k <= f.m + 1
      ensures Shifted(e, Block(f, j))(k) == Alternating(j, Shifted(d, Block(f, j))(k))
    {
      assert ValueFlips(f, d, e, j, k);
    }
  }

  lemma {:induction false} WarpMirrored(a: real, x: real, d: Vector, e: Vector, j: int, i: nat)
    requires forall k :: 0 <= k <= (if i < 2 then 1 else i + 1) ==> e(k) == Alternating(j, d(k))
    ensures Warp(a, Alternating(j, x), e, i) == Alternating(j, Warp(a, x, d, i))
  {
    if i == 1 {
      DelayMirrored(a, x, d(1), j);
    } else if i > 1 {
      WarpMirrored(a, x, d, e, j, i - 1);
      WarpStepMirrored(a, d(i), d(i + 1), Warp(a, x, d, i - 1), j);
    }
  }

  lemma WarpStepMirrored(a: real, p: real, q: real, w: real, j: int)
    ensures Alternating(j, p) + Times(a, Alternating(j, q) - Alternating(j, w)) == Alternating(j, p + Times(a, q - w))
  {
  }

  lemma {:induction false} SectionMirrored(a: real, b: Vector, x: real, d: Vector, e: Vector, j: int, n: nat)
    requires forall k :: 0 <= k <= n + 1 ==> e(k) == Alternating(j, d(k))
    ensures Section(a, Negated(b), Alternating(j, x), e, n) == Alternating(j + 1, Section(a, b, x, d, n))
  {
    if n >= 2 {
      hide Warp, Times;
      SectionMirrored(a, b, x, d, e, j, n - 1);
      WarpMirrored(a, x, d, e, j, n);
      TapMirrored(Warp(a, x, d, n), b(n), j + 1);
    }
  }

  lemma Taps2Mirrored(f: Params, b: Vector, d: Vector, e: Vector, i: nat)
    requires Mirrored2(f, d, e) && 1 <= i <= f.pd
    ensures Taps2(f, Negated(b), e)(i) == Alternating(i, Taps2(f, b, d)(i))
  {
    var j := i - 1;
    SectionsMirrored(f, d, e, j);
    var p, q := Shifted(d, Block(f, j)), Shifted(e, Block(f, j));
    hide Section, Negated, Block, Chain2;
    SectionMirrored(f.a, b, d(Chain2(f) + j), p, q, j, f.m);
  }

  lemma SectionMovedMirrored(f: Params, d: Vector, d': Vector, e: Vector, e': Vector, j: nat)
    requires Mirrored2(f, d, e) && j < f.pd && SectionMoved(f, d, d', j) && SectionMoved(f, e, e', j)
    ensures BlockMirrored(f, d', e', j)
  {
    SectionsMirrored(f, d, e, j);
    hide Memory, Block, Chain2, Alternating, Mirrored2, Shifted;
    var p, q := Shifted(d, Block(f, j)), Shifted(e, Block(f, j));
    forall i: nat | i < f.m + 2
      ensures ValueFlips(f, d', e', j, i)
    {
      assert ValueMoved(f, d, d', j, i) && ValueMoved(f, e, e', j, i);
      ValueMirrored(f, d, d', e, e', j, i);
    }
  }

  lemma ValueMirrored(f: Params, d: Vector, d': Vector, e: Vector, e': Vector, j: nat, i: nat)
    requires ValueMoved(f, d, d', j, i) && ValueMoved(f, e, e', j, i) && i < f.m + 2
    requires e(Chain2(f) + j) == Alternating(j, d(Chain2(f) + j))
    requires forall k :: 0 <= k <= f.m + 1 ==> Shifted(e, Block(f, j))(k) == Alternating(j, Shifted(d, Block(f, j))(k))
    ensures ValueFlips(f, d', e', j, i)
  {
    hide Memory, Alternating;
    var p, q := Shifted(d, Block(f, j)), Shifted(e, Block(f, j));
    LimitedMemory(f.a, d(Chain2(f) + j), p, q, j, i, f.m);
  }

  /** A value that is moved on looks at the block's own values only. */
  lemma LimitedMemory(a: real, x: real, d: Vector, e: Vector, j: int, i: nat, m: nat)
    requires i < m + 2 && forall k :: 0 <= k <= m + 1 ==> e(k) == Alternating(j, d(k))
    ensures Memory(a, Alternating(j, x), e, i) == Alternating(j, Memory(a, x, d, i))
  {
    hide Warp, Alternating;
    WarpMirrored(a, x, d, e, j, if i < 2 then i else i - 1);
  }

  /** The same of the second cascade: fed what the filter put out, the one with negated coefficients and
      mirrored memory puts out what the second cascade was fed. */
  lemma SecondUndone(f: Params, b: Vector, x: real, d: Vector, d': Vector, y: real, e: Vector, e': Vector)
    requires Moves(f, b, x, d, d') && Moves(f, Negated(b), y, e, e') && Mirrored2(f, d, e)
    requires Middle(f, Negated(b), y, e) == Filtered(f, b, x, d)
    ensures Mirrored2(f, d', e') && Filtered(f, Negated(b), y, e) == Middle(f, b, x, d)
  {
    var t, u := Taps2(f, b, d), Taps2(f, Negated(b), e);
    forall i | 1 <= i <= f.pd
      ensures u(i) == Alternating(i, t(i))
    {
      Taps2Mirrored(f, b, d, e, i);
    }
    CascadeUndone(t, u, f.pade, Middle(f, b, x, d), f.pd);
    hide Taps1, Taps2, Delay1, Feed, Output, SectionMoved, Negated, Middle, Block, Chain2, BlockMirrored;
    forall i | 0 <= i <= f.pd
      ensures TapFlips(f, d', e', i)
    {
      if i > 0 {
        assert TapsMoved(f, b, d, d', i) && TapsMoved(f, Negated(b), e, e', i);
      }
    }
    forall j: nat | j < f.pd
      ensures BlockMirrored(f, d', e', j)
    {
      SectionMovedMirrored(f, d, d', e, e', j);
    }
  }
}
