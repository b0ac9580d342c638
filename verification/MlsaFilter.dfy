/** The mel log spectrum approximation filter: what one sample does to its delay memory, and why
    the filter is linear. */
module MlsaFilter {
  import opened Gram

  // ----- linear combinations -----

  /** p u + q v. */
  ghost function Mix(p: real, q: real, u: real, v: real): real {
    p * u + q * v
  }

  ghost function MixVector(p: real, q: real, u: Vector, v: Vector): Vector {
    i => Mix(p, q, u(i), v(i))
  }

  lemma MixScale(p: real, q: real, u: real, v: real, k: real)
    ensures Times(k, Mix(p, q, u, v)) == Mix(p, q, Times(k, u), Times(k, v))
    ensures Times(Mix(p, q, u, v), k) == Mix(p, q, Times(u, k), Times(v, k))
  {
    Reorder(k, p, u);
    Reorder(k, q, v);
  }

  lemma Reorder(k: real, p: real, u: real)
    ensures k * (p * u) == p * (k * u) == p * (u * k)
  {
  }

  lemma MixAdd(p: real, q: real, u: real, v: real, u': real, v': real)
    ensures Mix(p, q, u, v) + Mix(p, q, u', v') == Mix(p, q, u + u', v + v')
    ensures Mix(p, q, u, v) - Mix(p, q, u', v') == Mix(p, q, u - u', v - v')
    ensures Mix(p, q, 0.0, 0.0) == 0.0
  {
  }

  // ----- one section -----

  /** The i-th stored value of a section while a sample passes. */
  ghost function Warp(a: real, x: real, d: Vector, i: nat): real {
    if i == 0 then x
    else if i == 1 then Times(1.0 - Times(a, a), x) + Times(a, d(1))
    else d(i) + Times(a, d(i + 1) - Warp(a, x, d, i - 1))
  }

  /** The section's output, up to coefficient n. */
  ghost function Section(a: real, b: Vector, x: real, d: Vector, n: nat): real {
    if n < 2 then 0.0 else Section(a, b, x, d, n - 1) + Times(Warp(a, x, d, n), b(n))
  }

  /** What the section remembers: the stored values, moved on by one. */
  ghost function Memory(a: real, x: real, d: Vector, i: nat): real {
    if i < 2 then Warp(a, x, d, i) else Warp(a, x, d, i - 1)
  }

  lemma {:induction false} WarpLinear(a: real, p: real, q: real, x: real, x': real, d: Vector, d': Vector, i: nat)
    ensures Warp(a, Mix(p, q, x, x'), MixVector(p, q, d, d'), i) == Mix(p, q, Warp(a, x, d, i), Warp(a, x', d', i))
  {
    hide Times, Mix;
    if i == 1 {
      var k := 1.0 - Times(a, a);
      MixScale(p, q, x, x', k);
      MixScale(p, q, d(1), d'(1), a);
      MixAdd(p, q, Times(k, x), Times(k, x'), Times(a, d(1)), Times(a, d'(1)));
    } else if i > 1 {
      WarpLinear(a, p, q, x, x', d, d', i - 1);
      var w, w' := Warp(a, x, d, i - 1), Warp(a, x', d', i - 1);
      MixAdd(p, q, d(i + 1), d'(i + 1), w, w');
      MixScale(p, q, d(i + 1) - w, d'(i + 1) - w', a);
      MixAdd(p, q, d(i), d'(i), Times(a, d(i + 1) - w), Times(a, d'(i + 1) - w'));
    }
  }

  lemma {:induction false} SectionLinear(a: real, b: Vector, p: real, q: real, x: real, x': real, d: Vector, d': Vector, n: nat)
    ensures Section(a, b, Mix(p, q, x, x'), MixVector(p, q, d, d'), n)
            == Mix(p, q, Section(a, b, x, d, n), Section(a, b, x', d', n))
  {
    if n < 2 {
      MixAdd(p, q, 0.0, 0.0, 0.0, 0.0);
    } else {
      hide Times, Mix, Warp;
      SectionLinear(a, b, p, q, x, x', d, d', n - 1);
      WarpLinear(a, p, q, x, x', d, d', n);
      var w, w' := Warp(a, x, d, n), Warp(a, x', d', n);
      MixScale(p, q, w, w', b(n));
      MixAdd(p, q, Section(a, b, x, d, n - 1), Section(a, b, x', d', n - 1), Times(w, b(n)), Times(w', b(n)));
    }
  }

  // ----- the Pade sums -----

  /** v(i) + .. + v(n), from the top. */
  ghost function SumFrom(v: Vector, i: int, n: int): real
    decreases n - i
  {
    if i > n then 0.0 else SumFrom(v, i + 1, n) + v(i)
  }

  ghost function Weighed(taps: Vector, pade: Vector): Vector {
    i => Times(taps(i), pade(i))
  }

  /** Odd taps count positively, even ones negatively. */
  ghost function Signed(v: Vector): Vector {
    i => if i % 2 == 1 then v(i) else -v(i)
  }

  /** What a cascade feeds back into its chain. */
  ghost function Feed(taps: Vector, pade: Vector, x: real, pd: nat): real {
    x + SumFrom(Signed(Weighed(taps, pade)), 1, pd)
  }

  /** What a cascade puts out. */
  ghost function Output(taps: Vector, pade: Vector, x: real, pd: nat): real {
    SumFrom(Weighed(taps, pade), 1, pd) + Feed(taps, pade, x, pd)
  }

  lemma {:induction false} SumLinear(p: real, q: real, v: Vector, v': Vector, u: Vector, i: int, n: int)
    requires forall k :: i <= k <= n ==> u(k) == Mix(p, q, v(k), v'(k))
    ensures SumFrom(u, i, n) == Mix(p, q, SumFrom(v, i, n), SumFrom(v', i, n))
    decreases n - i
  {
    if i > n {
      MixAdd(p, q, 0.0, 0.0, 0.0, 0.0);
    } else {
      SumLinear(p, q, v, v', u, i + 1, n);
      MixAdd(p, q, SumFrom(v, i + 1, n), SumFrom(v', i + 1, n), v(i), v'(i));
    }
  }

  lemma CascadeLinear(p: real, q: real, t: Vector, t': Vector, u: Vector, pade: Vector, x: real, x': real, pd: nat)
    requires forall k :: 1 <= k <= pd ==> u(k) == Mix(p, q, t(k), t'(k))
    ensures Feed(u, pade, Mix(p, q, x, x'), pd) == Mix(p, q, Feed(t, pade, x, pd), Feed(t', pade, x', pd))
    ensures Output(u, pade, Mix(p, q, x, x'), pd) == Mix(p, q, Output(t, pade, x, pd), Output(t', pade, x', pd))
  {
    hide Times;
    var w, w', wu := Weighed(t, pade), Weighed(t', pade), Weighed(u, pade);
    forall k | 1 <= k <= pd
      ensures wu(k) == Mix(p, q, w(k), w'(k)) && Signed(wu)(k) == Mix(p, q, Signed(w)(k), Signed(w')(k))
    {
      MixScale(p, q, t(k), t'(k), pade(k));
      MixAdd(p, q, 0.0, 0.0, w(k), w'(k));
    }
    hide Times, Mix;
    SumLinear(p, q, w, w', wu, 1, pd);
    SumLinear(p, q, Signed(w), Signed(w'), Signed(wu), 1, pd);
    var s, s' := SumFrom(Signed(w), 1, pd), SumFrom(Signed(w'), 1, pd);
    MixAdd(p, q, x, x', s, s');
    MixAdd(p, q, SumFrom(w, 1, pd), SumFrom(w', 1, pd), x + s, x' + s');
  }

  // ----- the whole filter -----

  /** Order, warping, Pade order and Pade coefficients. */
  datatype Params = Params(m: nat, a: real, pd: nat, pade: Vector)

  /** Where section j keeps its m + 2 values, and the second chain its taps. */
  function Block(f: Params, j: nat): nat {
    2 * (f.pd + 1) + j * (f.m + 2)
  }

  function Chain2(f: Params): nat {
    Block(f, f.pd)
  }

  /** The delay memory in all. */
  function Size(f: Params): nat {
    Chain2(f) + f.pd + 1
  }

  ghost function Shifted(d: Vector, at: int): Vector {
    i => d(at + i)
  }

  /** The first cascade's delays and taps. */
  ghost function Delay1(f: Params, d: Vector, i: int): real {
    Times(1.0 - Times(f.a, f.a), d(f.pd + i)) + Times(f.a, d(i))
  }

  ghost function Taps1(f: Params, b: Vector, d: Vector): Vector {
    i => Times(Delay1(f, d, i), b(1))
  }

  /** The second cascade's taps: one section each. */
  ghost function Taps2(f: Params, b: Vector, d: Vector): Vector {
    i => if i < 1 then 0.0 else Section(f.a, b, d(Chain2(f) + i - 1), Shifted(d, Block(f, i - 1)), f.m)
  }

  ghost function Middle(f: Params, b: Vector, x: real, d: Vector): real {
    Output(Taps1(f, b, d), f.pade, x, f.pd)
  }

  /** The filtered sample. */
  ghost function Filtered(f: Params, b: Vector, x: real, d: Vector): real {
    Output(Taps2(f, b, d), f.pade, Middle(f, b, x, d), f.pd)
  }

  ghost predicate SectionMoved(f: Params, d: Vector, d': Vector, j: nat) {
    forall i: nat {:trigger ValueMoved(f, d, d', j, i)} :: i < f.m + 2 ==> ValueMoved(f, d, d', j, i)
  }

  ghost predicate ValueMoved(f: Params, d: Vector, d': Vector, j: nat, i: nat) {
    d'(Block(f, j) + i) == Memory(f.a, d(Chain2(f) + j), Shifted(d, Block(f, j)), i)
  }

  /** Delay and tap i of the first chain, and tap i of the second. */
  ghost predicate TapsMoved(f: Params, b: Vector, d: Vector, d': Vector, i: nat) {
    && d'(i) == Delay1(f, d, i) && d'(f.pd + 1 + i) == Taps1(f, b, d)(i)
    && d'(Chain2(f) + i) == Taps2(f, b, d)(i)
  }

  /** One sample takes the delay memory from d to d'. */
  ghost predicate Moves(f: Params, b: Vector, x: real, d: Vector, d': Vector) {
    && d'(0) == d(0)
    && (forall i: nat {:trigger TapsMoved(f, b, d, d', i)} :: 1 <= i <= f.pd ==> TapsMoved(f, b, d, d', i))
    && d'(f.pd + 1) == Feed(Taps1(f, b, d), f.pade, x, f.pd)
    && (forall j: nat {:trigger SectionMoved(f, d, d', j)} :: j < f.pd ==> SectionMoved(f, d, d', j))
    && d'(Chain2(f)) == Feed(Taps2(f, b, d), f.pade, Middle(f, b, x, d), f.pd)
  }

  // ----- superposition -----

  ghost predicate Same(d: Vector, e: Vector, n: nat) {
    forall i :: 0 <= i < n ==> d(i) == e(i)
  }

  lemma BlockOrder(f: Params, j: nat)
    requires j < f.pd
    ensures Block(f, j) + f.m + 2 <= Chain2(f)
  {
    assert (j + 1) * (f.m + 2) <= f.pd * (f.m + 2);
    assert (j + 1) * (f.m + 2) == j * (f.m + 2) + (f.m + 2);
  }

  /** Two scaled values superpose. */
  lemma PairLinear(p: real, q: real, k: real, u: real, u': real, a: real, v: real, v': real)
    ensures Times(k, Mix(p, q, u, u')) + Times(a, Mix(p, q, v, v'))
            == Mix(p, q, Times(k, u) + Times(a, v), Times(k, u') + Times(a, v'))
  {
    hide Times, Mix;
    MixScale(p, q, u, u', k);
    MixScale(p, q, v, v', a);
    MixAdd(p, q, Times(k, u), Times(k, u'), Times(a, v), Times(a, v'));
  }

  lemma Delay1Linear(f: Params, p: real, q: real, d: Vector, d': Vector, i: int)
    ensures Delay1(f, MixVector(p, q, d, d'), i) == Mix(p, q, Delay1(f, d, i), Delay1(f, d', i))
  {
    hide Times, Mix;
    PairLinear(p, q, 1.0 - Times(f.a, f.a), d(f.pd + i), d'(f.pd + i), f.a, d(i), d'(i));
  }

  lemma Taps1Linear(f: Params, b: Vector, p: real, q: real, d: Vector, d': Vector, i: int)
    ensures Delay1(f, MixVector(p, q, d, d'), i) == Mix(p, q, Delay1(f, d, i), Delay1(f, d', i))
    ensures Taps1(f, b, MixVector(p, q, d, d'))(i) == Mix(p, q, Taps1(f, b, d)(i), Taps1(f, b, d')(i))
  {
    hide Times, Mix, Delay1;
    Delay1Linear(f, p, q, d, d', i);
    MixScale(p, q, Delay1(f, d, i), Delay1(f, d', i), b(1));
  }

  lemma Taps2Linear(f: Params, b: Vector, p: real, q: real, d: Vector, d': Vector, i: int)
    requires 1 <= i
    ensures Taps2(f, b, MixVector(p, q, d, d'))(i) == Mix(p, q, Taps2(f, b, d)(i), Taps2(f, b, d')(i))
  {
    var x, x' := d(Chain2(f) + i - 1), d'(Chain2(f) + i - 1);
    var e, e' := Shifted(d, Block(f, i - 1)), Shifted(d', Block(f, i - 1));
    hide Times, Mix, Section;
    SectionLinear(f.a, b, p, q, x, x', e, e', f.m);
    SectionSame(f.a, b, Mix(p, q, x, x'), Shifted(MixVector(p, q, d, d'), Block(f, i - 1)), MixVector(p, q, e, e'), f.m);
  }

  lemma {:induction false} WarpSame(a: real, x: real, d: Vector, e: Vector, i: nat)
    requires forall k :: 0 <= k <= i + 1 ==> d(k) == e(k)
    ensures Warp(a, x, d, i) == Warp(a, x, e, i)
  {
    if i > 1 {
      WarpSame(a, x, d, e, i - 1);
    }
  }

  lemma {:induction false} SectionSame(a: real, b: Vector, x: real, d: Vector, e: Vector, n: nat)
    requires forall k :: 0 <= k <= n + 1 ==> d(k) == e(k)
    ensures Section(a, b, x, d, n) == Section(a, b, x, e, n)
  {
    if n >= 2 {
      SectionSame(a, b, x, d, e, n - 1);
      WarpSame(a, x, d, e, n);
    }
  }

  /** The second cascade does not look at the first one's memory. */
  lemma Taps2Same(f: Params, b: Vector, b': Vector, d: Vector, d': Vector, i: int)
    requires 1 <= i <= f.pd && (forall k :: 0 <= k <= f.m ==> b(k) == b'(k))
    requires forall k :: 2 * (f.pd + 1) <= k < Size(f) ==> d(k) == d'(k)
    ensures Taps2(f, b, d)(i) == Taps2(f, b', d')(i)
  {
    ChainAfter(f);
    BlockOrder(f, i - 1);
    BlockStart(f, i - 1);
    hide Times, Section;
    var x := d(Chain2(f) + i - 1);
    SectionSame(f.a, b, x, Shifted(d, Block(f, i - 1)), Shifted(d', Block(f, i - 1)), f.m);
    CoefficientsSame(f.a, b, b', x, Shifted(d', Block(f, i - 1)), f.m);
  }

  /** Only the coefficients up to n matter. */
  lemma {:induction false} CoefficientsSame(a: real, b: Vector, b': Vector, x: real, d: Vector, n: nat)
    requires forall k :: 0 <= k <= n ==> b(k) == b'(k)
    ensures Section(a, b, x, d, n) == Section(a, b', x, d, n)
  {
    if n >= 2 {
      CoefficientsSame(a, b, b', x, d, n - 1);
    }
  }

  /** The output superposes. */
  lemma OutputLinear(f: Params, b: Vector, p: real, q: real, x: real, x': real, d: Vector, d': Vector)
    ensures var e := MixVector(p, q, d, d');
            && Feed(Taps1(f, b, e), f.pade, Mix(p, q, x, x'), f.pd)
               == Mix(p, q, Feed(Taps1(f, b, d), f.pade, x, f.pd), Feed(Taps1(f, b, d'), f.pade, x', f.pd))
            && Feed(Taps2(f, b, e), f.pade, Middle(f, b, Mix(p, q, x, x'), e), f.pd)
               == Mix(p, q, Feed(Taps2(f, b, d), f.pade, Middle(f, b, x, d), f.pd),
                      Feed(Taps2(f, b, d'), f.pade, Middle(f, b, x', d'), f.pd))
            && Filtered(f, b, Mix(p, q, x, x'), e) == Mix(p, q, Filtered(f, b, x, d), Filtered(f, b, x', d'))
  {
    var e := MixVector(p, q, d, d');
    hide Times, Mix, Taps1, Taps2, Delay1, Feed, Output;
    forall i | 1 <= i <= f.pd
      ensures Taps1(f, b, e)(i) == Mix(p, q, Taps1(f, b, d)(i), Taps1(f, b, d')(i))
      ensures Taps2(f, b, e)(i) == Mix(p, q, Taps2(f, b, d)(i), Taps2(f, b, d')(i))
    {
      Taps1Linear(f, b, p, q, d, d', i);
      Taps2Linear(f, b, p, q, d, d', i);
    }
    CascadeLinear(p, q, Taps1(f, b, d), Taps1(f, b, d'), Taps1(f, b, e), f.pade, x, x', f.pd);
    CascadeLinear(p, q, Taps2(f, b, d), Taps2(f, b, d'), Taps2(f, b, e), f.pade,
                  Middle(f, b, x, d), Middle(f, b, x', d'), f.pd);
  }

  /** So does the memory. */
  lemma MovesLinear(f: Params, b: Vector, p: real, q: real, x: real, x': real,
                    d: Vector, d': Vector, e: Vector, e': Vector)
    requires Moves(f, b, x, d, e) && Moves(f, b, x', d', e')
    ensures Moves(f, b, Mix(p, q, x, x'), MixVector(p, q, d, d'), MixVector(p, q, e, e'))
  {
    var dd, ee := MixVector(p, q, d, d'), MixVector(p, q, e, e');
    OutputLinear(f, b, p, q, x, x', d, d');
    hide Times, Mix, Taps1, Taps2, Delay1, Feed, Output, Block, Chain2;
    forall i: nat | 1 <= i <= f.pd
      ensures TapsMoved(f, b, dd, ee, i)
    {
      assert TapsMoved(f, b, d, e, i) && TapsMoved(f, b, d', e', i);
      Taps1Linear(f, b, p, q, d, d', i);
      Taps2Linear(f, b, p, q, d, d', i);
    }
    forall j: nat | j < f.pd
      ensures SectionMoved(f, dd, ee, j)
    {
      assert SectionMoved(f, d, e, j) && SectionMoved(f, d', e', j);
      SectionMovesLinear(f, p, q, d, d', e, e', j);
    }
  }

  lemma SectionMovesLinear(f: Params, p: real, q: real, d: Vector, d': Vector, e: Vector, e': Vector, j: nat)
    requires SectionMoved(f, d, e, j) && SectionMoved(f, d', e', j)
    ensures SectionMoved(f, MixVector(p, q, d, d'), MixVector(p, q, e, e'), j)
  {
    var dd, ee := MixVector(p, q, d, d'), MixVector(p, q, e, e');
    var x, x' := d(Chain2(f) + j), d'(Chain2(f) + j);
    var s, s' := Shifted(d, Block(f, j)), Shifted(d', Block(f, j));
    hide Times, Mix, Warp;
    forall i: nat | i < f.m + 2
      ensures ValueMoved(f, dd, ee, j, i)
    {
      assert ValueMoved(f, d, e, j, i) && ValueMoved(f, d', e', j, i);
      var k := if i < 2 then i else i - 1;
      WarpLinear(f.a, p, q, x, x', s, s', k);
      WarpSame(f.a, Mix(p, q, x, x'), Shifted(dd, Block(f, j)), MixVector(p, q, s, s'), k);
    }
  }

  /** What the memory becomes is a matter of its own places only. */
  lemma MovesTo(f: Params, b: Vector, x: real, d: Vector, e: Vector, e': Vector)
    requires Moves(f, b, x, d, e) && Same(e, e', Size(f))
    ensures Moves(f, b, x, d, e')
  {
    ChainAfter(f);
    hide Taps1, Taps2, Delay1, Feed, Middle, Memory, Block, Chain2;
    forall i: nat | 1 <= i <= f.pd
      ensures TapsMoved(f, b, d, e', i)
    {
      assert TapsMoved(f, b, d, e, i);
    }
    forall j: nat | j < f.pd
      ensures SectionMoved(f, d, e', j)
    {
      assert SectionMoved(f, d, e, j);
      BlockOrder(f, j);
      BlockStart(f, j);
      forall i: nat | i < f.m + 2
        ensures ValueMoved(f, d, e', j, i)
      {
        assert ValueMoved(f, d, e, j, i);
      }
    }
  }

  // ----- runs -----

  /** Every place in the memory belongs to one of its parts. */
  lemma Parts(f: Params, k: nat) returns (j: nat, i: nat)
    requires k < Size(f)
    ensures 2 * (f.pd + 1) <= k < Chain2(f) ==> j < f.pd && i < f.m + 2 && k == Block(f, j) + i
  {
    j, i := 0, 0;
    if 2 * (f.pd + 1) <= k < Chain2(f) {
      j, i := InRows(k - 2 * (f.pd + 1), f.m + 2, f.pd);
    }
  }

  /** Row and column of place r in n rows of w. */
  lemma {:induction false} InRows(r: nat, w: nat, n: nat) returns (j: nat, i: nat)
    requires w > 0 && r < n * w
    ensures j < n && i < w && r == j * w + i
  {
    if r >= (n - 1) * w {
      j, i := n - 1, r - (n - 1) * w;
    } else {
      j, i := InRows(r, w, n - 1);
    }
  }

  lemma SameOutput(f: Params, b: Vector, x: real, d: Vector, d': Vector)
    requires Same(d, d', Size(f))
    ensures forall i :: 1 <= i <= f.pd
              ==> Delay1(f, d, i) == Delay1(f, d', i) && Taps1(f, b, d)(i) == Taps1(f, b, d')(i)
                  && Taps2(f, b, d)(i) == Taps2(f, b, d')(i)
    ensures Feed(Taps1(f, b, d), f.pade, x, f.pd) == Feed(Taps1(f, b, d'), f.pade, x, f.pd)
    ensures Middle(f, b, x, d) == Middle(f, b, x, d')
    ensures Feed(Taps2(f, b, d), f.pade, Middle(f, b, x, d), f.pd) == Feed(Taps2(f, b, d'), f.pade, Middle(f, b, x, d'), f.pd)
    ensures Filtered(f, b, x, d) == Filtered(f, b, x, d')
  {
    forall i | 1 <= i <= f.pd
      ensures Delay1(f, d, i) == Delay1(f, d', i) && Taps1(f, b, d)(i) == Taps1(f, b, d')(i)
      ensures Taps2(f, b, d)(i) == Taps2(f, b, d')(i)
    {
      ChainAfter(f);
      hide Times, Section;
      BlockOrder(f, i - 1);
      SectionSame(f.a, b, d(Chain2(f) + i - 1), Shifted(d, Block(f, i - 1)), Shifted(d', Block(f, i - 1)), f.m);
    }
    hide Taps1, Taps2, Delay1, Times;
    SumSame(Taps1(f, b, d), Taps1(f, b, d'), f.pade, 1, f.pd);
    SumSame(Taps2(f, b, d), Taps2(f, b, d'), f.pade, 1, f.pd);
  }

  lemma ChainAfter(f: Params)
    ensures 2 * (f.pd + 1) <= Chain2(f)
  {
    assert f.pd * (f.m + 2) >= 0;
  }

  lemma {:induction false} SumSame(t: Vector, t': Vector, pade: Vector, i: int, n: int)
    requires forall k :: i <= k <= n ==> t(k) == t'(k)
    ensures SumFrom(Weighed(t, pade), i, n) == SumFrom(Weighed(t', pade), i, n)
    ensures SumFrom(Signed(Weighed(t, pade)), i, n) == SumFrom(Signed(Weighed(t', pade)), i, n)
    decreases n - i
  {
    if i <= n {
      SumSame(t, t', pade, i + 1, n);
    }
  }

  /** The memory determines what becomes of it. */
  lemma StepDetermined(f: Params, b: Vector, x: real, d: Vector, d': Vector, e: Vector, e': Vector)
    requires Same(d, d', Size(f)) && Moves(f, b, x, d, e) && Moves(f, b, x, d', e')
    ensures Same(e, e', Size(f))
  {
    hide Moves, Block, Chain2;
    forall k: nat | k < Size(f)
      ensures e(k) == e'(k)
    {
      if k < 2 * (f.pd + 1) {
        FirstDetermined(f, b, x, d, d', e, e', k);
      } else if k < Chain2(f) {
        var j, i := Parts(f, k);
        SectionsMove(f, b, x, d, e, j);
        SectionsMove(f, b, x, d', e', j);
        SectionDetermined(f, d, d', e, e', j, i);
      } else {
        SecondDetermined(f, b, x, d, d', e, e', k - Chain2(f));
      }
    }
  }

  lemma FirstDetermined(f: Params, b: Vector, x: real, d: Vector, d': Vector, e: Vector, e': Vector, k: nat)
    requires Same(d, d', Size(f)) && Moves(f, b, x, d, e) && Moves(f, b, x, d', e') && k < 2 * (f.pd + 1)
    ensures e(k) == e'(k)
  {
    SameOutput(f, b, x, d, d');
    ChainAfter(f);
    hide Taps1, Taps2, Delay1, Times, Feed, Middle, Memory, Block, Chain2, SectionMoved;
    if k != 0 && k != f.pd + 1 {
      var i := if k < f.pd + 1 then k else k - f.pd - 1;
      assert TapsMoved(f, b, d, e, i) && TapsMoved(f, b, d', e', i);
    }
  }

  lemma SecondDetermined(f: Params, b: Vector, x: real, d: Vector, d': Vector, e: Vector, e': Vector, i: nat)
    requires Same(d, d', Size(f)) && Moves(f, b, x, d, e) && Moves(f, b, x, d', e') && i <= f.pd
    ensures e(Chain2(f) + i) == e'(Chain2(f) + i)
  {
    hide Taps1, Taps2, Delay1, Times, Feed, Middle, Memory, Block, Chain2, SectionMoved, Same, Size, Filtered;
    SameOutput(f, b, x, d, d');
    assert i > 0 ==> TapsMoved(f, b, d, e, i) && TapsMoved(f, b, d', e', i);
  }

  lemma SectionsMove(f: Params, b: Vector, x: real, d: Vector, e: Vector, j: nat)
    requires Moves(f, b, x, d, e) && j < f.pd
    ensures SectionMoved(f, d, e, j)
  {
  }

  lemma SectionDetermined(f: Params, d: Vector, d': Vector, e: Vector, e': Vector, j: nat, i: nat)
    requires Same(d, d', Size(f)) && j < f.pd && i < f.m + 2 && SectionMoved(f, d, e, j) && SectionMoved(f, d', e', j)
    ensures e(Block(f, j) + i) == e'(Block(f, j) + i)
  {
    BlockOrder(f, j);
    ChainAfter(f);
    BlockStart(f, j);
    assert ValueMoved(f, d, e, j, i) && ValueMoved(f, d', e', j, i);
    WarpSame(f.a, d(Chain2(f) + j), Shifted(d, Block(f, j)), Shifted(d', Block(f, j)), if i < 2 then i else i - 1);
  }

  lemma BlockStart(f: Params, j: nat)
    ensures Block(f, j) >= 2 * (f.pd + 1)
  {
  }

  /** Samples fed one after another, with coefficients that may change from sample to sample. */
  ghost predicate Run(f: Params, bs: seq<Vector>, xs: seq<real>, ds: seq<Vector>, ys: seq<real>) {
    && |bs| == |xs| == |ys| && |ds| == |xs| + 1
    && forall t: nat {:trigger RunAt(f, bs, xs, ds, ys, t)} :: t < |xs| ==> RunAt(f, bs, xs, ds, ys, t)
  }

  ghost predicate RunAt(f: Params, bs: seq<Vector>, xs: seq<real>, ds: seq<Vector>, ys: seq<real>, t: nat)
    requires |bs| == |xs| == |ys| && |ds| == |xs| + 1 && t < |xs|
  {
    Moves(f, bs[t], xs[t], ds[t], ds[t + 1]) && ys[t] == Filtered(f, bs[t], xs[t], ds[t])
  }

  /** Superposition over whole runs: if one run is fed a combination of what two others are fed,
      and starts from the same combination of their memories, its memory and its output are that
      combination at every moment. */
  lemma {:induction false} RunsSuperpose(f: Params, bs: seq<Vector>, p: real, q: real,
                                         xs: seq<real>, ds: seq<Vector>, ys: seq<real>,
                                         xs': seq<real>, ds': seq<Vector>, ys': seq<real>,
                                         us: seq<real>, es: seq<Vector>, zs: seq<real>, t: nat)
    requires Run(f, bs, xs, ds, ys) && Run(f, bs, xs', ds', ys') && Run(f, bs, us, es, zs)
    requires forall i :: 0 <= i < |us| ==> us[i] == Mix(p, q, xs[i], xs'[i])
    requires Same(es[0], MixVector(p, q, ds[0], ds'[0]), Size(f)) && t <= |xs|
    ensures Same(es[t], MixVector(p, q, ds[t], ds'[t]), Size(f))
    ensures t < |xs| ==> zs[t] == Mix(p, q, ys[t], ys'[t])
  {
    hide Mix, MixVector, Moves, Filtered, Same, Size;
    if t > 0 {
      var i := t - 1;
      RunsSuperpose(f, bs, p, q, xs, ds, ys, xs', ds', ys', us, es, zs, i);
      assert RunAt(f, bs, xs, ds, ys, i) && RunAt(f, bs, xs', ds', ys', i) && RunAt(f, bs, us, es, zs, i);
      MovesLinear(f, bs[i], p, q, xs[i], xs'[i], ds[i], ds'[i], ds[t], ds'[t]);
      StepDetermined(f, bs[i], us[i], es[i], MixVector(p, q, ds[i], ds'[i]), es[t], MixVector(p, q, ds[t], ds'[t]));
    }
    if t < |xs| {
      assert RunAt(f, bs, xs, ds, ys, t) && RunAt(f, bs, xs', ds', ys', t) && RunAt(f, bs, us, es, zs, t);
      OutputLinear(f, bs[t], p, q, xs[t], xs'[t], ds[t], ds'[t]);
      SameOutput(f, bs[t], us[t], es[t], MixVector(p, q, ds[t], ds'[t]));
    }
  }

  // ----- coefficients -----

  ghost predicate SameUpTo(b: Vector, b': Vector, m: int) {
    forall k :: 0 <= k <= m ==> b(k) == b'(k)
  }

  /** The filter looks at coefficients up to m only. */
  lemma CoefficientsMatter(f: Params, b: Vector, b': Vector, x: real, d: Vector)
    requires f.m >= 1 && SameUpTo(b, b', f.m)
    ensures forall i :: 1 <= i <= f.pd ==> Taps1(f, b, d)(i) == Taps1(f, b', d)(i) && Taps2(f, b, d)(i) == Taps2(f, b', d)(i)
    ensures Feed(Taps1(f, b, d), f.pade, x, f.pd) == Feed(Taps1(f, b', d), f.pade, x, f.pd)
    ensures Middle(f, b, x, d) == Middle(f, b', x, d)
    ensures Feed(Taps2(f, b, d), f.pade, Middle(f, b, x, d), f.pd) == Feed(Taps2(f, b', d), f.pade, Middle(f, b', x, d), f.pd)
    ensures Filtered(f, b, x, d) == Filtered(f, b', x, d)
  {
    forall i | 1 <= i <= f.pd
      ensures Taps1(f, b, d)(i) == Taps1(f, b', d)(i) && Taps2(f, b, d)(i) == Taps2(f, b', d)(i)
    {
      hide Times, Section;
      Taps2Same(f, b, b', d, d, i);
    }
    hide Taps1, Taps2, Times;
    SumSame(Taps1(f, b, d), Taps1(f, b', d), f.pade, 1, f.pd);
    SumSame(Taps2(f, b, d), Taps2(f, b', d), f.pade, 1, f.pd);
  }

  lemma CoefficientsMove(f: Params, b: Vector, b': Vector, x: real, d: Vector, e: Vector)
    requires f.m >= 1 && SameUpTo(b, b', f.m) && Moves(f, b, x, d, e)
    ensures Moves(f, b', x, d, e) && Filtered(f, b, x, d) == Filtered(f, b', x, d)
  {
    CoefficientsMatter(f, b, b', x, d);
    hide Taps1, Taps2, Delay1, Feed, Middle, Memory, Block, Chain2, Filtered, SectionMoved;
    forall i: nat | 1 <= i <= f.pd
      ensures TapsMoved(f, b', d, e, i)
    {
      assert TapsMoved(f, b, d, e, i);
    }
  }

  /** So a run is a run for any coefficients that agree up to m. */
  lemma RunWith(f: Params, bs: seq<Vector>, bs': seq<Vector>, xs: seq<real>, ds: seq<Vector>, ys: seq<real>)
    requires f.m >= 1 && Run(f, bs, xs, ds, ys) && |bs'| == |bs|
    requires forall t {:trigger bs'[t]} :: 0 <= t < |bs| ==> SameUpTo(bs[t], bs'[t], f.m)
    ensures Run(f, bs', xs, ds, ys)
  {
    hide Moves, Filtered, SameUpTo;
    forall t: nat | t < |xs|
      ensures RunAt(f, bs', xs, ds, ys, t)
    {
      assert RunAt(f, bs, xs, ds, ys, t);
      CoefficientsMove(f, bs[t], bs'[t], xs[t], ds[t], ds[t + 1]);
    }
  }
}
