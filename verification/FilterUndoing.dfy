/** The filter with negated coefficients undoes the filter: from empty memory, fed what the filter put
    out, it puts out what the filter was fed. */
module FilterUndoing {
  import opened Gram
  import opened MlsaFilter
  import opened FilterSections
  import opened FilterInverse
  import opened FilterSignals

  // ----- the cascades apart -----

  /** The coefficient that the first cascade looks at, and those that the second does. */
  ghost function First(b: Vector): Vector {
    i => if i == 1 then b(1) else 0.0
  }

  ghost function Rest(b: Vector): Vector {
    i => if i == 1 then 0.0 else b(i)
  }

  lemma {:induction false} NoSum(v: Vector, i: int, n: int)
    requires forall k :: i <= k <= n ==> v(k) == 0.0
    ensures SumFrom(v, i, n) == 0.0
    decreases n - i
  {
    if i <= n {
      NoSum(v, i + 1, n);
    }
  }

  /** A cascade without taps lets samples through. */
  lemma NoTaps(t: Vector, pade: Vector, x: real, pd: nat)
    requires forall i :: 1 <= i <= pd ==> t(i) == 0.0
    ensures Feed(t, pade, x, pd) == x && Output(t, pade, x, pd) == x
  {
    forall i | 1 <= i <= pd
      ensures Weighed(t, pade)(i) == 0.0 && Signed(Weighed(t, pade))(i) == 0.0
    {
      assert Times(t(i), pade(i)) == 0.0;
    }
    NoSum(Weighed(t, pade), 1, pd);
    NoSum(Signed(Weighed(t, pade)), 1, pd);
  }

  lemma {:induction false} NoSection(a: real, b: Vector, x: real, d: Vector, n: nat)
    requires forall k :: 2 <= k <= n ==> b(k) == 0.0
    ensures Section(a, b, x, d, n) == 0.0
  {
    if n >= 2 {
      hide Warp;
      NoSection(a, b, x, d, n - 1);
      assert Times(Warp(a, x, d, n), b(n)) == 0.0;
    }
  }

  /** A section looks at coefficients from 2 on. */
  lemma {:induction false} SectionFromTwo(a: real, b: Vector, b': Vector, x: real, d: Vector, n: nat)
    requires forall k :: 2 <= k <= n ==> b(k) == b'(k)
    ensures Section(a, b, x, d, n) == Section(a, b', x, d, n)
  {
    if n >= 2 {
      SectionFromTwo(a, b, b', x, d, n - 1);
    }
  }

  ghost predicate FirstOnly(f: Params, b: Vector) {
    forall k :: 2 <= k <= f.m ==> b(k) == 0.0
  }

  lemma FirstOnlyFilters(f: Params, b: Vector, x: real, d: Vector)
    requires FirstOnly(f, b)
    ensures Filtered(f, b, x, d) == Middle(f, b, x, d)
  {
    forall i | 1 <= i <= f.pd
      ensures Taps2(f, b, d)(i) == 0.0
    {
      NoSection(f.a, b, d(Chain2(f) + i - 1), Shifted(d, Block(f, i - 1)), f.m);
    }
    NoTaps(Taps2(f, b, d), f.pade, Middle(f, b, x, d), f.pd);
  }

  lemma RestLetsThrough(f: Params, b: Vector, x: real, d: Vector)
    requires b(1) == 0.0
    ensures Middle(f, b, x, d) == x
  {
    forall i | 1 <= i <= f.pd
      ensures Taps1(f, b, d)(i) == 0.0
    {
      assert Times(Delay1(f, d, i), b(1)) == 0.0;
    }
    NoTaps(Taps1(f, b, d), f.pade, x, f.pd);
  }

  // ----- undoing one cascade -----

  lemma NothingMirrored(f: Params, b: Vector, c: Vector, x: Vector, y: Vector)
    ensures Mirrored1(f, StateAt(f, b, x, 0), StateAt(f, c, y, 0)) && Mirrored2(f, StateAt(f, b, x, 0), StateAt(f, c, y, 0))
  {
  }

  lemma {:induction false} MirroredFirst(f: Params, b: Vector, x: Vector, t: nat)
    requires FirstOnly(f, b)
    ensures Mirrored1(f, StateAt(f, b, x, t), StateAt(f, Negated(b), Signal(f, b, x), t))
  {
    hide StateAt, Signal, Moves, Mirrored1, Mirrored2, Filtered, Middle, Negated, FirstOnly;
    var y := Signal(f, b, x);
    if t == 0 {
      NothingMirrored(f, b, Negated(b), x, y);
    } else {
      MirroredFirst(f, b, x, t - 1);
      StateMoves(f, b, x, t);
      StateMoves(f, Negated(b), y, t);
      SignalAt(f, b, x, t - 1);
      FirstOnlyFilters(f, b, x(t - 1), StateAt(f, b, x, t - 1));
      FirstUndone(f, b, x(t - 1), StateAt(f, b, x, t - 1), StateAt(f, b, x, t),
                  StateAt(f, Negated(b), y, t - 1), StateAt(f, Negated(b), y, t));
    }
  }

  lemma UndoneFirst(f: Params, b: Vector, x: Vector, t: nat)
    requires FirstOnly(f, b)
    ensures Signal(f, Negated(b), Signal(f, b, x))(t) == x(t)
  {
    hide StateAt, Signal, Moves, Mirrored1, Filtered, Middle, Negated, Next, FirstOnly;
    var y, d := Signal(f, b, x), StateAt(f, b, x, t);
    var e := StateAt(f, Negated(b), y, t);
    SignalAt(f, b, x, t);
    SignalAt(f, Negated(b), y, t);
    MirroredFirst(f, b, x, t);
    NegatedFirstOnly(f, b);
    FirstOnlyFilters(f, b, x(t), d);
    FirstOnlyFilters(f, Negated(b), y(t), e);
    NextMoves(f, b, x(t), d);
    NextMoves(f, Negated(b), y(t), e);
    FirstUndone(f, b, x(t), d, Next(f, b, x(t), d), e, Next(f, Negated(b), y(t), e));
  }

  lemma {:induction false} MirroredRest(f: Params, b: Vector, x: Vector, t: nat)
    requires b(1) == 0.0
    ensures Mirrored2(f, StateAt(f, b, x, t), StateAt(f, Negated(b), Signal(f, b, x), t))
  {
    hide StateAt, Signal, Moves, Mirrored1, Mirrored2, Filtered, Middle, Negated;
    var y := Signal(f, b, x);
    if t == 0 {
      NothingMirrored(f, b, Negated(b), x, y);
    } else {
      MirroredRest(f, b, x, t - 1);
      StateMoves(f, b, x, t);
      StateMoves(f, Negated(b), y, t);
      SignalAt(f, b, x, t - 1);
      NegatedFirst(b);
      RestLetsThrough(f, Negated(b), y(t - 1), StateAt(f, Negated(b), y, t - 1));
      SecondUndone(f, b, x(t - 1), StateAt(f, b, x, t - 1), StateAt(f, b, x, t),
                   y(t - 1), StateAt(f, Negated(b), y, t - 1), StateAt(f, Negated(b), y, t));
    }
  }

  lemma NegatedFirst(b: Vector)
    requires b(1) == 0.0
    ensures Negated(b)(1) == 0.0
  {
  }

  lemma NegatedFirstOnly(f: Params, b: Vector)
    requires FirstOnly(f, b)
    ensures FirstOnly(f, Negated(b))
  {
  }

  lemma UndoneRest(f: Params, b: Vector, x: Vector, t: nat)
    requires b(1) == 0.0
    ensures Signal(f, Negated(b), Signal(f, b, x))(t) == x(t)
  {
    hide StateAt, Signal, Moves, Mirrored2, Filtered, Middle, Negated, Next;
    var y, d := Signal(f, b, x), StateAt(f, b, x, t);
    var e := StateAt(f, Negated(b), y, t);
    SignalAt(f, b, x, t);
    SignalAt(f, Negated(b), y, t);
    MirroredRest(f, b, x, t);
    NegatedFirst(b);
    RestLetsThrough(f, b, x(t), d);
    RestLetsThrough(f, Negated(b), y(t), e);
    NextMoves(f, b, x(t), d);
    NextMoves(f, Negated(b), y(t), e);
    SecondUndone(f, b, x(t), d, Next(f, b, x(t), d), y(t), e, Next(f, Negated(b), y(t), e));
  }

  // ----- the filter is its first cascade, then its second -----

  ghost predicate SameFirst(f: Params, d: Vector, e: Vector) {
    forall k :: 1 <= k < 2 * (f.pd + 1) ==> d(k) == e(k)
  }

  ghost predicate SameSecond(f: Params, d: Vector, e: Vector) {
    forall k :: 2 * (f.pd + 1) <= k < Size(f) ==> d(k) == e(k)
  }

  lemma FirstSame(f: Params, b: Vector, d: Vector, e: Vector, x: real)
    requires SameFirst(f, d, e)
    ensures forall i :: 1 <= i <= f.pd ==> Delay1(f, d, i) == Delay1(f, e, i) && Taps1(f, b, d)(i) == Taps1(f, First(b), e)(i)
    ensures Feed(Taps1(f, b, d), f.pade, x, f.pd) == Feed(Taps1(f, First(b), e), f.pade, x, f.pd)
    ensures Middle(f, b, x, d) == Middle(f, First(b), x, e)
  {
    SumSame(Taps1(f, b, d), Taps1(f, First(b), e), f.pade, 1, f.pd);
  }

  lemma SecondSame(f: Params, b: Vector, d: Vector, e: Vector, x: real)
    requires SameSecond(f, d, e)
    ensures forall i :: 1 <= i <= f.pd ==> Taps2(f, b, d)(i) == Taps2(f, Rest(b), e)(i)
    ensures Feed(Taps2(f, b, d), f.pade, x, f.pd) == Feed(Taps2(f, Rest(b), e), f.pade, x, f.pd)
    ensures Output(Taps2(f, b, d), f.pade, x, f.pd) == Output(Taps2(f, Rest(b), e), f.pade, x, f.pd)
  {
    forall i | 1 <= i <= f.pd
      ensures Taps2(f, b, d)(i) == Taps2(f, Rest(b), e)(i)
    {
      Taps2Same(f, b, b, d, e, i);
      SectionFromTwo(f.a, b, Rest(b), e(Chain2(f) + i - 1), Shifted(e, Block(f, i - 1)), f.m);
    }
    SumSame(Taps2(f, b, d), Taps2(f, Rest(b), e), f.pade, 1, f.pd);
  }

  lemma FirstMoves(f: Params, b: Vector, x: real, d: Vector, d': Vector, e: Vector, e': Vector)
    requires Moves(f, b, x, d, d') && Moves(f, First(b), x, e, e') && SameFirst(f, d, e)
    ensures SameFirst(f, d', e')
  {
    FirstSame(f, b, d, e, x);
    hide Taps1, Taps2, Delay1, Feed, Middle, SectionMoved, First;
    forall k | 1 <= k < 2 * (f.pd + 1)
      ensures d'(k) == e'(k)
    {
      if k != f.pd + 1 {
        var i := if k <= f.pd then k else k - f.pd - 1;
        assert TapsMoved(f, b, d, d', i) && TapsMoved(f, First(b), e, e', i);
      }
    }
  }

  lemma SecondMoves(f: Params, b: Vector, x: real, d: Vector, d': Vector, y: real, e: Vector, e': Vector)
    requires Moves(f, b, x, d, d') && Moves(f, Rest(b), y, e, e') && SameSecond(f, d, e)
    requires y == Middle(f, b, x, d)
    ensures SameSecond(f, d', e')
  {
    SecondSame(f, b, d, e, y);
    RestLetsThrough(f, Rest(b), y, e);
    hide Taps1, Taps2, Delay1, Feed, Middle, Rest, Block, Chain2, SectionMoved;
    forall k: nat | 2 * (f.pd + 1) <= k < Size(f)
      ensures d'(k) == e'(k)
    {
      if k < Chain2(f) {
        var j, i := Parts(f, k);
        SectionsMove(f, b, x, d, d', j);
        SectionsMove(f, Rest(b), y, e, e', j);
        SectionAlike(f, d, e, d', e', j, i);
      } else if k > Chain2(f) {
        assert TapsMoved(f, b, d, d', k - Chain2(f)) && TapsMoved(f, Rest(b), e, e', k - Chain2(f));
      }
    }
  }

  lemma SectionAlike(f: Params, d: Vector, e: Vector, d': Vector, e': Vector, j: nat, i: nat)
    requires SameSecond(f, d, e) && j < f.pd && i < f.m + 2 && SectionMoved(f, d, d', j) && SectionMoved(f, e, e', j)
    ensures d'(Block(f, j) + i) == e'(Block(f, j) + i)
  {
    BlockOrder(f, j);
    ChainAfter(f);
    BlockStart(f, j);
    assert ValueMoved(f, d, d', j, i) && ValueMoved(f, e, e', j, i);
    WarpSame(f.a, d(Chain2(f) + j), Shifted(d, Block(f, j)), Shifted(e, Block(f, j)), if i < 2 then i else i - 1);
  }

  lemma {:induction false} StatesApart(f: Params, b: Vector, x: Vector, t: nat)
    ensures SameFirst(f, StateAt(f, b, x, t), StateAt(f, First(b), x, t))
    ensures SameSecond(f, StateAt(f, b, x, t), StateAt(f, Rest(b), Signal(f, First(b), x), t))
  {
    if t > 0 {
      hide StateAt, Signal, Moves, SameFirst, SameSecond, Filtered, Middle, First, Rest;
      StatesApart(f, b, x, t - 1);
      var y := Signal(f, First(b), x);
      StateMoves(f, b, x, t);
      StateMoves(f, First(b), x, t);
      StateMoves(f, Rest(b), y, t);
      MiddleIs(f, b, x, t - 1);
      FirstMoves(f, b, x(t - 1), StateAt(f, b, x, t - 1), StateAt(f, b, x, t),
                 StateAt(f, First(b), x, t - 1), StateAt(f, First(b), x, t));
      SecondMoves(f, b, x(t - 1), StateAt(f, b, x, t - 1), StateAt(f, b, x, t),
                  y(t - 1), StateAt(f, Rest(b), y, t - 1), StateAt(f, Rest(b), y, t));
    }
  }

  /** What the first cascade alone puts out is what goes between the two. */
  lemma MiddleIs(f: Params, b: Vector, x: Vector, t: nat)
    requires SameFirst(f, StateAt(f, b, x, t), StateAt(f, First(b), x, t))
    ensures Signal(f, First(b), x)(t) == Middle(f, b, x(t), StateAt(f, b, x, t))
  {
    SignalAt(f, First(b), x, t);
    assert FirstOnly(f, First(b));
    FirstOnlyFilters(f, First(b), x(t), StateAt(f, First(b), x, t));
    FirstSame(f, b, StateAt(f, b, x, t), StateAt(f, First(b), x, t), x(t));
  }

  lemma OneAfterTheOther(f: Params, b: Vector, x: Vector, t: nat)
    ensures Signal(f, b, x)(t) == Signal(f, Rest(b), Signal(f, First(b), x))(t)
  {
    var y := Signal(f, First(b), x);
    SignalAt(f, b, x, t);
    SignalAt(f, Rest(b), y, t);
    hide StateAt, Signal, SameFirst, SameSecond, Middle, First, Taps2, Output;
    StatesApart(f, b, x, t);
    MiddleIs(f, b, x, t);
    SecondSame(f, b, StateAt(f, b, x, t), StateAt(f, Rest(b), y, t), y(t));
    RestLetsThrough(f, Rest(b), y(t), StateAt(f, Rest(b), y, t));
  }

  // ----- the same for whole signals -----

  /** A filter looks at coefficients up to its order. */
  lemma {:induction false} SameStates(f: Params, b: Vector, c: Vector, x: Vector, t: nat)
    requires f.m >= 1 && SameUpTo(b, c, f.m)
    ensures Same(StateAt(f, b, x, t), StateAt(f, c, x, t), Size(f))
  {
    hide StateAt, Moves, Same, SameUpTo, Filtered, Size;
    if t == 0 {
      SameStart(f, b, c, x);
    } else {
      SameStates(f, b, c, x, t - 1);
      StateMoves(f, b, x, t);
      StateMoves(f, c, x, t);
      CoefficientsMove(f, b, c, x(t - 1), StateAt(f, b, x, t - 1), StateAt(f, b, x, t));
      StepDetermined(f, c, x(t - 1), StateAt(f, b, x, t - 1), StateAt(f, c, x, t - 1), StateAt(f, b, x, t), StateAt(f, c, x, t));
    }
  }

  lemma SameStart(f: Params, b: Vector, c: Vector, x: Vector)
    ensures Same(StateAt(f, b, x, 0), StateAt(f, c, x, 0), Size(f))
  {
  }

  lemma SameSignals(f: Params, b: Vector, c: Vector, x: Vector, t: nat)
    requires f.m >= 1 && SameUpTo(b, c, f.m)
    ensures Signal(f, b, x)(t) == Signal(f, c, x)(t)
  {
    SameStates(f, b, c, x, t);
    SignalAt(f, b, x, t);
    SignalAt(f, c, x, t);
    hide StateAt, Signal, Filtered, Same, Taps1, Taps2, Middle, Feed;
    SameOutput(f, b, x(t), StateAt(f, b, x, t), StateAt(f, c, x, t));
    CoefficientsMatter(f, b, c, x(t), StateAt(f, c, x, t));
  }

  lemma PartsNegated(f: Params, b: Vector)
    ensures SameUpTo(First(Negated(b)), Negated(First(b)), f.m) && SameUpTo(Rest(Negated(b)), Negated(Rest(b)), f.m)
  {
  }

  /** Negated coefficients undo the filter, for any signal. */
  lemma SignalUndone(f: Params, b: Vector, x: Vector, t: nat)
    requires f.m >= 1
    ensures Signal(f, Negated(b), Signal(f, b, x))(t) == x(t)
  {
    hide Signal, SameUpTo;
    var b1, b2 := First(b), Rest(b);
    var y, z := Signal(f, b, x), Signal(f, b1, x);
    PartsNegated(f, b);
    OneAfterTheOther(f, Negated(b), y, t);
    SameSignals(f, Rest(Negated(b)), Negated(b2), Signal(f, First(Negated(b)), y), t);
    forall i | 0 <= i <= t
      ensures Signal(f, First(Negated(b)), y)(i) == Signal(f, b2, x)(i)
    {
      SameSignals(f, First(Negated(b)), Negated(b1), y, i);
      forall k | 0 <= k <= i
        ensures y(k) == Signal(f, b2, z)(k)
      {
        OneAfterTheOther(f, b, x, k);
      }
      Agrees(f, Negated(b1), y, Signal(f, b2, z), i);
      FiltersCommute(f, Negated(b1), b2, z, i);
      forall k | 0 <= k <= i
        ensures Signal(f, Negated(b1), z)(k) == x(k)
      {
        UndoneFirst(f, b1, x, k);
      }
      Agrees(f, b2, Signal(f, Negated(b1), z), x, i);
    }
    Agrees(f, Negated(b2), Signal(f, First(Negated(b)), y), Signal(f, b2, x), t);
    UndoneRest(f, b2, x, t);
  }

  // ----- over runs -----

  ghost function Extended(xs: seq<real>): Vector {
    t => if 0 <= t < |xs| then xs[t] else 0.0
  }

  ghost predicate Constant(f: Params, bs: seq<Vector>, b: Vector) {
    forall t {:trigger bs[t]} :: 0 <= t < |bs| ==> SameUpTo(bs[t], b, f.m)
  }

  /** A run from empty memory, with coefficients that stay, is what the filter makes of the signal. */
  lemma {:induction false} RunIsSignal(f: Params, b: Vector, bs: seq<Vector>, xs: seq<real>, ds: seq<Vector>, ys: seq<real>, t: nat)
    requires f.m >= 1 && Run(f, bs, xs, ds, ys) && Constant(f, bs, b) && Empty(f, ds[0]) && t <= |xs|
    ensures Same(ds[t], StateAt(f, b, Extended(xs), t), Size(f))
    ensures t < |xs| ==> ys[t] == Signal(f, b, Extended(xs))(t)
  {
    var x := Extended(xs);
    if t > 0 {
      var i := t - 1;
      RunIsSignal(f, b, bs, xs, ds, ys, i);
      assert RunAt(f, bs, xs, ds, ys, i);
      StateMoves(f, b, x, t);
      assert SameUpTo(bs[i], b, f.m);
      hide StateAt, Moves, Same, SameUpTo, Filtered, Signal;
      CoefficientsMove(f, bs[i], b, xs[i], ds[i], ds[t]);
      StepDetermined(f, b, xs[i], ds[i], StateAt(f, b, x, i), ds[t], StateAt(f, b, x, t));
    }
    if t < |xs| {
      assert RunAt(f, bs, xs, ds, ys, t);
      assert SameUpTo(bs[t], b, f.m);
      SignalAt(f, b, x, t);
      hide StateAt, Moves, Same, SameUpTo, Filtered, Signal, Taps1, Taps2, Feed, Middle;
      CoefficientsMove(f, bs[t], b, xs[t], ds[t], ds[t + 1]);
      SameOutput(f, b, xs[t], ds[t], StateAt(f, b, x, t));
    }
  }

  /** A run from empty memory puts out, so far, what the filter makes of the signal. */
  lemma RunSounds(f: Params, b: Vector, bs: seq<Vector>, xs: seq<real>, ds: seq<Vector>, ys: seq<real>, t: nat)
    requires f.m >= 1 && Run(f, bs, xs, ds, ys) && Constant(f, bs, b) && Empty(f, ds[0]) && t < |xs|
    ensures forall i :: 0 <= i <= t ==> Extended(ys)(i) == Signal(f, b, Extended(xs))(i)
  {
    hide Run, Constant, Empty, Signal, Extended, StateAt, Same;
    RunLengths(f, bs, xs, ds, ys);
    forall i | 0 <= i <= t
      ensures Extended(ys)(i) == Signal(f, b, Extended(xs))(i)
    {
      RunIsSignal(f, b, bs, xs, ds, ys, i);
      ExtendedAt(ys, i);
    }
  }

  lemma UndoneAt(f: Params, b: Vector, xs: seq<real>, ys: seq<real>, zs: seq<real>, t: nat)
    requires f.m >= 1 && t < |xs| == |zs|
    requires forall i :: 0 <= i <= t ==> Extended(ys)(i) == Signal(f, b, Extended(xs))(i)
    requires Extended(zs)(t) == Signal(f, Negated(b), Extended(ys))(t)
    ensures zs[t] == xs[t]
  {
    hide Signal, Extended, Negated;
    Agrees(f, Negated(b), Extended(ys), Signal(f, b, Extended(xs)), t);
    SignalUndone(f, b, Extended(xs), t);
    ExtendedAt(xs, t);
    ExtendedAt(zs, t);
  }

  /** From empty memory, with coefficients that stay and then with those negated, what was fed in comes
      out again, sample by sample. */
  lemma NegatedUndoes(f: Params, b: Vector, bs: seq<Vector>, xs: seq<real>, ds: seq<Vector>, ys: seq<real>,
                      cs: seq<Vector>, es: seq<Vector>, zs: seq<real>)
    requires f.m >= 1 && Run(f, bs, xs, ds, ys) && Constant(f, bs, b) && Empty(f, ds[0])
    requires Run(f, cs, ys, es, zs) && Constant(f, cs, Negated(b)) && Empty(f, es[0])
    ensures zs == xs
  {
    hide Run, Constant, Empty, Signal, Extended, Negated;
    RunLengths(f, bs, xs, ds, ys);
    RunLengths(f, cs, ys, es, zs);
    forall t | 0 <= t < |xs|
      ensures zs[t] == xs[t]
    {
      RunSounds(f, b, bs, xs, ds, ys, t);
      RunSounds(f, Negated(b), cs, ys, es, zs, t);
      UndoneAt(f, b, xs, ys, zs, t);
    }
  }

  lemma RunLengths(f: Params, bs: seq<Vector>, xs: seq<real>, ds: seq<Vector>, ys: seq<real>)
    requires Run(f, bs, xs, ds, ys)
    ensures |bs| == |xs| == |ys| && |ds| == |xs| + 1
  {
  }

  lemma ExtendedAt(xs: seq<real>, t: nat)
    requires t < |xs|
    ensures Extended(xs)(t) == xs[t]
  {
  }
}
