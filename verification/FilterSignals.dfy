/** The filter as a whole, for coefficients that stay: what it makes of a signal, starting from empty
    memory. Filters of the same order commute, and the one with negated coefficients undoes the other. */
module FilterSignals {
  import opened Bits
  import opened RealSums
  import opened Gram
  import opened MlsaFilter
  import opened FilterSections
  import opened FilterInverse

  ghost function Silent(): Vector {
    t => 0.0
  }

  /** The memory after a sample. */
  ghost function Next(f: Params, b: Vector, x: real, d: Vector): Vector {
    k => if 1 <= k <= f.pd then Delay1(f, d, k)
         else if k == f.pd + 1 then Feed(Taps1(f, b, d), f.pade, x, f.pd)
         else if f.pd + 1 < k < 2 * (f.pd + 1) then Taps1(f, b, d)(k - f.pd - 1)
         else if 2 * (f.pd + 1) <= k < Chain2(f) then
           Stored(f, d, (k - 2 * (f.pd + 1)) / (f.m + 2), (k - 2 * (f.pd + 1)) % (f.m + 2))
         else if k == Chain2(f) then Feed(Taps2(f, b, d), f.pade, Middle(f, b, x, d), f.pd)
         else if Chain2(f) < k <= Chain2(f) + f.pd then Taps2(f, b, d)(k - Chain2(f))
         else d(k)
  }

  ghost function Stored(f: Params, d: Vector, j: nat, i: nat): real {
    Memory(f.a, d(Chain2(f) + j), Shifted(d, Block(f, j)), i)
  }

  lemma PlaceParts(f: Params, j: nat, i: nat)
    requires j < f.pd && i < f.m + 2
    ensures var k := Block(f, j) + i;
            2 * (f.pd + 1) <= k < Chain2(f) && (k - 2 * (f.pd + 1)) / (f.m + 2) == j && (k - 2 * (f.pd + 1)) % (f.m + 2) == i
  {
    BlockOrder(f, j);
    BlockStart(f, j);
    DivisionUnique(Block(f, j) + i - 2 * (f.pd + 1), f.m + 2, j, i);
  }

  lemma NextMoves(f: Params, b: Vector, x: real, d: Vector)
    ensures Moves(f, b, x, d, Next(f, b, x, d))
  {
    hide Delay1, Taps1, Taps2, Feed, Middle, Memory;
    ChainAfter(f);
    var e := Next(f, b, x, d);
    forall i: nat | 1 <= i <= f.pd
      ensures TapsMoved(f, b, d, e, i)
    {
    }
    forall j: nat | j < f.pd
      ensures SectionMoved(f, d, e, j)
    {
      forall i: nat | i < f.m + 2
        ensures ValueMoved(f, d, e, j, i)
      {
        PlaceParts(f, j, i);
        assert e(Block(f, j) + i) == Stored(f, d, j, i);
      }
    }
  }

  ghost function StateAt(f: Params, b: Vector, x: Vector, t: nat): Vector {
    if t == 0 then Silent() else Next(f, b, x(t - 1), StateAt(f, b, x, t - 1))
  }

  /** What the filter makes of a signal that starts with sample 0. */
  ghost function Signal(f: Params, b: Vector, x: Vector): Vector {
    t => if t < 0 then 0.0 else Filtered(f, b, x(t), StateAt(f, b, x, t))
  }

  lemma StateMoves(f: Params, b: Vector, x: Vector, t: nat)
    requires t > 0
    ensures Moves(f, b, x(t - 1), StateAt(f, b, x, t - 1), StateAt(f, b, x, t))
  {
    NextMoves(f, b, x(t - 1), StateAt(f, b, x, t - 1));
  }

  // ----- linear and the same at all times -----

  ghost predicate MixUpTo(p: real, q: real, x: Vector, y: Vector, u: Vector, t: int) {
    forall i :: 0 <= i <= t ==> u(i) == Mix(p, q, x(i), y(i))
  }

  lemma Superposes(f: Params, b: Vector, p: real, q: real, x: Vector, y: Vector, u: Vector, t: nat)
    requires MixUpTo(p, q, x, y, u, t)
    ensures Signal(f, b, u)(t) == Mix(p, q, Signal(f, b, x)(t), Signal(f, b, y)(t))
  {
    hide StateAt, Next, Moves, Mix, Same, Signal, Filtered, MixVector, Size, Feed, Middle, Taps1, Taps2;
    StatesSuperpose(f, b, p, q, x, y, u, t);
    SignalAt(f, b, x, t);
    SignalAt(f, b, y, t);
    SignalAt(f, b, u, t);
    var d, e := StateAt(f, b, x, t), StateAt(f, b, y, t);
    OutputLinear(f, b, p, q, x(t), y(t), d, e);
    SameOutput(f, b, u(t), StateAt(f, b, u, t), MixVector(p, q, d, e));
  }

  lemma {:induction false} StatesSuperpose(f: Params, b: Vector, p: real, q: real, x: Vector, y: Vector, u: Vector, t: nat)
    requires MixUpTo(p, q, x, y, u, t)
    ensures Same(StateAt(f, b, u, t), MixVector(p, q, StateAt(f, b, x, t), StateAt(f, b, y, t)), Size(f))
  {
    if t == 0 {
      MixAdd(p, q, 0.0, 0.0, 0.0, 0.0);
    } else {
      hide StateAt, Next, Moves, Mix, Same, MixVector, Size;
      StatesSuperpose(f, b, p, q, x, y, u, t - 1);
      StateMoves(f, b, x, t);
      StateMoves(f, b, y, t);
      StateMoves(f, b, u, t);
      var d, e := StateAt(f, b, x, t - 1), StateAt(f, b, y, t - 1);
      MovesLinear(f, b, p, q, x(t - 1), y(t - 1), d, e, StateAt(f, b, x, t), StateAt(f, b, y, t));
      StepDetermined(f, b, u(t - 1), StateAt(f, b, u, t - 1), MixVector(p, q, d, e), StateAt(f, b, u, t),
                     MixVector(p, q, StateAt(f, b, x, t), StateAt(f, b, y, t)));
    }
  }

  lemma SignalAt(f: Params, b: Vector, x: Vector, t: nat)
    ensures Signal(f, b, x)(t) == Filtered(f, b, x(t), StateAt(f, b, x, t))
  {
  }

  /** Signals that agree so far sound alike so far. */
  lemma Agrees(f: Params, b: Vector, x: Vector, y: Vector, t: nat)
    requires forall i :: 0 <= i <= t ==> x(i) == y(i)
    ensures Signal(f, b, x)(t) == Signal(f, b, y)(t)
  {
    hide Signal;
    Superposes(f, b, 1.0, 0.0, y, y, x, t);
  }

  /** Silence in, silence out. */
  lemma Quiet(f: Params, b: Vector, x: Vector, t: nat)
    requires forall i :: 0 <= i <= t ==> x(i) == 0.0
    ensures Signal(f, b, x)(t) == 0.0
  {
    hide Signal;
    Superposes(f, b, 0.0, 0.0, x, x, x, t);
  }

  lemma SilentStays(f: Params, b: Vector, e: Vector)
    requires Moves(f, b, 0.0, Silent(), e)
    ensures Same(e, Silent(), Size(f))
  {
    hide Moves;
    var mixed := MixVector(0.0, 0.0, Silent(), Silent());
    MovesLinear(f, b, 0.0, 0.0, 0.0, 0.0, Silent(), Silent(), e, e);
    StepDetermined(f, b, 0.0, Silent(), mixed, e, MixVector(0.0, 0.0, e, e));
  }

  /** A sample later in, a sample later out. */
  lemma Later(f: Params, b: Vector, x: Vector, y: Vector, t: nat)
    requires y(0) == 0.0 && forall i :: 0 <= i <= t ==> y(i + 1) == x(i)
    ensures Signal(f, b, y)(t + 1) == Signal(f, b, x)(t)
  {
    hide StateAt, Next, Moves, Same, Signal, Filtered, Size, Feed, Middle, Taps1, Taps2;
    LaterState(f, b, x, y, t);
    SignalAt(f, b, x, t);
    SignalAt(f, b, y, t + 1);
    assert y(t + 1) == x(t);
    SameOutput(f, b, x(t), StateAt(f, b, y, t + 1), StateAt(f, b, x, t));
  }

  lemma {:induction false} LaterState(f: Params, b: Vector, x: Vector, y: Vector, t: nat)
    requires y(0) == 0.0 && forall i :: 0 <= i < t ==> y(i + 1) == x(i)
    ensures Same(StateAt(f, b, y, t + 1), StateAt(f, b, x, t), Size(f))
  {
    hide StateAt, Next, Moves, Same, Size;
    StateMoves(f, b, y, t + 1);
    if t == 0 {
      StateStarts(f, b, x, y);
      SilentStays(f, b, StateAt(f, b, y, 1));
    } else {
      LaterState(f, b, x, y, t - 1);
      StateMoves(f, b, x, t);
      assert y(t) == y(t - 1 + 1) == x(t - 1);
      StepDetermined(f, b, x(t - 1), StateAt(f, b, y, t), StateAt(f, b, x, t - 1), StateAt(f, b, y, t + 1), StateAt(f, b, x, t));
    }
  }

  lemma StateStarts(f: Params, b: Vector, x: Vector, y: Vector)
    ensures StateAt(f, b, y, 0) == Silent() == StateAt(f, b, x, 0)
  {
  }

  ghost function Delayed(x: Vector, k: int): Vector {
    t => if t >= k then x(t - k) else 0.0
  }

  lemma {:induction false} DelayedSignal(f: Params, b: Vector, x: Vector, k: nat, t: nat)
    ensures Signal(f, b, Delayed(x, k))(t) == Delayed(Signal(f, b, x), k)(t)
    decreases k
  {
    hide Signal;
    if t < k {
      Quiet(f, b, Delayed(x, k), t);
    } else if k == 0 {
      Agrees(f, b, Delayed(x, 0), x, t);
    } else {
      DelayedSignal(f, b, x, k - 1, t - 1);
      Later(f, b, Delayed(x, k - 1), Delayed(x, k), t - 1);
    }
  }

  // ----- sums of delayed signals -----

  ghost function Terms(s: Vector, u: Vector, t: int): Vector {
    k => u(k) * Delayed(s, k)(t)
  }

  /** The first n samples of u, each times s from that sample on. */
  ghost function Combined(s: Vector, u: Vector, n: nat): Vector {
    t => Sum(0, n, Terms(s, u, t))
  }

  lemma {:induction false} CombinedSignal(f: Params, b: Vector, s: Vector, u: Vector, n: nat, t: nat)
    ensures Signal(f, b, Combined(s, u, n))(t) == Combined(Signal(f, b, s), u, n)(t)
    decreases n
  {
    hide Signal, Sum;
    if n == 0 {
      NoTerms(s, u);
      NoTerms(Signal(f, b, s), u);
      Quiet(f, b, Combined(s, u, 0), t);
    } else {
      var q := u(n - 1);
      CombinedSignal(f, b, s, u, n - 1, t);
      DelayedSignal(f, b, s, n - 1, t);
      forall i | 0 <= i <= t
        ensures Combined(s, u, n)(i) == Mix(1.0, q, Combined(s, u, n - 1)(i), Delayed(s, n - 1)(i))
      {
        OneTermMore(s, u, n, i);
      }
      OneTermMore(Signal(f, b, s), u, n, t);
      hide Combined, Delayed, Mix;
      Superposes(f, b, 1.0, q, Combined(s, u, n - 1), Delayed(s, n - 1), Combined(s, u, n), t);
    }
  }

  lemma NoTerms(s: Vector, u: Vector)
    ensures forall t :: Combined(s, u, 0)(t) == 0.0
  {
  }

  lemma OneTermMore(s: Vector, u: Vector, n: nat, t: int)
    requires n > 0
    ensures Combined(s, u, n)(t) == Mix(1.0, u(n - 1), Combined(s, u, n - 1)(t), Delayed(s, n - 1)(t))
  {
    SumLast(0, n, Terms(s, u, t));
  }

  /** Terms that start after t add nothing yet. */
  lemma EnoughTerms(s: Vector, u: Vector, n: nat, t: nat)
    requires t < n
    ensures Combined(s, u, n)(t) == Combined(s, u, t + 1)(t)
  {
    hide Sum;
    forall k | t + 1 <= k < n
      ensures Terms(s, u, t)(k) == 0.0
    {
      assert Delayed(s, k)(t) == 0.0;
      TimesNothing(u(k), Delayed(s, k)(t));
    }
    SumNarrow(0, 0, t + 1, n, Terms(s, u, t));
  }

  lemma TimesNothing(x: real, y: real)
    requires y == 0.0
    ensures x * y == 0.0
  {
  }

  // ----- convolution -----

  ghost function Impulse(): Vector {
    t => if t == 0 then 1.0 else 0.0
  }

  /** A signal is the sum of its samples' impulses. */
  lemma ImpulsesMake(u: Vector, n: nat, t: nat)
    requires t < n
    ensures Combined(Impulse(), u, n)(t) == u(t)
  {
    hide Sum;
    forall k | 0 <= k < n && k != t
      ensures Terms(Impulse(), u, t)(k) == 0.0
    {
      assert Delayed(Impulse(), k)(t) == 0.0;
      TimesNothing(u(k), Delayed(Impulse(), k)(t));
    }
    SumSingle(0, t, n, Terms(Impulse(), u, t));
  }

  /** So the response to it is the sum of the responses to those: the impulse response, convolved. */
  lemma SignalConvolves(f: Params, b: Vector, u: Vector, t: nat)
    ensures Signal(f, b, u)(t) == Combined(Signal(f, b, Impulse()), u, t + 1)(t)
  {
    hide Signal, Combined, Impulse;
    forall i | 0 <= i <= t
      ensures Combined(Impulse(), u, t + 1)(i) == u(i)
    {
      ImpulsesMake(u, t + 1, i);
    }
    Agrees(f, b, u, Combined(Impulse(), u, t + 1), t);
    CombinedSignal(f, b, Impulse(), u, t + 1, t);
  }

  lemma {:induction false} SumReversed(n: nat, g: Vector, h: Vector)
    requires forall k :: 0 <= k < n ==> h(k) == g(n - 1 - k)
    ensures Sum(0, n, h) == Sum(0, n, g)
    decreases n
  {
    if n > 0 {
      var g': Vector, h': Vector := k => g(k + 1), k => h(k);
      SumLast(0, n, h);
      assert h(n - 1) == g(0);
      SumReversed(n - 1, g', h);
      ShiftedSum(0, n - 1, g, g');
      SumSplit(0, 1, n, g);
      assert Sum(0, 1, g) == g(0) + Sum(1, 1, g);
    }
  }

  lemma {:induction false} ShiftedSum(lo: int, hi: int, g: Vector, g': Vector)
    requires forall k :: lo <= k < hi ==> g'(k) == g(k + 1)
    ensures Sum(lo, hi, g') == Sum(lo + 1, hi + 1, g)
    decreases hi - lo
  {
    if lo < hi {
      ShiftedSum(lo + 1, hi, g, g');
    }
  }

  lemma ConvolutionCommutes(u: Vector, v: Vector, t: nat)
    ensures Combined(u, v, t + 1)(t) == Combined(v, u, t + 1)(t)
  {
    hide Sum;
    forall k | 0 <= k < t + 1
      ensures Terms(u, v, t)(k) == Terms(v, u, t)(t + 1 - 1 - k)
    {
      Swapped(v(k), u(t - k));
    }
    SumReversed(t + 1, Terms(v, u, t), Terms(u, v, t));
  }

  lemma Swapped(x: real, y: real)
    ensures x * y == y * x
  {
  }

  /** One filter after another, on the impulse: the order does not matter. */
  lemma ImpulseCommutes(f: Params, b: Vector, c: Vector, t: nat)
    ensures Signal(f, b, Signal(f, c, Impulse()))(t) == Signal(f, c, Signal(f, b, Impulse()))(t)
  {
    hide Signal, Combined, Impulse;
    SignalConvolves(f, b, Signal(f, c, Impulse()), t);
    SignalConvolves(f, c, Signal(f, b, Impulse()), t);
    ConvolutionCommutes(Signal(f, b, Impulse()), Signal(f, c, Impulse()), t);
  }

  /** One filter after another, in terms of what they do to the impulse. */
  lemma BothConvolve(f: Params, b: Vector, c: Vector, x: Vector, t: nat)
    ensures Signal(f, b, Signal(f, c, x))(t) == Combined(Signal(f, b, Signal(f, c, Impulse())), x, t + 1)(t)
  {
    hide Signal, Combined, Impulse;
    var s := Signal(f, c, Impulse());
    forall i | 0 <= i <= t
      ensures Signal(f, c, x)(i) == Combined(s, x, t + 1)(i)
    {
      SignalConvolves(f, c, x, i);
      EnoughTerms(s, x, t + 1, i);
    }
    Agrees(f, b, Signal(f, c, x), Combined(s, x, t + 1), t);
    CombinedSignal(f, b, s, x, t + 1, t);
  }

  lemma SameFactor(x: real, y: real, z: real)
    requires y == z
    ensures x * y == x * z
  {
  }

  /** Filters of the same order commute, whatever their coefficients. */
  lemma FiltersCommute(f: Params, b: Vector, c: Vector, x: Vector, t: nat)
    ensures Signal(f, b, Signal(f, c, x))(t) == Signal(f, c, Signal(f, b, x))(t)
  {
    hide Signal, Sum;
    BothConvolve(f, b, c, x, t);
    BothConvolve(f, c, b, x, t);
    var u, v := Signal(f, b, Signal(f, c, Impulse())), Signal(f, c, Signal(f, b, Impulse()));
    forall k | 0 <= k < t + 1
      ensures Terms(u, x, t)(k) == Terms(v, x, t)(k)
    {
      ImpulseCommutes(f, b, c, t - k);
      assert Delayed(u, k)(t) == u(t - k) == v(t - k) == Delayed(v, k)(t);
      SameFactor(x(k), Delayed(u, k)(t), Delayed(v, k)(t));
    }
    RealSums.SumSame(0, t + 1, Terms(u, x, t), Terms(v, x, t));
  }
}
