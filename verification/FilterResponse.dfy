/** Which filter it is: fed powers of z, it scales them by the Pade approximation of the exponential of
    the mel-cepstrum, taken at the warped frequency. */
module FilterResponse {
  import opened Gram
  import opened MlsaFilter

  // ----- products -----

  lemma Distributes(x: real, y: real, z: real)
    ensures Times(x, y + z) == Times(x, y) + Times(x, z) && Times(x, y - z) == Times(x, y) - Times(x, z)
    ensures Times(y + z, x) == Times(y, x) + Times(z, x) && Times(y - z, x) == Times(y, x) - Times(z, x)
  {
  }

  lemma Regroups(x: real, y: real, z: real)
    ensures Times(Times(x, y), z) == Times(x, Times(y, z)) == Times(y, Times(x, z)) == Times(Times(x, z), y)
  {
    assert (x * y) * z == x * (y * z);
    assert y * (x * z) == x * (y * z);
    assert (x * z) * y == x * (y * z);
  }

  lemma OneTimes(x: real)
    ensures Times(1.0, x) == x
  {
  }

  lemma MinusTimes(x: real, y: real)
    ensures Times(x, -y) == -Times(x, y) && Times(-x, y) == -Times(x, y)
  {
  }

  lemma Cancel(k: real, u: real, v: real)
    requires k != 0.0 && Times(k, u) == Times(k, v)
    ensures u == v
  {
    hide Times;
    var e := u - v;
    Distributes(k, u, v);
    MinusTimes(k, e);
    MinusTimes(k, -e);
    MinusTimes(-k, e);
    if k > 0.0 {
      assert Times(k, if e > 0.0 then e else -e) >= 0.0;
    } else {
      assert Times(-k, if e > 0.0 then e else -e) >= 0.0;
    }
  }

  // ----- one cascade -----

  ghost function Power(s: real, n: nat): real {
    if n == 0 then 1.0 else Times(Power(s, n - 1), s)
  }

  /** 1 + p(1) s + .. + p(n) s^n. */
  ghost function Polynomial(p: Vector, s: real, n: nat): real {
    if n == 0 then 1.0 else Polynomial(p, s, n - 1) + Times(Power(s, n), p(n))
  }

  lemma {:induction false} SumFromLast(v: Vector, i: int, n: int)
    requires i <= n
    ensures SumFrom(v, i, n) == SumFrom(v, i, n - 1) + v(n)
    decreases n - i
  {
    if i < n {
      SumFromLast(v, i + 1, n);
    }
  }

  lemma {:induction false} PowerOfMinus(s: real, n: nat)
    ensures Power(-s, n) == if n % 2 == 0 then Power(s, n) else -Power(s, n)
  {
    if n > 0 {
      hide Times;
      PowerOfMinus(s, n - 1);
      MinusTimes(Power(s, n - 1), s);
      MinusTimes(Power(s, n - 1), -s);
    }
  }

  lemma {:induction false} GeometricSums(t: Vector, pade: Vector, s: real, g: real, n: nat)
    requires forall i :: 1 <= i <= n ==> t(i) == Times(Power(s, i), g)
    ensures SumFrom(Weighed(t, pade), 1, n) == Times(Polynomial(pade, s, n), g) - g
    ensures SumFrom(Signed(Weighed(t, pade)), 1, n) == g - Times(Polynomial(pade, -s, n), g)
  {
    hide Times, Power;
    if n > 0 {
      GeometricSums(t, pade, s, g, n - 1);
      SumFromLast(Weighed(t, pade), 1, n);
      SumFromLast(Signed(Weighed(t, pade)), 1, n);
      PowerOfMinus(s, n);
      hide SumFrom;
      TermAdded(Polynomial(pade, s, n - 1), Power(s, n), pade(n), g);
      TermAdded(Polynomial(pade, -s, n - 1), Power(-s, n), pade(n), g);
      TermTaken(Power(s, n), pade(n), g);
    } else {
      OneTimes(g);
    }
  }

  lemma TermAdded(sum: real, power: real, p: real, g: real)
    ensures Times(sum + Times(power, p), g) == Times(sum, g) + Times(Times(power, g), p)
  {
    hide Times;
    Distributes(g, sum, Times(power, p));
    Regroups(power, p, g);
  }

  lemma TermTaken(power: real, p: real, g: real)
    ensures Times(Times(-power, g), p) == -Times(Times(power, g), p)
  {
    hide Times;
    MinusTimes(power, g);
    MinusTimes(Times(power, g), p);
  }

  /** With taps that are powers of s times the value fed back, the cascade takes P(-s) to P(s). */
  lemma CascadeGain(t: Vector, pade: Vector, s: real, x: real, pd: nat)
    requires forall i :: 1 <= i <= pd ==> t(i) == Times(Power(s, i), Feed(t, pade, x, pd))
    ensures x == Times(Polynomial(pade, -s, pd), Feed(t, pade, x, pd))
    ensures Output(t, pade, x, pd) == Times(Polynomial(pade, s, pd), Feed(t, pade, x, pd))
  {
    hide Times, Power, SumFrom, Polynomial, Weighed, Signed;
    GeometricSums(t, pade, s, Feed(t, pade, x, pd), pd);
  }

  // ----- powers of z -----

  /** As the sample passes, the memory is multiplied by z. */
  ghost predicate Scales(f: Params, z: real, d: Vector, d': Vector) {
    forall k :: 1 <= k < Size(f) ==> d'(k) == Times(z, d(k))
  }

  /** r is what a stage of the all-pass chain makes of z. */
  ghost predicate Warped(a: real, z: real, r: real) {
    z != a && Times(r, z - a) == 1.0 - Times(a, z)
  }

  lemma FirstStage(a: real, z: real, r: real, x: real, w: real, before: real)
    requires Warped(a, z, r)
    requires w == Times(1.0 - Times(a, a), x) + Times(a, before) && w == Times(z, before)
    ensures w == Times(r + a, Times(z, x))
  {
    hide Times;
    var k := 1.0 - Times(a, a);
    var y := Times(z, x);
    Distributes(z, Times(k, x), Times(a, before));
    Regroups(k, z, x);
    Regroups(a, z, before);
    Distributes(w, z, a);
    Factor(a, z, r, y);
    Cancel(z - a, w, Times(r + a, y));
  }

  lemma Factor(a: real, z: real, r: real, y: real)
    requires Warped(a, z, r)
    ensures Times(1.0 - Times(a, a), y) == Times(z - a, Times(r + a, y))
  {
    hide Times;
    Distributes(z - a, r, a);
    Distributes(a, z, a);
    Regroups(r + a, z - a, y);
  }

  lemma NextStage(a: real, z: real, r: real, w: real, input: real, last: real, before: real)
    requires Warped(a, z, r)
    requires w == last + Times(a, before - input) && input == Times(z, last) && w == Times(z, before)
    ensures w == Times(r, input)
  {
    hide Times;
    Distributes(z, last, Times(a, before - input));
    Distributes(a, before, input);
    Distributes(z, Times(a, before), Times(a, input));
    Regroups(a, z, before);
    Regroups(a, z, input);
    Distributes(w, z, a);
    Distributes(input, 1.0, Times(a, z));
    OneTimes(input);
    Regroups(r, z - a, input);
    Cancel(z - a, w, Times(r, input));
  }

  // ----- the first cascade -----

  ghost function FirstExponent(f: Params, b: Vector, r: real): real {
    Times(r + f.a, b(1))
  }

  lemma Scaled(f: Params, z: real, d: Vector, d': Vector, k: nat)
    requires Scales(f, z, d, d') && 1 <= k < Size(f)
    ensures d'(k) == Times(z, d(k))
  {
  }

  lemma FirstTap(f: Params, b: Vector, x: real, d: Vector, d': Vector, z: real, r: real, i: nat)
    requires Moves(f, b, x, d, d') && Scales(f, z, d, d') && Warped(f.a, z, r) && 1 <= i <= f.pd
    ensures Taps1(f, b, d)(i) == Times(d'(f.pd + i), FirstExponent(f, b, r))
    ensures d'(f.pd + 1 + i) == Taps1(f, b, d)(i)
  {
    ChainAfter(f);
    assert TapsMoved(f, b, d, d', i);
    Scaled(f, z, d, d', i);
    Scaled(f, z, d, d', f.pd + i);
    hide Moves, Size, Chain2, Scales, Times, Warped;
    FirstStage(f.a, z, r, d(f.pd + i), Delay1(f, d, i), d(i));
    hide Delay1;
    Regroups(r + f.a, d'(f.pd + i), b(1));
  }

  lemma {:induction false} FirstGeometric(f: Params, b: Vector, x: real, d: Vector, d': Vector, z: real, r: real, i: nat)
    requires Moves(f, b, x, d, d') && Scales(f, z, d, d') && Warped(f.a, z, r) && i <= f.pd
    ensures d'(f.pd + 1 + i) == Times(Power(FirstExponent(f, b, r), i), Feed(Taps1(f, b, d), f.pade, x, f.pd))
  {
    hide Times, Scales, Warped, Feed, Taps1, FirstExponent;
    var g, s := Feed(Taps1(f, b, d), f.pade, x, f.pd), FirstExponent(f, b, r);
    if i == 0 {
      OneTimes(g);
    } else {
      FirstGeometric(f, b, x, d, d', z, r, i - 1);
      FirstTap(f, b, x, d, d', z, r, i);
      hide Moves;
      Regroups(Power(s, i - 1), s, g);
    }
  }

  /** The first cascade approximates the exponential of the first coefficient. */
  lemma FirstGain(f: Params, b: Vector, x: real, d: Vector, d': Vector, z: real, r: real)
    requires Moves(f, b, x, d, d') && Scales(f, z, d, d') && Warped(f.a, z, r)
    ensures var s, g := FirstExponent(f, b, r), Feed(Taps1(f, b, d), f.pade, x, f.pd);
            x == Times(Polynomial(f.pade, -s, f.pd), g) && Middle(f, b, x, d) == Times(Polynomial(f.pade, s, f.pd), g)
  {
    hide Times, Scales, Warped, Feed, Taps1, FirstExponent, Power, Polynomial, Moves, Output;
    var t := Taps1(f, b, d);
    var s := FirstExponent(f, b, r);
    forall i | 1 <= i <= f.pd
      ensures t(i) == Times(Power(s, i), Feed(t, f.pade, x, f.pd))
    {
      FirstGeometric(f, b, x, d, d', z, r, i);
      FirstTap(f, b, x, d, d', z, r, i);
    }
    CascadeGain(t, f.pade, s, x, f.pd);
  }

  // ----- the second cascade -----

  /** b(from) r^(from - 1) + .. + b(n) r^(n - 1). */
  ghost function Tilted(b: Vector, r: real, from: nat, n: nat): real {
    if n < from || n == 0 then 0.0 else Tilted(b, r, from, n - 1) + Times(Power(r, n - 1), b(n))
  }

  ghost function SecondExponent(f: Params, b: Vector, r: real): real {
    Times(r + f.a, Tilted(b, r, 2, f.m))
  }

  /** What the memory of section j holds after the sample is what its stages give for it. */
  lemma StageHeld(f: Params, d: Vector, d': Vector, z: real, j: nat, i: nat)
    requires SectionMoved(f, d, d', j) && Scales(f, z, d, d') && j < f.pd && 1 <= i <= f.m
    ensures var u := Shifted(d, Block(f, j));
            Times(z, u(i + 1)) == Warp(f.a, d(Chain2(f) + j), u, i)
            && (i == 1 ==> Times(z, u(1)) == Warp(f.a, d(Chain2(f) + j), u, 1))
  {
    hide Times, Warp, Scales;
    BlockOrder(f, j);
    BlockStart(f, j);
    assert ValueMoved(f, d, d', j, i + 1) && ValueMoved(f, d, d', j, i);
    Scaled(f, z, d, d', Block(f, j) + i + 1);
    Scaled(f, z, d, d', Block(f, j) + i);
  }

  lemma {:induction false} StageGain(f: Params, d: Vector, d': Vector, z: real, r: real, j: nat, i: nat)
    requires SectionMoved(f, d, d', j) && Scales(f, z, d, d') && Warped(f.a, z, r) && j < f.pd && 1 <= i <= f.m
    ensures Warp(f.a, d(Chain2(f) + j), Shifted(d, Block(f, j)), i)
            == Times(Power(r, i - 1), Times(r + f.a, Times(z, d(Chain2(f) + j))))
  {
    hide Times, Scales, Warped, SectionMoved, Block, Chain2;
    var u, x := Shifted(d, Block(f, j)), d(Chain2(f) + j);
    StageHeld(f, d, d', z, j, i);
    var y := Times(r + f.a, Times(z, x));
    if i == 1 {
      FirstStage(f.a, z, r, x, Warp(f.a, x, u, 1), u(1));
      OneTimes(y);
    } else {
      StageGain(f, d, d', z, r, j, i - 1);
      StageHeld(f, d, d', z, j, i - 1);
      NextStage(f.a, z, r, Warp(f.a, x, u, i), Warp(f.a, x, u, i - 1), u(i), u(i + 1));
      hide Warp;
      Regroups(Power(r, i - 2), r, y);
    }
  }

  lemma {:induction false} SectionGain(f: Params, b: Vector, d: Vector, d': Vector, z: real, r: real, j: nat, n: nat)
    requires SectionMoved(f, d, d', j) && Scales(f, z, d, d') && Warped(f.a, z, r) && j < f.pd && n <= f.m
    ensures Section(f.a, b, d(Chain2(f) + j), Shifted(d, Block(f, j)), n)
            == Times(Tilted(b, r, 2, n), Times(r + f.a, Times(z, d(Chain2(f) + j))))
  {
    hide Times, Scales, Warped, SectionMoved, Block, Chain2, Warp, Power;
    var y := Times(r + f.a, Times(z, d(Chain2(f) + j)));
    if n < 2 {
      NothingTimes(y);
    } else {
      SectionGain(f, b, d, d', z, r, j, n - 1);
      StageGain(f, d, d', z, r, j, n);
      TermAdded(Tilted(b, r, 2, n - 1), Power(r, n - 1), b(n), y);
    }
  }

  lemma NothingTimes(y: real)
    ensures Times(0.0, y) == 0.0
  {
  }

  lemma SecondTap(f: Params, b: Vector, x: real, d: Vector, d': Vector, z: real, r: real, i: nat)
    requires Moves(f, b, x, d, d') && Scales(f, z, d, d') && Warped(f.a, z, r) && 1 <= i <= f.pd
    ensures Taps2(f, b, d)(i) == Times(d'(Chain2(f) + i - 1), SecondExponent(f, b, r))
    ensures d'(Chain2(f) + i) == Taps2(f, b, d)(i)
  {
    ChainAfter(f);
    var j := i - 1;
    assert TapsMoved(f, b, d, d', i) && SectionMoved(f, d, d', j);
    Scaled(f, z, d, d', Chain2(f) + j);
    hide Moves, Chain2, Scales, Times, Warped, Block, Section, Tilted, SectionMoved;
    SectionGain(f, b, d, d', z, r, j, f.m);
    Regroups(r + f.a, Tilted(b, r, 2, f.m), d'(Chain2(f) + j));
    Commutes(Times(r + f.a, Tilted(b, r, 2, f.m)), d'(Chain2(f) + j));
  }

  lemma Commutes(x: real, y: real)
    ensures Times(x, y) == Times(y, x)
  {
  }

  lemma {:induction false} SecondGeometric(f: Params, b: Vector, x: real, d: Vector, d': Vector, z: real, r: real, i: nat)
    requires Moves(f, b, x, d, d') && Scales(f, z, d, d') && Warped(f.a, z, r) && i <= f.pd
    ensures d'(Chain2(f) + i)
            == Times(Power(SecondExponent(f, b, r), i), Feed(Taps2(f, b, d), f.pade, Middle(f, b, x, d), f.pd))
  {
    hide Times, Scales, Warped, Feed, Taps2, SecondExponent, Chain2, Middle;
    var g, s := Feed(Taps2(f, b, d), f.pade, Middle(f, b, x, d), f.pd), SecondExponent(f, b, r);
    if i == 0 {
      OneTimes(g);
    } else {
      SecondGeometric(f, b, x, d, d', z, r, i - 1);
      SecondTap(f, b, x, d, d', z, r, i);
      hide Moves;
      Regroups(Power(s, i - 1), s, g);
    }
  }

  /** The second cascade approximates the exponential of all the others. */
  lemma SecondGain(f: Params, b: Vector, x: real, d: Vector, d': Vector, z: real, r: real)
    requires Moves(f, b, x, d, d') && Scales(f, z, d, d') && Warped(f.a, z, r)
    ensures var s, g := SecondExponent(f, b, r), Feed(Taps2(f, b, d), f.pade, Middle(f, b, x, d), f.pd);
            Middle(f, b, x, d) == Times(Polynomial(f.pade, -s, f.pd), g)
            && Filtered(f, b, x, d) == Times(Polynomial(f.pade, s, f.pd), g)
  {
    hide Times, Scales, Warped, Feed, Taps2, SecondExponent, Power, Polynomial, Moves, Output, Middle, Chain2;
    var t := Taps2(f, b, d);
    var s := SecondExponent(f, b, r);
    forall i | 1 <= i <= f.pd
      ensures t(i) == Times(Power(s, i), Feed(t, f.pade, Middle(f, b, x, d), f.pd))
    {
      SecondGeometric(f, b, x, d, d', z, r, i);
      SecondTap(f, b, x, d, d', z, r, i);
    }
    CascadeGain(t, f.pade, s, Middle(f, b, x, d), f.pd);
  }

  // ----- the filter -----

  /** P(s1) P(s2), what the filter multiplies by and divides by. */
  ghost function Both(f: Params, s1: real, s2: real): real {
    Times(Polynomial(f.pade, s1, f.pd), Polynomial(f.pade, s2, f.pd))
  }

  /** The filter's response to powers of z: P(s) / P(-s), the approximation of e^s, for the exponents of
      both cascades. */
  lemma Response(f: Params, b: Vector, x: real, d: Vector, d': Vector, z: real, r: real)
    requires Moves(f, b, x, d, d') && Scales(f, z, d, d') && Warped(f.a, z, r)
    ensures var s1, s2 := FirstExponent(f, b, r), SecondExponent(f, b, r);
            Times(Both(f, -s1, -s2), Filtered(f, b, x, d)) == Times(Both(f, s1, s2), x)
  {
    hide Times, Scales, Warped, Feed, Taps1, Taps2, FirstExponent, SecondExponent, Polynomial, Moves, Middle, Filtered;
    FirstGain(f, b, x, d, d', z, r);
    SecondGain(f, b, x, d, d', z, r);
    var s1, s2 := FirstExponent(f, b, r), SecondExponent(f, b, r);
    var g1, g2 := Feed(Taps1(f, b, d), f.pade, x, f.pd), Feed(Taps2(f, b, d), f.pade, Middle(f, b, x, d), f.pd);
    CrossMultiplied(Polynomial(f.pade, s1, f.pd), Polynomial(f.pade, -s1, f.pd), g1,
                    Polynomial(f.pade, s2, f.pd), Polynomial(f.pade, -s2, f.pd), g2);
  }

  lemma CrossMultiplied(p1: real, q1: real, g1: real, p2: real, q2: real, g2: real)
    requires Times(p1, g1) == Times(q2, g2)
    ensures Times(Times(q1, q2), Times(p2, g2)) == Times(Times(p1, p2), Times(q1, g1))
  {
    hide Times;
    Regroups(q1, q2, Times(p2, g2));
    Regroups(q2, p2, g2);
    Regroups(q1, p2, Times(q2, g2));
    Regroups(p1, p2, Times(q1, g1));
    Regroups(p2, q1, g1);
    Regroups(p1, q1, g1);
    Regroups(p2, q1, Times(p1, g1));
    Regroups(p1, p2, Times(q1, g1));
    Regroups(p1, q1, g1);
    Commutes(q1, p2);
  }

  // ----- the mel-cepstrum -----

  /** c(0) + c(1) r + .. + c(n) r^n. */
  ghost function Spectrum(c: Vector, r: real, n: nat): real {
    if n == 0 then c(0) else Spectrum(c, r, n - 1) + Times(Power(r, n), c(n))
  }

  /** Coefficients in filter form: each together with a times the next is a mel-cepstral one. */
  ghost predicate FilterForm(a: real, b: Vector, c: Vector, m: nat) {
    b(m) == c(m) && forall k {:trigger c(k)} :: 0 <= k < m ==> b(k) + Times(a, b(k + 1)) == c(k)
  }

  lemma {:induction false} SpectrumSoFar(a: real, b: Vector, c: Vector, m: nat, r: real, n: nat)
    requires FilterForm(a, b, c, m) && n < m
    ensures Spectrum(c, r, n) == b(0) + Times(r + a, Tilted(b, r, 1, n)) + Times(Power(r, n), Times(a, b(n + 1)))
  {
    hide Times;
    assert b(n) + Times(a, b(n + 1)) == c(n);
    if n == 0 {
      OneTimes(Times(a, b(1)));
      NothingTimes(r + a);
      Commutes(0.0, r + a);
    } else {
      SpectrumSoFar(a, b, c, m, r, n - 1);
      Distributes(Power(r, n), b(n), Times(a, b(n + 1)));
      SpectrumStep(a, r, Tilted(b, r, 1, n - 1), Power(r, n - 1), b(n));
    }
  }

  lemma SpectrumStep(a: real, r: real, sum: real, power: real, b: real)
    ensures Times(r + a, sum + Times(power, b)) == Times(r + a, sum) + Times(power, Times(a, b)) + Times(Times(power, r), b)
  {
    hide Times;
    Distributes(r + a, sum, Times(power, b));
    Distributes(Times(power, b), r, a);
    Regroups(power, r, b);
    Regroups(power, a, b);
  }

  /** The exponents of both cascades together are the mel-cepstrum at the warped frequency, less the gain. */
  lemma ExponentsAre(f: Params, b: Vector, c: Vector, r: real)
    requires f.m >= 1 && FilterForm(f.a, b, c, f.m)
    ensures FirstExponent(f, b, r) + SecondExponent(f, b, r) == Spectrum(c, r, f.m) - b(0)
  {
    hide Times;
    SpectrumSoFar(f.a, b, c, f.m, r, f.m - 1);
    SpectrumStep(f.a, r, Tilted(b, r, 1, f.m - 1), Power(r, f.m - 1), b(f.m));
    TiltedFrom(b, r, f.m);
    hide Tilted, Spectrum, Power;
    Distributes(r + f.a, b(1), Tilted(b, r, 2, f.m));
  }

  lemma {:induction false} TiltedFrom(b: Vector, r: real, n: nat)
    requires n >= 1
    ensures Tilted(b, r, 1, n) == b(1) + Tilted(b, r, 2, n)
  {
    if n == 1 {
      assert Tilted(b, r, 1, 0) == 0.0;
      OneTimes(b(1));
    } else {
      hide Times, Power;
      TiltedFrom(b, r, n - 1);
    }
  }

  // ----- Horner's form -----

  /** p(i) + s (p(i + 1) + .. + s p(n)). */
  ghost function Nested(p: Vector, s: real, i: nat, n: nat): real
    decreases n - i
  {
    if i >= n then p(n) else p(i) + Times(s, Nested(p, s, i + 1, n))
  }

  lemma {:induction false} NestedFrom(p: Vector, s: real, i: nat, n: nat)
    requires 1 <= i <= n
    ensures Polynomial(p, s, n) == Polynomial(p, s, i - 1) + Times(Power(s, i), Nested(p, s, i, n))
    decreases n - i
  {
    hide Times;
    if i < n {
      NestedFrom(p, s, i + 1, n);
      Distributes(Power(s, i), p(i), Times(s, Nested(p, s, i + 1, n)));
      Regroups(Power(s, i), s, Nested(p, s, i + 1, n));
    }
  }

  lemma Horner(p: Vector, s: real, n: nat)
    requires n >= 1
    ensures Polynomial(p, s, n) == 1.0 + Times(s, Nested(p, s, 1, n))
  {
    hide Times;
    NestedFrom(p, s, 1, n);
    assert Power(s, 1) == Times(Power(s, 0), s);
    OneTimes(s);
  }
}
