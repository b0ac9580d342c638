/** For every power of z there is a memory that the filter only scales, so that the response holds for
    signals of any length. */
module FilterTones {
  import opened Gram
  import opened MlsaFilter
  import opened FilterSignals
  import opened FilterUndoing
  import opened FilterResponse

  /** What a stage gives in the tone, from one that is fed y z^-1. */
  lemma FirstStageTone(a: real, z: real, r: real, v: real, y: real)
    requires Warped(a, z, r) && Times(v, z) == 1.0
    ensures Times(1.0 - Times(a, a), Times(v, y)) + Times(a, Times(v, Times(r + a, y))) == Times(r + a, y)
  {
    hide Times;
    var w := Times(r + a, y);
    Factor(a, z, r, y);
    Regroups(1.0 - Times(a, a), v, y);
    Distributes(w, z, a);
    Distributes(v, Times(z, w), Times(a, w));
    Regroups(v, z, w);
    Regroups(v, a, w);
    Regroups(a, v, w);
    OneTimes(w);
  }

  lemma NextStageTone(a: real, z: real, r: real, v: real, input: real)
    requires Warped(a, z, r) && Times(v, z) == 1.0
    ensures Times(v, input) + Times(a, Times(v, Times(r, input)) - input) == Times(r, input)
  {
    hide Times;
    var w := Times(r, input);
    Regroups(r, z - a, input);
    Distributes(input, 1.0, Times(a, z));
    OneTimes(input);
    Distributes(w, z, a);
    Distributes(v, input, Times(Times(a, z), input));
    Distributes(v, Times(z, w), Times(a, w));
    Regroups(v, z, w);
    OneTimes(w);
    Regroups(a, v, w);
    Regroups(v, a, w);
    Regroups(a, z, input);
    Regroups(v, a, Times(z, input));
    Regroups(v, z, input);
    Distributes(a, Times(v, w), input);
  }

  // ----- the memory -----

  ghost function Tap1(f: Params, b: Vector, r: real, u: real, i: nat): real {
    Times(Power(FirstExponent(f, b, r), i), Times(Polynomial(f.pade, -SecondExponent(f, b, r), f.pd), u))
  }

  ghost function Tap2(f: Params, b: Vector, r: real, u: real, i: nat): real {
    Times(Power(SecondExponent(f, b, r), i), Times(Polynomial(f.pade, FirstExponent(f, b, r), f.pd), u))
  }

  /** What stage i of a section gives when it is fed y z^-1. */
  ghost function StageTone(a: real, r: real, y: real, i: nat): real {
    Times(Power(r, if i == 0 then 0 else i - 1), Times(r + a, y))
  }

  ghost function HeldTone(a: real, r: real, v: real, y: real, i: nat): real {
    if i == 0 then Times(v, y) else StageTone(a, r, y, if i == 1 then 1 else i - 1)
  }

  /** The memory after a sample, v being the inverse of z. */
  ghost function After(f: Params, b: Vector, r: real, v: real, u: real): Vector {
    k => if 1 <= k <= f.pd then Times(r + f.a, Tap1(f, b, r, u, k - 1))
         else if f.pd + 1 <= k < 2 * (f.pd + 1) then Tap1(f, b, r, u, k - f.pd - 1)
         else if 2 * (f.pd + 1) <= k < Chain2(f) then
           HeldTone(f.a, r, v, Tap2(f, b, r, u, (k - 2 * (f.pd + 1)) / (f.m + 2)), (k - 2 * (f.pd + 1)) % (f.m + 2))
         else if Chain2(f) <= k <= Chain2(f) + f.pd then Tap2(f, b, r, u, k - Chain2(f))
         else 0.0
  }

  ghost function Before(f: Params, b: Vector, r: real, v: real, u: real): Vector {
    k => Times(v, After(f, b, r, v, u)(k))
  }

  // ----- the first cascade -----

  lemma FirstTone(f: Params, b: Vector, z: real, r: real, v: real, u: real, i: nat)
    requires Warped(f.a, z, r) && Times(v, z) == 1.0 && 1 <= i <= f.pd
    ensures Delay1(f, Before(f, b, r, v, u), i) == After(f, b, r, v, u)(i)
    ensures Taps1(f, b, Before(f, b, r, v, u))(i) == Tap1(f, b, r, u, i) == After(f, b, r, v, u)(f.pd + 1 + i)
  {
    hide Times, Chain2, Tap2, HeldTone, Polynomial, Warped;
    var y := Tap1(f, b, r, u, i - 1);
    FirstStageTone(f.a, z, r, v, y);
    var e := After(f, b, r, v, u);
    assert e(i) == Times(r + f.a, y) && e(f.pd + i) == y;
    assert Delay1(f, Before(f, b, r, v, u), i) == Times(1.0 - Times(f.a, f.a), Times(v, e(f.pd + i))) + Times(f.a, Times(v, e(i)));
    var s, g := FirstExponent(f, b, r), Times(Polynomial(f.pade, -SecondExponent(f, b, r), f.pd), u);
    Regroup(f.a, r, b, Power(s, i - 1), s, g);
  }

  lemma Regroup(a: real, r: real, b: Vector, power: real, s: real, g: real)
    requires s == Times(r + a, b(1))
    ensures Times(Times(r + a, Times(power, g)), b(1)) == Times(Times(power, s), g)
  {
    hide Times;
    Regroups(r + a, Times(power, g), b(1));
    Regroups(power, s, g);
    Regroups(power, g, s);
    Commutes(s, Times(power, g));
  }

  lemma FirstCascadeTone(f: Params, b: Vector, z: real, r: real, v: real, u: real, x: real)
    requires Warped(f.a, z, r) && Times(v, z) == 1.0
    requires x == Times(Polynomial(f.pade, -FirstExponent(f, b, r), f.pd), Tap1(f, b, r, u, 0))
    ensures Feed(Taps1(f, b, Before(f, b, r, v, u)), f.pade, x, f.pd) == Tap1(f, b, r, u, 0)
    ensures Middle(f, b, x, Before(f, b, r, v, u)) == Times(Polynomial(f.pade, FirstExponent(f, b, r), f.pd), Tap1(f, b, r, u, 0))
  {
    hide Times, Chain2, Tap2, HeldTone, Polynomial, Warped, Delay1, Before, After, FirstExponent, SecondExponent, SumFrom, Taps1;
    var t := Taps1(f, b, Before(f, b, r, v, u));
    var s, g := FirstExponent(f, b, r), Times(Polynomial(f.pade, -SecondExponent(f, b, r), f.pd), u);
    OneTimes(g);
    forall i | 1 <= i <= f.pd
      ensures t(i) == Times(Power(s, i), g)
    {
      FirstTone(f, b, z, r, v, u, i);
    }
    assert Tap1(f, b, r, u, 0) == g;
    hide Power, Tap1, Signed, Weighed;
    GeometricSums(t, f.pade, s, g, f.pd);
  }

  // ----- the second cascade -----

  lemma BlockTone(f: Params, b: Vector, r: real, v: real, u: real, j: nat, i: nat)
    requires j < f.pd && i < f.m + 2
    ensures After(f, b, r, v, u)(Block(f, j) + i) == HeldTone(f.a, r, v, Tap2(f, b, r, u, j), i)
    ensures Shifted(Before(f, b, r, v, u), Block(f, j))(i) == Times(v, HeldTone(f.a, r, v, Tap2(f, b, r, u, j), i))
  {
    PlaceParts(f, j, i);
    hide Times, Tap1, Tap2, HeldTone, Block, Chain2;
  }

  lemma ChainTone(f: Params, b: Vector, r: real, v: real, u: real, j: nat)
    requires j <= f.pd
    ensures After(f, b, r, v, u)(Chain2(f) + j) == Tap2(f, b, r, u, j)
    ensures Before(f, b, r, v, u)(Chain2(f) + j) == Times(v, Tap2(f, b, r, u, j))
  {
    ChainAfter(f);
    hide Times, Tap1, Tap2, HeldTone, Chain2;
  }

  lemma {:induction false} WarpTone(f: Params, b: Vector, z: real, r: real, v: real, u: real, j: nat, i: nat)
    requires Warped(f.a, z, r) && Times(v, z) == 1.0 && j < f.pd && (i == 1 || 1 <= i <= f.m)
    ensures var d := Before(f, b, r, v, u);
            Warp(f.a, d(Chain2(f) + j), Shifted(d, Block(f, j)), i) == StageTone(f.a, r, Tap2(f, b, r, u, j), i)
  {
    hide Times, Tap1, Tap2, Before, After, Block, Chain2, Warped, Shifted;
    var y := Tap2(f, b, r, u, j);
    ChainTone(f, b, r, v, u, j);
    OneTimes(Times(r + f.a, y));
    if i == 1 {
      BlockTone(f, b, r, v, u, j, 1);
      FirstStageTone(f.a, z, r, v, y);
    } else {
      WarpTone(f, b, z, r, v, u, j, i - 1);
      BlockTone(f, b, r, v, u, j, i);
      BlockTone(f, b, r, v, u, j, i + 1);
      StageToneNext(f.a, r, y, i);
      NextStageTone(f.a, z, r, v, StageTone(f.a, r, y, i - 1));
    }
  }

  lemma StageToneNext(a: real, r: real, y: real, i: nat)
    requires i >= 2
    ensures StageTone(a, r, y, i) == Times(r, StageTone(a, r, y, i - 1))
  {
    hide Times;
    Regroups(Power(r, i - 2), r, Times(r + a, y));
  }

  lemma {:induction false} SectionTone(f: Params, b: Vector, z: real, r: real, v: real, u: real, j: nat, n: nat)
    requires Warped(f.a, z, r) && Times(v, z) == 1.0 && j < f.pd && n <= f.m
    ensures var d := Before(f, b, r, v, u);
            Section(f.a, b, d(Chain2(f) + j), Shifted(d, Block(f, j)), n)
            == Times(Tilted(b, r, 2, n), Times(r + f.a, Tap2(f, b, r, u, j)))
  {
    hide Times, Tap1, Tap2, Before, After, Block, Chain2, Warped, Shifted, Warp, Power;
    var y := Times(r + f.a, Tap2(f, b, r, u, j));
    if n < 2 {
      NothingTimes(y);
    } else {
      SectionTone(f, b, z, r, v, u, j, n - 1);
      WarpTone(f, b, z, r, v, u, j, n);
      TermAdded(Tilted(b, r, 2, n - 1), Power(r, n - 1), b(n), y);
    }
  }

  lemma SecondTone(f: Params, b: Vector, z: real, r: real, v: real, u: real, i: nat)
    requires Warped(f.a, z, r) && Times(v, z) == 1.0 && 1 <= i <= f.pd
    ensures Taps2(f, b, Before(f, b, r, v, u))(i) == Tap2(f, b, r, u, i) == After(f, b, r, v, u)(Chain2(f) + i)
  {
    hide Times, Before, After, Block, Chain2, Warped, Shifted, Section, Polynomial, Tilted;
    SectionTone(f, b, z, r, v, u, i - 1, f.m);
    ChainTone(f, b, r, v, u, i);
    var s, g := SecondExponent(f, b, r), Times(Polynomial(f.pade, FirstExponent(f, b, r), f.pd), u);
    var t := Tilted(b, r, 2, f.m);
    Regroups(t, r + f.a, Times(Power(s, i - 1), g));
    Regroups(r + f.a, t, Times(Power(s, i - 1), g));
    Regroups(Power(s, i - 1), s, g);
  }

  lemma SecondCascadeTone(f: Params, b: Vector, z: real, r: real, v: real, u: real, x: real)
    requires Warped(f.a, z, r) && Times(v, z) == 1.0
    requires Middle(f, b, x, Before(f, b, r, v, u)) == Times(Polynomial(f.pade, -SecondExponent(f, b, r), f.pd), Tap2(f, b, r, u, 0))
    ensures var d := Before(f, b, r, v, u);
            Feed(Taps2(f, b, d), f.pade, Middle(f, b, x, d), f.pd) == Tap2(f, b, r, u, 0)
            && Filtered(f, b, x, d) == Times(Polynomial(f.pade, SecondExponent(f, b, r), f.pd), Tap2(f, b, r, u, 0))
  {
    hide Times, Chain2, HeldTone, Polynomial, Warped, Before, After, FirstExponent, SecondExponent, SumFrom, Taps2, Middle;
    var t := Taps2(f, b, Before(f, b, r, v, u));
    var s, g := SecondExponent(f, b, r), Times(Polynomial(f.pade, FirstExponent(f, b, r), f.pd), u);
    OneTimes(g);
    forall i | 1 <= i <= f.pd
      ensures t(i) == Times(Power(s, i), g)
    {
      SecondTone(f, b, z, r, v, u, i);
    }
    assert Tap2(f, b, r, u, 0) == g;
    hide Power, Tap2, Signed, Weighed;
    GeometricSums(t, f.pade, s, g, f.pd);
  }

  // ----- the sample -----

  ghost function ToneOut(f: Params, b: Vector, r: real, u: real): real {
    Times(Both(f, FirstExponent(f, b, r), SecondExponent(f, b, r)), u)
  }

  ghost function ToneIn(f: Params, b: Vector, r: real, u: real): real {
    Times(Both(f, -FirstExponent(f, b, r), -SecondExponent(f, b, r)), u)
  }

  lemma GainsMeet(f: Params, b: Vector, r: real, u: real)
    ensures ToneIn(f, b, r, u) == Times(Polynomial(f.pade, -FirstExponent(f, b, r), f.pd), Tap1(f, b, r, u, 0))
    ensures Times(Polynomial(f.pade, FirstExponent(f, b, r), f.pd), Tap1(f, b, r, u, 0))
            == Times(Polynomial(f.pade, -SecondExponent(f, b, r), f.pd), Tap2(f, b, r, u, 0))
    ensures Times(Polynomial(f.pade, SecondExponent(f, b, r), f.pd), Tap2(f, b, r, u, 0)) == ToneOut(f, b, r, u)
  {
    hide Times, Polynomial, FirstExponent, SecondExponent;
    var p1, q1 := Polynomial(f.pade, FirstExponent(f, b, r), f.pd), Polynomial(f.pade, -FirstExponent(f, b, r), f.pd);
    var q2 := Polynomial(f.pade, -SecondExponent(f, b, r), f.pd);
    OneTimes(Times(q2, u));
    OneTimes(Times(p1, u));
    assert Tap1(f, b, r, u, 0) == Times(q2, u) && Tap2(f, b, r, u, 0) == Times(p1, u);
    hide Power;
    Regroups(q1, q2, u);
    Regroups(p1, q2, u);
    Regroups(p1, Polynomial(f.pade, SecondExponent(f, b, r), f.pd), u);
  }

  lemma SectionTones(f: Params, b: Vector, z: real, r: real, v: real, u: real, j: nat)
    requires Warped(f.a, z, r) && Times(v, z) == 1.0 && j < f.pd
    ensures SectionMoved(f, Before(f, b, r, v, u), After(f, b, r, v, u), j)
  {
    hide Times, Tap1, Tap2, Before, After, Block, Chain2, Warped, Shifted, StageTone;
    var d, e := Before(f, b, r, v, u), After(f, b, r, v, u);
    forall i: nat | i < f.m + 2
      ensures ValueMoved(f, d, e, j, i)
    {
      BlockTone(f, b, r, v, u, j, i);
      ChainTone(f, b, r, v, u, j);
      if i > 0 {
        hide Warp;
        WarpTone(f, b, z, r, v, u, j, if i == 1 then 1 else i - 1);
      }
    }
  }

  lemma EndsOf(f: Params, b: Vector, r: real, v: real, u: real)
    ensures After(f, b, r, v, u)(0) == 0.0 == Before(f, b, r, v, u)(0)
    ensures After(f, b, r, v, u)(f.pd + 1) == Tap1(f, b, r, u, 0)
  {
    ChainAfter(f);
    NothingTimes(v);
    Commutes(0.0, v);
    hide Chain2, Tap1, Tap2, HeldTone, Times;
  }

  /** From this memory, the sample only scales it. */
  lemma ToneMoves(f: Params, b: Vector, z: real, r: real, v: real, u: real)
    requires Warped(f.a, z, r) && Times(v, z) == 1.0
    ensures Moves(f, b, ToneIn(f, b, r, u), Before(f, b, r, v, u), After(f, b, r, v, u))
    ensures Filtered(f, b, ToneIn(f, b, r, u), Before(f, b, r, v, u)) == ToneOut(f, b, r, u)
  {
    hide Times, Tap1, Tap2, Before, After, Block, Chain2, Warped, SectionMoved, Feed, Taps1, Taps2, Delay1, Middle, ToneIn, Polynomial;
    hide FirstExponent, SecondExponent, Filtered, ToneOut;
    var d, e := Before(f, b, r, v, u), After(f, b, r, v, u);
    EndsOf(f, b, r, v, u);
    GainsMeet(f, b, r, u);
    FirstCascadeTone(f, b, z, r, v, u, ToneIn(f, b, r, u));
    SecondCascadeTone(f, b, z, r, v, u, ToneIn(f, b, r, u));
    ChainTone(f, b, r, v, u, 0);
    forall i: nat | 1 <= i <= f.pd
      ensures TapsMoved(f, b, d, e, i)
    {
      FirstTone(f, b, z, r, v, u, i);
      SecondTone(f, b, z, r, v, u, i);
    }
    forall j: nat | j < f.pd
      ensures SectionMoved(f, d, e, j)
    {
      SectionTones(f, b, z, r, v, u, j);
    }
  }

  /** After it, the memory is z times what it was. */
  lemma ToneScales(f: Params, b: Vector, z: real, r: real, v: real, u: real)
    requires Times(v, z) == 1.0
    ensures Scales(f, z, Before(f, b, r, v, u), After(f, b, r, v, u))
    ensures Same(After(f, b, r, v, u), MixVector(z, 0.0, Before(f, b, r, v, u), Before(f, b, r, v, u)), Size(f))
  {
    hide After;
    var d, e := Before(f, b, r, v, u), After(f, b, r, v, u);
    forall k
      ensures e(k) == Times(z, d(k)) && e(k) == Mix(z, 0.0, d(k), d(k))
    {
      Undo(z, v, e(k));
    }
  }

  lemma Undo(z: real, v: real, y: real)
    requires Times(v, z) == 1.0
    ensures y == Times(z, Times(v, y)) == Mix(z, 0.0, Times(v, y), Times(v, y))
  {
    assert z * (v * y) == (v * z) * y;
  }

  // ----- over runs -----

  ghost predicate Powers(z: real, x: real, xs: seq<real>) {
    forall t: nat {:trigger xs[t]} :: t < |xs| ==> xs[t] == Times(Power(z, t), x)
  }

  lemma Once(p: real, x: real)
    ensures Mix(p, 0.0, x, x) == Times(p, x)
  {
  }

  lemma TwiceScaled(z: real, p: real, d: Vector, e: Vector, n: nat)
    requires Same(e, MixVector(z, 0.0, d, d), n)
    ensures Same(MixVector(p, 0.0, e, e), MixVector(Times(p, z), 0.0, d, d), n)
  {
    hide Times, Mix;
    forall k | 0 <= k < n
      ensures MixVector(p, 0.0, e, e)(k) == MixVector(Times(p, z), 0.0, d, d)(k)
    {
      Once(z, d(k));
      Once(p, e(k));
      Once(Times(p, z), d(k));
      Regroups(p, z, d(k));
    }
  }

  lemma SameTrans(d: Vector, e: Vector, g: Vector, n: nat)
    requires Same(d, e, n) && Same(e, g, n)
    ensures Same(d, g, n)
  {
  }

  lemma AllScaledByOne(d: Vector, e: Vector, n: nat)
    requires Same(d, e, n)
    ensures Same(d, MixVector(1.0, 0.0, e, e), n)
  {
  }

  /** From a memory for z, the filter turns each power of z into its response times that power. */
  lemma {:induction false} ToneRun(f: Params, b: Vector, z: real, r: real, v: real, u: real,
                                   bs: seq<Vector>, xs: seq<real>, ds: seq<Vector>, ys: seq<real>, t: nat)
    requires f.m >= 1 && Warped(f.a, z, r) && Times(v, z) == 1.0
    requires Run(f, bs, xs, ds, ys) && Constant(f, bs, b) && Powers(z, ToneIn(f, b, r, u), xs) && t <= |xs|
    requires Same(ds[0], Before(f, b, r, v, u), Size(f))
    ensures Same(ds[t], MixVector(Power(z, t), 0.0, Before(f, b, r, v, u), Before(f, b, r, v, u)), Size(f))
    ensures t < |xs| ==> ys[t] == Times(Power(z, t), ToneOut(f, b, r, u))
  {
    hide Times, Same, Moves, Before, After, Size, Warped, ToneIn, ToneOut, Filtered, MixVector, SameUpTo, Mix;
    var d, e := Before(f, b, r, v, u), After(f, b, r, v, u);
    var x := ToneIn(f, b, r, u);
    ToneMoves(f, b, z, r, v, u);
    if t == 0 {
      AllScaledByOne(ds[0], d, Size(f));
    } else {
      var i := t - 1;
      var p := Power(z, i);
      ToneRun(f, b, z, r, v, u, bs, xs, ds, ys, i);
      assert RunAt(f, bs, xs, ds, ys, i) && SameUpTo(bs[i], b, f.m);
      CoefficientsMove(f, bs[i], b, xs[i], ds[i], ds[t]);
      MovesLinear(f, b, p, 0.0, x, x, d, d, e, e);
      Once(p, x);
      StepDetermined(f, b, xs[i], ds[i], MixVector(p, 0.0, d, d), ds[t], MixVector(p, 0.0, e, e));
      ToneScales(f, b, z, r, v, u);
      TwiceScaled(z, p, d, e, Size(f));
      SameTrans(ds[t], MixVector(p, 0.0, e, e), MixVector(Times(p, z), 0.0, d, d), Size(f));
    }
    if t < |xs| {
      var p := Power(z, t);
      assert RunAt(f, bs, xs, ds, ys, t) && SameUpTo(bs[t], b, f.m);
      CoefficientsMove(f, bs[t], b, xs[t], ds[t], ds[t + 1]);
      OutputLinear(f, b, p, 0.0, x, x, d, d);
      SameOutput(f, b, xs[t], ds[t], MixVector(p, 0.0, d, d));
      Once(p, x);
      Once(p, ToneOut(f, b, r, u));
    }
  }
}
