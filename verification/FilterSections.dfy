/** What a section of the filter does to a signal: its stages are all-pass, and without warping they
    are plain delays. */
module FilterSections {
  import opened RealSums
  import opened Gram
  import opened MlsaFilter

  /** What section j is fed with sample t. */
  ghost function Fed(f: Params, ds: seq<Vector>, j: nat, t: int): real {
    if 0 <= t < |ds| then ds[t](Chain2(f) + j) else 0.0
  }

  /** What stage i of section j gives for sample t, as it is stored; nothing before the first sample. */
  ghost function Stage(f: Params, ds: seq<Vector>, j: nat, i: nat, t: int): real {
    if i == 0 then Fed(f, ds, j, t)
    else if 0 <= t + 1 < |ds| then ds[t + 1](Block(f, j) + i + 1) else 0.0
  }

  ghost predicate Empty(f: Params, d: Vector) {
    forall k :: 0 <= k < Size(f) ==> d(k) == 0.0
  }

  /** A stored value is the one before it, moved on, in terms of the memory. */
  lemma StoredValue(f: Params, bs: seq<Vector>, xs: seq<real>, ds: seq<Vector>, ys: seq<real>, j: nat, t: nat, i: nat)
    requires Run(f, bs, xs, ds, ys) && t < |xs| && j < f.pd && 1 <= i <= f.m
    ensures Stage(f, ds, j, i, t) == Warp(f.a, Fed(f, ds, j, t), Shifted(ds[t], Block(f, j)), i)
  {
    hide Warp;
    assert RunAt(f, bs, xs, ds, ys, t);
    assert SectionMoved(f, ds[t], ds[t + 1], j);
    assert ValueMoved(f, ds[t], ds[t + 1], j, i + 1);
  }

  lemma InsideBlock(f: Params, j: nat, i: nat)
    requires j < f.pd && i < f.m + 2
    ensures 0 <= Block(f, j) + i < Size(f) && 0 <= Chain2(f) + j < Size(f)
  {
    BlockOrder(f, j);
    BlockStart(f, j);
  }

  /** The first stage is a one-pole low pass of the input; each stage after it passes all frequencies
      alike: its output plus a times its input is its last input plus a times its last output. */
  lemma StagesPassAll(f: Params, bs: seq<Vector>, xs: seq<real>, ds: seq<Vector>, ys: seq<real>, j: nat, t: nat, i: nat)
    requires Run(f, bs, xs, ds, ys) && Empty(f, ds[0]) && t < |xs| && j < f.pd && 1 <= i <= f.m
    ensures i == 1 ==> Stage(f, ds, j, 1, t) == (1.0 - f.a * f.a) * Fed(f, ds, j, t) + f.a * Stage(f, ds, j, 1, t - 1)
    ensures i > 1 ==> Stage(f, ds, j, i, t) + f.a * Stage(f, ds, j, i - 1, t)
                      == Stage(f, ds, j, i - 1, t - 1) + f.a * Stage(f, ds, j, i, t - 1)
  {
    StoredValue(f, bs, xs, ds, ys, j, t, i);
    var d := Shifted(ds[t], Block(f, j));
    if i == 1 {
      BeforeIs(f, bs, xs, ds, ys, j, t, 1);
      FirstStageIs(f.a, Fed(f, ds, j, t), d, Stage(f, ds, j, 1, t - 1));
    } else {
      StoredValue(f, bs, xs, ds, ys, j, t, i - 1);
      BeforeIs(f, bs, xs, ds, ys, j, t, i);
      BeforeIs(f, bs, xs, ds, ys, j, t, i - 1);
      NextStageIs(f.a, Fed(f, ds, j, t), d, i, Stage(f, ds, j, i, t - 1), Stage(f, ds, j, i - 1, t), Stage(f, ds, j, i - 1, t - 1));
    }
  }

  /** What the memory holds is what the stages gave for the sample before. */
  lemma BeforeIs(f: Params, bs: seq<Vector>, xs: seq<real>, ds: seq<Vector>, ys: seq<real>, j: nat, t: nat, i: nat)
    requires Run(f, bs, xs, ds, ys) && Empty(f, ds[0]) && t < |xs| && j < f.pd && 1 <= i <= f.m
    ensures Shifted(ds[t], Block(f, j))(i + 1) == Stage(f, ds, j, i, t - 1)
    ensures i == 1 ==> Shifted(ds[t], Block(f, j))(1) == Stage(f, ds, j, 1, t - 1)
  {
    hide Warp;
    InsideBlock(f, j, i + 1);
    InsideBlock(f, j, i);
    if t > 0 {
      StoredValue(f, bs, xs, ds, ys, j, t - 1, i);
      assert RunAt(f, bs, xs, ds, ys, t - 1);
      assert SectionMoved(f, ds[t - 1], ds[t], j);
      assert ValueMoved(f, ds[t - 1], ds[t], j, i);
    }
  }

  lemma FirstStageIs(a: real, x: real, d: Vector, before: real)
    requires d(1) == before
    ensures Warp(a, x, d, 1) == (1.0 - a * a) * x + a * before
  {
  }

  lemma NextStageIs(a: real, x: real, d: Vector, i: nat, same: real, input: real, last: real)
    requires i >= 2 && d(i + 1) == same && d(i) == last && Warp(a, x, d, i - 1) == input
    ensures Warp(a, x, d, i) + a * input == last + a * same
  {
    assert Warp(a, x, d, i) == last + a * (same - input);
  }

  // ----- without warping -----

  /** Stage i is a delay by i - 1 samples. */
  lemma {:induction false} StageDelays(f: Params, bs: seq<Vector>, xs: seq<real>, ds: seq<Vector>, ys: seq<real>, j: nat, t: nat, i: nat)
    requires Run(f, bs, xs, ds, ys) && Empty(f, ds[0]) && f.a == 0.0 && t < |xs| && j < f.pd && 1 <= i <= f.m
    ensures Stage(f, ds, j, i, t) == Fed(f, ds, j, t - (i - 1))
    decreases i
  {
    assert |ds| == |xs| + 1;
    hide Run, Stage, Empty;
    StagesPassAll(f, bs, xs, ds, ys, j, t, i);
    StageBefore(f, ds, j, i);
    if i == 1 {
      Unwarped(f.a, Fed(f, ds, j, t), Stage(f, ds, j, 1, t - 1), 0.0, 0.0, 0.0);
    } else {
      Unwarped(f.a, 0.0, 0.0, Stage(f, ds, j, i - 1, t), Stage(f, ds, j, i - 1, t - 1), Stage(f, ds, j, i, t - 1));
      if t > 0 {
        StageDelays(f, bs, xs, ds, ys, j, t - 1, i - 1);
      } else {
        StageBefore(f, ds, j, i - 1);
      }
    }
  }

  lemma StageBefore(f: Params, ds: seq<Vector>, j: nat, i: nat)
    requires |ds| > 0 && Empty(f, ds[0]) && j < f.pd && 1 <= i <= f.m
    ensures Stage(f, ds, j, i, -1) == 0.0
  {
    InsideBlock(f, j, i + 1);
  }

  lemma Unwarped(a: real, x: real, y: real, p: real, q: real, r: real)
    requires a == 0.0
    ensures (1.0 - a * a) * x + a * y == x
    ensures a * p == 0.0 && q + a * r == q
  {
  }

  ghost function DelayedTerm(f: Params, b: Vector, ds: seq<Vector>, j: nat, t: nat): Vector {
    n => b(n) * Fed(f, ds, j, t - (n - 1))
  }

  /** A section puts out the sum of each coefficient times the input so many samples before. */
  lemma SectionIsFir(f: Params, bs: seq<Vector>, xs: seq<real>, ds: seq<Vector>, ys: seq<real>, j: nat, t: nat)
    requires Run(f, bs, xs, ds, ys) && Empty(f, ds[0]) && f.a == 0.0 && t < |xs| && j < f.pd && f.m >= 1
    ensures Taps2(f, bs[t], ds[t])(j + 1) == Sum(2, f.m + 1, DelayedTerm(f, bs[t], ds, j, t))
  {
    SectionUpTo(f, bs, xs, ds, ys, j, t, f.m);
  }

  lemma {:induction false} SectionUpTo(f: Params, bs: seq<Vector>, xs: seq<real>, ds: seq<Vector>, ys: seq<real>, j: nat, t: nat, n: nat)
    requires Run(f, bs, xs, ds, ys) && Empty(f, ds[0]) && f.a == 0.0 && t < |xs| && j < f.pd && 1 <= n <= f.m
    ensures Section(f.a, bs[t], ds[t](Chain2(f) + j), Shifted(ds[t], Block(f, j)), n)
            == Sum(2, n + 1, DelayedTerm(f, bs[t], ds, j, t))
    decreases n
  {
    assert Sum(2, 2, DelayedTerm(f, bs[t], ds, j, t)) == 0.0;
    assert |bs| == |xs| == |ds| - 1;
    if n < 2 {
      assert Section(f.a, bs[t], ds[t](Chain2(f) + j), Shifted(ds[t], Block(f, j)), n) == 0.0;
    } else {
      hide Warp, Run, Sum, Times, Empty, Stage, Section, Fed, DelayedTerm, Shifted;
      SectionUpTo(f, bs, xs, ds, ys, j, t, n - 1);
      SumLast(2, n + 1, DelayedTerm(f, bs[t], ds, j, t));
      StoredValue(f, bs, xs, ds, ys, j, t, n);
      StageDelays(f, bs, xs, ds, ys, j, t, n);
      FedAt(f, ds, j, t);
      SectionStep(f.a, bs[t], ds[t](Chain2(f) + j), Shifted(ds[t], Block(f, j)), n);
      TermIs(f, bs[t], ds, j, t, n);
    }
  }

  lemma FedAt(f: Params, ds: seq<Vector>, j: nat, t: nat)
    requires t < |ds|
    ensures Fed(f, ds, j, t) == ds[t](Chain2(f) + j)
  {
  }

  lemma SectionStep(a: real, b: Vector, x: real, d: Vector, n: nat)
    requires n >= 2
    ensures Section(a, b, x, d, n) == Section(a, b, x, d, n - 1) + Times(Warp(a, x, d, n), b(n))
  {
  }

  lemma TermIs(f: Params, b: Vector, ds: seq<Vector>, j: nat, t: nat, n: nat)
    ensures DelayedTerm(f, b, ds, j, t)(n) == Times(Fed(f, ds, j, t - (n - 1)), b(n))
  {
  }

  /** The first cascade's stages: each a one-pole low pass of the stage before it, one sample late, times
      the first coefficient. */
  lemma FirstCascadeStages(f: Params, bs: seq<Vector>, xs: seq<real>, ds: seq<Vector>, ys: seq<real>, t: nat, i: nat)
    requires Run(f, bs, xs, ds, ys) && t < |xs| && 1 <= i <= f.pd
    ensures ds[t + 1](i) == (1.0 - f.a * f.a) * ds[t](f.pd + i) + f.a * ds[t](i)
    ensures ds[t + 1](f.pd + 1 + i) == bs[t](1) * ds[t + 1](i)
  {
    assert RunAt(f, bs, xs, ds, ys, t);
    assert TapsMoved(f, bs[t], ds[t], ds[t + 1], i);
    DelayIs(f, ds[t], i);
    hide Run, RunAt, Moves, Times, Delay1;
    Commutes(Delay1(f, ds[t], i), bs[t](1));
  }

  lemma DelayIs(f: Params, d: Vector, i: int)
    ensures Delay1(f, d, i) == (1.0 - f.a * f.a) * d(f.pd + i) + f.a * d(i)
  {
  }

  lemma Commutes(x: real, y: real)
    ensures Times(x, y) == y * x
  {
  }
}
