/** The vocoder: filter coefficients, their target, their increment and the filter's memory, all
    in one packed buffer that is updated in place. */
module Vocoders {
  import opened Gram
  import opened MlsaFilter
  import FilterResponse

  /** A stretch of the buffer as a vector. */
  ghost function View(s: seq<real>, at: int): Vector {
    i => if 0 <= at + i < |s| then s[at + i] else 0.0
  }

  /** The coefficients of the Pade approximations, of orders 0 to 5, one after another. */
  const PADE_TABLE: seq<real> := [
    1.0,
    1.0, 0.0, 1.0, 0.0,
    0.0, 1.0, 0.0, 0.0,
    0.0, 1.0, 0.4999273, 0.1067005,
    0.01170221, 0.0005656279, 1.0, 0.4999391,
    0.1107098, 0.01369984, 0.0009564853, 0.00003041721
  ]

  lemma TableSize(pd: nat)
    requires pd <= 5
    ensures pd * (pd + 1) / 2 + pd < |PADE_TABLE|
  {
  }

  class Vocoder {
    const m: nat
    const pd: nat
    const alpha: real
    const fprd: nat
    const iprd: nat
    const ngain: bool
    const c: array<real>
    var flagFirstPush: bool
    var nOfPopSinceLastPush: nat
    var volume: real

    /** Where the target, the increment and the memory start. */
    function CC(): nat {
      m + 1
    }

    function Inc(): nat {
      2 * (m + 1)
    }

    function D(): nat {
      3 * (m + 1)
    }

    /** Where the coefficients of the Pade approximation in use start in the table. */
    function PadeBase(): nat {
      pd * (pd + 1) / 2
    }

    ghost function F(): (f: Params)
      ensures f.m == m && f.a == alpha && f.pd == pd
    {
      Params(m, alpha, pd, View(PADE_TABLE, PadeBase()))
    }

    /** The buffer holds the coefficients, the target, the increment and the memory, and no more. */
    ghost predicate Valid() {
      1 <= m && pd <= 5 && 0 < fprd && 0 < iprd && c.Length == D() + Size(F())
    }

    /** The memory in its parts. */
    lemma Layout()
      ensures Size(F()) == Chain2(F()) + pd + 1 && Chain2(F()) >= 2 * (pd + 1)
    {
      ChainAfter(F());
    }

    constructor (m: nat, alpha: real, fprd: nat, iprd: nat, pd: nat, ngain: bool)
      requires 1 <= m && pd <= 5 && 0 < fprd && 0 < iprd
      ensures Valid() && fresh(c) && flagFirstPush
      ensures this.m == m && this.pd == pd && this.alpha == alpha && this.fprd == fprd && this.iprd == iprd
    {
      this.m, this.alpha, this.fprd, this.iprd, this.pd, this.ngain := m, alpha, fprd, iprd, pd, ngain;
      c := new real[3 * (m + 1) + 3 * (pd + 1) + pd * (m + 2)](_ => 0.0);
      flagFirstPush, nOfPopSinceLastPush, volume := true, 0, 1.0;
    }

    // ----- the filter -----

    ghost predicate OthersSame(s: seq<real>, s': seq<real>, lo: int, hi: int) {
      |s'| == |s| && forall x :: 0 <= x < |s| && !(lo <= x < hi) ==> s'[x] == s[x]
    }

    /** The stored values of a section as a sample passes, and the section's output. */
    method WarpThrough(x: real, off: nat) returns (y: real)
      requires Valid() && D() <= off && off + m + 2 <= c.Length
      modifies c
      ensures y == Section(alpha, View(old(c[..]), 0), x, View(old(c[..]), off), m)
      ensures forall k :: off <= k < off + m + 1 ==> c[k] == Warp(alpha, x, View(old(c[..]), off), k - off)
      ensures OthersSame(old(c[..]), c[..], off, off + m + 1)
    {
      hide Warp, Section, Times, View, Size, F;
      ghost var was, b, d := c[..], View(c[..], 0), View(c[..], off);
      WarpStarts(was, x, off);
      y := 0.0;
      var aa := 1.0 - alpha * alpha;
      c[off] := x;
      c[off + 1] := aa * c[off] + alpha * c[off + 1];
      var i := 2;
      while i <= m
        invariant 2 <= i && (i <= m + 1 || i == 2) && y == Section(alpha, b, x, d, i - 1)
        invariant forall k :: off <= k < off + i ==> c[k] == Warp(alpha, x, d, k - off)
        invariant forall k :: 0 <= k < c.Length && !(off <= k < off + i) ==> c[k] == was[k]
      {
        WarpStep(was, x, off, i);
        var stored := c[off + i] + alpha * (c[off + i + 1] - c[off + i - 1]);
        c[off + i] := stored;
        y := y + stored * c[i];
        i := i + 1;
      }
    }

    lemma WarpStarts(was: seq<real>, x: real, off: nat)
      requires off + 1 < |was|
      ensures Warp(alpha, x, View(was, off), 0) == x
      ensures Warp(alpha, x, View(was, off), 1) == (1.0 - alpha * alpha) * x + alpha * was[off + 1]
      ensures Section(alpha, View(was, 0), x, View(was, off), 1) == 0.0
    {
    }

    lemma WarpStep(was: seq<real>, x: real, off: nat, i: nat)
      requires 2 <= i && off + i + 1 < |was| && i < |was|
      ensures var b, d := View(was, 0), View(was, off);
              && Warp(alpha, x, d, i) == was[off + i] + alpha * (was[off + i + 1] - Warp(alpha, x, d, i - 1))
              && Section(alpha, b, x, d, i) == Section(alpha, b, x, d, i - 1) + Warp(alpha, x, d, i) * was[i]
    {
    }

    /** One section of the second cascade, in place. */
    method Mlsafir(x: real, off: nat) returns (y: real)
      requires Valid() && D() <= off && off + m + 2 <= c.Length
      modifies c
      ensures y == Section(alpha, View(old(c[..]), 0), x, View(old(c[..]), off), m)
      ensures forall k :: off <= k < off + m + 2 ==> c[k] == Memory(alpha, x, View(old(c[..]), off), k - off)
      ensures OthersSame(old(c[..]), c[..], off, off + m + 2)
    {
      hide Warp, Section, Size, F;
      ghost var d := View(c[..], off);
      y := WarpThrough(x, off);
      var i := m + 1;
      while i > 1
        invariant 1 <= i <= m + 1
        invariant forall k :: off <= k < off + i + 1 && k < off + m + 1 ==> c[k] == Warp(alpha, x, d, k - off)
        invariant forall k :: off + i < k < off + m + 2 ==> c[k] == Warp(alpha, x, d, k - off - 1)
        invariant OthersSame(old(c[..]), c[..], off, off + m + 2)
      {
        c[off + i] := c[off + i - 1];
        i := i - 1;
      }
    }

    lemma SumStep(v: Vector, i: int, n: int)
      requires i <= n
      ensures SumFrom(v, i, n) == SumFrom(v, i + 1, n) + v(i)
    {
    }

    lemma SumNone(v: Vector, n: int)
      ensures SumFrom(v, n + 1, n) == 0.0
    {
    }

    lemma PadeAt(i: nat)
      requires Valid() && i <= pd
      ensures PadeBase() + i < |PADE_TABLE| && F().pade(i) == PADE_TABLE[PadeBase() + i]
    {
      TableSize(pd);
    }

    lemma FirstChainStep(was: seq<real>, i: nat)
      requires Valid() && |was| == c.Length && 1 <= i <= pd
      ensures D() + pd + 1 + i < |was| && m + 1 < |was|
      ensures var d, b := View(was, D()), View(was, 0);
              && Delay1(F(), d, i) == (1.0 - alpha * alpha) * was[D() + pd + i] + alpha * was[D() + i]
              && Taps1(F(), b, d)(i) == Delay1(F(), d, i) * was[1]
              && Weighed(Taps1(F(), b, d), F().pade)(i) == Taps1(F(), b, d)(i) * F().pade(i)
    {
      hide Size, Chain2, Block, F, PadeBase;
      Layout();
    }

    /** Delay and tap i of the first cascade. */
    method FirstChainTurn(i: nat, ghost was: seq<real>) returns (v: real)
      requires Valid() && 1 <= i <= pd && |was| == c.Length
      requires D() + pd + i < c.Length && c[D() + pd + i] == was[D() + pd + i] && c[D() + i] == was[D() + i] && c[1] == was[1]
      modifies c
      ensures D() + pd + 1 + i < c.Length
      ensures FirstChainMoved(was, c[..], i)
      ensures forall k :: 0 <= k < c.Length && k != D() + i && k != D() + pd + 1 + i ==> c[k] == old(c[k])
      ensures v == Weighed(Taps1(F(), View(was, 0), View(was, D())), F().pade)(i)
    {
      hide View, Times, Taps1, Delay1, SumFrom, Size, Chain2, Block, F, PadeBase;
      FirstChainStep(was, i);
      PadeAt(i);
      var aa, pt := 1.0 - alpha * alpha, D() + pd + 1;
      var delay := aa * c[pt + i - 1] + alpha * c[D() + i];
      assert delay == Delay1(F(), View(was, D()), i);
      var tap := delay * c[1];
      v := tap * PADE_TABLE[PadeBase() + i];
      c[D() + i] := delay;
      c[pt + i] := tap;
    }

    /** The first cascade, in place. */
    method Mlsadf1(x: real) returns (out: real)
      requires Valid()
      modifies c
      ensures out == Middle(F(), View(old(c[..]), 0), x, View(old(c[..]), D()))
      ensures forall k :: 1 <= k <= pd ==> FirstChainMoved(old(c[..]), c[..], k)
      ensures D() + pd + 1 < c.Length
              && c[D() + pd + 1] == Feed(Taps1(F(), View(old(c[..]), 0), View(old(c[..]), D())), F().pade, x, pd)
      ensures c[D()] == old(c[D()]) && OthersSame(old(c[..]), c[..], D(), D() + 2 * (pd + 1))
    {
      hide View, Times, Taps1, Delay1, SumFrom, Size, Chain2, Block, Weighed, Signed, F, PadeBase;
      Layout();
      ghost var was := c[..];
      ghost var w := Weighed(Taps1(F(), View(was, 0), View(was, D())), F().pade);
      SumNone(w, pd);
      SumNone(Signed(w), pd);
      out := 0.0;
      var fed, pt, i := x, D() + pd + 1, pd;
      while i >= 1
        invariant 0 <= i <= pd
        invariant out == SumFrom(w, i + 1, pd) && fed == x + SumFrom(Signed(w), i + 1, pd)
        invariant forall k :: i < k <= pd ==> FirstChainMoved(was, c[..], k)
        invariant forall k :: 0 <= k < c.Length && !(D() + i < k <= D() + pd) && !(pt + i < k <= pt + pd) ==> c[k] == was[k]
      {
        SumStep(w, i, pd);
        SumStep(Signed(w), i, pd);
        SignedAt(w, i);
        ghost var before := c[..];
        var v := FirstChainTurn(i, was);
        forall k | i <= k <= pd
          ensures FirstChainMoved(was, c[..], k)
        {
          assert k > i ==> FirstChainMoved(was, before, k);
        }
        fed := fed + if i % 2 == 1 then v else -v;
        out := out + v;
        i := i - 1;
      }
      ghost var before := c[..];
      c[pt] := fed;
      forall k | 1 <= k <= pd
        ensures FirstChainMoved(was, c[..], k)
      {
        assert FirstChainMoved(was, before, k);
      }
      out := out + fed;
    }

    lemma SignedAt(w: Vector, i: int)
      ensures Signed(w)(i) == if i % 2 == 1 then w(i) else -w(i)
    {
    }

    ghost predicate FirstChainMoved(was: seq<real>, now: seq<real>, i: int)
      requires Valid()
    {
      && 0 <= D() + i && D() + pd + 1 + i < |now|
      && now[D() + i] == Delay1(F(), View(was, D()), i)
      && now[D() + pd + 1 + i] == Taps1(F(), View(was, 0), View(was, D()))(i)
    }

    // ----- the second cascade -----

    /** Where section j, or the second chain, starts within the memory. */
    function Offset(j: nat): nat {
      2 * (pd + 1) + j * (m + 2)
    }

    lemma BlockLayout(j: nat)
      requires j < pd
      ensures Block(F(), j) == Offset(j) && Chain2(F()) == Offset(pd)
      ensures 2 * (pd + 1) <= Block(F(), j) && Block(F(), j) + m + 2 == Block(F(), j + 1) <= Chain2(F())
      ensures Size(F()) == Chain2(F()) + pd + 1
    {
      BlockOrder(F(), j);
      assert (j + 1) * (m + 2) == j * (m + 2) + (m + 2);
    }

    lemma BlocksFollow(j: nat, k: nat)
      requires j <= k <= pd
      ensures Block(F(), j) <= Block(F(), k) && Block(F(), pd) == Chain2(F())
    {
      assert j * (m + 2) <= k * (m + 2);
    }

    ghost predicate SecondChainMoved(was: seq<real>, now: seq<real>, i: nat)
      requires Valid() && 1 <= i
    {
      && D() + Chain2(F()) + i < |now|
      && SectionMoved(F(), View(was, D()), View(now, D()), i - 1)
      && now[D() + Chain2(F()) + i] == Taps2(F(), View(was, 0), View(was, D()))(i)
    }

    /** What a section computed, in terms of the memory before the sample. */
    lemma SectionDone(was: seq<real>, before: seq<real>, now: seq<real>, j: nat, off: nat, top: nat, x: real, y: real)
      requires 1 <= m && |was| == |before| == |now| && off + m + 2 <= |was| && m < |was| && top + j < |was|
      requires forall k :: off <= k < off + m + 2 ==> before[k] == was[k]
      requires forall k :: 0 <= k <= m ==> before[k] == was[k]
      requires x == was[top + j] && y == Section(alpha, View(before, 0), x, View(before, off), m)
      requires forall k :: off <= k < off + m + 2 ==> now[k] == Memory(alpha, x, View(before, off), k - off)
      requires j < pd && off == D() + Block(F(), j) && top == D() + Chain2(F())
      ensures SectionMoved(F(), View(was, D()), View(now, D()), j)
      ensures y == Taps2(F(), View(was, 0), View(was, D()))(j + 1)
    {
      hide Block, Chain2, Size, Warp, Section, F;
      var b, d := Block(F(), j), View(was, D());
      assert forall k :: 0 <= k <= m + 1 ==> View(before, off)(k) == Shifted(d, b)(k);
      forall i: nat | i < m + 2
        ensures ValueMoved(F(), d, View(now, D()), j, i)
      {
        WarpSame(alpha, x, View(before, off), Shifted(d, b), if i < 2 then i else i - 1);
        assert now[off + i] == Memory(alpha, x, View(before, off), off + i - off);
      }
      SectionSame(alpha, View(before, 0), x, View(before, off), Shifted(d, b), m);
      CoefficientsSame(alpha, View(before, 0), View(was, 0), x, Shifted(d, b), m);
    }

    /** Section i - 1 and tap i of the second cascade. */
    method SecondChainTurn(i: nat, ghost was: seq<real>) returns (v: real)
      requires Valid() && 1 <= i <= pd && |was| == c.Length
      requires forall k :: 0 <= k < c.Length && k < D() + Block(F(), i) ==> c[k] == was[k]
      requires forall k :: 0 <= k < c.Length && D() + Chain2(F()) <= k < D() + Chain2(F()) + i ==> c[k] == was[k]
      modifies c
      ensures SecondChainMoved(was, c[..], i)
      ensures forall k | 0 <= k < c.Length && !(D() + Block(F(), i - 1) <= k < D() + Block(F(), i)) ::
                k != D() + Chain2(F()) + i ==> c[k] == old(c[k])
      ensures v == Weighed(Taps2(F(), View(was, 0), View(was, D())), F().pade)(i)
    {
      hide View, Times, Taps2, Size, Chain2, Block, F, PadeBase, Section, Memory, SectionMoved, Weighed, Offset;
      BlockLayout(i - 1);
      BlocksFollow(i, pd);
      PadeAt(i);
      var off, pt := D() + Offset(i - 1), D() + Offset(pd);
      var x := c[pt + i - 1];
      ghost var before := c[..];
      var y := Mlsafir(x, off);
      ghost var middle := c[..];
      SectionDone(was, before, middle, i - 1, off, pt, x, y);
      c[pt + i] := y;
      SectionKept(was, middle, c[..], i - 1);
      v := y * PADE_TABLE[PadeBase() + i];
      WeighedAt(Taps2(F(), View(was, 0), View(was, D())), F().pade, i);
    }

    lemma WeighedAt(t: Vector, pade: Vector, i: int)
      ensures Weighed(t, pade)(i) == t(i) * pade(i)
    {
    }

    lemma SectionKept(was: seq<real>, before: seq<real>, now: seq<real>, j: nat)
      requires Valid() && j < pd && |was| == |before| == |now| == c.Length
      requires SectionMoved(F(), View(was, D()), View(before, D()), j)
      requires forall k :: D() + Block(F(), j) <= k < D() + Block(F(), j) + m + 2 ==> 0 <= k < |now| && now[k] == before[k]
      ensures SectionMoved(F(), View(was, D()), View(now, D()), j)
    {
      BlockLayout(j);
      hide Memory, Block, Chain2, Size, F;
      forall i: nat | i < m + 2
        ensures ValueMoved(F(), View(was, D()), View(now, D()), j, i)
      {
        assert ValueMoved(F(), View(was, D()), View(before, D()), j, i);
        assert now[D() + Block(F(), j) + i] == before[D() + Block(F(), j) + i];
      }
    }

    /** The second cascade, in place. */
    method Mlsadf2(x: real) returns (out: real)
      requires Valid()
      modifies c
      ensures out == Output(Taps2(F(), View(old(c[..]), 0), View(old(c[..]), D())), F().pade, x, pd)
      ensures forall k: nat :: 1 <= k <= pd ==> SecondChainMoved(old(c[..]), c[..], k)
      ensures D() + Chain2(F()) < c.Length
              && c[D() + Chain2(F())] == Feed(Taps2(F(), View(old(c[..]), 0), View(old(c[..]), D())), F().pade, x, pd)
      ensures forall k :: 0 <= k < D() + 2 * (pd + 1) && k < c.Length ==> c[k] == old(c[k])
    {
      hide View, Times, Taps2, SumFrom, Size, Chain2, Block, Weighed, Signed, F, PadeBase, SectionMoved, Offset;
      Layout();
      BlocksFollow(0, pd);
      ghost var was := c[..];
      ghost var w := Weighed(Taps2(F(), View(was, 0), View(was, D())), F().pade);
      SumNone(w, pd);
      SumNone(Signed(w), pd);
      out := 0.0;
      var fed, pt, i := x, D() + Offset(pd), pd;
      ChainStart();
      while i >= 1
        invariant 0 <= i <= pd
        invariant out == SumFrom(w, i + 1, pd) && fed == x + SumFrom(Signed(w), i + 1, pd)
        invariant forall k: nat :: i < k <= pd ==> SecondChainMoved(was, c[..], k)
        invariant forall k :: 0 <= k < c.Length && k < D() + Block(F(), i) ==> c[k] == was[k]
        invariant forall k :: 0 <= k < c.Length && D() + Chain2(F()) <= k <= D() + Chain2(F()) + i ==> c[k] == was[k]
      {
        SumStep(w, i, pd);
        SumStep(Signed(w), i, pd);
        SignedAt(w, i);
        BlockLayout(i - 1);
        BlocksFollow(i, pd);
        ghost var before := c[..];
        var v := SecondChainTurn(i, was);
        forall k: nat | i <= k <= pd
          ensures SecondChainMoved(was, c[..], k)
        {
          if k > i {
            BlockLayout(k - 1);
            BlocksFollow(i, k - 1);
            assert SecondChainMoved(was, before, k);
            SectionKept(was, before, c[..], k - 1);
          }
        }
        fed := fed + if i % 2 == 1 then v else -v;
        out := out + v;
        i := i - 1;
      }
      ghost var before := c[..];
      c[pt] := fed;
      forall k: nat | 1 <= k <= pd
        ensures SecondChainMoved(was, c[..], k)
      {
        BlockLayout(k - 1);
        assert SecondChainMoved(was, before, k);
        SectionKept(was, before, c[..], k - 1);
      }
      BlockZero();
      out := out + fed;
    }

    lemma ChainStart()
      ensures Chain2(F()) == Offset(pd)
    {
    }

    lemma BlockZero()
      ensures Block(F(), 0) == 2 * (pd + 1)
    {
    }

    // ----- the whole filter -----

    /** The two cascades one after the other move the memory as one filter. */
    lemma CascadesCompose(s0: seq<real>, s1: seq<real>, s2: seq<real>, x: real)
      requires Valid() && |s0| == |s1| == |s2| == c.Length
      requires forall k :: 1 <= k <= pd ==> FirstChainMoved(s0, s1, k)
      requires D() + pd + 1 < |s1| && s1[D() + pd + 1] == Feed(Taps1(F(), View(s0, 0), View(s0, D())), F().pade, x, pd)
      requires s1[D()] == s0[D()] && OthersSame(s0, s1, D(), D() + 2 * (pd + 1))
      requires forall k: nat :: 1 <= k <= pd ==> SecondChainMoved(s1, s2, k)
      requires D() + Chain2(F()) < |s2| && s2[D() + Chain2(F())]
               == Feed(Taps2(F(), View(s1, 0), View(s1, D())), F().pade, Middle(F(), View(s0, 0), x, View(s0, D())), pd)
      requires forall k :: 0 <= k < D() + 2 * (pd + 1) && k < c.Length ==> s2[k] == s1[k]
      ensures Moves(F(), View(s0, 0), x, View(s0, D()), View(s2, D()))
      ensures Output(Taps2(F(), View(s1, 0), View(s1, D())), F().pade, Middle(F(), View(s0, 0), x, View(s0, D())), pd)
              == Filtered(F(), View(s0, 0), x, View(s0, D()))
    {
      hide Times, Taps1, Taps2, SumFrom, Size, Chain2, Block, Weighed, Signed, F, Middle, Delay1, SectionMoved;
      Layout();
      SameTaps(s0, s1);
      SumSame(Taps2(F(), View(s1, 0), View(s1, D())), Taps2(F(), View(s0, 0), View(s0, D())), F().pade, 1, pd);
      forall i: nat | 1 <= i <= pd
        ensures TapsMoved(F(), View(s0, 0), View(s0, D()), View(s2, D()), i)
      {
        assert FirstChainMoved(s0, s1, i) && SecondChainMoved(s1, s2, i);
      }
      forall j: nat | j < pd
        ensures SectionMoved(F(), View(s0, D()), View(s2, D()), j)
      {
        assert SecondChainMoved(s1, s2, j + 1);
        SectionFrom(s0, s1, s2, j);
      }
    }

    lemma SameTaps(s0: seq<real>, s1: seq<real>)
      requires Valid() && |s0| == |s1| == c.Length && OthersSame(s0, s1, D(), D() + 2 * (pd + 1))
      ensures forall i :: 1 <= i <= pd
                ==> Taps2(F(), View(s1, 0), View(s1, D()))(i) == Taps2(F(), View(s0, 0), View(s0, D()))(i)
    {
      hide Taps2, Size, Chain2, Block, F;
      forall i | 1 <= i <= pd
        ensures Taps2(F(), View(s1, 0), View(s1, D()))(i) == Taps2(F(), View(s0, 0), View(s0, D()))(i)
      {
        Taps2Same(F(), View(s1, 0), View(s0, 0), View(s1, D()), View(s0, D()), i);
      }
    }

    lemma SectionFrom(s0: seq<real>, s1: seq<real>, s2: seq<real>, j: nat)
      requires Valid() && j < pd && |s0| == |s1| == |s2| == c.Length && OthersSame(s0, s1, D(), D() + 2 * (pd + 1))
      requires SectionMoved(F(), View(s1, D()), View(s2, D()), j)
      ensures SectionMoved(F(), View(s0, D()), View(s2, D()), j)
    {
      BlockLayout(j);
      hide Block, Chain2, Size, Warp, F;
      var b, x := Block(F(), j), s0[D() + Chain2(F()) + j];
      forall i: nat | i < m + 2
        ensures ValueMoved(F(), View(s0, D()), View(s2, D()), j, i)
      {
        assert ValueMoved(F(), View(s1, D()), View(s2, D()), j, i);
        WarpSame(alpha, x, Shifted(View(s0, D()), b), Shifted(View(s1, D()), b), if i < 2 then i else i - 1);
      }
    }

    /** One sample through the filter: what comes out, and what the memory becomes. The
        coefficients, their target and their increment are not touched. */
    method Mlsadf(x: real) returns (y: real)
      requires Valid()
      modifies c
      ensures y == Filtered(F(), View(old(c[..]), 0), x, View(old(c[..]), D()))
      ensures Moves(F(), View(old(c[..]), 0), x, View(old(c[..]), D()), View(c[..], D()))
      ensures forall k :: 0 <= k < D() ==> k < c.Length && c[k] == old(c[k])
    {
      hide View, Moves, Filtered, Middle, Output, Feed, Taps1, Taps2, SecondChainMoved, FirstChainMoved, F, Chain2, Size;
      ghost var s0 := c[..];
      Layout();
      var middle := Mlsadf1(x);
      ghost var s1 := c[..];
      y := Mlsadf2(middle);
      CascadesCompose(s0, s1, c[..], x);
    }

    // ----- frames and samples -----

    /** How many more samples the coefficients go on moving. */
    function Remaining(): nat
      reads this
      requires 0 < iprd
    {
      if nOfPopSinceLastPush < fprd / iprd then fprd / iprd - nOfPopSinceLastPush else 0
    }

    /** The coefficients are on a straight line to their target. */
    ghost predicate OnRamp()
      reads this, c
      requires Valid()
    {
      forall i {:trigger RampAt(c[..], i, Remaining())} :: 0 <= i <= m ==> RampAt(c[..], i, Remaining())
    }

    ghost predicate RampAt(s: seq<real>, i: int, remaining: nat)
      requires 0 <= i <= m && 3 * (m + 1) <= |s|
    {
      s[CC() + i] == s[i] + (remaining as real) * s[Inc() + i]
    }

    /** What one step of the ramp does to one coefficient. */
    lemma RampStep(target: real, now: real, step: real, remaining: nat)
      requires target == now + (remaining as real) * step && remaining > 0
      ensures target == now + step + ((remaining - 1) as real) * step
    {
    }

    /** The excitation times the gain. */
    function Amplified(excitation: real, c0: real, exp: real -> real): real {
      excitation * (if ngain then c0 else exp(c0))
    }

    /** The volume, unless it is negative. */
    function AtVolume(v: real, z: real): real {
      if v >= 0.0 then v * z else z
    }

    /** The gain is the first coefficient itself, or its exponential for one given as a logarithm; a
        negative volume leaves the sample alone. */
    lemma GainAndVolume(excitation: real, c0: real, exp: real -> real, v: real, z: real)
      ensures ngain ==> Amplified(excitation, c0, exp) == c0 * excitation
      ensures !ngain ==> Amplified(excitation, c0, exp) == exp(c0) * excitation
      ensures v < 0.0 ==> AtVolume(v, z) == z
      ensures v >= 0.0 ==> AtVolume(v, z) == z * v
    {
    }

    /** The next output sample for a sample of excitation: amplified, filtered, scaled; then the
        coefficients move on, until their time is up. */
    method Pop(excitation: real, exp: real -> real) returns (y: real)
      requires Valid()
      modifies c, this`nOfPopSinceLastPush
      ensures var x := Amplified(excitation, old(c[0]), exp);
              && y == AtVolume(volume, Filtered(F(), View(old(c[..]), 0), x, View(old(c[..]), D())))
              && Moves(F(), View(old(c[..]), 0), x, View(old(c[..]), D()), View(c[..], D()))
      ensures forall i {:trigger SteppedAt(old(c[..]), c[..], old(Remaining()), i)} ::
                0 <= i <= m ==> SteppedAt(old(c[..]), c[..], old(Remaining()), i)
      ensures forall k :: m < k < D() ==> c[k] == old(c[k])
      ensures nOfPopSinceLastPush == old(nOfPopSinceLastPush) + 1
      ensures old(OnRamp()) ==> OnRamp()
    {
      hide View, Moves, Filtered, F, Size, Same;
      ghost var was, left := c[..], Remaining();
      Layout();
      var x := Amplified(excitation, c[0], exp);
      var z := Mlsadf(x);
      ghost var between := c[..];
      if old(OnRamp()) {
        forall i | 0 <= i <= m
          ensures RampAt(c[..], i, Remaining())
        {
          assert RampAt(was, i, old(Remaining()));
        }
      }
      assert Remaining() == left;
      MoveCoefficients();
      forall i | 0 <= i <= m
        ensures SteppedAt(was, c[..], left, i)
      {
        assert SteppedAt(between, c[..], left, i);
      }
      MemorySame(between, c[..]);
      MovesTo(F(), View(was, 0), x, View(was, D()), View(between, D()), View(c[..], D()));
      y := AtVolume(volume, z);
    }

    /** Coefficient i has moved by its increment, if it is still on its way. */
    ghost predicate SteppedAt(s: seq<real>, s': seq<real>, left: nat, i: int)
      requires 0 <= i <= m && D() <= |s| && D() <= |s'|
    {
      s'[i] == s[i] + if left > 0 then s[Inc() + i] else 0.0
    }

    /** Moves the coefficients one step on their way, unless they have arrived. */
    method MoveCoefficients()
      requires Valid()
      modifies c, this`nOfPopSinceLastPush
      ensures forall i {:trigger SteppedAt(old(c[..]), c[..], old(Remaining()), i)} ::
                0 <= i <= m ==> SteppedAt(old(c[..]), c[..], old(Remaining()), i)
      ensures forall k :: m < k < c.Length ==> c[k] == old(c[k])
      ensures nOfPopSinceLastPush == old(nOfPopSinceLastPush) + 1
      ensures old(OnRamp()) ==> OnRamp()
    {
      hide Size, F;
      ghost var was, left := c[..], Remaining();
      Layout();
      if nOfPopSinceLastPush < fprd / iprd {
        var i := 0;
        while i <= m
          invariant 0 <= i <= m + 1
          invariant forall k {:trigger SteppedAt(was, c[..], left, k)} :: 0 <= k < i ==> SteppedAt(was, c[..], left, k)
          invariant forall k :: i <= k < c.Length ==> c[k] == was[k]
          modifies c
        {
          ghost var before := c[..];
          c[i] := c[i] + c[Inc() + i];
          forall k | 0 <= k < i + 1
            ensures SteppedAt(was, c[..], left, k)
          {
            assert k < i ==> SteppedAt(was, before, left, k);
          }
          i := i + 1;
        }
      }
      nOfPopSinceLastPush := nOfPopSinceLastPush + 1;
      if old(OnRamp()) {
        forall i | 0 <= i <= m
          ensures RampAt(c[..], i, Remaining())
        {
          assert RampAt(was, i, left) && SteppedAt(was, c[..], left, i);
          if left > 0 {
            RampStep(was[CC() + i], was[i], was[Inc() + i], left);
          }
        }
      }
    }

    lemma MemorySame(s: seq<real>, s': seq<real>)
      requires Valid() && |s| == |s'| == c.Length && forall k :: D() <= k < |s| ==> s[k] == s'[k]
      ensures Same(View(s, D()), View(s', D()), Size(F()))
    {
    }

    /** The coefficients at this place are the filter form of these mel-cepstral ones. */
    ghost predicate IsFilterForm(s: seq<real>, at: nat, mc: seq<real>)
      requires at + m < |s| && m < |mc|
    {
      s[at + m] == mc[m] && forall k {:trigger FormAt(s, at, mc, k)} :: 0 <= k < m ==> FormAt(s, at, mc, k)
    }

    ghost predicate FormAt(s: seq<real>, at: nat, mc: seq<real>, k: int)
      requires 0 <= k < m && at + m < |s| && m < |mc|
    {
      s[at + k] + Times(alpha, s[at + k + 1]) == mc[k]
    }

    /** Converts mel-cepstral coefficients, from the last to the first. */
    method Mc2b(mc: seq<real>, at: nat)
      requires Valid() && m < |mc| && at + m < c.Length
      modifies c
      ensures IsFilterForm(c[..], at, mc) && OthersSame(old(c[..]), c[..], at, at + m + 1)
    {
      hide Size, F;
      c[at + m] := mc[m];
      var k := m;
      while k > 0
        invariant 0 <= k <= m && c[at + m] == mc[m]
        invariant forall j {:trigger FormAt(c[..], at, mc, j)} :: k <= j < m ==> FormAt(c[..], at, mc, j)
        invariant OthersSame(old(c[..]), c[..], at, at + m + 1)
      {
        k := k - 1;
        ghost var before := c[..];
        c[at + k] := mc[k] - alpha * c[at + k + 1];
        forall j | k <= j < m
          ensures FormAt(c[..], at, mc, j)
        {
          assert j > k ==> FormAt(before, at, mc, j);
        }
      }
    }

    /** The exponents of the two cascades add up to the mel-cepstrum at the warped frequency, less the
        first coefficient, which is the gain. */
    lemma ExponentsAreSpectrum(s: seq<real>, mc: seq<real>, r: real)
      requires 1 <= m < |mc| && m < |s| && IsFilterForm(s, 0, mc)
      ensures FilterResponse.FirstExponent(F(), View(s, 0), r) + FilterResponse.SecondExponent(F(), View(s, 0), r)
              == FilterResponse.Spectrum(View(mc, 0), r, m) - s[0]
    {
      hide Times;
      var b, c := View(s, 0), View(mc, 0);
      forall k | 0 <= k < m
        ensures b(k) + Times(alpha, b(k + 1)) == c(k)
      {
        assert FormAt(s, 0, mc, k);
      }
      FilterResponse.ExponentsAre(F(), b, c, r);
    }

    /** The coefficients of orders 4 and 5. */
    lemma PadeValues()
      requires Valid()
      ensures var p := F().pade;
              pd == 4 ==> p(1) == 0.4999273 && p(2) == 0.1067005 && p(3) == 0.01170221 && p(4) == 0.0005656279
      ensures var p := F().pade;
              pd == 5 ==> p(1) == 0.4999391 && p(2) == 0.1107098 && p(3) == 0.01369984 && p(4) == 0.0009564853
                          && p(5) == 0.00003041721
    {
      if pd >= 4 {
        forall i: nat | i <= pd
          ensures PadeBase() + i < |PADE_TABLE| && F().pade(i) == PADE_TABLE[PadeBase() + i]
        {
          PadeAt(i);
        }
        hide F;
        PadeBases();
      }
    }

    lemma PadeBases()
      ensures pd == 4 ==> PadeBase() == 10
      ensures pd == 5 ==> PadeBase() == 15
    {
    }

    /** The polynomials of orders 4 and 5. */
    lemma PadePolynomials(s: real)
      requires Valid()
      ensures pd == 4 ==> FilterResponse.Polynomial(F().pade, s, 4)
                          == 1.0 + Times(s, 0.4999273 + Times(s, 0.1067005 + Times(s, 0.01170221 + Times(s, 0.0005656279))))
      ensures pd == 5 ==> FilterResponse.Polynomial(F().pade, s, 5)
                          == 1.0 + Times(s, 0.4999391 + Times(s, 0.1107098 + Times(s, 0.01369984
                                                      + Times(s, 0.0009564853 + Times(s, 0.00003041721)))))
    {
      hide Times, F, View;
      PadeValues();
      NestedForms(F().pade, s);
    }

    lemma NestedForms(p: Vector, s: real)
      ensures FilterResponse.Polynomial(p, s, 4)
              == 1.0 + Times(s, p(1) + Times(s, p(2) + Times(s, p(3) + Times(s, p(4)))))
      ensures FilterResponse.Polynomial(p, s, 5)
              == 1.0 + Times(s, p(1) + Times(s, p(2) + Times(s, p(3) + Times(s, p(4) + Times(s, p(5))))))
    {
      hide Times, FilterResponse.Polynomial;
      FilterResponse.Horner(p, s, 4);
      FilterResponse.Horner(p, s, 5);
    }

    /** Copies the target over the coefficients, or the other way round. */
    method Copy(from: nat, to: nat)
      requires Valid() && (from + m < to || to + m < from) && from + m < c.Length && to + m < c.Length
      modifies c
      ensures forall x :: to <= x <= to + m ==> c[x] == old(c[x - to + from])
      ensures OthersSame(old(c[..]), c[..], to, to + m + 1)
    {
      hide Size, F;
      forall x | to <= x <= to + m {
        c[x] := c[x - to + from];
      }
    }

    /** Coefficient i has jumped to its old target, or to its new one on the first push. */
    ghost predicate SetsOutAt(s: seq<real>, s': seq<real>, first: bool, i: int)
      requires 0 <= i <= m && D() <= |s| && D() <= |s'|
    {
      s'[i] == if first then s'[CC() + i] else s[CC() + i]
    }

    /** Takes a frame's coefficients as the new target. The coefficients in use jump to the old
        target, or to the new one if there was none, and set out for the new one. */
    method Prepare(mc: seq<real>)
      requires Valid() && m < |mc|
      modifies c, this`flagFirstPush, this`nOfPopSinceLastPush
      ensures !flagFirstPush && nOfPopSinceLastPush == 0
      ensures CC() + m < c.Length && IsFilterForm(c[..], CC(), mc)
      ensures forall i {:trigger SetsOutAt(old(c[..]), c[..], old(flagFirstPush), i)} ::
                0 <= i <= m ==> SetsOutAt(old(c[..]), c[..], old(flagFirstPush), i)
      ensures forall i {:trigger IncrementAt(c[..], i)} :: 0 <= i <= m ==> IncrementAt(c[..], i)
      ensures forall k :: D() <= k < c.Length ==> c[k] == old(c[k])
      ensures fprd % iprd == 0 ==> OnRamp()
    {
      hide Size, F, IsFilterForm, Increment, RampAt, OnRamp;
      Layout();
      NewTarget(mc);
      ghost var before := c[..];
      SetIncrements();
      FormMoved(before, CC(), c[..], CC(), mc);
      forall i | 0 <= i <= m
        ensures SetsOutAt(old(c[..]), c[..], old(flagFirstPush), i)
      {
        assert SetsOutAt(old(c[..]), before, old(flagFirstPush), i);
      }
      nOfPopSinceLastPush := 0;
      OnRampNow();
    }

    lemma OnRampNow()
      requires Valid() && nOfPopSinceLastPush == 0
      requires forall i {:trigger IncrementAt(c[..], i)} :: 0 <= i <= m ==> IncrementAt(c[..], i)
      ensures fprd % iprd == 0 ==> OnRamp()
    {
      hide Size, F, Increment, RampAt;
      if fprd % iprd == 0 {
        RampSet(c[..]);
      }
    }

    lemma RampSet(s: seq<real>)
      requires 0 < iprd && 0 < fprd && fprd % iprd == 0 && D() <= |s|
      requires forall i {:trigger IncrementAt(s, i)} :: 0 <= i <= m ==> IncrementAt(s, i)
      ensures forall i {:trigger RampAt(s, i, fprd / iprd)} :: 0 <= i <= m ==> RampAt(s, i, fprd / iprd)
    {
      forall i | 0 <= i <= m
        ensures RampAt(s, i, fprd / iprd)
      {
        assert IncrementAt(s, i);
        RampReachesIff(s[i], s[CC() + i]);
      }
    }

    /** The coefficients and their target, before the increments are known. */
    method NewTarget(mc: seq<real>)
      requires Valid() && m < |mc|
      modifies c, this`flagFirstPush
      ensures !flagFirstPush && CC() + m < c.Length && IsFilterForm(c[..], CC(), mc)
      ensures forall i {:trigger SetsOutAt(old(c[..]), c[..], old(flagFirstPush), i)} ::
                0 <= i <= m ==> SetsOutAt(old(c[..]), c[..], old(flagFirstPush), i)
      ensures forall k :: Inc() <= k < c.Length ==> c[k] == old(c[k])
    {
      hide Size, F, IsFilterForm;
      Layout();
      if !flagFirstPush {
        Copy(CC(), 0);
        Mc2b(mc, CC());
      } else {
        flagFirstPush := false;
        Mc2b(mc, 0);
        ghost var form := c[..];
        Copy(0, CC());
        FormMoved(form, 0, c[..], CC(), mc);
      }
    }

    lemma FormMoved(s: seq<real>, at: nat, s': seq<real>, at': nat, mc: seq<real>)
      requires at + m < |s| && at' + m < |s'| && m < |mc| && IsFilterForm(s, at, mc)
      requires forall x :: at' <= x <= at' + m ==> s'[x] == s[x - at' + at]
      ensures IsFilterForm(s', at', mc)
    {
      forall k | 0 <= k < m
        ensures FormAt(s', at', mc, k)
      {
        assert FormAt(s, at, mc, k);
      }
    }

    /** The step towards a target that takes fprd / iprd samples. */
    function Increment(now: real, target: real): real
      requires 0 < fprd
    {
      (target - now) * (iprd as real) / (fprd as real)
    }

    ghost predicate IncrementAt(s: seq<real>, i: int)
      requires 0 < fprd && 0 <= i <= m && D() <= |s|
    {
      s[Inc() + i] == Increment(s[i], s[CC() + i])
    }

    method SetIncrements()
      requires Valid()
      modifies c
      ensures forall i {:trigger IncrementAt(c[..], i)} :: 0 <= i <= m ==> IncrementAt(c[..], i)
      ensures OthersSame(old(c[..]), c[..], Inc(), Inc() + m + 1)
    {
      hide Size, F, Increment;
      var i := 0;
      while i <= m
        invariant 0 <= i <= m + 1
        invariant forall k {:trigger IncrementAt(c[..], k)} :: 0 <= k < i ==> IncrementAt(c[..], k)
        invariant OthersSame(old(c[..]), c[..], Inc(), Inc() + m + 1)
      {
        ghost var before := c[..];
        c[Inc() + i] := Increment(c[i], c[CC() + i]);
        forall k | 0 <= k < i + 1
          ensures IncrementAt(c[..], k)
        {
          assert k < i ==> IncrementAt(before, k);
        }
        i := i + 1;
      }
    }

    /** The whole number of steps arrives exactly when the step length divides the frame length,
        or there is nowhere to go. */
    lemma RampReachesIff(now: real, target: real)
      requires 0 < iprd && 0 < fprd
      ensures target == now + ((fprd / iprd) as real) * Increment(now, target) <==> fprd % iprd == 0 || target == now
    {
      var q, r, d := fprd / iprd, fprd % iprd, target - now;
      assert fprd == q * iprd + r;
      var n, p := fprd as real, iprd as real;
      RampProduct(q as real, d, p, n);
      assert (q as real) * p == n - (r as real);
      assert q as real * Increment(now, target) == d * (n - (r as real)) / n;
      RampRest(d, n, r as real);
    }

    /** With three samples a frame and two a step a coefficient that sets out from 0 for 3 stops at 2,
        however many samples are played. */
    lemma RampFallsShort(states: seq<seq<real>>, k: nat, i: int)
      requires fprd == 3 && iprd == 2 && Straight(states, fprd / iprd) && 1 <= k < |states| && 0 <= i <= m
      requires IncrementAt(states[0], i) && states[0][i] == 0.0 && states[0][CC() + i] == 3.0
      ensures states[k][i] == 2.0
    {
      assert OnLine(states, fprd / iprd, k, i);
    }

    // ----- playing -----

    function Min(a: nat, b: nat): nat {
      if a < b then a else b
    }

    /** What one pop does to the buffer, and what it puts out. */
    ghost predicate PlayedAt(states: seq<seq<real>>, excitation: seq<real>, exp: real -> real, volume: real, ys: seq<real>, t: nat)
      requires Valid() && t < |excitation| && |states| == |excitation| + 1 == |ys| + 1
      requires forall k :: 0 <= k < |states| ==> |states[k]| == c.Length
    {
      Layout();
      var b, d, x := View(states[t], 0), View(states[t], D()), Amplified(excitation[t], states[t][0], exp);
      Moves(F(), b, x, d, View(states[t + 1], D())) && ys[t] == AtVolume(volume, Filtered(F(), b, x, d))
    }

    /** The contents of the buffer before and after each pop. */
    ghost predicate Played(states: seq<seq<real>>, excitation: seq<real>, exp: real -> real, volume: real, ys: seq<real>)
      requires Valid()
    {
      && |states| == |excitation| + 1 == |ys| + 1
      && (forall k :: 0 <= k < |states| ==> |states[k]| == c.Length)
      && forall t: nat {:trigger PlayedAt(states, excitation, exp, volume, ys, t)} ::
           t < |excitation| ==> PlayedAt(states, excitation, exp, volume, ys, t)
    }

    /** After k of the pops coefficient i has taken k steps, or as many as were left. */
    ghost predicate OnLine(states: seq<seq<real>>, left: nat, k: nat, i: int)
      requires k < |states| && 0 <= i <= m && D() <= |states[0]| && D() <= |states[k]|
    {
      states[k][i] == states[0][i] + (Min(k, left) as real) * states[0][Inc() + i]
    }

    /** Coefficients move in straight lines, and target and increment stay. */
    ghost predicate Straight(states: seq<seq<real>>, left: nat) {
      && |states| > 0 && (forall k :: 0 <= k < |states| ==> D() <= |states[k]|)
      && (forall k: nat, i {:trigger OnLine(states, left, k, i)} :: k < |states| && 0 <= i <= m ==> OnLine(states, left, k, i))
      && (forall k, j :: 0 <= k < |states| && m < j < D() ==> states[k][j] == states[0][j])
    }

    lemma LineGoesOn(states: seq<seq<real>>, left: nat, s: seq<real>, rest: nat)
      requires Straight(states, left) && D() <= |s| && rest == left - Min(|states| - 1, left)
      requires forall i {:trigger SteppedAt(states[|states| - 1], s, rest, i)} ::
                 0 <= i <= m ==> SteppedAt(states[|states| - 1], s, rest, i)
      requires forall j :: m < j < D() ==> s[j] == states[|states| - 1][j]
      ensures Straight(states + [s], left)
    {
      hide SteppedAt, OnLine;
      var states', n := states + [s], |states| - 1;
      forall k: nat, i | k < |states'| && 0 <= i <= m
        ensures OnLine(states', left, k, i)
      {
        if k <= n {
          assert OnLine(states, left, k, i);
          SamePoint(states, left, s, k, i);
        } else {
          assert SteppedAt(states[n], s, rest, i);
          NextPoint(states, left, s, rest, i);
        }
      }
    }

    lemma SamePoint(states: seq<seq<real>>, left: nat, s: seq<real>, k: nat, i: int)
      requires k < |states| && 0 <= i <= m && D() <= |states[0]| && D() <= |states[k]| && OnLine(states, left, k, i)
      ensures OnLine(states + [s], left, k, i)
    {
    }

    lemma NextPoint(states: seq<seq<real>>, left: nat, s: seq<real>, rest: nat, i: int)
      requires Straight(states, left) && D() <= |s| && rest == left - Min(|states| - 1, left) && 0 <= i <= m
      requires SteppedAt(states[|states| - 1], s, rest, i)
      ensures OnLine(states + [s], left, |states|, i)
    {
      var n := |states| - 1;
      assert OnLine(states, left, n, i);
      assert states[n][Inc() + i] == states[0][Inc() + i];
      LineStep(states[0][Inc() + i], n, left);
    }

    lemma LineStep(step: real, n: nat, left: nat)
      ensures (Min(n + 1, left) as real) * step == (Min(n, left) as real) * step + if left - Min(n, left) > 0 then step else 0.0
    {
    }

    lemma PlayedMore(states: seq<seq<real>>, excitation: seq<real>, exp: real -> real, volume: real, ys: seq<real>,
                     e: real, y: real, s: seq<real>)
      requires Valid() && Played(states, excitation, exp, volume, ys) && |s| == c.Length
      requires 0 < c.Length && var was := states[|excitation|]; var x := Amplified(e, was[0], exp);
               && Moves(F(), View(was, 0), x, View(was, D()), View(s, D()))
               && y == AtVolume(volume, Filtered(F(), View(was, 0), x, View(was, D())))
      ensures Played(states + [s], excitation + [e], exp, volume, ys + [y])
    {
      hide View, Moves, Filtered, F, Size;
      var states', excitation', ys' := states + [s], excitation + [e], ys + [y];
      forall t: nat | t < |excitation'|
        ensures PlayedAt(states', excitation', exp, volume, ys', t)
      {
        assert t < |excitation| ==> PlayedAt(states, excitation, exp, volume, ys, t);
      }
    }

    /** One sample after another, for these samples of excitation. */
    method Play(excitation: seq<real>, exp: real -> real) returns (ys: seq<real>, ghost states: seq<seq<real>>)
      requires Valid()
      modifies c, this`nOfPopSinceLastPush
      ensures Played(states, excitation, exp, volume, ys) && Straight(states, old(Remaining()))
      ensures states[0] == old(c[..]) && states[|excitation|] == c[..]
      ensures nOfPopSinceLastPush == old(nOfPopSinceLastPush) + |excitation|
    {
      hide View, Moves, Filtered, F, Size, Played, Straight;
      Layout();
      ghost var left := Remaining();
      ys, states := [], [c[..]];
      PlayStarts(states, left, exp, volume);
      var t := 0;
      while t < |excitation|
        invariant 0 <= t <= |excitation| && |ys| == t && |states| == t + 1
        invariant nOfPopSinceLastPush == old(nOfPopSinceLastPush) + t && Remaining() == left - Min(t, left)
        invariant Played(states, excitation[..t], exp, volume, ys) && Straight(states, left)
        invariant states[0] == old(c[..]) && states[t] == c[..]
        modifies c, this`nOfPopSinceLastPush
      {
        var y := Pop(excitation[t], exp);
        PlayedMore(states, excitation[..t], exp, volume, ys, excitation[t], y, c[..]);
        LineGoesOn(states, left, c[..], left - Min(t, left));
        assert excitation[..t + 1] == excitation[..t] + [excitation[t]];
        ys, states := ys + [y], states + [c[..]];
        t := t + 1;
      }
      assert excitation[..t] == excitation;
    }

    lemma PlayStarts(states: seq<seq<real>>, left: nat, exp: real -> real, volume: real)
      requires Valid() && |states| == 1 && |states[0]| == c.Length
      ensures Played(states, [], exp, volume, []) && Straight(states, left)
    {
      Layout();
    }

    /** Coefficient i has arrived: it is the target's. */
    ghost predicate Arrived(s: seq<real>, i: int)
      requires 0 <= i <= m && D() <= |s|
    {
      s[i] == s[CC() + i]
    }

    /** From a push on, coefficient i is at its target exactly once all steps have been taken, if the
        periods divide, or always, if there is nowhere to go. */
    ghost predicate ArrivesOnTime(states: seq<seq<real>>, k: nat, i: int)
      requires 0 < iprd && k < |states| && 0 <= i <= m && D() <= |states[0]| && D() <= |states[k]|
    {
      Arrived(states[k], i) <==> Arrived(states[0], i) || (fprd % iprd == 0 && k >= fprd / iprd)
    }

    lemma LineArrives(states: seq<seq<real>>, k: nat, i: int)
      requires 0 < iprd && 0 < fprd && Straight(states, fprd / iprd) && k < |states| && 0 <= i <= m
      requires IncrementAt(states[0], i)
      ensures ArrivesOnTime(states, k, i)
    {
      assert OnLine(states, fprd / iprd, k, i);
      assert CC() + i < D() && states[k][CC() + i] == states[0][CC() + i];
      StepsArrive(Min(k, fprd / iprd), states[0][i], states[0][CC() + i]);
      StepsFill(k);
      hide Straight, Increment;
    }

    /** The steps taken fill the frame exactly if all are taken and the periods divide. */
    lemma StepsFill(k: nat)
      requires 0 < iprd
      ensures Min(k, fprd / iprd) * iprd == fprd <==> fprd % iprd == 0 && k >= fprd / iprd
    {
      assert fprd == (fprd / iprd) * iprd + fprd % iprd;
      FewerSteps(Min(k, fprd / iprd), fprd / iprd, iprd, fprd % iprd);
    }

    lemma FewerSteps(j: nat, q: nat, p: nat, r: nat)
      requires j <= q && 0 < p && r < p
      ensures j * p == q * p + r <==> j == q && r == 0
    {
      if j < q {
        ProductGrows(j, q, p);
      }
    }

    lemma {:induction false} ProductGrows(j: nat, q: nat, p: nat)
      requires j < q
      ensures j * p + p <= q * p
    {
      assert q * p == (q - 1) * p + p;
      if j < q - 1 {
        ProductGrows(j, q - 1, p);
      }
    }

    /** So many steps arrive exactly if they take the whole frame, or there is nowhere to go. */
    lemma StepsArrive(j: nat, now: real, target: real)
      requires 0 < fprd
      ensures now + (j as real) * Increment(now, target) == target <==> now == target || j * iprd == fprd
    {
      var d, n, p := target - now, fprd as real, iprd as real;
      RampProduct(j as real, d, p, n);
      RealProduct(j, iprd);
      hide Increment;
      ShareIsWhole(d, (j * iprd) as real, n);
    }

    lemma RealProduct(j: nat, p: nat)
      ensures (j as real) * (p as real) == (j * p) as real
    {
    }

    lemma ShareIsWhole(d: real, w: real, n: real)
      requires n > 0.0
      ensures d * w / n == d <==> d == 0.0 || w == n
    {
      var e := d * w / n;
      assert e * n == d * w;
      if e == d && d != 0.0 {
        assert d * (w - n) == 0.0;
      }
    }

    /** A frame and any number of samples after it: the coefficients set out from the old target, move
        in a straight line, arrive exactly if and when ArrivesOnTime says, and stay where they are then;
        and the samples are those of the filter, fed with the amplified excitation. */
    method PlayFrame(mc: seq<real>, excitation: seq<real>, exp: real -> real) returns (ys: seq<real>, ghost states: seq<seq<real>>)
      requires Valid() && m < |mc|
      modifies c, this`flagFirstPush, this`nOfPopSinceLastPush
      ensures Played(states, excitation, exp, volume, ys) && Straight(states, fprd / iprd) && states[|excitation|] == c[..]
      ensures CC() + m < |states[0]| && IsFilterForm(states[0], CC(), mc)
      ensures forall i {:trigger SetsOutAt(old(c[..]), states[0], old(flagFirstPush), i)} ::
                0 <= i <= m ==> SetsOutAt(old(c[..]), states[0], old(flagFirstPush), i)
      ensures forall i {:trigger IncrementAt(states[0], i)} :: 0 <= i <= m ==> IncrementAt(states[0], i)
      ensures forall k: nat, i {:trigger ArrivesOnTime(states, k, i)} ::
                k < |states| && 0 <= i <= m ==> ArrivesOnTime(states, k, i)
    {
      hide View, Moves, Filtered, F, Size, Played, IsFilterForm, SetsOutAt, Straight;
      Layout();
      Prepare(mc);
      ys, states := Play(excitation, exp);
      StraightFits(states, fprd / iprd);
      forall k: nat, i | k < |states| && 0 <= i <= m
        ensures ArrivesOnTime(states, k, i)
      {
        LineArrives(states, k, i);
      }
    }

    lemma StraightFits(states: seq<seq<real>>, left: nat)
      requires Straight(states, left)
      ensures |states| > 0 && forall k :: 0 <= k < |states| ==> D() <= |states[k]|
    {
    }

    /** The samples that were fed to the filter, and the coefficients and memory it had. */
    ghost function Fed(states: seq<seq<real>>, excitation: seq<real>, exp: real -> real): (xs: seq<real>)
      requires |states| == |excitation| + 1 && forall k :: 0 <= k < |states| ==> |states[k]| > 0
      ensures |xs| == |excitation| && forall t :: 0 <= t < |xs| ==> xs[t] == Amplified(excitation[t], states[t][0], exp)
    {
      seq(|excitation|, t requires 0 <= t < |excitation| => Amplified(excitation[t], states[t][0], exp))
    }

    ghost function Coefficients(states: seq<seq<real>>): (bs: seq<Vector>)
      requires |states| > 0
      ensures |bs| == |states| - 1 && forall t :: 0 <= t < |bs| ==> bs[t] == View(states[t], 0)
    {
      seq(|states| - 1, t requires 0 <= t < |states| - 1 => View(states[t], 0))
    }

    ghost function Memories(states: seq<seq<real>>): (ds: seq<Vector>)
      ensures |ds| == |states| && forall t :: 0 <= t < |ds| ==> ds[t] == View(states[t], D())
    {
      seq(|states|, t requires 0 <= t < |states| => View(states[t], D()))
    }

    ghost function FilteredSamples(states: seq<seq<real>>, xs: seq<real>): (zs: seq<real>)
      requires |states| == |xs| + 1
      ensures |zs| == |xs|
      ensures forall t :: 0 <= t < |zs| ==> zs[t] == Filtered(F(), View(states[t], 0), xs[t], View(states[t], D()))
    {
      seq(|xs|, t requires 0 <= t < |xs| => Filtered(F(), View(states[t], 0), xs[t], View(states[t], D())))
    }

    /** What was played is a run of the filter; the output is that of the run, scaled. */
    lemma PlayedIsRun(states: seq<seq<real>>, excitation: seq<real>, exp: real -> real, volume: real, ys: seq<real>)
      requires Valid() && c.Length > 0 && Played(states, excitation, exp, volume, ys)
      ensures var xs := Fed(states, excitation, exp);
              && Run(F(), Coefficients(states), xs, Memories(states), FilteredSamples(states, xs))
              && forall t :: 0 <= t < |ys| ==> ys[t] == AtVolume(volume, FilteredSamples(states, xs)[t])
    {
      hide View, Moves, Filtered, F, Size;
      var xs := Fed(states, excitation, exp);
      var bs, ds, zs := Coefficients(states), Memories(states), FilteredSamples(states, xs);
      forall t: nat | t < |xs|
        ensures RunAt(F(), bs, xs, ds, zs, t) && ys[t] == AtVolume(volume, zs[t])
      {
        assert PlayedAt(states, excitation, exp, volume, ys, t);
      }
    }

    /** Superposition of whole pieces: if the same coefficients are in use at every moment, and the third
        is excited by a combination of the other two from the same combination of their memories, it
        sounds like that combination. */
    lemma PlaysSuperpose(p: real, q: real, exp: real -> real, volume: real,
                         states1: seq<seq<real>>, e1: seq<real>, ys1: seq<real>,
                         states2: seq<seq<real>>, e2: seq<real>, ys2: seq<real>,
                         states3: seq<seq<real>>, e3: seq<real>, ys3: seq<real>, t: nat)
      requires Valid() && c.Length > 0
      requires Played(states1, e1, exp, volume, ys1) && Played(states2, e2, exp, volume, ys2) && Played(states3, e3, exp, volume, ys3)
      requires |e1| == |e2| == |e3| && t < |e3|
      requires forall k, i :: 0 <= k < |e3| && 0 <= i <= m && i < c.Length ==> states1[k][i] == states2[k][i] == states3[k][i]
      requires forall k :: 0 <= k < |e3| ==> e3[k] == Mix(p, q, e1[k], e2[k])
      requires Same(View(states3[0], D()), MixVector(p, q, View(states1[0], D()), View(states2[0], D())), Size(F()))
      ensures ys3[t] == Mix(p, q, ys1[t], ys2[t])
    {
      hide View, Moves, Filtered, F, Size, Played, Same, Run, Mix;
      PlayedFits(states1, e1, exp, volume, ys1);
      PlayedFits(states2, e2, exp, volume, ys2);
      PlayedFits(states3, e3, exp, volume, ys3);
      PlayedWith(states1, states3, e1, exp, volume, ys1);
      PlayedWith(states2, states3, e2, exp, volume, ys2);
      PlayedIsRun(states3, e3, exp, volume, ys3);
      var xs1, xs2, xs3 := Fed(states1, e1, exp), Fed(states2, e2, exp), Fed(states3, e3, exp);
      forall k | 0 <= k < |xs3|
        ensures xs3[k] == Mix(p, q, xs1[k], xs2[k])
      {
        AmplifiedMixes(p, q, e1[k], e2[k], states3[k][0], exp);
      }
      var zs1, zs2, zs3 := FilteredSamples(states1, xs1), FilteredSamples(states2, xs2), FilteredSamples(states3, xs3);
      RunsSuperpose(F(), Coefficients(states3), p, q, xs1, Memories(states1), zs1, xs2, Memories(states2), zs2,
                    xs3, Memories(states3), zs3, t);
      VolumeMixes(p, q, volume, zs1[t], zs2[t]);
    }

    lemma PlayedFits(states: seq<seq<real>>, excitation: seq<real>, exp: real -> real, volume: real, ys: seq<real>)
      requires Valid() && Played(states, excitation, exp, volume, ys)
      ensures |states| == |excitation| + 1 == |ys| + 1 && forall k :: 0 <= k < |states| ==> |states[k]| == c.Length
      ensures m + 1 <= c.Length
    {
    }

    /** What was played is also a run for another piece's coefficients, if they are the same. */
    lemma PlayedWith(states: seq<seq<real>>, states': seq<seq<real>>, excitation: seq<real>, exp: real -> real, volume: real,
                     ys: seq<real>)
      requires Valid() && c.Length >= m + 1 && Played(states, excitation, exp, volume, ys)
      requires |states'| == |excitation| + 1 && forall k :: 0 <= k < |states'| ==> |states'[k]| == c.Length
      requires forall k, i :: 0 <= k < |excitation| && 0 <= i <= m ==> states[k][i] == states'[k][i]
      ensures var xs := Fed(states, excitation, exp);
              && Run(F(), Coefficients(states'), xs, Memories(states), FilteredSamples(states, xs))
              && forall t :: 0 <= t < |ys| ==> ys[t] == AtVolume(volume, FilteredSamples(states, xs)[t])
    {
      hide Moves, Filtered, Size, Played, Run, SameUpTo;
      PlayedIsRun(states, excitation, exp, volume, ys);
      PlayedFits(states, excitation, exp, volume, ys);
      var bs, bs' := Coefficients(states), Coefficients(states');
      forall t | 0 <= t < |bs|
        ensures SameUpTo(bs[t], bs'[t], m)
      {
        ViewsSame(states[t], states'[t]);
      }
      var xs := Fed(states, excitation, exp);
      RunWith(F(), bs, bs', xs, Memories(states), FilteredSamples(states, xs));
    }

    lemma ViewsSame(s: seq<real>, s': seq<real>)
      requires |s| == |s'| && m < |s| && forall i :: 0 <= i <= m ==> s[i] == s'[i]
      ensures SameUpTo(View(s, 0), View(s', 0), m)
    {
    }

    lemma AmplifiedMixes(p: real, q: real, e1: real, e2: real, c0: real, exp: real -> real)
      ensures Amplified(Mix(p, q, e1, e2), c0, exp) == Mix(p, q, Amplified(e1, c0, exp), Amplified(e2, c0, exp))
    {
      MixTimes(p, q, e1, e2, if ngain then c0 else exp(c0));
    }

    lemma VolumeMixes(p: real, q: real, v: real, z1: real, z2: real)
      ensures AtVolume(v, Mix(p, q, z1, z2)) == Mix(p, q, AtVolume(v, z1), AtVolume(v, z2))
    {
      MixTimes(p, q, z1, z2, v);
    }

    lemma MixTimes(p: real, q: real, u: real, v: real, k: real)
      ensures Mix(p, q, u, v) * k == Mix(p, q, u * k, v * k)
      ensures k * Mix(p, q, u, v) == Mix(p, q, k * u, k * v)
    {
    }

    lemma RampProduct(q: real, d: real, p: real, n: real)
      requires n > 0.0
      ensures q * (d * p / n) == d * (q * p) / n
    {
      var e := d * p / n;
      assert e * n == d * p;
      assert q * (e * n) == d * (q * p);
    }

    lemma RampRest(d: real, n: real, r: real)
      requires n > 0.0 && 0.0 <= r
      ensures d * (n - r) / n == d <==> r == 0.0 || d == 0.0
    {
      var e := d * (n - r) / n;
      assert e * n == d * n - d * r;
    }
  }
}
