/** Machine words as natural numbers: the bit operations the allocator and the message queue
    use, each given by its recursive definition and by what it does to single bits. */
module Bits {

  function Pow2(n: nat): (r: nat)
    ensures r > 0
  {
    if n == 0 then 1 else 2 * Pow2(n - 1)
  }

  /** Bit p of w. */
  predicate Bit(w: nat, p: nat) {
    if p == 0 then w % 2 == 1 else Bit(w / 2, p - 1)
  }

  /** a | b */
  function Or(a: nat, b: nat): nat
    decreases a + b
  {
    if a == 0 && b == 0 then 0
    else 2 * Or(a / 2, b / 2) + if a % 2 == 1 || b % 2 == 1 then 1 else 0
  }

  /** a & b */
  function And(a: nat, b: nat): nat {
    if a == 0 then 0 else 2 * And(a / 2, b / 2) + if a % 2 == 1 && b % 2 == 1 then 1 else 0
  }

  /** a & ~b */
  function AndNot(a: nat, b: nat): nat {
    if a == 0 then 0 else 2 * AndNot(a / 2, b / 2) + if a % 2 == 1 && b % 2 == 0 then 1 else 0
  }

  /** Number of bits needed to represent w: 32 minus the count of leading zeroes of a 32-bit w. */
  function NumBits(w: nat): nat {
    if w == 0 then 0 else 1 + NumBits(w / 2)
  }

  /** Count of leading zeroes of a 32-bit word. */
  function Clz(w: nat): int {
    32 - NumBits(w)
  }

  /** Count of trailing zeroes, by the expression 32 - CLZ(~x & (x - 1)). */
  function Ctz(w: nat): int
    requires w > 0
  {
    32 - Clz(AndNot(w - 1, w))
  }

  lemma {:induction false} ZeroBit(p: nat)
    ensures !Bit(0, p)
  {
    if p > 0 {
      ZeroBit(p - 1);
    }
  }

  lemma {:induction false} OrBit(a: nat, b: nat, p: nat)
    ensures Bit(Or(a, b), p) <==> Bit(a, p) || Bit(b, p)
    decreases p
  {
    if a == 0 && b == 0 {
      ZeroBit(p);
    } else if p > 0 {
      OrBit(a / 2, b / 2, p - 1);
    }
  }

  lemma {:induction false} AndNotBit(a: nat, b: nat, p: nat)
    ensures Bit(AndNot(a, b), p) <==> Bit(a, p) && !Bit(b, p)
    decreases p
  {
    if a == 0 {
      ZeroBit(p);
    } else if p > 0 {
      AndNotBit(a / 2, b / 2, p - 1);
    }
  }

  lemma {:induction false} Pow2Bit(p: nat, q: nat)
    ensures Bit(Pow2(p), q) <==> p == q
    decreases p
  {
    if p == 0 {
      if q > 0 {
        ZeroBit(q - 1);
      }
    } else if q > 0 {
      Pow2Bit(p - 1, q - 1);
    }
  }

  /** 2^p - 1 masks the bits below p. */
  lemma {:induction false} MaskBit(p: nat, q: nat)
    ensures Bit(Pow2(p) - 1, q) <==> q < p
    decreases p
  {
    if p == 0 {
      ZeroBit(q);
    } else {
      assert (Pow2(p) - 1) / 2 == Pow2(p - 1) - 1;
      if q > 0 {
        MaskBit(p - 1, q - 1);
      }
    }
  }

  lemma {:induction false} Pow2Monotone(m: nat, n: nat)
    requires m <= n
    ensures Pow2(m) <= Pow2(n)
    decreases n - m
  {
    if m < n {
      Pow2Monotone(m, n - 1);
    }
  }

  lemma {:induction false} NumBitsRange(w: nat, n: nat)
    ensures NumBits(w) <= n <==> w < Pow2(n)
    decreases n
  {
    if w > 0 && n > 0 {
      NumBitsRange(w / 2, n - 1);
    }
  }

  /** Nothing at or above bit n exactly when w < 2^n. */
  lemma {:induction false} NoBitAbove(w: nat, n: nat, p: nat)
    requires w < Pow2(n) && n <= p
    ensures !Bit(w, p)
    decreases n
  {
    if n == 0 {
      ZeroBit(p);
    } else {
      NoBitAbove(w / 2, n - 1, p - 1);
    }
  }

  /** The top bit. */
  lemma {:induction false} TopBit(w: nat)
    requires w > 0
    ensures Bit(w, NumBits(w) - 1)
    ensures forall p: nat :: NumBits(w) <= p ==> !Bit(w, p)
    decreases w
  {
    if w > 1 {
      TopBit(w / 2);
      assert Bit(w, NumBits(w) - 1) == Bit(w / 2, NumBits(w / 2) - 1);
    }
    forall p: nat | NumBits(w) <= p
      ensures !Bit(w, p)
    {
      NumBitsRange(w, NumBits(w));
      NoBitAbove(w, NumBits(w), p);
    }
  }

  lemma {:induction false} NumBitsOfMask(n: nat)
    ensures NumBits(Pow2(n) - 1) == n
  {
    if n > 0 {
      assert (Pow2(n) - 1) / 2 == Pow2(n - 1) - 1;
      NumBitsOfMask(n - 1);
    }
  }

  /** Position of the lowest set bit, by halving. */
  function Lowest(w: nat): nat
    requires w > 0
  {
    if w % 2 == 1 then 0 else 1 + Lowest(w / 2)
  }

  lemma {:induction false} LowestBit(w: nat)
    requires w > 0
    ensures Bit(w, Lowest(w))
    ensures forall p: nat :: p < Lowest(w) ==> !Bit(w, p)
    decreases w
  {
    if w % 2 == 0 {
      LowestBit(w / 2);
      forall p: nat | p < Lowest(w)
        ensures !Bit(w, p)
      {
        if p > 0 {
          assert !Bit(w / 2, p - 1);
        }
      }
    }
  }

  lemma {:induction false} AndNotSelf(w: nat)
    ensures AndNot(w, w) == 0
  {
    if w > 0 {
      AndNotSelf(w / 2);
    }
  }

  lemma AndNotOddPredecessor(w: nat)
    requires w % 2 == 1
    ensures AndNot(w - 1, w) == 0
  {
    if w > 1 {
      assert (w - 1) / 2 == w / 2;
      AndNotSelf(w / 2);
    }
  }

  /** ~w & (w - 1) is the mask of the trailing zeroes. */
  lemma {:induction false} TrailingMask(w: nat)
    requires w > 0
    ensures AndNot(w - 1, w) == Pow2(Lowest(w)) - 1
    decreases w
  {
    if w % 2 == 1 {
      AndNotOddPredecessor(w);
    } else {
      assert (w - 1) / 2 == w / 2 - 1;
      TrailingMask(w / 2);
    }
  }

  /** The leading-zeroes expression does count trailing zeroes: it finds the lowest set bit. */
  lemma CtzIsLowest(w: nat)
    requires w > 0
    ensures Ctz(w) == Lowest(w)
    ensures Bit(w, Ctz(w)) && forall p: nat :: p < Ctz(w) ==> !Bit(w, p)
  {
    TrailingMask(w);
    NumBitsOfMask(Lowest(w));
    LowestBit(w);
  }

  /** A word is at least 2^p exactly when its top bit, hence some bit, is at p or above. */
  lemma AtLeastPow2(w: nat, p: nat)
    ensures w >= Pow2(p) ==> p < NumBits(w) && Bit(w, NumBits(w) - 1)
    ensures w < Pow2(p) ==> forall q: nat :: p <= q ==> !Bit(w, q)
  {
    if w >= Pow2(p) {
      NumBitsRange(w, p);
      TopBit(w);
    } else {
      forall q: nat | p <= q
        ensures !Bit(w, q)
      {
        NoBitAbove(w, p, q);
      }
    }
  }

  lemma {:induction false} OrBound(a: nat, b: nat, n: nat)
    requires a < Pow2(n) && b < Pow2(n)
    ensures Or(a, b) < Pow2(n)
    decreases n
  {
    if n > 0 {
      OrBound(a / 2, b / 2, n - 1);
    }
  }

  lemma {:induction false} AndNotBound(a: nat, b: nat)
    ensures AndNot(a, b) <= a
  {
    if a > 0 {
      AndNotBound(a / 2, b / 2);
    }
  }

  /** x >> k */
  function Shr(x: nat, k: nat): nat {
    if k == 0 then x else Shr(x / 2, k - 1)
  }

  lemma {:induction false} AndZero(x: nat)
    ensures And(x, 0) == 0
  {
    if x > 0 {
      AndZero(x / 2);
    }
  }

  /** Splitting a word at bit k. */
  lemma {:induction false} SplitAt(x: nat, k: nat)
    ensures And(x, Pow2(k) - 1) < Pow2(k)
    ensures x == Pow2(k) * Shr(x, k) + And(x, Pow2(k) - 1)
    decreases k
  {
    if k == 0 {
      AndZero(x);
    } else {
      SplitAt(x / 2, k - 1);
      MaskStep(x, k);
      Recombine(x, Pow2(k - 1), Shr(x / 2, k - 1), And(x / 2, Pow2(k - 1) - 1));
    }
  }

  lemma MaskStep(x: nat, k: nat)
    requires k > 0
    ensures And(x, Pow2(k) - 1) == 2 * And(x / 2, Pow2(k - 1) - 1) + x % 2
  {
    assert (Pow2(k) - 1) / 2 == Pow2(k - 1) - 1 && (Pow2(k) - 1) % 2 == 1;
  }

  lemma Recombine(x: nat, m: nat, q: nat, r: nat)
    requires x / 2 == m * q + r
    ensures x == (2 * m) * q + (2 * r + x % 2)
  {
    assert (2 * m) * q == 2 * (m * q);
  }

  lemma MultipleBound(m: nat, k: int)
    ensures k >= 1 ==> m * k >= m
    ensures k <= -1 ==> m * k <= -(m as int)
  {
    if k >= 1 {
      assert m * k == m * (k - 1) + m;
    } else if k <= -1 {
      assert m * k == m * (k + 1) - m;
      assert m * (k + 1) == -(m * (-k - 1));
    }
  }

  lemma DivisionUnique(x: nat, m: nat, q: nat, r: nat)
    requires m > 0 && x == m * q + r && r < m
    ensures x / m == q && x % m == r
  {
    var d, e := x / m, x % m;
    assert m * (d - q) == m * d - m * q;
    MultipleBound(m, d - q);
  }

  /** Shifting is division, and masking with 2^k - 1 is the remainder, modulo 2^k. */
  lemma MaskIsMod(x: nat, k: nat)
    ensures And(x, Pow2(k) - 1) == x % Pow2(k)
    ensures Shr(x, k) == x / Pow2(k)
  {
    SplitAt(x, k);
    DivisionUnique(x, Pow2(k), Shr(x, k), And(x, Pow2(k) - 1));
  }
}
