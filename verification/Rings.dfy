/** Positions that wrap around. */
module Rings {
  import opened Bits

  /** Position of the x-th slot of a ring of n. */
  function Slot(x: nat, n: nat): nat
    requires n > 0
  {
    x % n
  }

  lemma SlotBound(x: nat, n: nat)
    requires n > 0
    ensures Slot(x, n) < n
  {
  }

  /** Stepping a position steps the slot. */
  lemma ModStep(x: nat, n: nat)
    requires n > 0
    ensures (x % n + 1) % n == (x + 1) % n
  {
    var q, r := x / n, x % n;
    assert x == q * n + r;
    if r + 1 < n {
      DivisionUnique(x + 1, n, q, r + 1);
      DivisionUnique(r + 1, n, 0, r + 1);
    } else {
      assert x + 1 == (q + 1) * n;
      DivisionUnique(x + 1, n, q + 1, 0);
      DivisionUnique(n, n, 1, 0);
    }
  }

  /** Within a window of n, slots are distinct. */
  lemma SlotsDiffer(x: nat, y: nat, n: nat)
    requires n > 0 && x < y < x + n
    ensures Slot(x, n) != Slot(y, n)
  {
    var q, r := x / n, x % n;
    assert x == q * n + r;
    if r + (y - x) < n {
      DivisionUnique(y, n, q, r + (y - x));
    } else {
      assert (q + 1) * n == q * n + n;
      DivisionUnique(y, n, q + 1, r + (y - x) - n);
    }
  }

  lemma SlotWraps(x: nat, n: nat)
    requires n > 0
    ensures Slot(x + n, n) == Slot(x, n)
  {
    var q, r := x / n, x % n;
    assert (q + 1) * n == q * n + n;
    DivisionUnique(x + n, n, q + 1, r);
  }
}
