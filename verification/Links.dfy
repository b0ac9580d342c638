/** Circular doubly linked lists threaded through addressable memory. A list and its nodes are
    the same kind of thing: an empty list is a node linked to itself. */
module Links {
  type Addr = int

  ghost predicate Distinct(s: seq<Addr>) {
    forall j, k :: 0 <= j < k < |s| ==> s[j] != s[k]
  }

  function After(j: int, n: int): int {
    if j + 1 == n then 0 else j + 1
  }

  function Before(j: int, n: int): int {
    if j == 0 then n - 1 else j - 1
  }

  /** Node j of s points to its neighbours in s, cyclically. */
  ghost predicate LinkedAt(s: seq<Addr>, j: int, next: map<Addr, Addr>, prev: map<Addr, Addr>)
    requires 0 <= j < |s|
  {
    && s[j] in next && next[s[j]] == s[After(j, |s|)]
    && s[j] in prev && prev[s[j]] == s[Before(j, |s|)]
  }

  /** The nodes of s, in this order, form one closed ring. */
  ghost predicate Cycle(s: seq<Addr>, next: map<Addr, Addr>, prev: map<Addr, Addr>) {
    && |s| > 0
    && Distinct(s)
    && forall j :: 0 <= j < |s| ==> LinkedAt(s, j, next, prev)
  }

  /** Both fields of y are what they were. */
  ghost predicate SameAt(y: Addr, next: map<Addr, Addr>, prev: map<Addr, Addr>,
                         next': map<Addr, Addr>, prev': map<Addr, Addr>) {
    && (y in next <==> y in next') && (y in prev <==> y in prev')
    && (y in next && y in next' ==> next[y] == next'[y])
    && (y in prev && y in prev' ==> prev[y] == prev'[y])
  }

  lemma CycleFrame(s: seq<Addr>, next: map<Addr, Addr>, prev: map<Addr, Addr>,
                   next': map<Addr, Addr>, prev': map<Addr, Addr>)
    requires Cycle(s, next, prev)
    requires forall y :: y in s ==> SameAt(y, next, prev, next', prev')
    ensures Cycle(s, next', prev')
  {
    forall j | 0 <= j < |s|
      ensures LinkedAt(s, j, next', prev')
    {
      assert LinkedAt(s, j, next, prev);
      assert SameAt(s[j], next, prev, next', prev');
    }
  }

  function Inserted(s: seq<Addr>, k: nat, x: Addr): (t: seq<Addr>)
    requires k <= |s|
  {
    s[..k] + [x] + s[k..]
  }

  lemma InsertedMembers(s: seq<Addr>, k: nat, x: Addr)
    requires k <= |s|
    ensures forall y :: y in Inserted(s, k, x) <==> y == x || y in s
    ensures Distinct(s) && x !in s ==> Distinct(Inserted(s, k, x))
  {
    var t := Inserted(s, k, x);
    assert t[k] == x;
    assert forall j :: 0 <= j < k ==> t[j] == s[j];
    assert forall j :: k <= j < |s| ==> t[j + 1] == s[j];
  }

  function Without(s: seq<Addr>, k: nat): (t: seq<Addr>)
    requires k < |s|
  {
    s[..k] + s[k + 1..]
  }

  lemma WithoutMembers(s: seq<Addr>, k: nat)
    requires k < |s| && Distinct(s)
    ensures Distinct(Without(s, k))
    ensures forall y :: y in Without(s, k) <==> y in s && y != s[k]
  {
    var t := Without(s, k);
    assert forall j :: 0 <= j < k ==> t[j] == s[j];
    assert forall j :: k < j < |s| ==> t[j - 1] == s[j];
  }

  /** Linking x between s[k - 1] and its successor. */
  lemma InsertCycle(s: seq<Addr>, k: nat, x: Addr, next: map<Addr, Addr>, prev: map<Addr, Addr>)
    requires Cycle(s, next, prev) && 0 < k <= |s| && x !in s
    ensures var l, r := s[k - 1], s[if k == |s| then 0 else k];
            && l in next && next[l] == r && r in prev && prev[r] == l
            && Cycle(Inserted(s, k, x), next[x := r][l := x], prev[x := l][r := x])
  {
    var n := |s|;
    var m := if k == n then 0 else k;
    var l, r := s[k - 1], s[m];
    assert LinkedAt(s, k - 1, next, prev) && LinkedAt(s, m, next, prev);
    var t, next', prev' := Inserted(s, k, x), next[x := r][l := x], prev[x := l][r := x];
    InsertedMembers(s, k, x);
    forall j | 0 <= j < |t|
      ensures LinkedAt(t, j, next', prev')
    {
      if j != k {
        var i := if j < k then j else j - 1;
        assert t[j] == s[i] && s[i] != x;
        assert LinkedAt(s, i, next, prev);
        assert i != k - 1 ==> s[i] != l;
        assert i != m ==> s[i] != r;
      }
    }
  }

  /** Bypassing s[k]. */
  lemma RemoveCycle(s: seq<Addr>, k: nat, next: map<Addr, Addr>, prev: map<Addr, Addr>)
    requires Cycle(s, next, prev) && k < |s| && |s| >= 2
    ensures s[k] in next && s[k] in prev
    ensures prev[s[k]] in s && next[s[k]] in s && prev[s[k]] != s[k] && next[s[k]] != s[k]
    ensures prev[s[k]] in next && next[s[k]] in prev
    ensures prev[s[k]] == s[Before(k, |s|)] && next[s[k]] == s[After(k, |s|)]
    ensures Cycle(Without(s, k), next[prev[s[k]] := next[s[k]]], prev[next[s[k]] := prev[s[k]]])
  {
    var n, t := |s|, Without(s, k);
    var p, q := Before(k, n), After(k, n);
    var l, r := s[p], s[q];
    assert LinkedAt(s, k, next, prev) && LinkedAt(s, p, next, prev) && LinkedAt(s, q, next, prev);
    var next', prev' := next[l := r], prev[r := l];
    WithoutMembers(s, k);
    forall j | 0 <= j < |t|
      ensures LinkedAt(t, j, next', prev')
    {
      RemovedAt(s, k, j, next, prev);
    }
  }

  lemma RemovedAt(s: seq<Addr>, k: nat, j: nat, next: map<Addr, Addr>, prev: map<Addr, Addr>)
    requires Cycle(s, next, prev) && k < |s| && |s| >= 2 && j < |s| - 1
    ensures var l, r := s[Before(k, |s|)], s[After(k, |s|)];
            LinkedAt(Without(s, k), j, next[l := r], prev[r := l])
  {
    var i, t := if j < k then j else j + 1, Without(s, k);
    assert LinkedAt(s, i, next, prev);
    assert t[j] == s[i] && t[After(j, |t|)] == s[if After(i, |s|) == k then After(k, |s|) else After(i, |s|)];
    assert t[Before(j, |t|)] == s[if Before(i, |s|) == k then Before(k, |s|) else Before(i, |s|)];
    assert i != Before(k, |s|) ==> s[i] != s[Before(k, |s|)];
    assert i != After(k, |s|) ==> s[i] != s[After(k, |s|)];
  }

  function Rotated(s: seq<Addr>, k: nat): seq<Addr>
    requires k <= |s|
  {
    s[k..] + s[..k]
  }

  lemma RotatedMembers(s: seq<Addr>, k: nat)
    requires k <= |s|
    ensures forall y :: y in Rotated(s, k) <==> y in s
    ensures Distinct(s) ==> Distinct(Rotated(s, k))
  {
    var n, t := |s|, Rotated(s, k);
    assert forall j :: 0 <= j < n - k ==> t[j] == s[j + k];
    assert forall j :: n - k <= j < n ==> t[j] == s[j + k - n];
    assert forall j :: k <= j < n ==> s[j] == t[j - k];
    assert forall j :: 0 <= j < k ==> s[j] == t[j + n - k];
  }

  /** A ring has no distinguished start. */
  lemma RotateCycle(s: seq<Addr>, k: nat, next: map<Addr, Addr>, prev: map<Addr, Addr>)
    requires Cycle(s, next, prev) && k < |s|
    ensures Cycle(Rotated(s, k), next, prev)
  {
    var n, t := |s|, Rotated(s, k);
    RotatedMembers(s, k);
    forall j | 0 <= j < n
      ensures LinkedAt(t, j, next, prev)
    {
      var i := if j + k < n then j + k else j + k - n;
      assert t[j] == s[i];
      assert LinkedAt(s, i, next, prev);
    }
  }

  lemma JoinedMembers(s: seq<Addr>, t: seq<Addr>)
    requires Distinct(s) && Distinct(t) && |t| > 0
    requires forall y :: y in s ==> y !in t
    ensures Distinct(s + t[1..])
  {
    var u := s + t[1..];
    forall j, k | 0 <= j < k < |u|
      ensures u[j] != u[k]
    {
      if j < |s| <= k {
        assert u[j] in s && t[k - |s| + 1] in t;
      }
    }
  }

  /** Splicing the ring t, less its head, onto the end of the ring s; t's head is left alone. */
  lemma CatCycle(s: seq<Addr>, t: seq<Addr>, next: map<Addr, Addr>, prev: map<Addr, Addr>)
    requires Cycle(s, next, prev) && Cycle(t, next, prev) && |t| >= 2
    requires forall y :: y in s ==> y !in t
    ensures var h, l := s[0], s[|s| - 1];
            var g, a, b := t[0], t[1], t[|t| - 1];
            var next' := next[b := h][l := a][g := g];
            var prev' := prev[a := l][h := b][g := g];
            Cycle(s + t[1..], next', prev') && Cycle([g], next', prev')
  {
    var m, n := |s|, |t|;
    var h, l := s[0], s[m - 1];
    var g, a, b := t[0], t[1], t[n - 1];
    var next' := next[b := h][l := a][g := g];
    var prev' := prev[a := l][h := b][g := g];
    var u := s + t[1..];
    JoinedMembers(s, t);
    forall j | 0 <= j < |u|
      ensures LinkedAt(u, j, next', prev')
    {
      if j < m {
        assert u[j] == s[j] && s[j] in s && g in t && a in t && b in t;
        assert LinkedAt(s, j, next, prev);
        assert j != 0 ==> s[j] != h;
        assert j != m - 1 ==> s[j] != l;
      } else {
        var i := j - m + 1;
        assert u[j] == t[i] && t[i] in t && h in s && l in s;
        assert LinkedAt(t, i, next, prev);
        assert i != 1 ==> t[i] != a;
        assert i != n - 1 ==> t[i] != b;
      }
    }
    assert LinkedAt([g], 0, next', prev');
  }

  /** The next and previous fields of every node, by address. */
  class LinkMemory {
    var next: map<Addr, Addr>
    var prev: map<Addr, Addr>

    constructor ()
      ensures next == map[] && prev == map[]
    {
      next, prev := map[], map[];
    }

    ghost predicate Mapped(x: Addr)
      reads this
    {
      x in next && x in prev
    }

    /** Only the fields of nodes in s and of x may have changed, and no node came or went. */
    twostate predicate Keeps(s: seq<Addr>, x: Addr)
      reads this
    {
      && next.Keys == old(next.Keys) && prev.Keys == old(prev.Keys)
      && forall y :: y !in s && y != x ==> SameAt(y, old(next), old(prev), next, prev)
    }

    /** New memory: link fields appear at a .. a + n, with whatever was there. */
    method Map(a: Addr, n: nat)
      modifies this
      ensures forall y :: !(a <= y <= a + n) ==> SameAt(y, old(next), old(prev), next, prev)
      ensures forall y :: a <= y <= a + n || old(y in next) ==> y in next
      ensures forall y :: a <= y <= a + n || old(y in prev) ==> y in prev
    {
      next := next + map x | a <= x <= a + n && x !in next :: 0;
      prev := prev + map x | a <= x <= a + n && x !in prev :: 0;
    }

    /** Returned memory: the link fields at a .. a + n are gone. */
    method Unmap(a: Addr, n: nat)
      modifies this
      ensures forall y :: !(a <= y <= a + n) ==> SameAt(y, old(next), old(prev), next, prev)
      ensures forall y :: a <= y <= a + n ==> y !in next && y !in prev
      ensures forall y :: !(a <= y <= a + n) && old(y in next) ==> y in next
      ensures forall y :: !(a <= y <= a + n) && old(y in prev) ==> y in prev
    {
      next := map x | x in next && !(a <= x <= a + n) :: next[x];
      prev := map x | x in prev && !(a <= x <= a + n) :: prev[x];
    }

    method BeEmpty(x: Addr)
      modifies this
      ensures next == old(next)[x := x] && prev == old(prev)[x := x]
      ensures Cycle([x], next, prev)
    {
      next, prev := next[x := x], prev[x := x];
    }

    method InsertAfter(x: Addr, at: Addr, ghost s: seq<Addr>, ghost k: nat)
      requires Cycle(s, next, prev) && k < |s| && s[k] == at && x !in s && Mapped(x)
      modifies this
      ensures Cycle(Inserted(s, k + 1, x), next, prev)
      ensures Keeps(s, x)
    {
      assert s[k] in s && s[After(k, |s|)] in s;
      InsertCycle(s, k + 1, x, next, prev);
      prev := prev[x := at];
      next := next[x := next[at]];
      prev := prev[next[x] := x];
      next := next[prev[x] := x];
    }

    method InsertBefore(x: Addr, at: Addr, ghost s: seq<Addr>, ghost k: nat)
      requires Cycle(s, next, prev) && 0 < k <= |s| && s[if k == |s| then 0 else k] == at && x !in s && Mapped(x)
      modifies this
      ensures Cycle(Inserted(s, k, x), next, prev)
      ensures Keeps(s, x)
    {
      assert s[k - 1] in s && at in s;
      InsertCycle(s, k, x, next, prev);
      next := next[x := at];
      prev := prev[x := prev[at]];
      prev := prev[next[x] := x];
      next := next[prev[x] := x];
    }

    method RemoveLeaveDangling(x: Addr, ghost s: seq<Addr>, ghost k: nat)
      requires Cycle(s, next, prev) && k < |s| && s[k] == x && |s| >= 2
      modifies this
      ensures Cycle(Without(s, k), next, prev)
      ensures Keeps(s, x)
    {
      assert s[k] in s && s[Before(k, |s|)] in s && s[After(k, |s|)] in s;
      RemoveCycle(s, k, next, prev);
      next := next[prev[x] := next[x]];
      prev := prev[next[x] := prev[x]];
    }

    method IsEmpty(x: Addr) returns (empty: bool)
      requires Mapped(x)
      ensures empty <==> next[x] == x
      ensures forall s: seq<Addr> :: Cycle(s, next, prev) && s[0] == x ==> (empty <==> |s| == 1)
    {
      empty := next[x] == x;
      forall s: seq<Addr> | Cycle(s, next, prev) && s[0] == x
        ensures empty <==> |s| == 1
      {
        assert LinkedAt(s, 0, next, prev);
      }
    }

    /** Moves every node of the list at `other` to the end of the list at `self`. */
    method Cat(self: Addr, other: Addr, ghost s: seq<Addr>, ghost t: seq<Addr>)
      requires Cycle(s, next, prev) && s[0] == self && Cycle(t, next, prev) && t[0] == other
      requires forall y :: y in s ==> y !in t
      modifies this
      ensures Cycle(s + t[1..], next, prev) && Cycle([other], next, prev)
      ensures Keeps(s + t, self)
    {
      ghost var m, n := |s|, |t|;
      assert LinkedAt(s, 0, next, prev) && LinkedAt(t, 0, next, prev);
      assert s[m - 1] in s && self in s && other in t;
      if next[other] == other {
        assert n == 1;
        assert s + t[1..] == s && t == [other];
        return;
      }
      assert t[1] in t && t[n - 1] in t;
      CatCycle(s, t, next, prev);
      var first, last := next[other], prev[other];
      assert LinkedAt(t, 1, next, prev) && LinkedAt(t, n - 1, next, prev) && LinkedAt(s, m - 1, next, prev);
      if next[self] == self {
        assert m == 1;
        next := next[self := next[other]];
        prev := prev[self := prev[other]];
        prev := prev[first := self];
        next := next[last := self];
      } else {
        prev := prev[first := prev[self]];
        next := next[last := self];
        next := next[prev[self] := first];
        prev := prev[self := last];
      }
      prev := prev[other := other];
      next := next[other := other];
      ghost var l := s[m - 1];
      assert next == old(next)[last := self][l := first][other := other];
      assert prev == old(prev)[first := l][self := last][other := other];
    }
  }
}
