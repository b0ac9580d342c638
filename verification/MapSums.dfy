/** Sums of the values of a finite map. */
module MapSums {

  lemma SomeKey(m: map<int, nat>)
    requires |m| != 0
    ensures exists k :: k in m
  {
    assert (forall k :: k !in m) ==> m.Keys == {};
  }

  /** The key that is summed first. */
  ghost function FirstKey(m: map<int, nat>): (k: int)
    requires |m| != 0
    ensures k in m
  {
    SomeKey(m);
    var k :| k in m;
    k
  }

  ghost function Total(m: map<int, nat>): nat {
    if |m| == 0 then 0 else m[FirstKey(m)] + Total(m - {FirstKey(m)})
  }

  lemma TotalEmpty()
    ensures Total(map[]) == 0
  {
  }

  /** The order of summation does not matter. */
  lemma {:induction false} TotalRemove(m: map<int, nat>, k: int)
    requires k in m
    ensures Total(m) == m[k] + Total(m - {k})
    decreases m
  {
    assert m.Keys != {};
    var j := FirstKey(m);
    TotalFirst(m);
    hide Total;
    if j != k {
      TotalRemove(m - {j}, k);
      TotalRemove(m - {k}, j);
      assert m - {j} - {k} == m - {k} - {j};
    }
  }

  lemma TotalFirst(m: map<int, nat>)
    requires |m| != 0
    ensures Total(m) == m[FirstKey(m)] + Total(m - {FirstKey(m)})
  {
  }

  lemma TotalAdd(m: map<int, nat>, k: int, v: nat)
    requires k !in m
    ensures Total(m[k := v]) == Total(m) + v
  {
    hide Total;
    TotalRemove(m[k := v], k);
    assert m[k := v] - {k} == m;
  }

  /** Maps that agree pointwise have the same sum. */
  lemma {:induction false} TotalSame(a: map<int, nat>, b: map<int, nat>)
    requires forall k :: k in a <==> k in b
    requires forall k :: k in a && k in b ==> a[k] == b[k]
    ensures Total(a) == Total(b)
    decreases b
  {
    hide Total;
    if |b| == 0 {
      if |a| != 0 {
        SomeKey(a);
      }
      TotalNone(a);
      TotalNone(b);
    } else {
      SomeKey(b);
      var k :| k in b;
      TotalRemove(a, k);
      TotalRemove(b, k);
      TotalSame(a - {k}, b - {k});
    }
  }

  lemma TotalNone(m: map<int, nat>)
    requires |m| == 0
    ensures Total(m) == 0
  {
  }

  /** Sums split along any partition of the keys. */
  lemma {:induction false} TotalSplit(m: map<int, nat>, a: map<int, nat>, b: map<int, nat>)
    requires forall k :: k in m <==> k in a || k in b
    requires forall k :: !(k in a && k in b)
    requires forall k :: k in a && k in m ==> a[k] == m[k]
    requires forall k :: k in b && k in m ==> b[k] == m[k]
    ensures Total(m) == Total(a) + Total(b)
    decreases b
  {
    hide Total;
    if |b| == 0 {
      forall k
        ensures k in m <==> k in a
      {
        assert k in b ==> |b| != 0;
      }
      TotalSame(m, a);
      TotalNone(b);
    } else {
      SomeKey(b);
      var k :| k in b;
      TotalRemove(m, k);
      TotalRemove(b, k);
      TotalSplit(m - {k}, a, b - {k});
    }
  }
}
