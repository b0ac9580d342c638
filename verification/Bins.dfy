/** The free lists: one ring per size class, threaded through the free chunks and a sentinel,
    and a bitmap saying which rings are populated. */
module Bins {
  import opened Bits
  import opened ChunkSizes
  import opened Links

  /** Linked chunks and their lengths in granules. */
  type Sizes = map<int, nat>

  /** Where the sentinel of bin i stands: outside the addresses of chunks. */
  function Sentinel(i: int): Addr {
    -1 - i
  }

  function Ring(bin: seq<Addr>, i: int): seq<Addr> {
    [Sentinel(i)] + bin
  }

  ghost predicate InOrder(bin: seq<Addr>, sizes: Sizes, j: int, k: int)
    requires 0 <= j < |bin| && 0 <= k < |bin|
  {
    bin[j] in sizes && bin[k] in sizes && sizes[bin[j]] >= sizes[bin[k]]
  }

  ghost predicate Belongs(sizes: Sizes, p: int, i: int) {
    p in sizes && p >= 0 && BinOf(sizes[p]) == i
  }

  /** Bin i holds chunks of its class only, largest first. */
  ghost predicate BinOk(bin: seq<Addr>, sizes: Sizes, i: int) {
    && (forall p {:trigger Belongs(sizes, p, i)} :: p in bin ==> Belongs(sizes, p, i))
    && (forall j, k {:trigger InOrder(bin, sizes, j, k)} :: 0 <= j < k < |bin| ==> InOrder(bin, sizes, j, k))
  }

  ghost predicate RingOk(bins: seq<seq<Addr>>, sizes: Sizes, next: map<Addr, Addr>, prev: map<Addr, Addr>, i: int)
    requires 0 <= i < |bins|
  {
    BinOk(bins[i], sizes, i) && Cycle(Ring(bins[i], i), next, prev)
  }

  ghost predicate Filed(bins: seq<seq<Addr>>, sizes: Sizes, p: int)
    requires |bins| == NUM_BINS && p in sizes
  {
    p in bins[BinOf(sizes[p])]
  }

  /** Every linked chunk is in the bin of its size class, and in no other. */
  ghost predicate BinsOk(bins: seq<seq<Addr>>, sizes: Sizes, next: map<Addr, Addr>, prev: map<Addr, Addr>) {
    && |bins| == NUM_BINS
    && (forall i {:trigger RingOk(bins, sizes, next, prev, i)} :: 0 <= i < NUM_BINS ==> RingOk(bins, sizes, next, prev, i))
    && (forall p {:trigger Filed(bins, sizes, p)} :: p in sizes ==> Filed(bins, sizes, p))
  }

  // ----- linking and unlinking -----

  lemma RingMembers(bin: seq<Addr>, sizes: Sizes, i: int, y: int)
    requires BinOk(bin, sizes, i)
    ensures y in Ring(bin, i) <==> y == Sentinel(i) || y in bin
    ensures y in bin ==> y >= 0 && y in sizes && BinOf(sizes[y]) == i
  {
    assert Ring(bin, i)[0] == Sentinel(i);
    forall j | 0 <= j < |bin|
      ensures Ring(bin, i)[j + 1] == bin[j]
    {
    }
    assert y in bin ==> Belongs(sizes, y, i);
  }

  /** Where a chunk of n granules goes in a bin ordered largest first. */
  ghost predicate Slot(bin: seq<Addr>, sizes: Sizes, k: nat, n: nat) {
    && k <= |bin|
    && (forall p :: p in bin ==> p in sizes)
    && (forall j :: 0 <= j < k ==> sizes[bin[j]] >= n)
    && (forall j :: k <= j < |bin| ==> n >= sizes[bin[j]])
  }

  lemma InsertedOk(bin: seq<Addr>, sizes: Sizes, i: int, k: nat, p: int, n: nat)
    requires BinOk(bin, sizes, i) && p !in sizes && p >= 0 && BinOf(n) == i && Slot(bin, sizes, k, n)
    ensures BinOk(Inserted(bin, k, p), sizes[p := n], i)
  {
    var t, sizes' := Inserted(bin, k, p), sizes[p := n];
    InsertedMembers(bin, k, p);
    forall q | q in t
      ensures Belongs(sizes', q, i)
    {
      if q != p {
        assert Belongs(sizes, q, i);
      }
    }
    forall a, b | 0 <= a < b < |t|
      ensures InOrder(t, sizes', a, b)
    {
      var a', b' := if a < k then a else a - 1, if b < k then b else b - 1;
      assert t[a] in t && t[b] in t;
      assert a != k ==> t[a] == bin[a'];
      assert b != k ==> t[b] == bin[b'];
      if a != k && b != k {
        assert InOrder(bin, sizes, a', b');
      }
    }
  }

  lemma RemovedOk(bin: seq<Addr>, sizes: Sizes, i: int, k: nat)
    requires BinOk(bin, sizes, i) && Distinct(bin) && k < |bin|
    ensures BinOk(Without(bin, k), sizes - {bin[k]}, i)
  {
    var t, sizes' := Without(bin, k), sizes - {bin[k]};
    WithoutMembers(bin, k);
    forall q | q in t
      ensures Belongs(sizes', q, i)
    {
      assert Belongs(sizes, q, i);
    }
    forall a, b | 0 <= a < b < |t|
      ensures InOrder(t, sizes', a, b)
    {
      var a', b' := if a < k then a else a + 1, if b < k then b else b + 1;
      assert t[a] == bin[a'] && t[b] == bin[b'] && t[a] in t && t[b] in t;
      assert InOrder(bin, sizes, a', b');
    }
  }

  /** Rings of other bins do not notice changes to one ring and to an unlinked chunk. */
  lemma OtherRing(bins: seq<seq<Addr>>, sizes: Sizes, sizes': Sizes, i: int, j: int, p: int,
                  next: map<Addr, Addr>, prev: map<Addr, Addr>, next': map<Addr, Addr>, prev': map<Addr, Addr>)
    requires BinsOk(bins, sizes, next, prev) && 0 <= i < NUM_BINS && 0 <= j < NUM_BINS && i != j
    requires p >= 0 && p !in bins[j]
    requires forall y :: y !in Ring(bins[i], i) && y != p ==> SameAt(y, next, prev, next', prev')
    requires forall q :: q in sizes && q != p ==> q in sizes' && sizes'[q] == sizes[q]
    ensures Cycle(Ring(bins[j], j), next', prev') && BinOk(bins[j], sizes', j)
  {
    assert RingOk(bins, sizes, next, prev, i) && RingOk(bins, sizes, next, prev, j);
    forall y | y in Ring(bins[j], j)
      ensures SameAt(y, next, prev, next', prev')
    {
      RingMembers(bins[j], sizes, j, y);
      RingMembers(bins[i], sizes, i, y);
    }
    CycleFrame(Ring(bins[j], j), next, prev, next', prev');
    forall q | q in bins[j]
      ensures Belongs(sizes', q, j)
    {
      assert Belongs(sizes, q, j);
    }
    forall a, b | 0 <= a < b < |bins[j]|
      ensures InOrder(bins[j], sizes', a, b)
    {
      assert InOrder(bins[j], sizes, a, b);
      var x, y := bins[j][a], bins[j][b];
      assert x in bins[j] && y in bins[j];
      assert Belongs(sizes, x, j) && Belongs(sizes, y, j);
    }
  }

  lemma LinkOk(bins: seq<seq<Addr>>, sizes: Sizes, i: int, k: nat, p: int, n: nat,
               next: map<Addr, Addr>, prev: map<Addr, Addr>, next': map<Addr, Addr>, prev': map<Addr, Addr>)
    requires BinsOk(bins, sizes, next, prev)
    requires p !in sizes && p >= 0 && BinOf(n) == i && Slot(bins[i], sizes, k, n)
    requires Cycle(Ring(Inserted(bins[i], k, p), i), next', prev')
    requires forall y :: y !in Ring(bins[i], i) && y != p ==> SameAt(y, next, prev, next', prev')
    ensures BinsOk(bins[i := Inserted(bins[i], k, p)], sizes[p := n], next', prev')
  {
    var bins', sizes' := bins[i := Inserted(bins[i], k, p)], sizes[p := n];
    assert RingOk(bins, sizes, next, prev, i);
    InsertedOk(bins[i], sizes, i, k, p, n);
    forall j | 0 <= j < NUM_BINS
      ensures RingOk(bins', sizes', next', prev', j)
    {
      if j != i {
        assert RingOk(bins, sizes, next, prev, j);
        RingMembers(bins[j], sizes, j, p);
        OtherRing(bins, sizes, sizes', i, j, p, next, prev, next', prev');
      }
    }
    InsertedMembers(bins[i], k, p);
    forall q | q in sizes'
      ensures Filed(bins', sizes', q)
    {
      assert q in sizes ==> Filed(bins, sizes, q);
    }
  }

  lemma UnlinkOk(bins: seq<seq<Addr>>, sizes: Sizes, i: int, k: nat,
                 next: map<Addr, Addr>, prev: map<Addr, Addr>, next': map<Addr, Addr>, prev': map<Addr, Addr>)
    requires BinsOk(bins, sizes, next, prev)
    requires 0 <= i < NUM_BINS && k < |bins[i]| && Distinct(bins[i])
    requires Cycle(Ring(Without(bins[i], k), i), next', prev')
    requires forall y :: y !in Ring(bins[i], i) ==> SameAt(y, next, prev, next', prev')
    ensures BinsOk(bins[i := Without(bins[i], k)], sizes - {bins[i][k]}, next', prev')
  {
    var p := bins[i][k];
    var bins', sizes' := bins[i := Without(bins[i], k)], sizes - {p};
    assert RingOk(bins, sizes, next, prev, i);
    RingMembers(bins[i], sizes, i, p);
    RemovedOk(bins[i], sizes, i, k);
    forall j | 0 <= j < NUM_BINS
      ensures RingOk(bins', sizes', next', prev', j)
    {
      if j != i {
        assert RingOk(bins, sizes, next, prev, j);
        RingMembers(bins[j], sizes, j, p);
        OtherRing(bins, sizes, sizes', i, j, p, next, prev, next', prev');
      }
    }
    WithoutMembers(bins[i], k);
    forall q | q in sizes'
      ensures Filed(bins', sizes', q)
    {
      assert Filed(bins, sizes, q);
    }
  }

  // ----- the bitmap -----

  predicate Flag(words: seq<nat>, i: int)
    requires |words| == 4 && 0 <= i < NUM_BINS
  {
    Bit(words[i / 32], i % 32)
  }

  ghost predicate FlagOk(words: seq<nat>, bins: seq<seq<Addr>>, i: int)
    requires |words| == 4 && |bins| == NUM_BINS && 0 <= i < NUM_BINS
  {
    Flag(words, i) <==> bins[i] != []
  }

  ghost predicate WordsOk(words: seq<nat>) {
    |words| == 4 && forall w :: 0 <= w < 4 ==> words[w] < Pow2(32)
  }

  /** A bit is set exactly when its bin is populated. */
  ghost predicate BitmapOk(words: seq<nat>, bins: seq<seq<Addr>>) {
    && WordsOk(words) && |bins| == NUM_BINS
    && forall i {:trigger FlagOk(words, bins, i)} :: 0 <= i < NUM_BINS ==> FlagOk(words, bins, i)
  }

  /** OR-ing a single bit in sets that flag and no other. */
  lemma MarkFlag(words: seq<nat>, i: int)
    requires WordsOk(words) && 0 <= i < NUM_BINS
    ensures var words' := words[i / 32 := Or(words[i / 32], Pow2(i % 32))];
            WordsOk(words') && forall j :: 0 <= j < NUM_BINS ==> (Flag(words', j) <==> j == i || Flag(words, j))
  {
    var w, b := i / 32, i % 32;
    var words' := words[w := Or(words[w], Pow2(b))];
    PowBelow(b);
    OrBound(words[w], Pow2(b), 32);
    hide Pow2, Or, Bit;
    forall j | 0 <= j < NUM_BINS
      ensures Flag(words', j) <==> j == i || Flag(words, j)
    {
      OrBit(words[w], Pow2(b), j % 32);
      Pow2Bit(b, j % 32);
    }
  }

  lemma PowBelow(b: nat)
    requires b < 32
    ensures Pow2(b) < Pow2(32)
  {
    Pow2Monotone(b, 31);
  }

  /** AND-ing with the complement clears that flag and no other. */
  lemma ClearFlag(words: seq<nat>, i: int)
    requires WordsOk(words) && 0 <= i < NUM_BINS
    ensures var words' := words[i / 32 := AndNot(words[i / 32], Pow2(i % 32))];
            WordsOk(words') && forall j :: 0 <= j < NUM_BINS ==> (Flag(words', j) <==> j != i && Flag(words, j))
  {
    var w, b := i / 32, i % 32;
    var words' := words[w := AndNot(words[w], Pow2(b))];
    AndNotBound(words[w], Pow2(b));
    hide Pow2, AndNot, Bit;
    forall j | 0 <= j < NUM_BINS
      ensures Flag(words', j) <==> j != i && Flag(words, j)
    {
      AndNotBit(words[w], Pow2(b), j % 32);
      Pow2Bit(b, j % 32);
    }
  }

  /** Reads the word that holds the flags around i from bit p up. */
  lemma ScanWord(word: nat, p: nat)
    requires word < Pow2(32) && p < 32
    ensures word >= Pow2(p) ==> var m := AndNot(word, Pow2(p) - 1);
                                m > 0 && p <= Ctz(m) < 32 && Bit(word, Ctz(m))
                                && forall q: nat :: p <= q < Ctz(m) ==> !Bit(word, q)
    ensures word < Pow2(p) ==> forall q: nat :: p <= q ==> !Bit(word, q)
    ensures word > 0 ==> Ctz(word) < 32 && 0 <= Ctz(word) && Bit(word, Ctz(word))
                         && forall q: nat :: q < Ctz(word) ==> !Bit(word, q)
    ensures word == 0 ==> forall q: nat :: !Bit(word, q)
  {
    AtLeastPow2(word, p);
    if word == 0 {
      forall q: nat
        ensures !Bit(word, q)
      {
        ZeroBit(q);
      }
    } else {
      CtzIsLowest(word);
      BitBelow32(word, Ctz(word));
    }
    if word >= Pow2(p) {
      MaskedWord(word, p);
    }
  }

  lemma BitBelow32(word: nat, q: nat)
    requires word < Pow2(32) && Bit(word, q)
    ensures q < 32
  {
    if q >= 32 {
      NoBitAbove(word, 32, q);
    }
  }

  lemma MaskedWord(word: nat, p: nat)
    requires word < Pow2(32) && p < 32 && word >= Pow2(p)
    ensures var m := AndNot(word, Pow2(p) - 1);
            m > 0 && p <= Ctz(m) < 32 && Bit(word, Ctz(m))
            && forall q: nat :: p <= q < Ctz(m) ==> !Bit(word, q)
  {
    hide Pow2, AndNot, Bit, NumBits, Ctz;
    var m := AndNot(word, Pow2(p) - 1);
    AtLeastPow2(word, p);
    var top := NumBits(word) - 1;
    AndNotBit(word, Pow2(p) - 1, top);
    MaskBit(p, top);
    ZeroBit(top);
    assert m != 0;
    CtzIsLowest(m);
    AndNotBit(word, Pow2(p) - 1, Ctz(m));
    MaskBit(p, Ctz(m));
    BitBelow32(word, Ctz(m));
    forall q: nat | p <= q < Ctz(m)
      ensures !Bit(word, q)
    {
      AndNotBit(word, Pow2(p) - 1, q);
      MaskBit(p, q);
    }
  }

  lemma FlagInWord(words: seq<nat>, w: nat, q: nat)
    requires |words| == 4 && w < 4 && q < 32
    ensures Flag(words, 32 * w + q) == Bit(words[w], q)
  {
  }

  lemma FlagsOfWord(words: seq<nat>, w: nat, lo: nat, hi: nat)
    requires |words| == 4 && w < 4 && hi <= 32
    requires forall q: nat :: lo <= q < hi ==> !Bit(words[w], q)
    ensures NoFlags(words, 32 * w + lo, 32 * w + hi)
  {
    forall i | 32 * w + lo <= i < 32 * w + hi && 0 <= i < NUM_BINS
      ensures !Flag(words, i)
    {
      FlagInWord(words, w, i - 32 * w);
    }
  }

  /** The same, in terms of bins: word w, scanned from its bit p. */
  lemma FirstFlagFrom(words: seq<nat>, w: nat, p: nat)
    requires WordsOk(words) && w < 4 && p < 32
    ensures words[w] >= Pow2(p) ==> var m := AndNot(words[w], Pow2(p) - 1);
                                    m > 0 && FirstFlag(words, 32 * w + p, 32 * w + Ctz(m)) && Ctz(m) < 32
    ensures words[w] < Pow2(p) ==> NoFlags(words, 32 * w + p, 32 * w + 32)
  {
    ScanWord(words[w], p);
    hide Pow2, AndNot, Ctz, Bit, Flag, NoFlags;
    if words[w] >= Pow2(p) {
      var q := Ctz(AndNot(words[w], Pow2(p) - 1));
      FlagInWord(words, w, q);
      FlagsOfWord(words, w, p, q);
    } else {
      FlagsOfWord(words, w, p, 32);
    }
  }

  lemma FirstFlagIn(words: seq<nat>, w: nat)
    requires WordsOk(words) && w < 4
    ensures words[w] > 0 ==> FirstFlag(words, 32 * w, 32 * w + Ctz(words[w])) && Ctz(words[w]) < 32
    ensures words[w] == 0 ==> NoFlags(words, 32 * w, 32 * w + 32)
  {
    ScanWord(words[w], 0);
    hide Pow2, AndNot, Ctz, Bit, Flag, NoFlags;
    if words[w] > 0 {
      var q := Ctz(words[w]);
      FlagInWord(words, w, q);
      FlagsOfWord(words, w, 0, q);
    } else {
      FlagsOfWord(words, w, 0, 32);
    }
  }

  ghost predicate NoFlags(words: seq<nat>, lo: int, hi: int)
    requires |words| == 4
  {
    forall i :: lo <= i < hi && 0 <= i < NUM_BINS ==> !Flag(words, i)
  }

  /** r is the first set flag at or after lo. */
  ghost predicate FirstFlag(words: seq<nat>, lo: int, r: int)
    requires |words| == 4
  {
    lo <= r && 0 <= r < NUM_BINS && Flag(words, r) && NoFlags(words, lo, r)
  }

  lemma FlagsAreBins(words: seq<nat>, bins: seq<seq<Addr>>, lo: nat, r: int)
    requires BitmapOk(words, bins)
    ensures NoFlags(words, lo, r) ==> forall i :: lo <= i < r && i < NUM_BINS ==> bins[i] == []
    ensures FirstFlag(words, lo, r) ==> bins[r] != []
  {
    forall i | 0 <= i < NUM_BINS
      ensures Flag(words, i) <==> bins[i] != []
    {
      assert FlagOk(words, bins, i);
    }
  }
}
