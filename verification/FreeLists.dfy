/** The allocator's free lists at work: linking, unlinking, and the search for a chunk. */
module FreeLists {
  import opened Bits
  import opened ChunkSizes
  import opened Links
  import opened MapSums
  import opened BoundaryTags
  import opened Bins

  /** How a chunk fits a request: not at all, with less than a minimal chunk to spare, or with
      enough to spare that it should be split. */
  datatype Fit = TooSmall | Exact | Bigger

  /** Conversion of a 64-bit difference to a 32-bit signed integer. */
  function ToInt32(x: int): int {
    var m := x % 0x1_0000_0000;
    if m >= 0x8000_0000 then m - 0x1_0000_0000 else m
  }

  /** The conversion is exact on the differences of sizes below 2^31. */
  lemma ToInt32Exact(a: nat, b: nat)
    requires a < 0x8000_0000 && b < 0x8000_0000
    ensures ToInt32(a - b) == a - b
  {
  }

  /** It is exact on nothing else. */
  lemma ToInt32ExactIff(x: int)
    ensures ToInt32(x) == x <==> -0x8000_0000 <= x < 0x8000_0000
  {
  }

  function FitOf(size: nat, need: nat): Fit {
    var remainder := ToInt32(ALIGN * size - ALIGN * need);
    if remainder >= MIN_ALLOC then Bigger else if remainder >= 0 then Exact else TooSmall
  }

  lemma FitMeans(size: nat, need: nat)
    requires ALIGN * size < 0x8000_0000 && ALIGN * need < 0x8000_0000
    ensures FitOf(size, need) == if size < need then TooSmall else if size < need + 2 then Exact else Bigger
  {
    ToInt32Exact(ALIGN * size, ALIGN * need);
  }

  /** A chunk of 262144 bytes, and a need of 4 GB: the chunk looks large enough to be split. One of
      128 bytes would too, but is in a bin that the search never visits. */
  lemma WrapExample()
    ensures WrapsToFit(map[0 := 4096], 0x400_0000, 0) && FitOf(4096, 0x400_0000) == Bigger
    ensures FitOf(2, 0x400_0000) == Bigger && BinOf(2) == 8 && !WrapsToFit(map[0 := 2], 0x400_0000, 0)
  {
  }

  lemma FitsMean(sizes: Sizes, headers: Tags, need: nat)
    requires HeadersAgree(sizes, headers) && ALIGN * need < 0x8000_0000
    ensures forall q :: q in sizes ==>
              FitOf(sizes[q], need) == if sizes[q] < need then TooSmall else if sizes[q] < need + 2 then Exact else Bigger
  {
  }

  /** A chunk that is too small is taken for large enough exactly when the difference in bytes, as an
      unsigned 32-bit number, has its top bit clear. */
  lemma ToInt32Wraps(size: nat, need: nat)
    requires size < need
    ensures FitOf(size, need) != TooSmall <==> (ALIGN * size - ALIGN * need) % 0x1_0000_0000 < 0x8000_0000
  {
  }

  /** Sizes from 2^31 bytes on go to the last bin: a search for one looks at the chunks there only. */
  lemma HugeBin(need: nat)
    requires ALIGN * need >= 0x8000_0000
    ensures BinOf(need) == NUM_BINS - 1
  {
  }

  /** A listed chunk of the last bin whose difference from the need, as an unsigned 32-bit number, has
      its top bit clear. */
  ghost predicate WrapsToFit(sizes: Sizes, need: nat, q: int) {
    && q in sizes && BinOf(sizes[q]) == NUM_BINS - 1
    && (ALIGN * sizes[q] - ALIGN * need) % 0x1_0000_0000 < 0x8000_0000
  }

  /** The headers agree with what is linked, and all sizes are below 2^31. */
  ghost predicate HeadersAgree(sizes: Sizes, headers: Tags) {
    forall p :: p in sizes ==> p in headers && headers[p].size == sizes[p] && ALIGN * sizes[p] < 0x8000_0000
  }

  /** c is a linked chunk of least sufficient length, over all bins. */
  ghost predicate BestFit(sizes: Sizes, need: nat, c: int) {
    && c in sizes && sizes[c] >= need
    && forall q :: q in sizes && sizes[q] >= need ==> sizes[q] >= sizes[c]
  }

  ghost predicate NothingFits(sizes: Sizes, need: nat) {
    forall q :: q in sizes ==> sizes[q] < need
  }

  /** Neighbours in a ring of a bin, by position in the bin. */
  lemma RingStep(bin: seq<Addr>, i: int, k: int, next: map<Addr, Addr>, prev: map<Addr, Addr>)
    requires Cycle(Ring(bin, i), next, prev) && -1 <= k < |bin|
    ensures var x := if k == -1 then Sentinel(i) else bin[k];
            && x in next && next[x] == (if k + 1 == |bin| then Sentinel(i) else bin[k + 1])
            && x in prev && prev[x] == (if k == 0 then Sentinel(i) else if k == -1 && |bin| == 0 then Sentinel(i)
                                        else if k == -1 then bin[|bin| - 1] else bin[k - 1])
  {
    assert LinkedAt(Ring(bin, i), k + 1, next, prev);
  }

  lemma RingDistinct(bin: seq<Addr>, i: int, next: map<Addr, Addr>, prev: map<Addr, Addr>)
    requires Cycle(Ring(bin, i), next, prev)
    ensures Distinct(bin)
    ensures Sentinel(i) !in bin
  {
    forall j, k | 0 <= j < k < |bin|
      ensures bin[j] != bin[k]
    {
      assert Ring(bin, i)[j + 1] == bin[j] && Ring(bin, i)[k + 1] == bin[k];
    }
    forall j | 0 <= j < |bin|
      ensures bin[j] != Sentinel(i)
    {
      assert Ring(bin, i)[j + 1] == bin[j] && Ring(bin, i)[0] == Sentinel(i);
    }
  }

  lemma RingInserted(bin: seq<Addr>, i: int, k: nat, p: int)
    requires k <= |bin|
    ensures Inserted(Ring(bin, i), k + 1, p) == Ring(Inserted(bin, k, p), i)
  {
  }

  lemma RingWithout(bin: seq<Addr>, i: int, k: nat)
    requires k < |bin|
    ensures Without(Ring(bin, i), k + 1) == Ring(Without(bin, k), i)
  {
  }

  /** Anything in an earlier bin is too small, anything in a later one is larger. */
  lemma BinsBySize(bins: seq<seq<Addr>>, sizes: Sizes, next: map<Addr, Addr>, prev: map<Addr, Addr>, q: int, n: nat)
    requires BinsOk(bins, sizes, next, prev) && q in sizes
    ensures BinOf(sizes[q]) < BinOf(n) ==> sizes[q] < n
    ensures BinOf(sizes[q]) > BinOf(n) ==> sizes[q] > n
  {
    if sizes[q] >= n {
      BinOfMonotone(n, sizes[q]);
    } else {
      BinOfMonotone(sizes[q], n);
    }
  }

  lemma NoFlagsJoin(words: seq<nat>, lo: int, mid: int, hi: int)
    requires |words| == 4 && NoFlags(words, lo, mid) && NoFlags(words, mid, hi)
    ensures NoFlags(words, lo, hi)
  {
  }

  /** The head of a small or empty bin keeps the order. */
  lemma HeadSlot(bin: seq<Addr>, sizes: Sizes, i: int, n: nat)
    requires BinOk(bin, sizes, i) && BinOf(n) == i && (i < NUM_SMALL_BINS || bin == [])
    ensures Slot(bin, sizes, 0, n)
  {
    forall q | q in bin
      ensures q in sizes && sizes[q] == n
    {
      assert Belongs(sizes, q, i);
      SmallBinUniform(sizes[q], n);
    }
  }

  /** So does the place before the first chunk that is not larger. */
  lemma FoundSlot(bin: seq<Addr>, sizes: Sizes, i: int, k: nat, n: nat)
    requires BinOk(bin, sizes, i) && k <= |bin|
    requires forall j :: 0 <= j < k ==> bin[j] in sizes && sizes[bin[j]] > n
    requires k < |bin| ==> bin[k] in sizes && sizes[bin[k]] <= n
    ensures Slot(bin, sizes, k, n)
  {
    forall q | q in bin
      ensures q in sizes
    {
      assert Belongs(sizes, q, i);
    }
    forall j | k <= j < |bin|
      ensures n >= sizes[bin[j]]
    {
      assert j > k ==> InOrder(bin, sizes, k, j);
    }
  }

  ghost predicate BestOfBin(bin: seq<Addr>, sizes: Sizes, need: nat, c: int) {
    && c in bin && c in sizes && sizes[c] >= need
    && forall q :: q in bin && q in sizes && sizes[q] >= need ==> sizes[q] >= sizes[c]
  }

  /** The first sufficient chunk met from the small end is the smallest sufficient one. */
  lemma SmallestFirst(bin: seq<Addr>, sizes: Sizes, i: int, k: nat, need: nat)
    requires BinOk(bin, sizes, i) && k < |bin| && bin[k] in sizes && sizes[bin[k]] >= need
    requires forall j :: k < j < |bin| ==> bin[j] in sizes && sizes[bin[j]] < need
    ensures BestOfBin(bin, sizes, need, bin[k])
  {
    forall q | q in bin && q in sizes && sizes[q] >= need
      ensures sizes[q] >= sizes[bin[k]]
    {
      var j :| 0 <= j < |bin| && bin[j] == q;
      assert j < k ==> InOrder(bin, sizes, j, k);
    }
  }

  lemma FirstThatFits(bin: seq<Addr>, sizes: Sizes, headers: Tags, i: int, k: nat, need: nat)
    requires BinOk(bin, sizes, i) && HeadersAgree(sizes, headers) && ALIGN * need < 0x8000_0000
    requires k < |bin| && bin[k] in sizes && FitOf(sizes[bin[k]], need) != TooSmall
    requires forall j :: k < j < |bin| ==> bin[j] in sizes && FitOf(sizes[bin[j]], need) == TooSmall
    ensures BestOfBin(bin, sizes, need, bin[k])
  {
    hide BinOk, BestOfBin, FitOf;
    forall j | k <= j < |bin|
      ensures bin[j] in sizes && (FitOf(sizes[bin[j]], need) == TooSmall <==> sizes[bin[j]] < need)
    {
      var q := bin[j];
      assert q in sizes;
      assert headers[q].size == sizes[q];
      FitMeans(sizes[q], need);
    }
    SmallestFirst(bin, sizes, i, k, need);
  }

  /** Best in its bin, with nothing sufficient in the bins below, is best everywhere. */
  lemma BestEverywhere(bins: seq<seq<Addr>>, sizes: Sizes, next: map<Addr, Addr>, prev: map<Addr, Addr>,
                       need: nat, i: nat, c: int)
    requires BinsOk(bins, sizes, next, prev) && i < NUM_BINS && BestOfBin(bins[i], sizes, need, c)
    requires i == BinOf(need) || forall q :: q in sizes && BinOf(sizes[q]) < i ==> sizes[q] < need
    ensures BestFit(sizes, need, c) && !NothingFits(sizes, need)
  {
    assert RingOk(bins, sizes, next, prev, i);
    RingMembers(bins[i], sizes, i, c);
    forall q | q in sizes && sizes[q] >= need
      ensures sizes[q] >= sizes[c]
    {
      assert Filed(bins, sizes, q);
      BinsBySize(bins, sizes, next, prev, q, sizes[c]);
      BinsBySize(bins, sizes, next, prev, q, need);
    }
  }

  /** Small requests: the bin of the size holds exact fits only, and the next bin is empty. */
  lemma SmallBinPair(bins: seq<seq<Addr>>, sizes: Sizes, next: map<Addr, Addr>, prev: map<Addr, Addr>, need: nat)
    requires BinsOk(bins, sizes, next, prev) && BinOf(need) < MAX_SMALL_BIN
    ensures var i := BinOf(need);
            && Sentinel(i) in prev && Sentinel(i + 1) in prev && prev[Sentinel(i + 1)] == Sentinel(i + 1)
            && var c := prev[Sentinel(i)];
            if c != Sentinel(i)
            then BestFit(sizes, need, c) && sizes[c] == need && !NothingFits(sizes, need)
            else forall q :: q in sizes && BinOf(sizes[q]) < i + 2 ==> sizes[q] < need
  {
    var i := BinOf(need);
    assert RingOk(bins, sizes, next, prev, i) && RingOk(bins, sizes, next, prev, i + 1);
    if bins[i + 1] != [] {
      var q := bins[i + 1][0];
      RingMembers(bins[i + 1], sizes, i + 1, q);
      NextSmallBinEmpty(need, sizes[q]);
    }
    RingStep(bins[i + 1], i + 1, -1, next, prev);
    RingStep(bins[i], i, -1, next, prev);
    if bins[i] != [] {
      var c := bins[i][|bins[i]| - 1];
      RingMembers(bins[i], sizes, i, c);
      SmallBinUniform(sizes[c], need);
    }
    forall q | q in sizes && bins[i] == []
      ensures BinOf(sizes[q]) < i + 2 ==> sizes[q] < need
    {
      assert Filed(bins, sizes, q);
      BinsBySize(bins, sizes, next, prev, q, need);
    }
  }

  lemma StartHere(bins: seq<seq<Addr>>, sizes: Sizes, next: map<Addr, Addr>, prev: map<Addr, Addr>, need: nat, i: nat)
    requires BinsOk(bins, sizes, next, prev)
    requires i == BinOf(need)
             || (i == BinOf(need) + 1 && forall q :: q in bins[i - 1] && q in sizes ==> sizes[q] < need)
    ensures forall q :: q in sizes && BinOf(sizes[q]) < i ==> sizes[q] < need
  {
    forall q | q in sizes && BinOf(sizes[q]) < i
      ensures sizes[q] < need
    {
      assert Filed(bins, sizes, q);
      BinsBySize(bins, sizes, next, prev, q, need);
    }
  }

  lemma NoneUpTo(bins: seq<seq<Addr>>, sizes: Sizes, next: map<Addr, Addr>, prev: map<Addr, Addr>, need: nat, i: nat)
    requires BinsOk(bins, sizes, next, prev) && i < NUM_BINS
    requires forall q :: q in sizes && BinOf(sizes[q]) < i ==> sizes[q] < need
    requires forall q :: q in bins[i] && q in sizes ==> sizes[q] < need
    ensures forall q :: q in sizes && BinOf(sizes[q]) < i + 1 ==> sizes[q] < need
  {
    forall q | q in sizes && BinOf(sizes[q]) < i + 1
      ensures sizes[q] < need
    {
      assert Filed(bins, sizes, q);
    }
  }

  /** Skipping empty bins skips no chunk. */
  lemma SkipEmpty(bins: seq<seq<Addr>>, sizes: Sizes, next: map<Addr, Addr>, prev: map<Addr, Addr>, need: nat, i: nat, r: int)
    requires BinsOk(bins, sizes, next, prev) && r < NUM_BINS
    requires forall q :: q in sizes && BinOf(sizes[q]) < i ==> sizes[q] < need
    requires forall j :: i <= j < (if r < 0 then NUM_BINS else r) ==> bins[j] == []
    ensures forall q :: q in sizes && (r >= 0 ==> BinOf(sizes[q]) < r) ==> sizes[q] < need
  {
    forall q | q in sizes && (r >= 0 ==> BinOf(sizes[q]) < r)
      ensures sizes[q] < need
    {
      assert Filed(bins, sizes, q);
    }
  }

  lemma BitmapAfterLink(words: seq<nat>, words': seq<nat>, bins: seq<seq<Addr>>, i: int, bin: seq<Addr>)
    requires BitmapOk(words, bins) && 0 <= i < NUM_BINS && bin != [] && WordsOk(words')
    requires (words' == words && bins[i] != [])
             || forall j :: 0 <= j < NUM_BINS ==> (Flag(words', j) <==> j == i || Flag(words, j))
    ensures BitmapOk(words', bins[i := bin])
  {
    var bins' := bins[i := bin];
    forall j | 0 <= j < NUM_BINS
      ensures FlagOk(words', bins', j)
    {
      assert FlagOk(words, bins, j);
    }
  }

  lemma BitmapAfterUnlink(words: seq<nat>, words': seq<nat>, bins: seq<seq<Addr>>, i: int, bin: seq<Addr>)
    requires BitmapOk(words, bins) && 0 <= i < NUM_BINS && bins[i] != [] && WordsOk(words')
    requires if bin == [] then forall j :: 0 <= j < NUM_BINS ==> (Flag(words', j) <==> j != i && Flag(words, j))
             else words' == words
    ensures BitmapOk(words', bins[i := bin])
  {
    var bins' := bins[i := bin];
    forall j | 0 <= j < NUM_BINS
      ensures FlagOk(words', bins', j)
    {
      assert FlagOk(words, bins, j);
    }
  }

  /** The top bit of the highest nonzero word names the highest populated bin. */
  lemma TopFlag(words: seq<nat>, bins: seq<seq<Addr>>, sizes: Sizes, next: map<Addr, Addr>, prev: map<Addr, Addr>, w: nat)
    requires BitmapOk(words, bins) && BinsOk(bins, sizes, next, prev) && |sizes| != 0
    requires w < 4 && (forall i :: w < i < 4 ==> words[i] == 0) && (w == 0 || words[w] != 0)
    ensures words[w] > 0 && NumBits(words[w]) <= 32
    ensures var index := 32 * w + NumBits(words[w]) - 1;
            0 <= index < NUM_BINS && bins[index] != []
            && forall q :: q in sizes ==> BinOf(sizes[q]) <= index
  {
    NumBitsRange(words[w], 32);
    hide Bit, NumBits, Pow2, BinsOk, Flag;
    SomeKey(sizes);
    var q :| q in sizes;
    FlagIsBelow(words, bins, sizes, next, prev, w, q);
    TopIsFlagged(words, bins, w);
    var index := 32 * w + NumBits(words[w]) - 1;
    hide BitmapOk;
    forall q | q in sizes
      ensures BinOf(sizes[q]) <= index
    {
      FlagIsBelow(words, bins, sizes, next, prev, w, q);
    }
  }

  lemma TopIsFlagged(words: seq<nat>, bins: seq<seq<Addr>>, w: nat)
    requires BitmapOk(words, bins) && w < 4 && 0 < NumBits(words[w]) <= 32 && words[w] > 0
    ensures bins[32 * w + NumBits(words[w]) - 1] != []
  {
    hide Bit, NumBits, Pow2, Flag;
    var index := 32 * w + NumBits(words[w]) - 1;
    TopBit(words[w]);
    FlagInWord(words, w, NumBits(words[w]) - 1);
    assert FlagOk(words, bins, index);
  }

  lemma FlagIsBelow(words: seq<nat>, bins: seq<seq<Addr>>, sizes: Sizes, next: map<Addr, Addr>, prev: map<Addr, Addr>,
                    w: nat, q: int)
    requires BitmapOk(words, bins) && BinsOk(bins, sizes, next, prev) && q in sizes
    requires w < 4 && (forall i :: w < i < 4 ==> words[i] == 0) && (w == 0 || words[w] != 0)
    ensures words[w] > 0 && BinOf(sizes[q]) < 32 * w + NumBits(words[w])
  {
    hide Bit, Pow2;
    var i := BinOf(sizes[q]);
    assert Filed(bins, sizes, q) && FlagOk(words, bins, i);
    ZeroBit(i % 32);
    assert i / 32 <= w;
    if words[w] > 0 {
      TopBit(words[w]);
      hide NumBits;
      assert i / 32 == w ==> i % 32 < NumBits(words[w]);
      assert NumBits(words[w]) >= 1 by {
        PositiveBits(words[w]);
      }
    }
  }

  lemma PositiveBits(w: nat)
    requires w > 0
    ensures NumBits(w) >= 1
  {
  }

  /** A node whose neighbours point back at it. */
  predicate SaneLinks(p: Addr, next: map<Addr, Addr>, prev: map<Addr, Addr>) {
    && p in next && next[p] in prev && prev[next[p]] == p
    && p in prev && prev[p] in next && next[prev[p]] == p
  }

  lemma ListedIsSane(bins: seq<seq<Addr>>, sizes: Sizes, next: map<Addr, Addr>, prev: map<Addr, Addr>, p: int)
    requires BinsOk(bins, sizes, next, prev) && p in sizes
    ensures SaneLinks(p, next, prev)
  {
    var i := BinOf(sizes[p]);
    assert Filed(bins, sizes, p) && RingOk(bins, sizes, next, prev, i);
    var k :| 0 <= k < |bins[i]| && bins[i][k] == p;
    RingStep(bins[i], i, k, next, prev);
    RingStep(bins[i], i, k - 1, next, prev);
    RingStep(bins[i], i, if k + 1 == |bins[i]| then -1 else k + 1, next, prev);
  }

  /** The rings do not notice link fields that no chunk of theirs uses. */
  lemma Outside(bins: seq<seq<Addr>>, sizes: Sizes, next: map<Addr, Addr>, prev: map<Addr, Addr>,
                next': map<Addr, Addr>, prev': map<Addr, Addr>, a: Addr, n: nat)
    requires BinsOk(bins, sizes, next, prev) && a >= 0 && forall q :: q in sizes ==> !(a <= q <= a + n)
    requires forall y :: !(a <= y <= a + n) ==> SameAt(y, next, prev, next', prev')
    ensures BinsOk(bins, sizes, next', prev')
  {
    forall i | 0 <= i < NUM_BINS
      ensures RingOk(bins, sizes, next', prev', i)
    {
      assert RingOk(bins, sizes, next, prev, i);
      forall y | y in Ring(bins[i], i)
        ensures SameAt(y, next, prev, next', prev')
      {
        RingMembers(bins[i], sizes, i, y);
      }
      CycleFrame(Ring(bins[i], i), next, prev, next', prev');
    }
  }

  class FreeLists {
    const links: LinkMemory
    const words: array<nat>
    ghost var bins: seq<seq<Addr>>
    ghost var sizes: Sizes

    ghost predicate Valid()
      reads this, links, words
    {
      && words.Length == 4
      && BinsOk(bins, sizes, links.next, links.prev)
      && BitmapOk(words[..], bins)
    }

    constructor ()
      ensures Valid() && fresh(links) && fresh(words)
      ensures sizes == map[]
    {
      links := new LinkMemory();
      words := new nat[4];
      new;
      InitBins();
    }

    /** Every ring empty, every bit clear; the link fields of chunks stay where they are. */
    method InitBins()
      requires words.Length == 4
      modifies this, links, words
      ensures Valid() && sizes == map[]
      ensures old(links.next.Keys) <= links.next.Keys && old(links.prev.Keys) <= links.prev.Keys
    {
      bins, sizes := seq(NUM_BINS, _ => []), map[];
      var i := 0;
      while i < NUM_BINS
        invariant 0 <= i <= NUM_BINS
        invariant bins == seq(NUM_BINS, _ => []) && sizes == map[]
        invariant forall j :: 0 <= j < i ==> RingOk(bins, sizes, links.next, links.prev, j)
        invariant old(links.next.Keys) <= links.next.Keys && old(links.prev.Keys) <= links.prev.Keys
        modifies links
      {
        label before:
        links.BeEmpty(Sentinel(i));
        assert Ring(bins[i], i) == [Sentinel(i)];
        forall j | 0 <= j < i
          ensures RingOk(bins, sizes, links.next, links.prev, j)
        {
          assert old@before(RingOk(bins, sizes, links.next, links.prev, j));
          CycleFrame(Ring(bins[j], j), old@before(links.next), old@before(links.prev), links.next, links.prev);
        }
        i := i + 1;
      }
      i := 0;
      while i < 4
        invariant 0 <= i <= 4
        invariant forall w :: 0 <= w < i ==> words[w] == 0
        modifies words
      {
        words[i] := 0;
        i := i + 1;
      }
      forall j | 0 <= j < NUM_BINS
        ensures FlagOk(words[..], bins, j)
      {
        ZeroBit(j % 32);
      }
    }

    /** Link fields for the headers of a new area; its first chunk starts out unlinked. */
    method Map(a: Addr, n: nat)
      requires Valid() && a >= 0 && forall q :: q in sizes ==> !(a <= q <= a + n)
      modifies links
      ensures Valid()
      ensures forall y :: a <= y <= a + n || old(y in links.next) ==> y in links.next
      ensures forall y :: a <= y <= a + n || old(y in links.prev) ==> y in links.prev
    {
      hide BinsOk, BitmapOk;
      label before:
      links.Map(a, n);
      label mapped:
      links.BeEmpty(a);
      forall y | !(a <= y <= a + n)
        ensures SameAt(y, old@before(links.next), old@before(links.prev), links.next, links.prev)
      {
        assert SameAt(y, old@before(links.next), old@before(links.prev), old@mapped(links.next), old@mapped(links.prev));
      }
      Outside(bins, sizes, old@before(links.next), old@before(links.prev), links.next, links.prev, a, n);
    }

    /** A released area takes its link fields with it. */
    method Unmap(a: Addr, n: nat)
      requires Valid() && a >= 0 && forall q :: q in sizes ==> !(a <= q <= a + n)
      modifies links
      ensures Valid()
      ensures forall y :: !(a <= y <= a + n) && old(y in links.next) ==> y in links.next
      ensures forall y :: !(a <= y <= a + n) && old(y in links.prev) ==> y in links.prev
    {
      label before:
      links.Unmap(a, n);
      Outside(bins, sizes, old@before(links.next), old@before(links.prev), links.next, links.prev, a, n);
    }

    method MarkBinBlock(index: nat)
      requires index < NUM_BINS && WordsOk(words[..])
      modifies words
      ensures WordsOk(words[..])
      ensures forall j :: 0 <= j < NUM_BINS ==> (Flag(words[..], j) <==> j == index || Flag(old(words[..]), j))
    {
      MarkFlag(words[..], index);
      var word, bitPosition := index / 32, index % 32;
      ghost var before := words[..];
      words[word] := Or(words[word], Pow2(bitPosition));
      assert words[..] == before[word := Or(before[word], Pow2(bitPosition))];
    }

    method ClearBinBlock(index: nat)
      requires index < NUM_BINS && WordsOk(words[..])
      modifies words
      ensures WordsOk(words[..])
      ensures forall j :: 0 <= j < NUM_BINS ==> (Flag(words[..], j) <==> j != index && Flag(old(words[..]), j))
    {
      ClearFlag(words[..], index);
      var word, bitPosition := index / 32, index % 32;
      ghost var before := words[..];
      words[word] := AndNot(words[word], Pow2(bitPosition));
      assert words[..] == before[word := AndNot(before[word], Pow2(bitPosition))];
    }

    /** The first populated bin at or after start, or -1. */
    method NextFullBin(start: nat) returns (r: int)
      requires Valid()
      ensures r == -1 || start <= r < NUM_BINS
      ensures r >= 0 ==> bins[r] != []
      ensures forall i :: start <= i < (if r < 0 then NUM_BINS else r) ==> bins[i] == []
    {
      if start >= NUM_BINS {
        return -1;
      }
      var word, bitPosition := start / 32, start % 32;
      var bitValue := Pow2(bitPosition);
      var binBits := words[word];
      FirstFlagFrom(words[..], word, bitPosition);
      hide Pow2, AndNot, Ctz, BitmapOk, NoFlags;
      if binBits >= bitValue {
        binBits := AndNot(binBits, bitValue - 1);
      } else {
        word := word + 1;
        while word < 4 && words[word] == 0
          invariant start / 32 < word <= 4
          invariant NoFlags(words[..], start, 32 * word)
        {
          FirstFlagIn(words[..], word);
          NoFlagsJoin(words[..], start, 32 * word, 32 * word + 32);
          word := word + 1;
        }
        if word == 4 {
          FlagsAreBins(words[..], bins, start, NUM_BINS);
          return -1;
        }
        binBits := words[word];
        FirstFlagIn(words[..], word);
        NoFlagsJoin(words[..], start, 32 * word, 32 * word + Ctz(binBits));
      }
      bitPosition := Ctz(binBits);
      r := 32 * word + bitPosition;
      FlagsAreBins(words[..], bins, start, r);
    }

    /** The first chunk of a bin that is not larger than n, or the sentinel. */
    method FindSlot(index: nat, n: nat, headers: Tags) returns (link: Addr, ghost k: nat)
      requires Valid() && index < NUM_BINS && BinOf(n) == index && HeadersAgree(sizes, headers)
      ensures Slot(bins[index], sizes, k, n)
      ensures link == if k == |bins[index]| then Sentinel(index) else bins[index][k]
    {
      ghost var bin := bins[index];
      assert RingOk(bins, sizes, links.next, links.prev, index);
      RingStep(bin, index, -1, links.next, links.prev);
      link := links.next[Sentinel(index)];
      RingMembers(bin, sizes, index, link);
      k := 0;
      while link != Sentinel(index) && n < headers[link].size
        invariant 0 <= k <= |bin|
        invariant link == if k == |bin| then Sentinel(index) else bin[k]
        invariant k < |bin| ==> link in sizes && link != Sentinel(index)
        invariant forall j :: 0 <= j < k ==> bin[j] in sizes && sizes[bin[j]] > n
        decreases |bin| - k
      {
        RingStep(bin, index, k, links.next, links.prev);
        link := links.next[link];
        k := k + 1;
        if k < |bin| {
          RingMembers(bin, sizes, index, bin[k]);
        }
      }
      FoundSlot(bin, sizes, index, k, n);
    }

    /** Whether a chunk is linked at the head of this bin without a search. */
    method GoesFirst(index: nat) returns (first: bool)
      requires Valid() && index < NUM_BINS
      ensures |bins| == NUM_BINS && BinOk(bins[index], sizes, index)
      ensures first <==> index < NUM_SMALL_BINS || bins[index] == []
    {
      first := index < NUM_SMALL_BINS;
      assert RingOk(bins, sizes, links.next, links.prev, index);
      assert BinOk(bins[index], sizes, index);
      if !first {
        RingStep(bins[index], index, -1, links.next, links.prev);
        first := links.IsEmpty(Sentinel(index));
      }
    }

    /** Files a free chunk in the bin of its size: at the head of a small or empty bin, before
        the first chunk that is not larger otherwise. */
    method LinkFree(p: Addr, headers: Tags)
      requires Valid() && p !in sizes && p >= 0 && links.Mapped(p)
      requires p in headers && HeadersAgree(sizes, headers)
      modifies this, links, words
      ensures Valid() && sizes == old(sizes)[p := headers[p].size]
      ensures links.next.Keys == old(links.next.Keys) && links.prev.Keys == old(links.prev.Keys)
    {
      hide BinsOk, BinOk, RingOk, Slot, Cycle, BitmapOk;
      var n := headers[p].size;
      var index := BinOf(n);
      var first := GoesFirst(index);
      ghost var was := bins;
      if first {
        HeadSlot(bins[index], sizes, index, n);
        LinkAtHead(p, n, index);
        MarkBin(index, was);
      } else {
        ghost var k: nat;
        var link;
        link, k := FindSlot(index, n, headers);
        LinkBefore(p, n, index, link, k);
      }
    }

    /** The rings are in order, the bitmap may lag behind. */
    ghost predicate Linked()
      reads this, links
    {
      BinsOk(bins, sizes, links.next, links.prev)
    }

    method LinkAtHead(p: Addr, n: nat, index: nat)
      requires Linked() && p !in sizes && p >= 0 && links.Mapped(p)
      requires BinOf(n) == index && Slot(bins[index], sizes, 0, n)
      modifies this, links
      ensures Linked() && sizes == old(sizes)[p := n]
      ensures bins[index] != [] && bins == old(bins)[index := bins[index]]
      ensures links.next.Keys == old(links.next.Keys) && links.prev.Keys == old(links.prev.Keys)
    {
      ghost var bin := bins[index];
      assert RingOk(bins, sizes, links.next, links.prev, index);
      RingMembers(bin, sizes, index, p);
      RingInserted(bin, index, 0, p);
      hide BinsOk, BinOk, RingOk, Slot, Cycle;
      label start:
      links.InsertAfter(p, Sentinel(index), Ring(bin, index), 0);
      LinkOk(bins, sizes, index, 0, p, n, old@start(links.next), old@start(links.prev), links.next, links.prev);
      bins, sizes := bins[index := Inserted(bin, 0, p)], sizes[p := n];
    }

    method MarkBin(index: nat, ghost was: seq<seq<Addr>>)
      requires words.Length == 4 && Linked() && BitmapOk(words[..], was)
      requires index < NUM_BINS && bins == was[index := bins[index]] && bins[index] != []
      modifies words
      ensures Valid()
    {
      ghost var before := words[..];
      MarkBinBlock(index);
      forall j | 0 <= j < NUM_BINS
        ensures FlagOk(words[..], bins, j)
      {
        assert FlagOk(before, was, j);
      }
    }

    method LinkBefore(p: Addr, n: nat, index: nat, link: Addr, ghost k: nat)
      requires Valid() && p !in sizes && p >= 0 && links.Mapped(p)
      requires BinOf(n) == index && bins[index] != [] && Slot(bins[index], sizes, k, n)
      requires link == if k == |bins[index]| then Sentinel(index) else bins[index][k]
      modifies this, links
      ensures Valid() && sizes == old(sizes)[p := n]
      ensures links.next.Keys == old(links.next.Keys) && links.prev.Keys == old(links.prev.Keys)
    {
      ghost var bin := bins[index];
      assert RingOk(bins, sizes, links.next, links.prev, index);
      RingMembers(bin, sizes, index, p);
      RingInserted(bin, index, k, p);
      BitmapAfterLink(words[..], words[..], bins, index, Inserted(bin, k, p));
      hide BinsOk, BinOk, RingOk, Slot, Cycle, BitmapOk;
      label start:
      links.InsertBefore(p, link, Ring(bin, index), k + 1);
      LinkOk(bins, sizes, index, k, p, n, old@start(links.next), old@start(links.prev), links.next, links.prev);
      bins, sizes := bins[index := Inserted(bin, k, p)], sizes[p := n];
    }

    /** Takes a chunk out of its bin; the bit is cleared when the bin becomes empty. */
    method UnlinkFree(p: Addr, headers: Tags)
      requires Valid() && p in sizes && HeadersAgree(sizes, headers)
      modifies this, links, words
      ensures Valid() && sizes == old(sizes) - {p}
      ensures forall q :: q in sizes <==> q in old(sizes) && q != p
      ensures forall q :: q in sizes && q in old(sizes) ==> sizes[q] == old(sizes)[q]
      ensures links.next.Keys == old(links.next.Keys) && links.prev.Keys == old(links.prev.Keys)
    {
      ghost var index := BinOf(sizes[p]);
      assert Filed(bins, sizes, p) && RingOk(bins, sizes, links.next, links.prev, index);
      ghost var before, ring := bins[index], Ring(bins[index], index);
      ghost var k: nat :| k < |before| && before[k] == p;
      RingDistinct(before, index, links.next, links.prev);
      RingWithout(before, index, k);
      label start:
      links.RemoveLeaveDangling(p, ring, k + 1);
      assert p in ring by {
        assert ring[k + 1] == p;
      }
      UnlinkOk(bins, sizes, index, k, old@start(links.next), old@start(links.prev), links.next, links.prev);
      var size := headers[p].size;
      var i := BinOf(size);
      RingStep(Without(before, k), index, -1, links.next, links.prev);
      var empty := links.IsEmpty(Sentinel(i));
      assert empty <==> Without(before, k) == [];
      if empty {
        ClearBinBlock(i);
      }
      BitmapAfterUnlink(old@start(words[..]), words[..], bins, index, Without(before, k));
      bins, sizes := bins[index := Without(before, k)], sizes - {p};
    }

    /** Walks one bin from its smallest chunk up, to the first that looks large enough. */
    method ScanBin(i: nat, need: nat, headers: Tags) returns (c: Addr, fit: Fit)
      requires Valid() && i < NUM_BINS && HeadersAgree(sizes, headers)
      ensures fit == TooSmall ==> forall q :: q in bins[i] && q in sizes ==> FitOf(sizes[q], need) == TooSmall
      ensures fit != TooSmall ==> c in bins[i] && c in sizes && BinOf(sizes[c]) == i && fit == FitOf(sizes[c], need)
      ensures fit != TooSmall && ALIGN * need < 0x8000_0000 ==> BestOfBin(bins[i], sizes, need, c)
    {
      hide FitOf, BestOfBin, BitmapOk;
      ghost var bin := bins[i];
      assert RingOk(bins, sizes, links.next, links.prev, i);
      RingStep(bin, i, -1, links.next, links.prev);
      c := links.prev[Sentinel(i)];
      RingMembers(bin, sizes, i, c);
      ghost var k := |bin| - 1;
      while c != Sentinel(i)
        invariant -1 <= k < |bin|
        invariant c == if k == -1 then Sentinel(i) else bin[k]
        invariant k >= 0 ==> c in sizes && c in bin && c != Sentinel(i) && BinOf(sizes[c]) == i
        invariant forall j :: k < j < |bin| ==> bin[j] in sizes && FitOf(sizes[bin[j]], need) == TooSmall
        decreases k
      {
        fit := FitOf(headers[c].size, need);
        if fit != TooSmall {
          if ALIGN * need < 0x8000_0000 {
            FirstThatFits(bin, sizes, headers, i, k, need);
          }
          return;
        }
        RingStep(bin, i, k, links.next, links.prev);
        c := links.prev[c];
        k := k - 1;
        if k >= 0 {
          RingMembers(bin, sizes, i, bin[k]);
        }
      }
      fit := TooSmall;
    }

    /** The search of Alloc. For a need below 2^31 bytes: the best fitting chunk over all bins, if any
        fits. For a larger one nothing fits, but the comparison can wrap: a chunk that is too small is
        handed out exactly if one in the last bin looks large enough. */
    method Search(need: nat, headers: Tags) returns (c: Addr, fit: Fit)
      requires Valid() && HeadersAgree(sizes, headers)
      ensures ALIGN * need < 0x8000_0000 ==>
                && (fit == TooSmall <==> NothingFits(sizes, need))
                && (fit != TooSmall ==> BestFit(sizes, need, c) && fit == (if sizes[c] < need + 2 then Exact else Bigger))
      ensures ALIGN * need >= 0x8000_0000 ==>
                && NothingFits(sizes, need)
                && (fit != TooSmall <==> exists q :: WrapsToFit(sizes, need, q))
                && (fit != TooSmall ==> WrapsToFit(sizes, need, c) && sizes[c] < need && fit == FitOf(sizes[c], need))
    {
      var index: int := BinOf(need);
      if ALIGN * need >= 0x8000_0000 {
        HugeBin(need);
      } else {
        FitsMean(sizes, headers, need);
      }
      if index < MAX_SMALL_BIN {
        var bin := Sentinel(index);
        SmallBinPair(bins, sizes, links.next, links.prev, need);
        c := links.prev[bin];
        if c == bin {
          bin := Sentinel(index + 1);
          c := links.prev[bin];
        }
        if c != bin {
          return c, Exact;
        }
        index := index + 2;
      } else {
        c, fit := ScanBin(index, need, headers);
        if fit == Exact {
          Handed(need, headers, index, c, fit);
          return;
        }
        if fit == TooSmall {
          index := index + 1;
        }
        Starts(need, headers, index, c, fit);
      }
      var from := index;
      index := NextFullBin(from);
      Skipped(need, from, index);
      while index >= 0
        invariant -1 <= index < NUM_BINS && NoneBelow(need, if index < 0 then NUM_BINS else index)
        decreases if index < 0 then 0 else NUM_BINS - index
      {
        c, fit := ScanBin(index, need, headers);
        if fit != TooSmall {
          Handed(need, headers, index, c, fit);
          return;
        }
        Passed(need, headers, index);
        from := index + 1;
        index := NextFullBin(from);
        Skipped(need, from, index);
      }
      fit := TooSmall;
      NoneAtAll(need, headers);
    }

    /** Nothing below this bin is handed out for the need, nor should be. */
    ghost predicate NoneBelow(need: nat, index: nat)
      reads this
    {
      if ALIGN * need < 0x8000_0000 then forall q :: q in sizes && BinOf(sizes[q]) < index ==> sizes[q] < need
      else index == NUM_BINS - 1 || (index == NUM_BINS && forall q :: !WrapsToFit(sizes, need, q))
    }

    lemma Handed(need: nat, headers: Tags, index: nat, c: Addr, fit: Fit)
      requires Valid() && HeadersAgree(sizes, headers) && index < NUM_BINS
      requires index == BinOf(need) || NoneBelow(need, index)
      requires c in bins[index] && c in sizes && BinOf(sizes[c]) == index && fit == FitOf(sizes[c], need) != TooSmall
      requires ALIGN * need < 0x8000_0000 ==> BestOfBin(bins[index], sizes, need, c)
      ensures ALIGN * need < 0x8000_0000 ==>
                !NothingFits(sizes, need) && BestFit(sizes, need, c) && fit == (if sizes[c] < need + 2 then Exact else Bigger)
      ensures ALIGN * need >= 0x8000_0000 ==>
                NothingFits(sizes, need) && WrapsToFit(sizes, need, c) && sizes[c] < need
    {
      if ALIGN * need < 0x8000_0000 {
        FitMeans(sizes[c], need);
        BestEverywhere(bins, sizes, links.next, links.prev, need, index, c);
      } else {
        HugeBin(need);
        ToInt32Wraps(sizes[c], need);
      }
    }

    lemma Starts(need: nat, headers: Tags, index: nat, c: Addr, fit: Fit)
      requires Valid() && HeadersAgree(sizes, headers)
      requires index == if fit == TooSmall then BinOf(need) + 1 else BinOf(need)
      requires fit == TooSmall ==> forall q :: q in bins[index - 1] && q in sizes ==> FitOf(sizes[q], need) == TooSmall
      ensures NoneBelow(need, index)
    {
      if ALIGN * need < 0x8000_0000 {
        FitsMean(sizes, headers, need);
        StartHere(bins, sizes, links.next, links.prev, need, index);
      } else {
        HugeBin(need);
        if fit == TooSmall {
          NoneWraps(need, headers);
        }
      }
    }

    lemma NoneWraps(need: nat, headers: Tags)
      requires Valid() && HeadersAgree(sizes, headers) && ALIGN * need >= 0x8000_0000
      requires forall q :: q in bins[NUM_BINS - 1] && q in sizes ==> FitOf(sizes[q], need) == TooSmall
      ensures forall q :: !WrapsToFit(sizes, need, q)
    {
      forall q | q in sizes && BinOf(sizes[q]) == NUM_BINS - 1
        ensures !WrapsToFit(sizes, need, q)
      {
        assert Filed(bins, sizes, q);
        ToInt32Wraps(sizes[q], need);
      }
    }

    lemma Skipped(need: nat, from: nat, index: int)
      requires Valid() && NoneBelow(need, from) && -1 <= index < NUM_BINS && (index >= 0 ==> from <= index)
      requires forall j :: from <= j < (if index < 0 then NUM_BINS else index) ==> bins[j] == []
      ensures NoneBelow(need, if index < 0 then NUM_BINS else index)
    {
      if ALIGN * need < 0x8000_0000 {
        SkipEmpty(bins, sizes, links.next, links.prev, need, from, index);
      } else if index < 0 {
        forall q
          ensures !WrapsToFit(sizes, need, q)
        {
          assert q in sizes ==> Filed(bins, sizes, q);
        }
      }
    }

    lemma Passed(need: nat, headers: Tags, index: nat)
      requires Valid() && HeadersAgree(sizes, headers) && index < NUM_BINS && NoneBelow(need, index)
      requires forall q :: q in bins[index] && q in sizes ==> FitOf(sizes[q], need) == TooSmall
      ensures NoneBelow(need, index + 1)
    {
      if ALIGN * need < 0x8000_0000 {
        FitsMean(sizes, headers, need);
        NoneUpTo(bins, sizes, links.next, links.prev, need, index);
      } else {
        NoneWraps(need, headers);
      }
    }

    lemma NoneAtAll(need: nat, headers: Tags)
      requires HeadersAgree(sizes, headers) && NoneBelow(need, NUM_BINS)
      ensures NothingFits(sizes, need)
      ensures ALIGN * need >= 0x8000_0000 ==> forall q :: !WrapsToFit(sizes, need, q)
    {
    }

    /** The bytes in all linked chunks. */
    method TotalFree(headers: Tags) returns (total: nat)
      requires Valid() && HeadersAgree(sizes, headers)
      ensures total == ALIGN * Total(sizes)
    {
      hide Total, BinsOk, BitmapOk, BinOf;
      ghost var done: Sizes := map[];
      TotalEmpty();
      total := 0;
      var i := 0;
      while i < NUM_BINS
        invariant 0 <= i <= NUM_BINS && total == ALIGN * Total(done)
        invariant forall q :: q in done ==> q in sizes && done[q] == sizes[q]
        invariant forall q :: q in sizes ==> (q in done <==> BinOf(sizes[q]) < i)
      {
        total, done := AddBin(i, headers, total, done);
        i := i + 1;
      }
      forall q
        ensures q in done <==> q in sizes
      {
        assert q in sizes ==> BinOf(sizes[q]) < NUM_BINS;
      }
      TotalSame(done, sizes);
    }

    /** The loop over the chunks of bin i. */
    method AddBin(i: nat, headers: Tags, before: nat, ghost was: Sizes) returns (total: nat, ghost done: Sizes)
      requires Valid() && HeadersAgree(sizes, headers) && i < NUM_BINS && before == ALIGN * Total(was)
      requires forall q :: q in was ==> q in sizes && was[q] == sizes[q]
      requires forall q :: q in sizes ==> (q in was <==> BinOf(sizes[q]) < i)
      ensures total == ALIGN * Total(done)
      ensures forall q :: q in done ==> q in sizes && done[q] == sizes[q]
      ensures forall q :: q in sizes ==> (q in done <==> BinOf(sizes[q]) < i + 1)
    {
      hide Total, BitmapOk, BinOf, Cycle;
      ghost var bin := bins[i];
      assert RingOk(bins, sizes, links.next, links.prev, i);
      RingStep(bin, i, -1, links.next, links.prev);
      RingDistinct(bin, i, links.next, links.prev);
      forall j | 0 <= j < |bin|
        ensures bin[j] in sizes && bin[j] !in was && bin[j] != Sentinel(i)
      {
        RingMembers(bin, sizes, i, bin[j]);
      }
      total, done := before, was;
      var candidate := links.prev[Sentinel(i)];
      ghost var k := |bin| - 1;
      while candidate != Sentinel(i)
        invariant -1 <= k < |bin| && total == ALIGN * Total(done)
        invariant candidate == if k == -1 then Sentinel(i) else bin[k]
        invariant forall j :: 0 <= j <= k ==> bin[j] !in done
        invariant forall j :: k < j < |bin| ==> bin[j] in done
        invariant forall q :: q in was ==> q in done
        invariant forall q :: q in done ==> q in sizes && done[q] == sizes[q] && (q in was || q in bin)
        decreases k
      {
        TotalAdd(done, candidate, sizes[candidate]);
        total := total + ALIGN * headers[candidate].size;
        done := done[candidate := sizes[candidate]];
        RingStep(bin, i, k, links.next, links.prev);
        candidate := links.prev[candidate];
        k := k - 1;
      }
      forall q | q in sizes
        ensures q in done <==> BinOf(sizes[q]) < i + 1
      {
        assert Filed(bins, sizes, q);
        RingMembers(bin, sizes, i, q);
      }
    }

    /** The largest chunk sits in the highest populated bin. */
    method LargestFreeChunk(headers: Tags) returns (maxsize: nat)
      requires Valid() && HeadersAgree(sizes, headers) && |sizes| != 0
      ensures exists q :: q in sizes && maxsize == ALIGN * sizes[q]
      ensures forall q :: q in sizes ==> ALIGN * sizes[q] <= maxsize
    {
      var word := HighestWord();
      var binBits := words[word];
      var bitPosition := NumBits(binBits) - 1;
      var index := 32 * word + bitPosition;
      TopFlag(words[..], bins, sizes, links.next, links.prev, word);
      maxsize := MaxOfBin(index, headers);
      forall q | q in sizes
        ensures ALIGN * sizes[q] <= maxsize
      {
        assert Filed(bins, sizes, q) && RingOk(bins, sizes, links.next, links.prev, index);
        RingMembers(bins[index], sizes, index, bins[index][0]);
        BinsBySize(bins, sizes, links.next, links.prev, q, sizes[bins[index][0]]);
      }
    }

    method MaxOfBin(i: nat, headers: Tags) returns (maxsize: nat)
      requires Valid() && HeadersAgree(sizes, headers) && i < NUM_BINS && bins[i] != []
      ensures exists q :: q in bins[i] && q in sizes && maxsize == ALIGN * sizes[q]
      ensures forall q :: q in bins[i] && q in sizes ==> ALIGN * sizes[q] <= maxsize
    {
      ghost var bin := bins[i];
      assert RingOk(bins, sizes, links.next, links.prev, i);
      RingStep(bin, i, -1, links.next, links.prev);
      forall j | 0 <= j < |bin|
        ensures bin[j] in sizes && bin[j] != Sentinel(i)
      {
        RingMembers(bin, sizes, i, bin[j]);
      }
      var candidate := links.prev[Sentinel(i)];
      maxsize := 0;
      ghost var k, m := |bin| - 1, |bin| - 1;
      while candidate != Sentinel(i)
        invariant -1 <= k < |bin| && k <= m < |bin|
        invariant candidate == if k == -1 then Sentinel(i) else bin[k]
        invariant forall j :: k < j < |bin| ==> ALIGN * sizes[bin[j]] <= maxsize
        invariant if k == |bin| - 1 then maxsize == 0 else k < m && maxsize == ALIGN * sizes[bin[m]]
        decreases k
      {
        var candidateSize := ALIGN * headers[candidate].size;
        if maxsize < candidateSize || k == |bin| - 1 {
          m := k;
        }
        maxsize := if maxsize < candidateSize then candidateSize else maxsize;
        RingStep(bin, i, k, links.next, links.prev);
        candidate := links.prev[candidate];
        k := k - 1;
      }
      assert bin[m] in bin;
    }

    /** The loop from the top word down; word 0 if all are zero. */
    method HighestWord() returns (word: nat)
      requires words.Length == 4
      ensures word < 4 && forall i :: word < i < 4 ==> words[i] == 0
      ensures word == 0 || words[word] != 0
    {
      word := 0;
      var i := 3;
      while i >= 0
        invariant -1 <= i <= 3 && word == 0
        invariant forall j :: i < j < 4 ==> words[j] == 0
      {
        if words[i] != 0 {
          return i;
        }
        i := i - 1;
      }
    }
  }

  /** The same chunk alone in the lists: the search hands it out for 4 GB. */
  method WrapInstance() returns (lists: FreeLists, c: Addr, fit: Fit)
    ensures lists.Valid() && lists.sizes == map[0 := 4096] && fit == Bigger && c == 0
  {
    WrapExample();
    lists := new FreeLists();
    lists.Map(0, 4096);
    var headers: Tags := map[0 := Tag(4096, false)];
    lists.LinkFree(0, headers);
    c, fit := lists.Search(0x400_0000, headers);
    assert WrapsToFit(lists.sizes, 0x400_0000, 0);
  }
}
