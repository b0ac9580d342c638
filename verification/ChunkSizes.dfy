/** Chunk sizes and the size classes of the allocator's bins. */
module ChunkSizes {
  import opened Bits

  const NUM_BINS := 128
  const NUM_SMALL_BINS := 64
  const MAX_SMALL_BIN := 63
  const ALIGN: nat := 64
  const ALIGN_MASK: nat := 63
  const HEADER: nat := 32
  const MIN_ALLOC: nat := 128

  /** Bytes granted for a request: header included, a multiple of the alignment. */
  function RequestToSize(request: nat): nat {
    if request + HEADER <= MIN_ALLOC then MIN_ALLOC
    else AndNot(request + HEADER + ALIGN_MASK, ALIGN_MASK)
  }

  lemma {:induction false} AndNotComplements(a: nat, b: nat)
    ensures AndNot(a, b) + And(a, b) == a
  {
    if a > 0 {
      AndNotComplements(a / 2, b / 2);
    }
  }

  /** Clearing the low six bits rounds down to a multiple of 64. */
  lemma RoundsDown(x: nat)
    ensures AndNot(x, ALIGN_MASK) == 64 * (x / 64)
  {
    assert Pow2(6) == 64 by {
      assert Pow2(0) == 1 && Pow2(1) == 2 && Pow2(2) == 4 && Pow2(3) == 8 && Pow2(4) == 16 && Pow2(5) == 32;
    }
    MaskIsMod(x, 6);
    AndNotComplements(x, ALIGN_MASK);
  }

  /** The grant is the least legal chunk size that holds the header and the request. */
  lemma RequestToSizeIsLeast(request: nat)
    ensures var s := RequestToSize(request);
            && s % ALIGN == 0 && s >= MIN_ALLOC && s >= request + HEADER
            && forall s' :: s' % ALIGN == 0 && s' >= MIN_ALLOC && s' >= request + HEADER ==> s <= s'
  {
    RoundsDown(request + HEADER + ALIGN_MASK);
  }

  // ----- size classes -----

  /** The staged form. */
  function BinIndex2(size: nat): nat {
    if size < 1024 then size / 16
    else if size < 2048 then 56 + size / 128
    else if size < 4096 then 64 + size / 256
    else if size < 8192 then 72 + size / 512
    else if size < 16384 then 80 + size / 1024
    else if size < 32768 then 88 + size / 2048
    else if size < 65536 then 96 + size / 4096
    else if size < 131072 then 104 + size / 8192
    else if size < 262144 then 112 + size / 16384
    else 127
  }

  /** The fast form, by counting leading zeroes. */
  function BinIndex(size: nat): int {
    if size < 1024 then size / 16
    else if size >= 262144 then 127
    else
      var bits := 28 - Clz(size);
      if bits < 0 then -1 else 8 * bits + Shr(size, bits)
  }

  lemma Powers()
    ensures Pow2(7) == 128 && Pow2(8) == 256 && Pow2(9) == 512 && Pow2(10) == 1024 && Pow2(11) == 2048
    ensures Pow2(12) == 4096 && Pow2(13) == 8192 && Pow2(14) == 16384 && Pow2(15) == 32768 && Pow2(16) == 65536
    ensures Pow2(17) == 131072 && Pow2(18) == 262144
  {
    assert Pow2(0) == 1 && Pow2(1) == 2 && Pow2(2) == 4 && Pow2(3) == 8 && Pow2(4) == 16 && Pow2(5) == 32 && Pow2(6) == 64;
  }

  lemma BitsInRange(size: nat, bits: nat)
    requires Pow2(bits + 3) <= size < Pow2(bits + 4)
    ensures 28 - Clz(size) == bits
    ensures Shr(size, bits) == size / Pow2(bits)
  {
    NumBitsRange(size, bits + 4);
    NumBitsRange(size, bits + 3);
    MaskIsMod(size, bits);
  }

  /** The fast form computes the staged form, for every size. */
  lemma FastIsStaged(size: nat)
    ensures BinIndex(size) == BinIndex2(size)
  {
    if 1024 <= size < 262144 {
      Powers();
      var bits := if size < 2048 then 7 else if size < 4096 then 8 else if size < 8192 then 9
                  else if size < 16384 then 10 else if size < 32768 then 11 else if size < 65536 then 12
                  else if size < 131072 then 13 else 14;
      hide Pow2, Shr, NumBits;
      BitsInRange(size, bits);
    }
  }

  lemma BinIndexRange(size: nat)
    ensures 0 <= BinIndex(size) < NUM_BINS
    ensures BinIndex(size) < NUM_SMALL_BINS <==> size < 1024
  {
    FastIsStaged(size);
  }

  /** Bigger chunks never sit in lower bins: the scan upwards is a scan by size. */
  lemma BinIndexMonotone(size: nat, size': nat)
    requires size <= size'
    ensures BinIndex(size) <= BinIndex(size')
  {
    FastIsStaged(size);
    FastIsStaged(size');
    hide BinIndex;
  }

  // ----- granules -----

  /** The bin of a chunk of n granules of 64 bytes. */
  function BinOf(n: nat): (i: nat)
    ensures i < NUM_BINS
  {
    BinIndexRange(ALIGN * n);
    BinIndex(ALIGN * n)
  }

  /** Granules granted for a request. */
  function Granules(request: nat): (n: nat)
    ensures ALIGN * n == RequestToSize(request) && n >= 2
  {
    RequestToSizeIsLeast(request);
    RequestToSize(request) / ALIGN
  }

  lemma BinOfMonotone(m: nat, n: nat)
    requires m <= n
    ensures BinOf(m) <= BinOf(n)
  {
    BinIndexMonotone(ALIGN * m, ALIGN * n);
  }

  /** A small bin holds chunks of one size only. */
  lemma SmallBinUniform(m: nat, n: nat)
    requires BinOf(m) == BinOf(n) < NUM_SMALL_BINS
    ensures m == n
  {
    BinIndexRange(ALIGN * m);
    BinIndexRange(ALIGN * n);
  }

  /** With 64-byte alignment the bin after a small chunk's own is never populated. */
  lemma NextSmallBinEmpty(m: nat, n: nat)
    requires BinOf(m) < MAX_SMALL_BIN
    ensures BinOf(n) != BinOf(m) + 1
  {
    BinIndexRange(ALIGN * m);
    BinIndexRange(ALIGN * n);
    assert BinOf(m) == 4 * m;
  }
}
