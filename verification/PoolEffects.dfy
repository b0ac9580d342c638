/** What whole operations promise: a block granted, given back, or resized. */
module PoolEffects {
  import opened ChunkSizes
  import opened Tiling
  import opened BoundaryTags
  import opened Bins
  import opened FreeLists
  import opened PoolState
  import opened PoolSteps

  // ----- granting -----

  /** p is a new live block for the request, with less than a minimal chunk to spare; every
      other live block is untouched. */
  ghost predicate GrantedAt(s: Pool, s': Pool, p: int, request: nat) {
    && p >= 0 && p !in s.requested && s'.requested == s.requested[p := request]
    && p in s'.tiles && request + HEADER <= ALIGN * s'.tiles[p].size < RequestToSize(request) + MIN_ALLOC
    && KeepsOthers(s, s', NONE)
  }

  lemma GrantedTaken(s: Pool, s': Pool, c: int, n: nat, request: nat)
    requires PoolOk(s) && c in s.tiles && !s.tiles[c].used && KeepsOthers(s, s', c)
    requires s'.requested == s.requested[c := request] && c in s'.tiles && s'.tiles[c].size == n
    requires Granules(request) <= n < Granules(request) + 2
    ensures GrantedAt(s, s', c, request)
  {
    TileBounds(s, c);
    RequestToSizeIsLeast(request);
    forall q | q in s.requested && q in s.tiles
      ensures KeepsBlock(s, s', q)
    {
      assert q != c;
    }
  }

  lemma GrantedLater(s0: Pool, s1: Pool, s2: Pool, c: int, request: nat)
    requires PoolOk(s0) && KeepsOthers(s0, s1, NONE) && s1.requested == s0.requested && GrantedAt(s1, s2, c, request)
    ensures GrantedAt(s0, s2, c, request)
  {
    forall q | q in s0.requested && q in s0.tiles
      ensures KeepsBlock(s0, s2, q)
    {
      TileBounds(s0, q);
      assert KeepsBlock(s0, s1, q) && KeepsBlock(s1, s2, q);
    }
  }

  /** The chunk that Alloc takes when some free chunk is long enough. */
  ghost predicate TakenFrom(s: Pool, c: int, n: nat) {
    && c in s.tiles && !s.tiles[c].used && s.tiles[c].size >= n
    && forall q :: q in s.tiles && !s.tiles[q].used && s.tiles[q].size >= n ==> s.tiles[q].size >= s.tiles[c].size
  }

  ghost predicate NothingFree(s: Pool, n: nat) {
    forall q :: q in s.tiles && !s.tiles[q].used ==> s.tiles[q].size < n
  }

  lemma SearchMeans(s: Pool, f: Filing, n: nat, c: int)
    requires Sound(s, f, {})
    ensures NothingFits(f.sizes, n) <==> NothingFree(s, n)
    ensures BestFit(f.sizes, n, c) ==> TakenFrom(s, c, n) && f.sizes[c] == s.tiles[c].size
  {
    hide PoolOk, Mapped;
  }

  lemma FitFound(s: Pool, c: int, n: nat)
    requires TakenFrom(s, c, n)
    ensures !NothingFree(s, n)
  {
  }

  lemma NonNegative(s: Pool, p: int)
    requires PoolOk(s) && p in s.tiles
    ensures p >= 0
  {
    TileBounds(s, p);
  }

  // ----- giving back -----

  /** The block p and the free chunks around it have become one free chunk. */
  ghost function MergedFree(s: Pool, p: int): Pool
    requires p in s.size && RunAround(s, p, RunStart(s, p), RunEnd(s, p))
  {
    var c, e := RunStart(s, p), RunEnd(s, p);
    Merged(s, c, e - c, false, s.requested - {p})
  }

  ghost predicate GivenTo(s: Pool, s1: Pool, p: int) {
    && p in s.requested && p in s.size && RunAround(s, p, RunStart(s, p), RunEnd(s, p)) && s1 == MergedFree(s, p)
  }

  /** Block p is free again, nothing else changed; if that left its whole area free, a pool that
      can grow has returned the area. */
  ghost predicate BackOnly(s: Pool, s': Pool, p: int, growable: bool) {
    && p in s.requested && p in s.size && RunAround(s, p, RunStart(s, p), RunEnd(s, p))
    && var c, e, s1 := RunStart(s, p), RunEnd(s, p), MergedFree(s, p);
       if growable && c in s.areas && s.areas[c] == e - c then AreaRemoved(s1, s', c) else s' == s1
  }

  ghost predicate GivenBack(s: Pool, s': Pool, p: int, growable: bool) {
    BackOnly(s, s', p, growable) && KeepsOthers(s, s', p)
  }

  lemma MergedHere(s: Pool, s1: Pool, p: int, c: int, total: nat)
    requires p in s.requested && p in s.size && c == RunStart(s, p) && c + total == RunEnd(s, p)
    requires RunAround(s, p, c, c + total) && s1 == Merged(s, c, total, false, s.requested - {p})
    ensures GivenTo(s, s1, p) && s1.areas == s.areas
  {
  }

  lemma KeepsTwice(s0: Pool, s1: Pool, s2: Pool, p: int)
    requires KeepsOthers(s0, s1, p) && KeepsOthers(s1, s2, NONE) && PoolOk(s0) && PoolOk(s1)
    ensures KeepsOthers(s0, s2, p)
  {
    forall q | q in s0.requested && q in s0.tiles && q != p
      ensures KeepsBlock(s0, s2, q)
    {
      TileBounds(s0, q);
      assert KeepsBlock(s0, s1, q) && KeepsBlock(s1, s2, q);
    }
  }

  lemma GaveBack(s: Pool, s1: Pool, p: int, growable: bool)
    requires GivenTo(s, s1, p) && KeepsOthers(s, s1, p) && s1.areas == s.areas
    requires growable ==> var c := RunStart(s, p);
               c in s1.tiles && !(c in s1.areas && s1.areas[c] == s1.tiles[c].size)
    ensures GivenBack(s, s1, p, growable)
  {
  }

  lemma GaveBackArea(s: Pool, s1: Pool, s2: Pool, p: int)
    requires GivenTo(s, s1, p) && KeepsOthers(s, s1, p) && s1.areas == s.areas && PoolOk(s) && PoolOk(s1)
    requires var c := RunStart(s, p);
               c in s1.tiles && c in s1.areas && s1.areas[c] == s1.tiles[c].size && AreaRemoved(s1, s2, c)
    requires KeepsOthers(s1, s2, NONE)
    ensures GivenBack(s, s2, p, true)
  {
    KeepsTwice(s, s1, s2, p);
  }

  // ----- resizing -----

  /** The block at p now stands at c and serves the new request; every other block is untouched. */
  ghost predicate Resized(s: Pool, s': Pool, p: int, c: int, request: nat) {
    && c >= 0 && (c != p ==> c !in s.requested)
    && (forall q :: q in s'.requested <==> q == c || (q in s.requested && q != p))
    && c in s'.requested && s'.requested[c] == request
    && c in s'.tiles && request + HEADER <= ALIGN * s'.tiles[c].size < RequestToSize(request) + MIN_ALLOC
    && KeepsOthers(s, s', p)
  }

  /** A cell's contents, if it holds user data at all. */
  datatype Cell = Nothing | Data(value: int)

  function CellAt(d: Cells, x: int): Cell {
    if x in d then Data(d[x]) else Nothing
  }

  /** The first user cell of a block at p. */
  function User(p: int): int {
    2 * p + 2
  }

  /** The number of user cells of a chunk of n granules. */
  function UserCells(n: nat): int {
    2 * n - 1
  }

  /** The user cells of the block formerly at p are found at c, but for the one at index lost,
      which holds nothing. */
  ghost predicate Carried(d: Cells, d': Cells, p: int, c: int, count: int, lost: int) {
    forall i {:trigger CarriedCell(d, d', p, c, i, lost)} :: 0 <= i < count ==> CarriedCell(d, d', p, c, i, lost)
  }

  ghost predicate CarriedCell(d: Cells, d': Cells, p: int, c: int, i: int, lost: int) {
    CellAt(d', User(c) + i) == if i == lost then Nothing else CellAt(d, User(p) + i)
  }

  /** How far a block can be enlarged without leaving the run of chunks it borders on. */
  ghost predicate FitsInPlace(s: Pool, p: int, n: nat) {
    p in s.size && n <= RunEnd(s, p) - RunStart(s, p)
  }

  /** Where Realloc puts a block that fits in place: it shifts back only if it must. */
  ghost function NewPlace(s: Pool, p: int, n: nat): int
    requires p in s.size
  {
    if n <= RunEnd(s, p) - p then p else RunStart(s, p)
  }

  /** The index of the one cell that a shift back followed by a split overwrites before it is
      copied: the cell of the remainder's header. */
  function LostIndex(shift: int, n: nat, total: int): int {
    if shift > 0 && n + 2 <= total then 2 * (n - shift) - 1 else -1
  }

  /** That cell belongs to the old contents exactly when the remainder starts within them. */
  lemma LostWithin(shift: nat, n: nat, total: nat, oldsize: nat)
    requires shift > 0
    ensures 0 <= LostIndex(shift, n, total) < UserCells(oldsize) <==> shift < n < shift + oldsize && n + 2 <= total
  {
  }

  /** Moving cells, overlapping or not. */
  function CopyCells(d: Cells, from: int, to: int, count: int): Cells {
    var step := from - to;
    (map x | x in d && !(to <= x < to + count) :: d[x])
    + (map x | to <= x < to + count && Shifted(d, step, x).Data? :: Shifted(d, step, x).value)
  }

  function Shifted(d: Cells, step: int, x: int): Cell {
    CellAt(d, x + step)
  }

  lemma CopyAt(d: Cells, from: int, to: int, count: int, x: int)
    ensures CellAt(CopyCells(d, from, to, count), x) == CellAt(d, if to <= x < to + count then x - to + from else x)
  {
  }

  /** Writing user cells of one block disturbs nothing else. */
  lemma Overwritten(s: Pool, f: Filing, c: int, from: int, count: int)
    requires Sound(s, f, {}) && c in s.requested && c in s.tiles && count <= UserCells(s.tiles[c].size)
    ensures var s' := s.(data := CopyCells(s.data, from, User(c), count));
            Sound(s', f, {}) && KeepsOthers(s, s', c)
  {
    var s' := s.(data := CopyCells(s.data, from, User(c), count));
    forall q | q in s.tiles
      ensures BareAt(s'.data, s.tiles, q)
    {
      assert BareAt(s.data, s.tiles, q);
      EdgeOutside(s.areas, s.tiles, q, c);
    }
    forall q | q in s.requested && q in s.tiles && q != c
      ensures KeepsBlock(s, s', q)
    {
      EdgeOutside(s.areas, s.tiles, q, c);
      EdgeOutside(s.areas, s.tiles, c, q);
    }
  }

  lemma KeepsChain(s0: Pool, s1: Pool, s2: Pool, p: int, c: int)
    requires PoolOk(s0) && KeepsOthers(s0, s1, p) && KeepsOthers(s1, s2, c)
    requires forall q :: q in s0.requested && q != p ==> q != c
    ensures KeepsOthers(s0, s2, p)
  {
    forall q | q in s0.requested && q in s0.tiles && q != p
      ensures KeepsBlock(s0, s2, q)
    {
      assert KeepsBlock(s0, s1, q) && KeepsBlock(s1, s2, q);
    }
  }

  /** A run of chunks that the block at p can take over to serve n granules: the block alone, or
      with the free chunk after it, or else with the free chunks on both sides. */
  ghost predicate RoomFor(s: Pool, p: int, n: nat, c: int, total: nat) {
    && p in s.requested && p in s.tiles && p in s.size
    && c <= p && p + s.tiles[p].size <= c + total && n <= total && Run(s, c, total)
    && (forall q :: q in s.tiles && c <= q < c + total && q != p ==> !s.tiles[q].used)
    && FitsInPlace(s, p, n) && c == NewPlace(s, p, n)
    && c + total == if n <= s.tiles[p].size then p + s.tiles[p].size else RunEnd(s, p)
  }

  /** The same, with the free chunks of the run out of the lists. */
  ghost predicate RoomAt(s: Pool, p: int, n: nat, c: int, total: nat, holes: set<int>) {
    && RoomFor(s, p, n, c, total)
    && (forall q :: q in holes <==> q in s.tiles && c <= q < c + total && q != p)
  }

  lemma RoomAlone(s: Pool, p: int, n: nat)
    requires PoolOk(s) && p in s.requested && n <= s.tiles[p].size
    ensures RoomAt(s, p, n, p, s.tiles[p].size, {})
  {
    hide PoolOk;
    LiveTileOk(s, p);
    TagsTell(s, p);
    WholeMembers(s, p, true);
  }

  lemma LiveTileOk(s: Pool, p: int)
    requires PoolOk(s) && p in s.requested
    ensures p in s.tiles && s.tiles[p].used && TileOk(s.areas, s.tiles, p)
  {
  }

  lemma RoomWider(s: Pool, p: int, n: nat, c: int, holes: set<int>)
    requires PoolOk(s) && p in s.requested && s.tiles[p].size < n
    requires p in s.size && c == (if n <= RunEnd(s, p) - p then p else RunStart(s, p)) && n <= RunEnd(s, p) - c
    requires forall q :: q in holes
               <==> q != p && (q == c || (q == p + s.tiles[p].size && q < RunEnd(s, p)))
    ensures RoomAt(s, p, n, c, RunEnd(s, p) - c, holes)
  {
    TagsTell(s, p);
    assert TileOk(s.areas, s.tiles, p);
    WholeMembers(s, p, true);
  }

  /** The ends of the run around p in terms of the tags. */
  lemma RunTags(s: Pool, p: int)
    requires p in s.size && p in s.prevSize && p + s.size[p].size in s.size
    ensures var e := p + s.size[p].size;
            && RunStart(s, p) == (if s.prevSize[p].used then p else p - s.prevSize[p].size)
            && RunEnd(s, p) == (if s.size[e].used then e else e + s.size[e].size)
  {
  }

  /** The chunk before p, found through the size word before its header, says the same. */
  lemma PrevChunkTag(s: Pool, p: int)
    requires PoolOk(s) && p in s.requested
    ensures p in s.prevSize && p - s.prevSize[p].size in s.size
    ensures s.size[p - s.prevSize[p].size].used == s.prevSize[p].used
    ensures !s.prevSize[p].used ==> s.size[p - s.prevSize[p].size].size == s.prevSize[p].size
  {
    TileBounds(s, p);
    assert PredAt(s.tiles, s.prevSize, p);
    if p == s.tiles[p].home {
      assert MarksAt(s.areas, s.size, s.prevSize, p) by {
        assert TileOk(s.areas, s.tiles, p);
      }
    } else {
      var q := p - s.prevSize[p].size;
      assert TagAt(s.tiles, s.size, s.prevSize, q);
    }
  }

  function Renamed(requested: map<int, nat>, p: int, c: int, request: nat): map<int, nat> {
    (requested - {p})[c := request]
  }

  /** The run as one live block. */
  lemma GrownWhole(s: Pool, f: Filing, holes: set<int>, p: int, n: nat, c: int, total: nat, request: nat)
    requires Sound(s, f, holes) && RoomAt(s, p, n, c, total, holes)
    requires Granules(request) <= total < Granules(request) + 2
    ensures var s' := Merged(s, c, total, true, Renamed(s.requested, p, c, request));
            && Sound(s', f, {}) && Resized(s, s', p, c, request) && c in s'.tiles && s'.tiles[c].size == total
            && KeepsOthers(s, s', p)
    ensures c in s.size && c + total in s.prevSize
  {
    Grown(s, f, holes, p, c, c + total, request, Renamed(s.requested, p, c, request));
    RequestToSizeIsLeast(request);
    NonNegative(s, c);
    TileBounds(s, c);
    var a := s.tiles[c].home;
    assert TileOk(s.areas, s.tiles, c);
    assert Spans(s.prevSize.Keys, a, s.areas[a]);
    hide PoolOk, Listed, Mapped, KeepsOthers, Granules, RequestToSize;
  }

  /** The run as two live blocks, the second about to be given back. */
  ghost function Split(s: Pool, p: int, c: int, total: nat, n: nat, request: nat): Pool
    requires c in s.tiles && 2 <= n && n + 2 <= total
  {
    var s1 := Merged(s, c, total, true, Renamed(s.requested, p, c, Filling(total)));
    Cut(s1, c, n, true, true, s1.requested[c := request][c + n := Filling(total - n)])
  }

  lemma Rewritten(m: Tags, c: int, d: int, x: Tag, y: Tag, z: Tag)
    requires c != d
    ensures m[c := x][d := y][c := z] == m[d := y][c := z]
    ensures m[c := x][c := z] == m[c := z]
  {
  }

  /** Splitting writes each tag once. */
  lemma SplitWrites(s: Pool, p: int, c: int, total: nat, n: nat, request: nat)
    requires c in s.tiles && 2 <= n && n + 2 <= total
    ensures var s2, r := Split(s, p, c, total, n, request), total - n;
            && s2.size == s.size[c + n := Tag(r, true)][c := Tag(n, true)]
            && s2.prevSize == s.prevSize[c + total := Tag(r, true)][c + n := Tag(n, true)]
            && s2.data == s.data - {2 * (c + n) + 1, 2 * (c + total) + 1} - {2 * c + 1, 2 * (c + n) + 1}
            && s2.areas == s.areas && c + n in s2.requested
  {
    Rewritten(s.size, c, c + n, Tag(total, true), Tag(total - n, true), Tag(n, true));
    Rewritten(s.prevSize, c + total, c + n, Tag(total, true), Tag(n, true), Tag(total - n, true));
  }

  lemma GrownSplit(s: Pool, f: Filing, holes: set<int>, p: int, n: nat, c: int, total: nat, request: nat)
    requires Sound(s, f, holes) && RoomAt(s, p, n, c, total, holes)
    requires n == Granules(request) && n + 2 <= total
    ensures var s1 := Merged(s, c, total, true, Renamed(s.requested, p, c, Filling(total)));
            Sound(s1, f, {}) && KeepsOthers(s, s1, p) && KeepsOthers(s1, Split(s, p, c, total, n, request), c)
            && c + n !in s1.tiles
    ensures Sound(Split(s, p, c, total, n, request), f, {})
    ensures c in s.size && c + n in s.size && c + n in s.prevSize && c + total in s.prevSize
  {
    hide Sound, PoolOk, KeepsOthers, Granules, RequestToSize, Filling, Run, RunAround, Replace, Carve, RoomAt;
    FillingFits(total);
    FillingFits(total - n);
    GrownWhole(s, f, holes, p, n, c, total, Filling(total));
    RunWords(s, f, holes, p, n, c, total);
    var s1 := Merged(s, c, total, true, Renamed(s.requested, p, c, Filling(total)));
    LivePart(s1, f, c, n, request, Filling(total - n));
  }

  /** The header words of a run are all there. */
  lemma RunWords(s: Pool, f: Filing, holes: set<int>, p: int, n: nat, c: int, total: nat)
    requires Sound(s, f, holes) && RoomAt(s, p, n, c, total, holes)
    ensures c in s.tiles && forall x :: c <= x <= c + total ==> x in s.size && x in s.prevSize
  {
    assert TileOk(s.areas, s.tiles, c);
    var a := s.tiles[c].home;
    assert Spans(s.size.Keys, a, s.areas[a]) && Spans(s.prevSize.Keys, a, s.areas[a]);
    assert a <= c && c + total <= a + s.areas[a];
  }

  /** The second block is merged with what follows it at most. */
  lemma SplitTags(s: Pool, p: int, c: int, total: nat, n: nat, request: nat)
    requires PoolOk(s) && Run(s, c, total) && 2 <= n && n + 2 <= total
    ensures var s2 := Split(s, p, c, total, n, request);
            && c + n in s2.size && RunStart(s2, c + n) == c + n && RunEnd(s2, c + n) >= c + total
            && c + n !in s.areas && c in s2.tiles && s2.tiles[c].size == n && c in s2.requested && s2.requested[c] == request
            && s2.requested - {c + n} == Renamed(s.requested, p, c, request) - {c + n}
            && s2.areas == s.areas
    ensures forall x :: User(c) <= x <= 2 * (c + total)
              ==> CellAt(Split(s, p, c, total, n, request).data, x)
                  == if x == 2 * (c + n) + 1 then Nothing else CellAt(s.data, x)
  {
    RunInArea(s, c, total, n);
    hide PoolOk, Run;
    var s2 := Split(s, p, c, total, n, request);
    assert s2.prevSize[c + n] == Tag(n, true) && s2.size[c + n] == Tag(total - n, true);
  }

  /** No area starts inside a run. */
  lemma RunInArea(s: Pool, c: int, total: nat, n: nat)
    requires PoolOk(s) && Run(s, c, total) && 0 < n < total
    ensures c in s.tiles && c + n !in s.areas
  {
    assert TileOk(s.areas, s.tiles, c);
    assert c + n in s.areas ==> Clear(s.areas, s.tiles[c].home, c + n);
  }

  /** Once the second is given back, the first has what the request needs and nothing else moved. */
  lemma Trimmed(s: Pool, s3: Pool, f: Filing, holes: set<int>, p: int, n: nat, c: int, total: nat, request: nat, growable: bool)
    requires Sound(s, f, holes) && RoomAt(s, p, n, c, total, holes)
    requires n == Granules(request) && n + 2 <= total
    requires GivenBack(Split(s, p, c, total, n, request), s3, c + n, growable)
    ensures Resized(s, s3, p, c, request) && s3.tiles[c].size == n
    ensures forall x :: User(c) <= x <= 2 * (c + total)
              ==> CellAt(s3.data, x) == if x == 2 * (c + n) + 1 then Nothing else CellAt(s.data, x)
  {
    hide PoolOk, Listed, Mapped, KeepsOthers, Granules, RequestToSize, Split, RunStart, RunEnd, Run, RunAround, RoomAt, Sound;
    SoundIsOk(s, f, holes);
    RoomStart(s, f, p, n, c, total, holes);
    GrownSplit(s, f, holes, p, n, c, total, request);
    var s1 := Merged(s, c, total, true, Renamed(s.requested, p, c, Filling(total)));
    var s2 := Split(s, p, c, total, n, request);
    SplitTags(s, p, c, total, n, request);
    assert s3 == MergedFree(s2, c + n);
    TrimmedBlocks(s, s1, s2, s3, p, n, c);
    NonNegative(s, c);
    RequestToSizeIsLeast(request);
    SplitAway(s, s1, p, c, n);
  }

  lemma RoomStart(s: Pool, f: Filing, p: int, n: nat, c: int, total: nat, holes: set<int>)
    requires Sound(s, f, holes) && RoomAt(s, p, n, c, total, holes)
    ensures c in s.tiles && (c != p ==> c !in s.requested) && Run(s, c, total) && p in s.requested && n <= total
  {
  }

  lemma SplitAway(s: Pool, s1: Pool, p: int, c: int, n: nat)
    requires KeepsOthers(s, s1, p) && c + n !in s1.tiles && PoolOk(s)
    ensures forall q :: q in s.requested && q != p ==> q != c + n
  {
    forall q | q in s.requested && q != p
      ensures q != c + n
    {
      assert KeepsBlock(s, s1, q);
    }
  }

  lemma TrimmedBlocks(s: Pool, s1: Pool, s2: Pool, s3: Pool, p: int, n: nat, c: int)
    requires PoolOk(s) && KeepsOthers(s, s1, p) && KeepsOthers(s1, s2, c) && KeepsOthers(s2, s3, c + n)
    requires c + n !in s1.tiles && (c != p ==> c !in s.requested) && n > 0
    requires c in s2.requested && c in s2.tiles
    ensures KeepsOthers(s, s3, p) && KeepsBlock(s2, s3, c)
  {
    assert c != c + n;
    assert KeepsBlock(s2, s3, c);
    forall q | q in s.requested && q in s.tiles && q != p
      ensures KeepsBlock(s, s3, q)
    {
      assert KeepsBlock(s, s1, q) && KeepsBlock(s1, s2, q) && KeepsBlock(s2, s3, q);
    }
  }

  /** A block copied elsewhere and then given back. */
  lemma MovedBlock(s: Pool, s1: Pool, s2: Pool, s3: Pool, p: int, c: int, request: nat, growable: bool)
    requires PoolOk(s) && p in s.requested && p in s.tiles && GrantedAt(s, s1, c, request)
    requires s2 == s1.(data := CopyCells(s1.data, User(p), User(c), UserCells(s.tiles[p].size)))
    requires c in s1.tiles && s.tiles[p].size <= s1.tiles[c].size && KeepsOthers(s1, s2, c)
    requires GivenBack(s2, s3, p, growable)
    ensures c in s3.tiles && Resized(s, s3, p, c, request) && s3.tiles[c] == s1.tiles[c]
    ensures Carried(s.data, s3.data, p, c, UserCells(s.tiles[p].size), -1)
  {
    hide PoolOk, CopyCells, RunAround, RunStart, RunEnd, Merged, AreaRemoved, KeepsOthers, KeepsBlock, Granules, RequestToSize;
    MovedOthers(s, s1, s2, s3, p, c, request);
    MovedRequests(s2, s3, p, growable);
    MovedCells(s, s1, s2, s3, p, c, request);
  }

  lemma MovedRequests(s2: Pool, s3: Pool, p: int, growable: bool)
    requires GivenBack(s2, s3, p, growable)
    ensures KeepsOthers(s2, s3, p) && s3.requested == s2.requested - {p}
  {
    hide RunAround, RunStart, RunEnd, KeepsOthers;
  }

  lemma MovedCells(s: Pool, s1: Pool, s2: Pool, s3: Pool, p: int, c: int, request: nat)
    requires PoolOk(s) && p in s.requested && p in s.tiles && GrantedAt(s, s1, c, request)
    requires s2 == s1.(data := CopyCells(s1.data, User(p), User(c), UserCells(s.tiles[p].size)))
    requires c in s1.tiles && s.tiles[p].size <= s1.tiles[c].size && KeepsOthers(s2, s3, p)
    ensures c in s3.tiles && s3.tiles[c] == s1.tiles[c]
    ensures Carried(s.data, s3.data, p, c, UserCells(s.tiles[p].size), -1)
  {
    NonNegative(s, p);
    assert KeepsBlock(s2, s3, c) && KeepsBlock(s, s1, p);
    var n := s.tiles[p].size;
    hide PoolOk, CopyCells, KeepsOthers;
    forall i | 0 <= i < UserCells(n)
      ensures CarriedCell(s.data, s3.data, p, c, i, -1)
    {
      CopyAt(s1.data, User(p), User(c), UserCells(n), User(c) + i);
    }
  }

  lemma MovedOthers(s: Pool, s1: Pool, s2: Pool, s3: Pool, p: int, c: int, request: nat)
    requires PoolOk(s) && GrantedAt(s, s1, c, request) && KeepsOthers(s1, s2, c) && KeepsOthers(s2, s3, p)
    ensures KeepsOthers(s, s3, p)
  {
    forall q | q in s.requested && q in s.tiles && q != p
      ensures KeepsBlock(s, s3, q)
    {
      NonNegative(s, q);
      assert KeepsBlock(s, s1, q) && KeepsBlock(s1, s2, q) && KeepsBlock(s2, s3, q);
    }
  }

  /** A block resized where it stands keeps its contents. */
  lemma StayedPut(s: Pool, s3: Pool, p: int, n: nat, total: nat)
    requires p in s.tiles && p in s3.tiles && s.tiles[p].size <= total
    requires s3.tiles[p].size == if n + 2 <= total then n else total
    requires forall x :: User(p) <= x <= 2 * (p + total)
               ==> CellAt(s3.data, x) == if n + 2 <= total && x == 2 * (p + n) + 1 then Nothing else CellAt(s.data, x)
    ensures var m := if s.tiles[p].size < s3.tiles[p].size then s.tiles[p].size else s3.tiles[p].size;
            Carried(s.data, s3.data, p, p, UserCells(m), -1)
  {
  }

  /** A block shifted back is copied after its remainder was cut off. */
  lemma ShiftedBack(s: Pool, s3: Pool, s4: Pool, p: int, c: int, n: nat, total: nat)
    requires p in s.tiles && c < p && p + s.tiles[p].size <= c + total
    requires forall x :: User(c) <= x <= 2 * (c + total)
               ==> CellAt(s3.data, x) == if n + 2 <= total && x == 2 * (c + n) + 1 then Nothing else CellAt(s.data, x)
    requires s4.data == CopyCells(s3.data, User(p), User(c), UserCells(s.tiles[p].size))
    ensures Carried(s.data, s4.data, p, c, UserCells(s.tiles[p].size), LostIndex(p - c, n, total))
  {
    var m, lost := s.tiles[p].size, LostIndex(p - c, n, total);
    hide CopyCells;
    forall i | 0 <= i < UserCells(m)
      ensures CarriedCell(s.data, s4.data, p, c, i, lost)
    {
      CopyAt(s3.data, User(p), User(c), UserCells(m), User(c) + i);
    }
  }

  lemma ResizedCopied(s: Pool, s3: Pool, s4: Pool, p: int, c: int, request: nat)
    requires PoolOk(s) && Resized(s, s3, p, c, request) && KeepsOthers(s3, s4, c)
    requires s4 == s3.(data := s4.data)
    ensures Resized(s, s4, p, c, request)
  {
    KeepsChain(s, s3, s4, p, c);
  }

  lemma RoomShape(s: Pool, f: Filing, p: int, n: nat, c: int, total: nat, holes: set<int>)
    requires Sound(s, f, holes) && RoomAt(s, p, n, c, total, holes)
    ensures p in s.tiles && p in s.size && s.size[p].size == s.tiles[p].size
    ensures c <= p && c == NewPlace(s, p, n) && p + s.tiles[p].size <= c + total
    ensures c < p ==> total == RunEnd(s, p) - RunStart(s, p) && s.tiles[p].size < n <= total
    ensures FitsInPlace(s, p, n)
  {
    TagsTell(s, p);
  }

  /** Which contents survive when a block is resized in place, now at c. */
  ghost predicate SurvivesInPlace(s: Pool, s': Pool, p: int, n: nat, c: int) {
    && p in s.size && p in s.tiles && c in s'.tiles
    && Carried(s.data, s'.data, p, c, UserCells(Min(s.tiles[p].size, s'.tiles[c].size)),
               LostIndex(p - c, n, RunEnd(s, p) - RunStart(s, p)))
  }

  function Min(a: nat, b: nat): nat {
    if a < b then a else b
  }

  /** Which contents survive a reallocation to n granules. */
  ghost predicate Survives(s: Pool, s': Pool, p: int, c: int, n: nat) {
    && p in s.tiles && c in s'.tiles
    && if FitsInPlace(s, p, n) then c == NewPlace(s, p, n) && SurvivesInPlace(s, s', p, n, c)
       else Carried(s.data, s'.data, p, c, UserCells(s.tiles[p].size), -1)
  }

  lemma GrantedEnough(s: Pool, s1: Pool, f1: Filing, p: int, c: int, request: nat)
    requires GrantedAt(s, s1, c, request) && p in s.tiles && s.tiles[p].size < Granules(request) && Sound(s1, f1, {})
    ensures c in s1.tiles && s.tiles[p].size <= s1.tiles[c].size && c in s1.requested
  {
    RequestToSizeIsLeast(request);
  }
}
