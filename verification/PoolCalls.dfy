/** What each call of the pool does to it, exactly, and that every such change keeps the invariant
    and every block the call is not about. */
module PoolCalls {
  import opened ChunkSizes
  import opened Tiling
  import opened BoundaryTags
  import opened PoolState
  import opened PoolSteps
  import opened PoolEffects

  function EmptyPool(): Pool {
    Pool(map[], map[], map[], map[], map[], map[])
  }

  lemma EmptyOk()
    ensures PoolOk(EmptyPool())
  {
  }

  // ----- allocation -----

  /** A free chunk goes to a request: whole if it has less than a minimal chunk to spare, else its
      front. */
  ghost predicate TookAt(s: Pool, s': Pool, c: int, request: nat) {
    && c in s.tiles && !s.tiles[c].used
    && var n, size := Granules(request), s.tiles[c].size;
       if size < n + 2 then n <= size && s' == Merged(s, c, size, true, s.requested[c := request])
       else s' == Cut(s, c, n, true, false, s.requested[c := request])
  }

  /** A new area: one free chunk. */
  ghost predicate GotArea(s: Pool, s': Pool, a: int, n: nat) {
    AreaAdded(s, s', a, n) && Fresh(s.areas, a, n) && n >= 2 && a >= 0 && ALIGN * n < 0x8000_0000
  }

  ghost predicate GrewAndTook(s: Pool, s': Pool, p: int, request: nat) {
    exists s1: Pool, n: nat {:trigger GotArea(s, s1, p, n)} :: GotArea(s, s1, p, n) && TookAt(s1, s', p, request)
  }

  /** p is granted for the request, from a free chunk or from a new area. */
  ghost predicate Granting(s: Pool, s': Pool, p: int, request: nat) {
    TookAt(s, s', p, request) || GrewAndTook(s, s', p, request)
  }

  lemma TookOk(s: Pool, s': Pool, c: int, request: nat)
    requires PoolOk(s) && TookAt(s, s', c, request)
    ensures PoolOk(s') && GrantedAt(s, s', c, request)
  {
    var n, size := Granules(request), s.tiles[c].size;
    if size < n + 2 {
      TakenWhole(s, c, request);
      hide PoolOk, KeepsOthers;
      GrantedTaken(s, s', c, size, request);
    } else {
      TakenPart(s, c, n, request);
      hide PoolOk, KeepsOthers;
      GrantedTaken(s, s', c, n, request);
    }
  }

  lemma GrantingOk(s: Pool, s': Pool, p: int, request: nat)
    requires PoolOk(s) && Granting(s, s', p, request)
    ensures PoolOk(s') && GrantedAt(s, s', p, request)
  {
    hide PoolOk, TookAt, AreaAdded, KeepsOthers, GrantedAt;
    if TookAt(s, s', p, request) {
      TookOk(s, s', p, request);
    } else {
      var s1: Pool, n: nat :| GotArea(s, s1, p, n) && TookAt(s1, s', p, request);
      AddedArea(s, s1, p, n);
      TookOk(s1, s', p, request);
      SameRequests(s, s1, p, n);
      GrantedLater(s, s1, s', p, request);
    }
  }

  lemma SameRequests(s: Pool, s1: Pool, a: int, n: nat)
    requires AreaAdded(s, s1, a, n)
    ensures s1.requested == s.requested
  {
  }

  // ----- giving back -----

  lemma BackOk(s: Pool, s': Pool, p: int, growable: bool)
    requires PoolOk(s) && BackOnly(s, s', p, growable)
    ensures PoolOk(s') && GivenBack(s, s', p, growable)
    ensures s'.requested == s.requested - {p}
  {
    var c, e, s1 := RunStart(s, p), RunEnd(s, p), MergedFree(s, p);
    FreedRun(s, p, c, e - c);
    if s' != s1 {
      hide PoolOk, KeepsOthers, RunAround, RunStart, RunEnd, AreaRemoved;
      RemovedArea(s1, s', c);
      RequestsStay(s1, s', c);
      KeepsTwice(s, s1, s', p);
    }
  }

  lemma BackIs(s: Pool, s': Pool, p: int, growable: bool)
    requires GivenBack(s, s', p, growable)
    ensures BackOnly(s, s', p, growable)
  {
  }

  lemma RequestsStay(s: Pool, s': Pool, a: int)
    requires a in s.areas && AreaRemoved(s, s', a)
    ensures s'.requested == s.requested
  {
  }

  // ----- writing -----

  /** The owner of block p has stored something in its own cells. */
  ghost predicate WroteIn(s: Pool, s': Pool, p: int) {
    && p in s.requested && p in s.tiles && s' == s.(data := s'.data)
    && SameCellsOutside(s.data, s'.data, User(p), 2 * (p + s.tiles[p].size))
  }

  lemma WroteOk(s: Pool, s': Pool, p: int)
    requires PoolOk(s) && WroteIn(s, s', p)
    ensures PoolOk(s') && KeepsOthers(s, s', p)
  {
    forall q | q in s.tiles
      ensures BareAt(s'.data, s.tiles, q)
    {
      assert BareAt(s.data, s.tiles, q);
      EdgeOutside(s.areas, s.tiles, q, p);
    }
    forall q | q in s.requested && q in s.tiles && q != p
      ensures KeepsBlock(s, s', q)
    {
      EdgeOutside(s.areas, s.tiles, q, p);
      EdgeOutside(s.areas, s.tiles, p, q);
    }
  }

  lemma WrittenSound(s: Pool, s': Pool, f: Filing, p: int)
    requires Sound(s, f, {}) && WroteIn(s, s', p)
    ensures Sound(s', f, {})
  {
    WroteOk(s, s', p);
    hide PoolOk;
  }

  /** The cells a request covers, the last perhaps in part, are cells of its block. */
  lemma CellInside(s: Pool, p: int, i: nat)
    requires PoolOk(s) && p in s.requested && p in s.tiles && HEADER * i < s.requested[p]
    ensures User(p) <= User(p) + i <= 2 * (p + s.tiles[p].size)
  {
    RequestToSizeIsLeast(s.requested[p]);
  }

  /** Copying cells into a block is writing in it. */
  lemma CopyIsWriting(s: Pool, from: int, c: int, count: int)
    requires c in s.requested && c in s.tiles && count <= UserCells(s.tiles[c].size)
    ensures WroteIn(s, s.(data := CopyCells(s.data, from, User(c), count)), c)
  {
  }

  // ----- resizing -----

  lemma RoomIs(s: Pool, p: int, n: nat, c: int, total: nat, holes: set<int>)
    requires RoomAt(s, p, n, c, total, holes)
    ensures RoomFor(s, p, n, c, total)
  {
  }

  /** The run c .. c + total has become the block, less what the request leaves over. */
  ghost predicate Reshaping(s: Pool, s': Pool, p: int, c: int, total: nat, request: nat, growable: bool) {
    var n := Granules(request);
    && RoomFor(s, p, n, c, total)
    && if n + 2 <= total then BackOnly(Split(s, p, c, total, n, request), s', c + n, growable)
       else s' == Merged(s, c, total, true, Renamed(s.requested, p, c, request))
  }

  lemma ReshapedSplit(s: Pool, s': Pool, p: int, c: int, total: nat, n: nat, request: nat, growable: bool)
    requires RoomFor(s, p, n, c, total) && n == Granules(request) && n + 2 <= total
    requires BackOnly(Split(s, p, c, total, n, request), s', c + n, growable)
    ensures Reshaping(s, s', p, c, total, request, growable)
  {
  }

  lemma ReshapedWhole(s: Pool, s': Pool, p: int, c: int, total: nat, request: nat, growable: bool)
    requires RoomFor(s, p, Granules(request), c, total) && total < Granules(request) + 2
    requires s' == Merged(s, c, total, true, Renamed(s.requested, p, c, request))
    ensures Reshaping(s, s', p, c, total, request, growable)
  {
  }

  ghost function Copied(s: Pool, p: int, c: int, size: nat): Pool {
    if p == c then s else s.(data := CopyCells(s.data, User(p), User(c), UserCells(size)))
  }

  ghost predicate ResizedInPlace(s: Pool, s': Pool, p: int, c: int, request: nat, growable: bool) {
    && p in s.tiles
    && exists s3: Pool, total: nat {:trigger Reshaping(s, s3, p, c, total, request, growable)} ::
         Reshaping(s, s3, p, c, total, request, growable) && s' == Copied(s3, p, c, s.tiles[p].size)
  }

  ghost predicate ResizedByMoving(s: Pool, s': Pool, p: int, c: int, request: nat, growable: bool) {
    && p in s.requested && p in s.tiles && s.tiles[p].size < Granules(request)
    && exists s1: Pool {:trigger Granting(s, s1, c, request)} ::
         Granting(s, s1, c, request) && BackOnly(Copied(s1, p, c, s.tiles[p].size), s', p, growable)
  }

  ghost predicate Resizing(s: Pool, s': Pool, p: int, c: int, request: nat, growable: bool) {
    ResizedInPlace(s, s', p, c, request, growable) || ResizedByMoving(s, s', p, c, request, growable)
  }

  lemma WholeOk(s: Pool, p: int, c: int, total: nat, request: nat)
    requires PoolOk(s) && RoomFor(s, p, Granules(request), c, total) && total < Granules(request) + 2
    ensures var s' := Merged(s, c, total, true, Renamed(s.requested, p, c, request));
            PoolOk(s') && KeepsOthers(s, s', p) && c in s'.requested && c in s'.tiles && s'.tiles[c].size == total
  {
    GrownRun(s, p, c, total, request, Renamed(s.requested, p, c, request));
  }

  lemma SplitIsOk(s: Pool, p: int, c: int, total: nat, n: nat, request: nat)
    requires PoolOk(s) && RoomFor(s, p, n, c, total) && n == Granules(request) && n + 2 <= total
    ensures var s1 := Merged(s, c, total, true, Renamed(s.requested, p, c, Filling(total)));
            PoolOk(s1) && KeepsOthers(s, s1, p) && KeepsOthers(s1, Split(s, p, c, total, n, request), c) && c + n !in s1.tiles
    ensures PoolOk(Split(s, p, c, total, n, request))
  {
    hide PoolOk, KeepsOthers, Granules, Filling, RoomFor, Run, Replace, Carve;
    FillingFits(total);
    FillingFits(total - n);
    RoomWidens(s, p, n, c, total);
    GrownRun(s, p, c, total, Filling(total), Renamed(s.requested, p, c, Filling(total)));
    var s1 := Merged(s, c, total, true, Renamed(s.requested, p, c, Filling(total)));
    MergedTile(s, c, total, true, Renamed(s.requested, p, c, Filling(total)));
    CutLive(s1, c, n, request, Filling(total - n));
    CutTags(s1, c, n, true, true, s1.requested[c := request][c + n := Filling(total - n)]);
  }

  lemma MergedTile(s: Pool, c: int, total: nat, used: bool, requested: map<int, nat>)
    requires c in s.tiles
    ensures var s' := Merged(s, c, total, used, requested); c in s'.tiles && s'.tiles[c].size == total && s'.requested == requested
  {
  }

  lemma RoomWidens(s: Pool, p: int, n: nat, c: int, total: nat)
    requires PoolOk(s) && RoomFor(s, p, n, c, total)
    ensures p in s.requested && c in s.tiles && Run(s, c, total) && c <= p < c + total && (c != p ==> c !in s.requested)
    ensures forall q :: q in s.tiles && c <= q < c + total && q != p ==> !s.tiles[q].used
  {
    TileBounds(s, p);
  }

  lemma ReshapingOk(s: Pool, s': Pool, p: int, c: int, total: nat, request: nat, growable: bool)
    requires PoolOk(s) && Reshaping(s, s', p, c, total, request, growable)
    ensures PoolOk(s') && KeepsOthers(s, s', p) && c in s'.requested && c in s'.tiles
    ensures s'.tiles[c].size >= Granules(request)
    ensures forall q :: q in s.requested && q != p ==> q != c
    ensures c <= p && (c != p ==> s.tiles[p].size < Granules(request))
  {
    var n := Granules(request);
    hide PoolOk, KeepsOthers, Granules, BackOnly, Split, Merged, KeepsBlock;
    RoomWidens(s, p, n, c, total);
    ShiftIsGrowth(s, p, n, c, total);
    if n + 2 <= total {
      SplitIsOk(s, p, c, total, n, request);
      var s1 := Merged(s, c, total, true, Renamed(s.requested, p, c, Filling(total)));
      var s2 := Split(s, p, c, total, n, request);
      BackOk(s2, s', c + n, growable);
      SplitTags(s, p, c, total, n, request);
      BackKeeps(s2, s', c + n, growable);
      TrimmedBlocks(s, s1, s2, s', p, n, c);
      KeptBlock(s2, s', c);
    } else {
      WholeOk(s, p, c, total, request);
    }
  }

  lemma KeptBlock(s: Pool, s': Pool, q: int)
    requires q in s.tiles && q in s.requested && KeepsBlock(s, s', q)
    ensures q in s'.tiles && q in s'.requested && s'.tiles[q] == s.tiles[q]
  {
  }

  lemma BackKeeps(s: Pool, s': Pool, p: int, growable: bool)
    requires GivenBack(s, s', p, growable)
    ensures KeepsOthers(s, s', p)
  {
  }

  lemma ShiftIsGrowth(s: Pool, p: int, n: nat, c: int, total: nat)
    requires PoolOk(s) && RoomFor(s, p, n, c, total)
    ensures c <= p && (c != p ==> s.tiles[p].size < n) && n <= total
  {
    TagsTell(s, p);
  }

  lemma ResizedInPlaceOk(s: Pool, s': Pool, p: int, c: int, request: nat, growable: bool)
    requires PoolOk(s) && ResizedInPlace(s, s', p, c, request, growable)
    ensures PoolOk(s') && KeepsOthers(s, s', p)
  {
    hide PoolOk, KeepsOthers, Granules, Reshaping;
    var s3: Pool, total: nat :| Reshaping(s, s3, p, c, total, request, growable) && s' == Copied(s3, p, c, s.tiles[p].size);
    ReshapingOk(s, s3, p, c, total, request, growable);
    if c != p {
      CopyIsWriting(s3, User(p), c, UserCells(s.tiles[p].size));
      WroteOk(s3, s', c);
      KeepsChain(s, s3, s', p, c);
    }
  }

  lemma ResizedByMovingOk(s: Pool, s': Pool, p: int, c: int, request: nat, growable: bool)
    requires PoolOk(s) && ResizedByMoving(s, s', p, c, request, growable)
    ensures PoolOk(s') && KeepsOthers(s, s', p)
  {
    hide PoolOk, KeepsOthers, Granting, GrantedAt, BackOnly;
    var s1: Pool :| Granting(s, s1, c, request) && BackOnly(Copied(s1, p, c, s.tiles[p].size), s', p, growable);
    GrantingOk(s, s1, c, request);
    GrantedRoom(s, s1, p, c, request);
    var s2 := Copied(s1, p, c, s.tiles[p].size);
    CopyIsWriting(s1, User(p), c, UserCells(s.tiles[p].size));
    WroteOk(s1, s2, c);
    BackOk(s2, s', p, growable);
    BackKeeps(s2, s', p, growable);
    MovedOthers(s, s1, s2, s', p, c, request);
  }

  lemma GrantedRoom(s: Pool, s1: Pool, p: int, c: int, request: nat)
    requires PoolOk(s1) && GrantedAt(s, s1, c, request)
    requires p in s.requested && p in s.tiles && s.tiles[p].size < Granules(request)
    ensures c != p && c in s1.requested && c in s1.tiles && s.tiles[p].size <= s1.tiles[c].size
  {
    RequestToSizeIsLeast(request);
    TileBounds(s1, c);
  }

  lemma ResizingOk(s: Pool, s': Pool, p: int, c: int, request: nat, growable: bool)
    requires PoolOk(s) && Resizing(s, s', p, c, request, growable)
    ensures PoolOk(s') && KeepsOthers(s, s', p)
  {
    hide PoolOk, KeepsOthers, ResizedInPlace, ResizedByMoving;
    if ResizedInPlace(s, s', p, c, request, growable) {
      ResizedInPlaceOk(s, s', p, c, request, growable);
    } else {
      ResizedByMovingOk(s, s', p, c, request, growable);
    }
  }

  // ----- starting over -----

  /** The tags of an area that is one free chunk. */
  ghost predicate OneFreeChunk(s: Pool, a: int)
    requires a in s.areas
  {
    var n := s.areas[a];
    && a in s.size && s.size[a] == Tag(n, false) && a + n in s.size && s.size[a + n] == MARKER
    && a in s.prevSize && s.prevSize[a] == MARKER && a + n in s.prevSize && s.prevSize[a + n] == Tag(n, false)
    && 2 * a + 1 !in s.data && 2 * (a + n) + 1 !in s.data
  }

  /** Every area is one free chunk again; no header word has gone. */
  ghost predicate Cleared(s: Pool, s': Pool) {
    && s'.areas == s.areas && s'.requested == map[]
    && (forall a :: a in s'.tiles <==> a in s.areas)
    && (forall a :: a in s'.tiles && a in s.areas ==> s'.tiles[a] == Tile(s.areas[a], false, a))
    && (forall a {:trigger OneFreeChunk(s', a)} :: a in s'.areas ==> OneFreeChunk(s', a))
    && KeepsWords(s.size, s'.size) && KeepsWords(s.prevSize, s'.prevSize)
  }

  lemma ClearedTiles(s: Pool, s': Pool)
    requires PoolOk(s) && Cleared(s, s')
    ensures TilesOk(s'.areas, s'.tiles) && Coalesced(s'.tiles)
  {
    forall p | p in s'.tiles
      ensures TileOk(s'.areas, s'.tiles, p) && Solo(s'.tiles, p)
    {
      var e := p + s.areas[p];
      assert e in s.areas ==> Clear(s.areas, p, e);
    }
    forall p, q | p in s'.tiles && q in s'.tiles && p < q
      ensures Apart(s'.tiles, p, q)
    {
      assert Clear(s.areas, p, q);
    }
  }

  lemma ClearedOk(s: Pool, s': Pool)
    requires PoolOk(s) && Cleared(s, s')
    ensures PoolOk(s')
  {
    ClearedTiles(s, s');
    ClearedTagsOk(s');
    hide TilesOk, TagsOk, Coalesced, Bare, OneFreeChunk;
    MappedUpdate(s.areas, s.size.Keys, s'.size.Keys);
    MappedUpdate(s.areas, s.prevSize.Keys, s'.prevSize.Keys);
  }

  lemma ClearedTagsOk(s: Pool)
    requires forall a :: a in s.tiles <==> a in s.areas
    requires forall a :: a in s.tiles && a in s.areas ==> s.tiles[a] == Tile(s.areas[a], false, a)
    requires forall a {:trigger OneFreeChunk(s, a)} :: a in s.areas ==> OneFreeChunk(s, a)
    ensures TagsOk(s.areas, s.tiles, s.size, s.prevSize) && Bare(s.data, s.tiles)
  {
    forall p | p in s.tiles
      ensures TagAt(s.tiles, s.size, s.prevSize, p) && PredAt(s.tiles, s.prevSize, p) && BareAt(s.data, s.tiles, p)
    {
      assert OneFreeChunk(s, p);
    }
    forall a | a in s.areas
      ensures MarksAt(s.areas, s.size, s.prevSize, a)
    {
      assert OneFreeChunk(s, a);
    }
  }

  lemma ClearedTags(s: Pool, s': Pool)
    requires PoolOk(s') && s'.areas == s.areas
    requires forall a :: a in s'.areas ==> a in s'.tiles && s'.tiles[a] == Tile(s'.areas[a], false, a)
    ensures forall a {:trigger OneFreeChunk(s', a)} :: a in s'.areas ==> OneFreeChunk(s', a)
    ensures forall a :: a in s'.tiles ==> a in s'.areas
  {
    forall a | a in s'.areas
      ensures OneFreeChunk(s', a)
    {
      TileBounds(s', a);
      assert TagAt(s'.tiles, s'.size, s'.prevSize, a) && MarksAt(s'.areas, s'.size, s'.prevSize, a) && BareAt(s'.data, s'.tiles, a);
    }
    forall p | p in s'.tiles
      ensures p in s'.areas
    {
      assert TileOk(s'.areas, s'.tiles, p);
      OnlyTile(s'.areas, s'.tiles, s'.tiles[p].home, p);
    }
  }

  lemma AllCleared(s: Pool, s': Pool, f: Filing)
    requires Sound(s', f, {}) && s'.areas == s.areas && s'.requested == map[]
    requires KeepsWords(s.size, s'.size) && KeepsWords(s.prevSize, s'.prevSize)
    requires forall a :: a in s'.areas ==> a in s'.tiles && s'.tiles[a] == Tile(s'.areas[a], false, a)
    ensures Cleared(s, s')
  {
    ClearedTags(s, s');
    hide PoolOk, OneFreeChunk;
  }

  /** A pool as InitAlloc leaves an empty one: with one area, or none. */
  ghost predicate Started(s: Pool) {
    s == EmptyPool() || exists a: int, n: nat {:trigger GotArea(EmptyPool(), s, a, n)} :: GotArea(EmptyPool(), s, a, n)
  }

  lemma StartedOk(s: Pool)
    requires Started(s)
    ensures PoolOk(s) && s.requested == map[]
  {
    EmptyOk();
    if s != EmptyPool() {
      var a: int, n: nat :| GotArea(EmptyPool(), s, a, n);
      AddedArea(EmptyPool(), s, a, n);
    }
  }

  // ----- calls -----

  /** What one call did. */
  datatype Event =
    | Granted(p: int, request: nat)
    | Returned(p: int, growable: bool)
    | Moved(p: int, c: int, request: nat, growable: bool)
    | Wrote(p: int)
    | AllFreed
    | Restarted
    | Unchanged

  ghost predicate Step(s: Pool, e: Event, s': Pool) {
    match e
    case Granted(p, request) => Granting(s, s', p, request)
    case Returned(p, growable) => BackOnly(s, s', p, growable)
    case Moved(p, c, request, growable) => Resizing(s, s', p, c, request, growable)
    case Wrote(p) => WroteIn(s, s', p)
    case AllFreed => Cleared(s, s')
    case Restarted => Started(s')
    case Unchanged => s' == s
  }

  /** The calls that are not about this block. */
  ghost predicate Spares(e: Event, q: int) {
    match e
    case Granted(_, _) => true
    case Returned(p, _) => p != q
    case Moved(p, _, _, _) => p != q
    case Wrote(p) => p != q
    case AllFreed => false
    case Restarted => false
    case Unchanged => true
  }

  /** Every call keeps the invariant ... */
  lemma StepOk(s: Pool, e: Event, s': Pool)
    requires PoolOk(s) && Step(s, e, s')
    ensures PoolOk(s')
  {
    hide PoolOk, Granting, BackOnly, Resizing, Cleared, Started, WroteIn;
    match e
    case Granted(p, request) => GrantingOk(s, s', p, request);
    case Returned(p, growable) => BackOk(s, s', p, growable);
    case Moved(p, c, request, growable) => ResizingOk(s, s', p, c, request, growable);
    case Wrote(p) => WroteOk(s, s', p);
    case AllFreed => ClearedOk(s, s');
    case Restarted => StartedOk(s');
    case Unchanged =>
  }

  /** ... and every block it is not about: place, length, request and contents. */
  lemma StepKeeps(s: Pool, e: Event, s': Pool, q: int)
    requires PoolOk(s) && Step(s, e, s') && Spares(e, q) && q in s.requested && q in s.tiles
    ensures KeepsBlock(s, s', q)
  {
    hide PoolOk, Granting, BackOnly, Resizing, Cleared, Started, WroteIn, KeepsBlock;
    match e
    case Granted(p, request) =>
      GrantingOk(s, s', p, request);
      NonNegative(s, q);
    case Returned(p, growable) =>
      BackOk(s, s', p, growable);
    case Moved(p, c, request, growable) =>
      ResizingOk(s, s', p, c, request, growable);
    case Wrote(p) =>
      WroteOk(s, s', p);
    case Unchanged =>
      KeepsSelf(s, q);
  }

  lemma KeepsSelf(s: Pool, q: int)
    requires q in s.requested && q in s.tiles
    ensures KeepsBlock(s, s, q)
  {
  }
}
