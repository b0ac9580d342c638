/** The whole state of a pool as one value, the invariant its operations keep, and what each
    kind of change does to it. */
module PoolState {
  import opened ChunkSizes
  import opened Tiling
  import opened BoundaryTags
  import opened Bins

  /** Memory contents in cells of 32 bytes, half a granule: cell 2p + 1 is the header of a chunk
      at p, and the user bytes of a chunk of n granules are cells 2p + 2 .. 2(p + n). Writing a
      header removes whatever user data its cell held. */
  type Cells = map<int, int>

  const NONE := -1

  datatype Pool = Pool(areas: Areas, tiles: Tiles, size: Tags, prevSize: Tags, requested: map<int, nat>, data: Cells)

  /** Every live chunk holds its request, with less than a minimal chunk to spare. */
  ghost predicate Granted(requested: map<int, nat>, tiles: Tiles) {
    && (forall p :: p in requested <==> p in tiles && tiles[p].used)
    && (forall p :: p in requested && p in tiles
          ==> Granules(requested[p]) <= tiles[p].size < Granules(requested[p]) + 2)
  }

  ghost predicate BareAt(data: Cells, tiles: Tiles, p: int)
    requires p in tiles
  {
    2 * p + 1 !in data && 2 * (p + tiles[p].size) + 1 !in data
  }

  /** Header cells hold no user data. */
  ghost predicate Bare(data: Cells, tiles: Tiles) {
    forall p {:trigger BareAt(data, tiles, p)} :: p in tiles ==> BareAt(data, tiles, p)
  }

  ghost predicate Bounded(areas: Areas) {
    forall a :: a in areas ==> a >= 0 && ALIGN * areas[a] < 0x8000_0000
  }

  /** The consistency check of the pool, except for the free lists. */
  ghost predicate PoolOk(s: Pool) {
    && TilesOk(s.areas, s.tiles)
    && TagsOk(s.areas, s.tiles, s.size, s.prevSize)
    && Coalesced(s.tiles)
    && Granted(s.requested, s.tiles)
    && Bare(s.data, s.tiles)
    && Bounded(s.areas)
    && Mapped(s.areas, s.size.Keys) && Mapped(s.areas, s.prevSize.Keys)
  }

  /** The free lists hold exactly the free chunks, but for those being worked on. */
  ghost predicate Listed(sizes: Sizes, tiles: Tiles, holes: set<int>) {
    && (forall p :: p in sizes <==> p in tiles && !tiles[p].used && p !in holes)
    && (forall p :: p in sizes && p in tiles ==> sizes[p] == tiles[p].size)
  }

  // ----- contents of live blocks -----

  ghost predicate SameCells(d: Cells, d': Cells, lo: int, hi: int) {
    forall x :: lo <= x <= hi ==> (x in d <==> x in d') && (x in d && x in d' ==> d[x] == d'[x])
  }

  /** Block q is untouched: place, length, request and contents. */
  ghost predicate KeepsBlock(s: Pool, s': Pool, q: int)
    requires q in s.tiles && q in s.requested
  {
    && q in s'.tiles && s'.tiles[q] == s.tiles[q]
    && q in s'.requested && s'.requested[q] == s.requested[q]
    && SameCells(s.data, s'.data, 2 * q + 2, 2 * (q + s.tiles[q].size))
  }

  /** Every live block other than p is untouched. */
  ghost predicate KeepsOthers(s: Pool, s': Pool, p: int) {
    forall q {:trigger KeepsBlock(s, s', q)} :: q in s.requested && q in s.tiles && q != p ==> KeepsBlock(s, s', q)
  }

  /** A header at the edge of a chunk is outside the user cells of every block. */
  lemma EdgeOutside(areas: Areas, tiles: Tiles, c: int, q: int)
    requires TilesOk(areas, tiles) && c in tiles && q in tiles
    ensures c <= q || q + tiles[q].size <= c
    ensures c + tiles[c].size <= q || q + tiles[q].size <= c + tiles[c].size
  {
    assert c < q ==> Apart(tiles, c, q);
    assert q < c ==> Apart(tiles, q, c);
  }

  lemma TileBounds(s: Pool, p: int)
    requires PoolOk(s) && p in s.tiles
    ensures p >= 0 && s.tiles[p].size >= 2 && ALIGN * s.tiles[p].size < 0x8000_0000
    ensures p in s.size && s.size[p] == TagOf(s.tiles[p])
    ensures p + s.tiles[p].size in s.prevSize && p + s.tiles[p].size in s.size
    ensures forall x :: p <= x <= p + s.tiles[p].size ==> x in s.size && x in s.prevSize
  {
    assert TileOk(s.areas, s.tiles, p);
    assert TagAt(s.tiles, s.size, s.prevSize, p);
    var a := s.tiles[p].home;
    assert Spans(s.size.Keys, a, s.areas[a]) && Spans(s.prevSize.Keys, a, s.areas[a]);
  }

  // ----- one chunk in place of a run -----

  ghost function Merged(s: Pool, c: int, total: nat, used: bool, requested: map<int, nat>): Pool
    requires c in s.tiles
  {
    s.(tiles := Replace(s.tiles, c, total, used),
       size := s.size[c := Tag(total, used)],
       prevSize := s.prevSize[c + total := Tag(total, used)],
       requested := requested,
       data := s.data - {2 * c + 1, 2 * (c + total) + 1})
  }

  /** What must hold for the run c .. c + total to become one chunk. */
  ghost predicate Run(s: Pool, c: int, total: nat) {
    c in s.tiles && total >= 2 && Boundary(s.areas, s.tiles, s.tiles[c].home, c + total)
  }

  lemma MappedUpdate(areas: Areas, keys: set<int>, keys': set<int>)
    requires Mapped(areas, keys) && forall x :: x in keys ==> x in keys'
    ensures Mapped(areas, keys')
  {
    forall a | a in areas
      ensures Spans(keys', a, areas[a])
    {
      assert Spans(keys, a, areas[a]);
    }
  }

  lemma MergedTags(s: Pool, c: int, total: nat, used: bool, requested: map<int, nat>)
    requires PoolOk(s) && Run(s, c, total)
    ensures var s' := Merged(s, c, total, used, requested);
            && TilesOk(s'.areas, s'.tiles) && TagsOk(s'.areas, s'.tiles, s'.size, s'.prevSize)
            && Mapped(s'.areas, s'.size.Keys) && Mapped(s'.areas, s'.prevSize.Keys)
  {
    ReplaceOk(s.areas, s.tiles, c, total, used);
    TagsReplace(s.areas, s.tiles, s.size, s.prevSize, c, total, used);
    MappedUpdate(s.areas, s.size.Keys, s.size[c := Tag(total, used)].Keys);
    MappedUpdate(s.areas, s.prevSize.Keys, s.prevSize[c + total := Tag(total, used)].Keys);
  }

  lemma MergedBare(s: Pool, c: int, total: nat, used: bool)
    requires TilesOk(s.areas, s.tiles) && Bare(s.data, s.tiles) && Run(s, c, total)
    ensures Bare(s.data - {2 * c + 1, 2 * (c + total) + 1}, Replace(s.tiles, c, total, used))
  {
    var t, d := Replace(s.tiles, c, total, used), s.data - {2 * c + 1, 2 * (c + total) + 1};
    forall p | p in t
      ensures BareAt(d, t, p)
    {
      assert BareAt(s.data, s.tiles, p);
    }
  }

  /** No two free chunks touch after the change. */
  lemma MergedCoalesced(s: Pool, c: int, total: nat, used: bool)
    requires TilesOk(s.areas, s.tiles) && Coalesced(s.tiles) && Run(s, c, total)
    requires !used ==> c + total in s.tiles ==> s.tiles[c + total].used
    requires !used ==> forall p :: p in s.tiles && p < c && p + s.tiles[p].size == c ==> s.tiles[p].used
    ensures Coalesced(Replace(s.tiles, c, total, used))
  {
    var t := Replace(s.tiles, c, total, used);
    ReplaceOk(s.areas, s.tiles, c, total, used);
    forall p | p in t
      ensures Solo(t, p)
    {
      assert Solo(s.tiles, p);
      if p != c {
        assert TileOk(s.areas, t, p) && TileOk(s.areas, s.tiles, p);
      }
    }
  }

  /** Blocks outside the run keep everything. */
  lemma MergedKeeps(s: Pool, c: int, total: nat, used: bool, requested: map<int, nat>, p: int)
    requires PoolOk(s) && Run(s, c, total)
    requires forall q :: q in s.requested && c <= q < c + total ==> q == p
    requires forall q :: q in s.requested && q != p ==> q in requested && requested[q] == s.requested[q]
    ensures KeepsOthers(s, Merged(s, c, total, used, requested), p)
  {
    var s' := Merged(s, c, total, used, requested);
    forall q | q in s.requested && q in s.tiles && q != p
      ensures KeepsBlock(s, s', q)
    {
      EdgeOutside(s.areas, s.tiles, c, q);
      if c + total in s.tiles {
        EdgeOutside(s.areas, s.tiles, c + total, q);
      } else {
        assert TileOk(s.areas, s.tiles, q);
        EndOutside(s.areas, s.tiles, s.tiles[c].home, q);
      }
    }
  }

  lemma EndOutside(areas: Areas, tiles: Tiles, a: int, q: int)
    requires TilesOk(areas, tiles) && a in areas && q in tiles
    ensures a + areas[a] <= q || q + tiles[q].size <= a + areas[a]
  {
    assert TileOk(areas, tiles, q);
    var h := tiles[q].home;
    assert a < h ==> Clear(areas, a, h);
    assert h < a ==> Clear(areas, h, a);
  }

  /** A free chunk taken whole. */
  lemma TakenWhole(s: Pool, c: int, request: nat)
    requires PoolOk(s) && c in s.tiles && !s.tiles[c].used
    requires Granules(request) <= s.tiles[c].size < Granules(request) + 2
    ensures var s' := Merged(s, c, s.tiles[c].size, true, s.requested[c := request]);
            PoolOk(s') && KeepsOthers(s, s', c)
  {
    var total := s.tiles[c].size;
    assert TileOk(s.areas, s.tiles, c);
    MergedTags(s, c, total, true, s.requested[c := request]);
    MergedBare(s, c, total, true);
    MergedCoalesced(s, c, total, true);
    WholeMembers(s, c, true);
    MergedKeeps(s, c, total, true, s.requested[c := request], c);
  }

  /** Replacing a chunk by itself changes its in-use bit only. */
  lemma WholeMembers(s: Pool, c: int, used: bool)
    requires PoolOk(s) && c in s.tiles
    ensures var t := Replace(s.tiles, c, s.tiles[c].size, used);
            forall p :: (p in t <==> p in s.tiles)
                        && (p in t && p in s.tiles ==> t[p] == if p == c then s.tiles[c].(used := used) else s.tiles[p])
    ensures forall q :: q in s.requested && c <= q < c + s.tiles[c].size ==> q == c
  {
    forall p | p in s.tiles
      ensures !(c < p < c + s.tiles[c].size)
    {
      assert c < p ==> Apart(s.tiles, c, p);
    }
  }

  /** A run around a live chunk p, everything else in it free, given back as one free chunk. */
  lemma FreedRun(s: Pool, p: int, c: int, total: nat)
    requires PoolOk(s) && Run(s, c, total) && p in s.requested && c <= p < c + total
    requires forall q :: q in s.tiles && c <= q < c + total && q != p ==> !s.tiles[q].used
    requires c + total in s.tiles ==> s.tiles[c + total].used
    requires forall q :: q in s.tiles && q < c && q + s.tiles[q].size == c ==> s.tiles[q].used
    ensures var s' := Merged(s, c, total, false, s.requested - {p});
            PoolOk(s') && KeepsOthers(s, s', p)
  {
    MergedTags(s, c, total, false, s.requested - {p});
    MergedBare(s, c, total, false);
    MergedCoalesced(s, c, total, false);
    MergedKeeps(s, c, total, false, s.requested - {p}, p);
  }

  /** A run around a live chunk p, everything else in it free, made one live chunk. */
  lemma GrownRun(s: Pool, p: int, c: int, total: nat, request: nat, requested: map<int, nat>)
    requires PoolOk(s) && Run(s, c, total) && p in s.requested && c <= p < c + total
    requires forall q :: q in s.tiles && c <= q < c + total && q != p ==> !s.tiles[q].used
    requires Granules(request) <= total < Granules(request) + 2
    requires forall q :: q in requested <==> q == c || (q in s.requested && q != p)
    requires forall q :: q in requested ==> requested[q] == if q == c || q !in s.requested then request else s.requested[q]
    ensures var s' := Merged(s, c, total, true, requested);
            PoolOk(s') && KeepsOthers(s, s', p)
  {
    MergedTags(s, c, total, true, requested);
    MergedBare(s, c, total, true);
    MergedCoalesced(s, c, total, true);
    MergedKeeps(s, c, total, true, requested, p);
  }

  // ----- one chunk cut in two -----

  ghost function Cut(s: Pool, c: int, n: nat, low: bool, high: bool, requested: map<int, nat>): Pool
    requires c in s.tiles && n <= s.tiles[c].size
  {
    var sz := s.tiles[c].size;
    s.(tiles := Carve(s.tiles, c, n, low, high),
       size := s.size[c + n := Tag(sz - n, high)][c := Tag(n, low)],
       prevSize := s.prevSize[c + sz := Tag(sz - n, high)][c + n := Tag(n, low)],
       requested := requested,
       data := s.data - {2 * (c + n) + 1, 2 * (c + sz) + 1} - {2 * c + 1, 2 * (c + n) + 1})
  }

  lemma CutTags(s: Pool, c: int, n: nat, low: bool, high: bool, requested: map<int, nat>)
    requires PoolOk(s) && c in s.tiles && 2 <= n && n + 2 <= s.tiles[c].size
    ensures c + n !in s.tiles
    ensures var s' := Cut(s, c, n, low, high, requested);
            && TilesOk(s'.areas, s'.tiles) && TagsOk(s'.areas, s'.tiles, s'.size, s'.prevSize)
            && Mapped(s'.areas, s'.size.Keys) && Mapped(s'.areas, s'.prevSize.Keys)
  {
    CarveOk(s.areas, s.tiles, c, n, low, high);
    TagsCarve(s.areas, s.tiles, s.size, s.prevSize, c, n, low, high);
    var s' := Cut(s, c, n, low, high, requested);
    MappedUpdate(s.areas, s.size.Keys, s'.size.Keys);
    MappedUpdate(s.areas, s.prevSize.Keys, s'.prevSize.Keys);
  }

  lemma CutBare(s: Pool, c: int, n: nat, low: bool, high: bool)
    requires Bare(s.data, s.tiles) && c in s.tiles && n <= s.tiles[c].size
    ensures Bare(s.data - {2 * (c + n) + 1, 2 * (c + s.tiles[c].size) + 1} - {2 * c + 1, 2 * (c + n) + 1},
                 Carve(s.tiles, c, n, low, high))
  {
    var t := Carve(s.tiles, c, n, low, high);
    var d := s.data - {2 * (c + n) + 1, 2 * (c + s.tiles[c].size) + 1} - {2 * c + 1, 2 * (c + n) + 1};
    forall p | p in t
      ensures BareAt(d, t, p)
    {
      assert p in s.tiles ==> BareAt(s.data, s.tiles, p);
    }
  }

  lemma CutCoalesced(s: Pool, c: int, n: nat, low: bool, high: bool)
    requires TilesOk(s.areas, s.tiles) && Coalesced(s.tiles) && c in s.tiles && 2 <= n && n + 2 <= s.tiles[c].size
    requires low && (high || !s.tiles[c].used)
    ensures Coalesced(Carve(s.tiles, c, n, low, high))
  {
    CarveOk(s.areas, s.tiles, c, n, low, high);
    assert Solo(s.tiles, c);
    var t := Carve(s.tiles, c, n, low, high);
    forall p | p in t
      ensures Solo(t, p)
    {
      assert p in s.tiles ==> Solo(s.tiles, p);
      if p in s.tiles && p != c {
        EdgeOutside(s.areas, t, c + n, p);
        EndsDiffer(s.areas, t, c, p);
      }
    }
  }

  lemma CutKeeps(s: Pool, c: int, n: nat, low: bool, high: bool, requested: map<int, nat>)
    requires PoolOk(s) && c in s.tiles && 2 <= n && n + 2 <= s.tiles[c].size
    requires forall q :: q in s.requested && q != c ==> q in requested && requested[q] == s.requested[q]
    ensures KeepsOthers(s, Cut(s, c, n, low, high, requested), c)
  {
    var s' := Cut(s, c, n, low, high, requested);
    CarveOk(s.areas, s.tiles, c, n, low, high);
    forall q | q in s.requested && q in s.tiles && q != c
      ensures KeepsBlock(s, s', q)
    {
      EdgeOutside(s.areas, s.tiles, c, q);
      EdgeOutside(s.areas, s'.tiles, c + n, q);
    }
  }

  /** A free chunk split: the front goes to the request, the rest stays free. */
  lemma TakenPart(s: Pool, c: int, n: nat, request: nat)
    requires PoolOk(s) && c in s.tiles && !s.tiles[c].used
    requires n == Granules(request) && n + 2 <= s.tiles[c].size
    ensures var s' := Cut(s, c, n, true, false, s.requested[c := request]);
            PoolOk(s') && KeepsOthers(s, s', c)
  {
    CutTags(s, c, n, true, false, s.requested[c := request]);
    CutBare(s, c, n, true, false);
    CutCoalesced(s, c, n, true, false);
    CutKeeps(s, c, n, true, false, s.requested[c := request]);
  }

  /** A live chunk split in two live chunks. */
  lemma CutLive(s: Pool, c: int, n: nat, request: nat, rest: nat)
    requires PoolOk(s) && c in s.requested
    requires n == Granules(request) && n + 2 <= s.tiles[c].size
    requires Granules(rest) == s.tiles[c].size - n
    ensures var s' := Cut(s, c, n, true, true, s.requested[c := request][c + n := rest]);
            PoolOk(s') && KeepsOthers(s, s', c)
  {
    hide TilesOk, TagsOk, Coalesced, Bare, Mapped, Carve, KeepsOthers;
    CutTags(s, c, n, true, true, s.requested[c := request][c + n := rest]);
    CutBare(s, c, n, true, true);
    CutCoalesced(s, c, n, true, true);
    CutGranted(s.requested, s.tiles, c, n, request, rest);
    CutKeeps(s, c, n, true, true, s.requested[c := request][c + n := rest]);
  }

  lemma CutGranted(requested: map<int, nat>, tiles: Tiles, c: int, n: nat, request: nat, rest: nat)
    requires Granted(requested, tiles) && c in requested && c in tiles && n == Granules(request) && n + 2 <= tiles[c].size
    requires Granules(rest) == tiles[c].size - n && c + n !in tiles
    ensures Granted(requested[c := request][c + n := rest], Carve(tiles, c, n, true, true))
  {
  }

  // ----- areas coming and going -----

  /** s' is s with a new area of n granules at a: one free chunk. */
  ghost predicate AreaAdded(s: Pool, s': Pool, a: int, n: nat) {
    && s'.areas == s.areas[a := n]
    && s'.tiles == s.tiles[a := Tile(n, false, a)]
    && s'.requested == s.requested
    && (forall x :: x in s.size && !(a <= x <= a + n) ==> x in s'.size && s'.size[x] == s.size[x])
    && (forall x :: x in s.prevSize && !(a <= x <= a + n) ==> x in s'.prevSize && s'.prevSize[x] == s.prevSize[x])
    && (forall x :: a <= x <= a + n ==> x in s'.size && x in s'.prevSize)
    && a in s'.size && s'.size[a] == Tag(n, false) && a + n in s'.size && s'.size[a + n] == MARKER
    && a in s'.prevSize && s'.prevSize[a] == MARKER && a + n in s'.prevSize && s'.prevSize[a + n] == Tag(n, false)
    && 2 * a + 1 !in s'.data && 2 * (a + n) + 1 !in s'.data
    && SameCellsOutside(s.data, s'.data, 2 * a + 1, 2 * (a + n) + 1)
  }

  ghost predicate SameCellsOutside(d: Cells, d': Cells, lo: int, hi: int) {
    forall x :: !(lo <= x <= hi) ==> (x in d <==> x in d') && (x in d && x in d' ==> d[x] == d'[x])
  }

  lemma AddedTags(s: Pool, s': Pool, a: int, n: nat)
    requires PoolOk(s) && AreaAdded(s, s', a, n) && Fresh(s.areas, a, n) && n >= 2
    ensures TagsOk(s'.areas, s'.tiles, s'.size, s'.prevSize)
  {
    TagsAddArea(s.areas, s.tiles, s.size, s.prevSize, a, n, false, s'.size, s'.prevSize);
  }

  lemma AddedMapped(s: Pool, s': Pool, a: int, n: nat)
    requires PoolOk(s) && AreaAdded(s, s', a, n)
    ensures Mapped(s'.areas, s'.size.Keys) && Mapped(s'.areas, s'.prevSize.Keys)
  {
    forall b | b in s'.areas
      ensures Spans(s'.size.Keys, b, s'.areas[b]) && Spans(s'.prevSize.Keys, b, s'.areas[b])
    {
      if b != a {
        assert Spans(s.size.Keys, b, s.areas[b]) && Spans(s.prevSize.Keys, b, s.areas[b]);
      }
    }
  }

  lemma AddedTiles(s: Pool, s': Pool, a: int, n: nat)
    requires PoolOk(s) && AreaAdded(s, s', a, n) && Fresh(s.areas, a, n) && n >= 2
    ensures Coalesced(s'.tiles) && Bare(s'.data, s'.tiles)
  {
    forall p | p in s'.tiles
      ensures Solo(s'.tiles, p) && BareAt(s'.data, s'.tiles, p)
    {
      if p != a {
        assert Solo(s.tiles, p) && BareAt(s.data, s.tiles, p);
        FreshPositions(s.areas, s.tiles, a, n, p);
      } else if a + n in s.tiles {
        FreshPositions(s.areas, s.tiles, a, n, a + n);
      }
    }
  }

  lemma AddedArea(s: Pool, s': Pool, a: int, n: nat)
    requires PoolOk(s) && AreaAdded(s, s', a, n) && Fresh(s.areas, a, n) && n >= 2 && a >= 0 && ALIGN * n < 0x8000_0000
    ensures a !in s.tiles && a !in s.areas
    ensures PoolOk(s') && KeepsOthers(s, s', NONE)
  {
    AddAreaOk(s.areas, s.tiles, a, n, false);
    AddedTags(s, s', a, n);
    AddedMapped(s, s', a, n);
    AddedTiles(s, s', a, n);
    hide TilesOk, TagsOk, Mapped, Coalesced, Bare;
    forall q | q in s.requested && q in s.tiles
      ensures KeepsBlock(s, s', q)
    {
      FreshPositions(s.areas, s.tiles, a, n, q);
    }
  }

  /** s' is s without the area at a, which was one free chunk. */
  ghost predicate AreaRemoved(s: Pool, s': Pool, a: int)
    requires a in s.areas
  {
    var n := s.areas[a];
    && s'.areas == s.areas - {a}
    && s'.tiles == s.tiles - {a}
    && s'.requested == s.requested
    && (forall x :: x in s.size && !(a <= x <= a + n) ==> x in s'.size && s'.size[x] == s.size[x])
    && (forall x :: x in s.prevSize && !(a <= x <= a + n) ==> x in s'.prevSize && s'.prevSize[x] == s.prevSize[x])
    && SameCellsOutside(s.data, s'.data, 2 * a + 1, 2 * (a + n) + 1)
  }

  lemma RemovedMapped(s: Pool, s': Pool, a: int)
    requires PoolOk(s) && a in s.areas && AreaRemoved(s, s', a)
    ensures Mapped(s'.areas, s'.size.Keys) && Mapped(s'.areas, s'.prevSize.Keys)
  {
    forall b | b in s'.areas
      ensures Spans(s'.size.Keys, b, s'.areas[b]) && Spans(s'.prevSize.Keys, b, s'.areas[b])
    {
      assert Spans(s.size.Keys, b, s.areas[b]) && Spans(s.prevSize.Keys, b, s.areas[b]);
      assert a < b ==> Clear(s.areas, a, b);
      assert b < a ==> Clear(s.areas, b, a);
    }
  }

  lemma RemovedTiles(s: Pool, s': Pool, a: int)
    requires PoolOk(s) && a in s.areas && AreaRemoved(s, s', a) && s.tiles[a].size == s.areas[a]
    ensures Coalesced(s'.tiles) && Bare(s'.data, s'.tiles)
  {
    forall p | p in s'.tiles
      ensures Solo(s'.tiles, p) && BareAt(s'.data, s'.tiles, p)
    {
      assert Solo(s.tiles, p) && BareAt(s.data, s.tiles, p);
      OtherArea(s.areas, s.tiles, a, p);
    }
  }

  lemma RemovedArea(s: Pool, s': Pool, a: int)
    requires PoolOk(s) && a in s.areas && AreaRemoved(s, s', a)
    requires !s.tiles[a].used && s.tiles[a].size == s.areas[a]
    ensures PoolOk(s') && KeepsOthers(s, s', NONE)
  {
    RemoveAreaOk(s.areas, s.tiles, a);
    TagsRemoveArea(s.areas, s.tiles, s.size, s.prevSize, a, s'.size, s'.prevSize);
    RemovedMapped(s, s', a);
    RemovedTiles(s, s', a);
    hide TilesOk, TagsOk, Mapped, Coalesced, Bare;
    forall q | q in s.requested && q in s.tiles
      ensures KeepsBlock(s, s', q)
    {
      OtherArea(s.areas, s.tiles, a, q);
    }
  }

  // ----- what the tags tell -----

  /** The two marker words identify a chunk that fills its area. */
  lemma WholeAreaTags(s: Pool, c: int)
    requires PoolOk(s) && c in s.tiles
    ensures c in s.prevSize && c + s.tiles[c].size in s.size
    ensures (s.prevSize[c] == MARKER && s.size[c + s.tiles[c].size] == MARKER)
            <==> (c in s.areas && s.areas[c] == s.tiles[c].size)
  {
    TileBounds(s, c);
    assert TileOk(s.areas, s.tiles, c) && PredAt(s.tiles, s.prevSize, c);
    var a, e := s.tiles[c].home, c + s.tiles[c].size;
    assert MarksAt(s.areas, s.size, s.prevSize, a);
    if c != a {
      var q := c - s.prevSize[c].size;
      assert TagAt(s.tiles, s.size, s.prevSize, q) && TileOk(s.areas, s.tiles, q);
    }
    if e in s.tiles {
      assert TagAt(s.tiles, s.size, s.prevSize, e) && TileOk(s.areas, s.tiles, e);
      EndsApart(s.areas, s.tiles, a, e);
    }
  }

  /** The in-use bit in the next header: free exactly when a free chunk follows in the area. */
  lemma NextTag(s: Pool, c: int)
    requires PoolOk(s) && c in s.tiles
    ensures var e := c + s.tiles[c].size;
            && e in s.size
            && (!s.size[e].used ==> e in s.tiles && !s.tiles[e].used && s.tiles[e].home == s.tiles[c].home
                                    && s.size[e].size == s.tiles[e].size)
            && (s.size[e].used ==> e in s.tiles ==> s.tiles[e].used)
  {
    TileBounds(s, c);
    assert TileOk(s.areas, s.tiles, c);
    var a, e := s.tiles[c].home, c + s.tiles[c].size;
    assert MarksAt(s.areas, s.size, s.prevSize, a);
    assert e in s.tiles ==> TagAt(s.tiles, s.size, s.prevSize, e);
  }

  /** The in-use bit before the header: free exactly when a free chunk precedes in the area. */
  lemma PrevTag(s: Pool, c: int)
    requires PoolOk(s) && c in s.tiles
    ensures c in s.prevSize
    ensures !s.prevSize[c].used ==> var q := c - s.prevSize[c].size;
              q in s.tiles && q < c && q + s.tiles[q].size == c && !s.tiles[q].used && s.tiles[q].home == s.tiles[c].home
    ensures s.prevSize[c].used ==> forall q :: q in s.tiles && q < c && q + s.tiles[q].size == c ==> s.tiles[q].used
  {
    assert PredAt(s.tiles, s.prevSize, c);
    assert MarksAt(s.areas, s.size, s.prevSize, s.tiles[c].home) by {
      assert TileOk(s.areas, s.tiles, c);
    }
    forall q | q in s.tiles && q + s.tiles[q].size == c
      ensures s.prevSize[c] == TagOf(s.tiles[q])
    {
      assert TagAt(s.tiles, s.size, s.prevSize, q);
    }
  }
}
