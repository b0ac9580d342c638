/** What each step of an operation does to the pool and its free lists together, as values. */
module PoolSteps {
  import opened ChunkSizes
  import opened Tiling
  import opened BoundaryTags
  import opened Bins
  import opened FreeLists
  import opened PoolState

  /** What the pool needs to know of its free lists: their members and where link fields are. */
  datatype Filing = Filing(sizes: Sizes, next: set<int>, prev: set<int>)

  /** The invariant of the pool's memory, while the free chunks in holes are out of the lists. */
  ghost predicate Sound(s: Pool, f: Filing, holes: set<int>) {
    PoolOk(s) && Listed(f.sizes, s.tiles, holes) && Mapped(s.areas, f.next) && Mapped(s.areas, f.prev)
  }

  lemma SoundIsOk(s: Pool, f: Filing, holes: set<int>)
    requires Sound(s, f, holes)
    ensures PoolOk(s)
  {
  }

  lemma HeadersOk(s: Pool, f: Filing, holes: set<int>)
    requires Sound(s, f, holes)
    ensures HeadersAgree(f.sizes, s.size)
  {
    forall p | p in f.sizes
      ensures p in s.size && s.size[p].size == f.sizes[p] && ALIGN * f.sizes[p] < 0x8000_0000
    {
      TileBounds(s, p);
    }
  }

  // ----- unlinking and linking -----

  lemma CanUnlink(s: Pool, f: Filing, holes: set<int>, c: int)
    requires Sound(s, f, holes) && c in s.tiles && !s.tiles[c].used && c !in holes
    ensures c in f.sizes && HeadersAgree(f.sizes, s.size)
  {
    HeadersOk(s, f, holes);
  }

  lemma Unlinked(s: Pool, f: Filing, holes: set<int>, c: int, f': Filing, holes': set<int>)
    requires Sound(s, f, holes)
    requires f'.next == f.next && f'.prev == f.prev
    requires forall q :: q in f'.sizes <==> q in f.sizes && q != c
    requires forall q :: q in f'.sizes && q in f.sizes ==> f'.sizes[q] == f.sizes[q]
    requires forall q :: q in holes' <==> q in holes || q == c
    ensures Sound(s, f', holes')
  {
    hide PoolOk, Mapped;
  }

  lemma LinkMapped(s: Pool, f: Filing, holes: set<int>, p: int, x: int)
    requires Sound(s, f, holes) && p in s.tiles && p <= x <= p + s.tiles[p].size
    ensures x in f.next && x in f.prev
  {
    assert TileOk(s.areas, s.tiles, p);
    var a := s.tiles[p].home;
    assert Spans(f.next, a, s.areas[a]) && Spans(f.prev, a, s.areas[a]);
  }

  lemma CanLink(s: Pool, f: Filing, c: int)
    requires Sound(s, f, {c}) && c in s.tiles && !s.tiles[c].used
    ensures c !in f.sizes && c >= 0 && c in f.next && c in f.prev && c in s.size && HeadersAgree(f.sizes, s.size)
    ensures Sound(s, f.(sizes := f.sizes[c := s.size[c].size]), {})
  {
    HeadersOk(s, f, {c});
    LinkMapped(s, f, {c}, c, c);
    TileBounds(s, c);
    hide PoolOk, Mapped;
  }

  // ----- taking -----

  /** The hole goes to a request whole. */
  lemma Taken(s: Pool, f: Filing, c: int, request: nat)
    requires Sound(s, f, {c}) && c in s.tiles && !s.tiles[c].used
    requires Granules(request) <= s.tiles[c].size < Granules(request) + 2
    ensures c in s.size && s.size[c].size == s.tiles[c].size && c + s.tiles[c].size in s.prevSize
    ensures var s' := Merged(s, c, s.tiles[c].size, true, s.requested[c := request]);
            Sound(s', f, {}) && KeepsOthers(s, s', c)
  {
    TileBounds(s, c);
    TakenWhole(s, c, request);
    WholeMembers(s, c, true);
    hide PoolOk, Mapped, KeepsOthers;
  }

  /** The front of the hole goes to a request, the rest to the lists. */
  lemma Parted(s: Pool, f: Filing, c: int, n: nat, request: nat)
    requires Sound(s, f, {c}) && c in s.tiles && !s.tiles[c].used
    requires n == Granules(request) && n + 2 <= s.tiles[c].size
    ensures var sz := s.tiles[c].size;
            && c in s.size && s.size[c].size == sz && c + n in s.size && c + n in s.prevSize && c + sz in s.prevSize
            && c + n >= 0 && c + n !in f.sizes && c + n in f.next && c + n in f.prev
            && HeadersAgree(f.sizes, s.size[c + n := Tag(sz - n, false)])
    ensures var s' := Cut(s, c, n, true, false, s.requested[c := request]);
            && KeepsOthers(s, s', c)
            && Sound(s', f.(sizes := f.sizes[c + n := s.tiles[c].size - n]), {})
  {
    TileBounds(s, c);
    LinkMapped(s, f, {c}, c, c + n);
    HeadersOk(s, f, {c});
    TakenPart(s, c, n, request);
    CutTags(s, c, n, true, false, s.requested[c := request]);
    hide PoolOk, Mapped, KeepsOthers;
  }

  /** Splitting a hole writes each tag once. */
  lemma CutWrites(s: Pool, c: int, n: nat, requested: map<int, nat>)
    requires c in s.tiles && n <= s.tiles[c].size
    ensures var s', sz := Cut(s, c, n, true, false, requested), s.tiles[c].size;
            && s'.size == s.size[c + n := Tag(sz - n, false)][c := Tag(n, true)]
            && s'.prevSize == s.prevSize[c + sz := Tag(sz - n, false)][c + n := Tag(n, true)]
            && s'.data == s.data - {2 * (c + n) + 1, 2 * (c + sz) + 1} - {2 * c + 1, 2 * (c + n) + 1}
            && s'.areas == s.areas && s'.requested == requested
  {
  }

  // ----- giving back -----

  /** Where the run of a chunk at p and its free neighbours starts, as its tags tell. */
  function RunStart(s: Pool, p: int): int {
    if p in s.prevSize && !s.prevSize[p].used then p - s.prevSize[p].size else p
  }

  /** And where it ends. */
  function RunEnd(s: Pool, p: int): int
    requires p in s.size
  {
    var e := p + s.size[p].size;
    if e in s.size && !s.size[e].used then e + s.size[e].size else e
  }

  /** c .. e is exactly a live chunk at p with the free chunks around it, as far as they reach. */
  ghost predicate RunAround(s: Pool, p: int, c: int, e: int) {
    && p in s.tiles && c <= p && p + s.tiles[p].size <= e && Run(s, c, e - c)
    && (forall q :: q in s.tiles && c <= q < e && q != p ==> !s.tiles[q].used)
    && (e in s.tiles ==> s.tiles[e].used)
    && (forall q :: q in s.tiles && q < c && q + s.tiles[q].size == c ==> s.tiles[q].used)
  }

  lemma NoneInside(areas: Areas, tiles: Tiles, p: int, q: int)
    requires TilesOk(areas, tiles) && p in tiles && q in tiles
    ensures !(p < q < p + tiles[p].size)
  {
    assert p < q ==> Apart(tiles, p, q);
  }

  lemma TagsTell(s: Pool, p: int)
    requires PoolOk(s) && p in s.tiles && s.tiles[p].used
    ensures p in s.size && p in s.prevSize && p + s.tiles[p].size in s.size && s.size[p].size == s.tiles[p].size
    ensures !s.prevSize[p].used ==> var c := RunStart(s, p);
              c in s.tiles && !s.tiles[c].used && c < p && s.tiles[c].size == p - c && s.tiles[c].home == s.tiles[p].home
    ensures var e := p + s.tiles[p].size;
            !s.size[e].used ==> e in s.tiles && !s.tiles[e].used && RunEnd(s, p) == e + s.tiles[e].size
    ensures RunAround(s, p, RunStart(s, p), RunEnd(s, p))
    ensures forall q :: q in s.tiles && RunStart(s, p) <= q < RunEnd(s, p)
              <==> q == p || q == RunStart(s, p) || (q == p + s.tiles[p].size && q < RunEnd(s, p))
  {
    TileBounds(s, p);
    PrevTag(s, p);
    NextTag(s, p);
    var c, e, f := RunStart(s, p), p + s.tiles[p].size, RunEnd(s, p);
    assert TileOk(s.areas, s.tiles, p) && TileOk(s.areas, s.tiles, c);
    assert Solo(s.tiles, c);
    if !s.size[e].used {
      assert TileOk(s.areas, s.tiles, e) && Solo(s.tiles, e);
    }
    forall q | q in s.tiles && c <= q < f
      ensures q == p || q == c || (q == e && q < f)
    {
      NoneInside(s.areas, s.tiles, c, q);
      NoneInside(s.areas, s.tiles, p, q);
      if !s.size[e].used {
        NoneInside(s.areas, s.tiles, e, q);
      }
    }
    forall q | q in s.tiles && q < c && q + s.tiles[q].size == c
      ensures s.tiles[q].used
    {
      assert Solo(s.tiles, q);
    }
  }

  lemma Freed(s: Pool, f: Filing, holes: set<int>, p: int, c: int, e: int)
    requires Sound(s, f, holes) && p in s.requested && RunAround(s, p, c, e)
    requires forall q :: q in holes <==> q in s.tiles && c <= q < e && q != p
    ensures var s' := Merged(s, c, e - c, false, s.requested - {p});
            Sound(s', f, {c}) && KeepsOthers(s, s', p) && c in s'.tiles && s'.tiles[c].size == e - c && !s'.tiles[c].used
  {
    FreedRun(s, p, c, e - c);
    FreedHoles(s, f, holes, p, c, e);
    hide PoolOk, Mapped, KeepsOthers, Listed, RunAround, Replace;
  }

  lemma FreedHoles(s: Pool, f: Filing, holes: set<int>, p: int, c: int, e: int)
    requires Listed(f.sizes, s.tiles, holes) && RunAround(s, p, c, e)
    requires forall q :: q in holes <==> q in s.tiles && c <= q < e && q != p
    requires p in s.tiles && s.tiles[p].used
    ensures var t := Replace(s.tiles, c, e - c, false);
            Listed(f.sizes, t, {c}) && c in t && t[c].size == e - c && !t[c].used
  {
  }

  lemma LiveTile(s: Pool, f: Filing, holes: set<int>, p: int)
    requires Sound(s, f, holes) && p in s.requested
    ensures PoolOk(s) && p in s.tiles && s.tiles[p].used
  {
  }

  lemma RunMapped(s: Pool, f: Filing, holes: set<int>, p: int, c: int, e: int)
    requires Sound(s, f, holes) && RunAround(s, p, c, e)
    ensures c in s.tiles && c in s.size && e in s.prevSize
  {
    TileBounds(s, c);
    var a := s.tiles[c].home;
    assert TileOk(s.areas, s.tiles, c);
    assert Spans(s.prevSize.Keys, a, s.areas[a]);
  }

  lemma Grown(s: Pool, f: Filing, holes: set<int>, p: int, c: int, e: int, request: nat, requested: map<int, nat>)
    requires Sound(s, f, holes) && p in s.requested && c <= p < e && Run(s, c, e - c)
    requires forall q :: q in s.tiles && c <= q < e && q != p ==> !s.tiles[q].used
    requires forall q :: q in holes <==> q in s.tiles && c <= q < e && q != p
    requires Granules(request) <= e - c < Granules(request) + 2
    requires forall q :: q in requested <==> q == c || (q in s.requested && q != p)
    requires forall q :: q in requested ==> requested[q] == if q == c || q !in s.requested then request else s.requested[q]
    ensures var s' := Merged(s, c, e - c, true, requested);
            Sound(s', f, {}) && KeepsOthers(s, s', p) && c in s'.tiles && s'.tiles[c].size == e - c
  {
    GrownRun(s, p, c, e - c, request, requested);
    hide PoolOk, Mapped, KeepsOthers;
  }

  // ----- areas -----

  lemma AreaMapped(before: Areas, a: int, n: nat, keys: set<int>, keys': set<int>)
    requires Mapped(before, keys)
    requires forall x :: a <= x <= a + n || x in keys ==> x in keys'
    ensures Mapped(before[a := n], keys')
  {
    var after := before[a := n];
    forall b | b in after
      ensures Spans(keys', b, after[b])
    {
      assert b in before ==> Spans(keys, b, before[b]);
    }
  }

  lemma FreshApart(s: Pool, f: Filing, a: int, n: nat)
    requires Sound(s, f, {}) && Fresh(s.areas, a, n)
    ensures a !in s.areas && a !in s.tiles
    ensures forall q :: q in f.sizes ==> !(a <= q <= a + n)
  {
    if a in s.tiles {
      FreshPositions(s.areas, s.tiles, a, n, a);
    }
    forall q | q in f.sizes
      ensures !(a <= q <= a + n)
    {
      FreshPositions(s.areas, s.tiles, a, n, q);
    }
  }

  /** A new area is one free chunk, not listed yet. */
  lemma Added(s: Pool, f: Filing, s': Pool, f': Filing, a: int, n: nat)
    requires Sound(s, f, {}) && AreaAdded(s, s', a, n) && Fresh(s.areas, a, n)
    requires n >= 2 && a >= 0 && ALIGN * n < 0x8000_0000
    requires f'.sizes == f.sizes
    requires forall x :: a <= x <= a + n || x in f.next ==> x in f'.next
    requires forall x :: a <= x <= a + n || x in f.prev ==> x in f'.prev
    ensures Sound(s', f', {a}) && KeepsOthers(s, s', NONE)
  {
    AddedArea(s, s', a, n);
    AreaMapped(s.areas, a, n, f.next, f'.next);
    AreaMapped(s.areas, a, n, f.prev, f'.prev);
    hide PoolOk, Mapped, KeepsOthers;
  }

  lemma AreaUnmapped(s: Pool, a: int, keys: set<int>, keys': set<int>)
    requires PoolOk(s) && a in s.areas && Mapped(s.areas, keys)
    requires forall x :: !(a <= x <= a + s.areas[a]) && x in keys ==> x in keys'
    ensures Mapped(s.areas - {a}, keys')
  {
    var after := s.areas - {a};
    forall b | b in after
      ensures Spans(keys', b, after[b])
    {
      assert Spans(keys, b, s.areas[b]);
      assert a < b ==> Clear(s.areas, a, b);
      assert b < a ==> Clear(s.areas, b, a);
    }
  }

  lemma Removed(s: Pool, f: Filing, s': Pool, f': Filing, a: int)
    requires Sound(s, f, {a}) && a in s.areas && AreaRemoved(s, s', a)
    requires !s.tiles[a].used && s.tiles[a].size == s.areas[a]
    requires f'.sizes == f.sizes
    requires forall x :: !(a <= x <= a + s.areas[a]) && x in f.next ==> x in f'.next
    requires forall x :: !(a <= x <= a + s.areas[a]) && x in f.prev ==> x in f'.prev
    ensures Sound(s', f', {}) && KeepsOthers(s, s', NONE)
  {
    RemovedArea(s, s', a);
    AreaUnmapped(s, a, f.next, f'.next);
    AreaUnmapped(s, a, f.prev, f'.prev);
    hide PoolOk, Mapped, KeepsOthers;
  }

  /** No listed chunk lies in an area that is one chunk out of the lists. */
  lemma AreaUnlisted(s: Pool, f: Filing, a: int)
    requires Sound(s, f, {a}) && a in s.areas && s.tiles[a].size == s.areas[a]
    ensures forall q :: q in f.sizes ==> !(a <= q <= a + s.areas[a])
  {
    forall q | q in f.sizes
      ensures !(a <= q <= a + s.areas[a])
    {
      OtherArea(s.areas, s.tiles, a, q);
    }
  }

  // ----- starting over -----

  /** No word has gone. */
  ghost predicate KeepsWords(m: Tags, m': Tags) {
    forall x :: x in m ==> x in m'
  }

  lemma WordsKept(m: Tags)
    ensures KeepsWords(m, m)
  {
  }

  lemma WordsKeptTwice(m: Tags, m': Tags, m'': Tags)
    requires KeepsWords(m, m') && KeepsWords(m', m'')
    ensures KeepsWords(m, m'')
  {
  }

  /** The pool before any of its areas is set up again. */
  lemma NothingSound(s: Pool, f: Filing)
    requires s.tiles == map[] && s.requested == map[] && f.sizes == map[]
    ensures Sound(s.(areas := map[]), f, {})
  {
  }

  /** Areas that can be set up: large enough, apart, and all their header words present. */
  ghost predicate Sites(s: Pool, f: Filing) {
    && AreasOk(s.areas) && Bounded(s.areas)
    && Mapped(s.areas, s.size.Keys) && Mapped(s.areas, s.prevSize.Keys) && Mapped(s.areas, f.next) && Mapped(s.areas, f.prev)
  }

  lemma SoundSites(s: Pool, f: Filing, holes: set<int>)
    requires Sound(s, f, holes)
    ensures Sites(s, f)
  {
  }

  lemma SitesAre(s: Pool, f: Filing, a: int)
    requires Sites(s, f) && a in s.areas
    ensures a >= 0 && s.areas[a] >= 2 && a in s.size && a + s.areas[a] in s.size
    ensures a in s.prevSize && a + s.areas[a] in s.prevSize
    ensures forall x :: a <= x <= a + s.areas[a] ==> x in s.size && x in s.prevSize
  {
    var n := s.areas[a];
    assert Spans(s.size.Keys, a, n) && Spans(s.prevSize.Keys, a, n);
  }

  lemma SitesKept(s: Pool, f: Filing, s': Pool, f': Filing)
    requires Sites(s, f) && s'.areas == s.areas
    requires forall x :: x in s.size ==> x in s'.size
    requires forall x :: x in s.prevSize ==> x in s'.prevSize
    requires f.next <= f'.next && f.prev <= f'.prev
    ensures Sites(s', f')
  {
    MappedUpdate(s.areas, s.size.Keys, s'.size.Keys);
    MappedUpdate(s.areas, s.prevSize.Keys, s'.prevSize.Keys);
    MappedUpdate(s.areas, f.next, f'.next);
    MappedUpdate(s.areas, f.prev, f'.prev);
  }

  /** One area more is set up, as one free chunk. */
  lemma SetUp(s: Pool, s': Pool, f: Filing, rest: set<int>, a: int)
    requires Sites(s, f) && a in s.areas && a in rest && s'.areas == s.areas
    requires Sound(s.(areas := s.areas - rest), f, {})
    requires AreaAdded(s.(areas := map[]), s'.(areas := map[a := s.areas[a]]), a, s.areas[a])
    ensures Sound(s'.(areas := s.areas - (rest - {a})), f, {a})
    ensures a in s'.tiles && !s'.tiles[a].used
    ensures f.sizes.Keys !! {a}
  {
    var part, n := s.areas - rest, s.areas[a];
    var part' := s.areas - (rest - {a});
    assert part' == part[a := n];
    forall b | b in part
      ensures a + n < b || b + part[b] < a
    {
      assert a < b ==> Clear(s.areas, a, b);
      assert b < a ==> Clear(s.areas, b, a);
    }
    assert Spans(f.next, a, n) && Spans(f.prev, a, n);
    FreshApart(s.(areas := part), f, a, n);
    hide PoolOk, Mapped, Listed;
    Added(s.(areas := part), f, s'.(areas := part'), f, a, n);
  }

  lemma AllSetUp(s: Pool, f: Filing, rest: set<int>)
    requires Sound(s.(areas := s.areas - rest), f, {}) && forall a :: a !in rest
    ensures Sound(s, f, {})
  {
    assert (forall a :: a !in rest) ==> rest == {};
    assert s.areas - rest == s.areas;
  }

  // ----- splitting a live chunk -----

  lemma LivePart(s: Pool, f: Filing, c: int, n: nat, request: nat, rest: nat)
    requires Sound(s, f, {}) && c in s.requested
    requires n == Granules(request) && n + 2 <= s.tiles[c].size && Granules(rest) == s.tiles[c].size - n
    ensures c + n !in s.tiles
    ensures var s' := Cut(s, c, n, true, true, s.requested[c := request][c + n := rest]);
            Sound(s', f, {}) && KeepsOthers(s, s', c)
  {
    CutLive(s, c, n, request, rest);
    CutTags(s, c, n, true, true, s.requested[c := request][c + n := rest]);
    hide PoolOk, Mapped, KeepsOthers;
  }

  /** A request that a chunk of n granules serves exactly. */
  function Filling(n: nat): nat
    requires n >= 2
  {
    ALIGN * n - HEADER
  }

  lemma FillingFits(n: nat)
    requires n >= 2
    ensures Granules(Filling(n)) == n
  {
    RoundsDown(ALIGN * n + ALIGN_MASK);
  }

  // ----- what the debug checks look at -----

  /** The two copies of a chunk's size word agree. */
  predicate CheckChunk(size: Tags, prevSize: Tags, p: int) {
    p in size && p + size[p].size in prevSize && size[p] == prevSize[p + size[p].size]
  }

  predicate CheckFreeChunk(size: Tags, prevSize: Tags, sane: bool, p: int) {
    && CheckChunk(size, prevSize, p) && !size[p].used
    && if size[p].size >= 2
       then p in prevSize && prevSize[p].used && p + size[p].size in size && size[p + size[p].size].used && sane
       else size[p].size == 0
  }

  lemma FollowerUsed(s: Pool, q: int)
    requires PoolOk(s) && q in s.tiles && !s.tiles[q].used
    ensures q + s.tiles[q].size in s.tiles ==> s.tiles[q + s.tiles[q].size].used
  {
    assert Solo(s.tiles, q);
  }

  lemma FreeChunkPasses(s: Pool, p: int)
    requires PoolOk(s) && p in s.tiles && !s.tiles[p].used
    ensures CheckFreeChunk(s.size, s.prevSize, true, p)
  {
    TileBounds(s, p);
    PrevTag(s, p);
    NextTag(s, p);
    assert TagAt(s.tiles, s.size, s.prevSize, p) && Solo(s.tiles, p);
    if !s.prevSize[p].used {
      FollowerUsed(s, p - s.prevSize[p].size);
    }
  }

  lemma ChunkPasses(s: Pool, p: int)
    requires PoolOk(s) && p in s.tiles && s.tiles[p].used
    ensures CheckChunk(s.size, s.prevSize, p) && s.size[p].used && p in s.prevSize
    ensures !s.prevSize[p].used ==> var q := p - s.prevSize[p].size;
              && s.prevSize[p].size > 0 && q in s.tiles && !s.tiles[q].used && q in s.size && q + s.size[q].size == p
    ensures var e := p + s.size[p].size; e in s.size && (!s.size[e].used ==> e in s.tiles && !s.tiles[e].used)
  {
    TileBounds(s, p);
    PrevTag(s, p);
    NextTag(s, p);
    assert TagAt(s.tiles, s.size, s.prevSize, p);
    if !s.prevSize[p].used {
      TileBounds(s, p - s.prevSize[p].size);
    }
  }

  /** Where a walk over the chunks of an area can be: at a chunk of it, or at its end marker. */
  ghost predicate OnPath(s: Pool, a: int, p: int) {
    a in s.areas && Boundary(s.areas, s.tiles, a, p)
  }

  lemma WalkStart(s: Pool, a: int)
    requires PoolOk(s) && a in s.areas
    ensures OnPath(s, a, a) && a in s.prevSize && s.prevSize[a].used
  {
    assert MarksAt(s.areas, s.size, s.prevSize, a);
  }

  lemma WalkStep(s: Pool, a: int, p: int)
    requires PoolOk(s) && OnPath(s, a, p)
    ensures p in s.size && (s.size[p] == MARKER <==> p == a + s.areas[a])
    ensures p < a + s.areas[a] ==> p in s.tiles && s.tiles[p].home == a && s.size[p] == TagOf(s.tiles[p])
    ensures p < a + s.areas[a] ==> var e := p + s.tiles[p].size;
              && e > p && OnPath(s, a, e)
              && forall q :: q in s.tiles && s.tiles[q].home == a && p < q ==> e <= q
  {
    assert MarksAt(s.areas, s.size, s.prevSize, a);
    if p < a + s.areas[a] {
      TileBounds(s, p);
      assert TileOk(s.areas, s.tiles, p);
      forall q | q in s.tiles && s.tiles[q].home == a && p < q
        ensures p + s.tiles[p].size <= q
      {
        NoneInside(s.areas, s.tiles, p, q);
      }
    }
  }

  lemma PathBound(s: Pool, a: int, p: int)
    requires OnPath(s, a, p)
    ensures p <= a + s.areas[a]
  {
  }

  lemma HeaderOf(sizes: Sizes, headers: Tags, p: int)
    requires HeadersAgree(sizes, headers) && p in sizes
    ensures p in headers && headers[p].size == sizes[p]
  {
  }

  lemma WalkAll(s: Pool, a: int, q: int)
    requires PoolOk(s) && a in s.areas && q in s.tiles && s.tiles[q].home == a
    ensures a <= q < a + s.areas[a]
  {
    assert TileOk(s.areas, s.tiles, q);
  }
}
