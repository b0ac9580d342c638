/** The exit of Alloc that splits a new area without looking at what is left over: exactly when the
    words it writes can be read as a pool at all. */
module AreaSplits {
  import opened ChunkSizes
  import opened Tiling
  import opened BoundaryTags
  import opened PoolState
  import opened PoolSteps
  import opened PoolCalls

  /** The writes of the split, in the program's order: the remainder's tags, then the block's. */
  ghost function SplitWrites(s: Pool, a: int, n: nat, rest: nat): Pool {
    s.(size := s.size[a + n := Tag(rest, false)][a := Tag(n, true)],
       prevSize := s.prevSize[a + n + rest := Tag(rest, false)][a + n := Tag(n, true)],
       data := s.data - {2 * (a + n) + 1, 2 * (a + n + rest) + 1} - {2 * a + 1, 2 * (a + n) + 1})
  }

  /** Some reading of the words satisfies the consistency check. */
  ghost predicate Readable(s: Pool) {
    exists tiles: Tiles, requested: map<int, nat> {:trigger Reading(s, tiles, requested)} :: PoolOk(Reading(s, tiles, requested))
  }

  ghost function Reading(s: Pool, tiles: Tiles, requested: map<int, nat>): Pool {
    s.(tiles := tiles, requested := requested)
  }

  ghost predicate NewArea(s: Pool, a: int, n: nat, rest: nat) {
    && PoolOk(s) && n >= 2 && a in s.areas && s.areas[a] == n + rest
    && a in s.tiles && s.tiles[a] == Tile(n + rest, false, a)
  }

  lemma TightIsUnreadable(s: Pool, a: int, n: nat, rest: nat, tiles: Tiles, requested: map<int, nat>)
    requires a in s.areas && s.areas[a] == n + rest && rest < 2 && n >= 2
    ensures !PoolOk(Reading(SplitWrites(s, a, n, rest), tiles, requested))
  {
    var s' := Reading(SplitWrites(s, a, n, rest), tiles, requested);
    if PoolOk(s') {
      TileBounds(s', a);
      NextTag(s', a);
      WholeAreaTags(s', a);
      if rest == 1 {
        TileBounds(s', a + n);
      }
      assert false;
    }
  }

  /** Splitting a new area of n + rest granules leaves words that can be read as a pool exactly when
      a minimal chunk is left over. */
  lemma SplitReadableIff(s: Pool, a: int, n: nat, rest: nat)
    requires NewArea(s, a, n, rest)
    ensures Readable(SplitWrites(s, a, n, rest)) <==> rest >= 2
  {
    var w := SplitWrites(s, a, n, rest);
    if rest >= 2 {
      FillingFits(n);
      TakenPart(s, a, n, Filling(n));
      var s' := Cut(s, a, n, true, false, s.requested[a := Filling(n)]);
      assert Reading(w, s'.tiles, s'.requested) == s';
    } else {
      forall tiles: Tiles, requested: map<int, nat>
        ensures !PoolOk(Reading(w, tiles, requested))
      {
        TightIsUnreadable(s, a, n, rest, tiles, requested);
      }
    }
  }

  /** The area a growing pool gets for a request of exactly its growth size, 5 granules. */
  function TightPool(): Pool {
    var x := Tag(0, false);
    Pool(map[0 := 5], map[0 := Tile(5, false, 0)],
         map[0 := Tag(5, false), 1 := x, 2 := x, 3 := x, 4 := x, 5 := MARKER],
         map[0 := MARKER, 1 := x, 2 := x, 3 := x, 4 := x, 5 := Tag(5, false)],
         map[], map[])
  }

  /** A first request of 288 bytes to a pool that grows by 5 granules: the pool is in order before
      the split, and nothing that can be called a pool after it. */
  lemma TightExample()
    ensures Granules(288) == 5 && Started(TightPool()) && NewArea(TightPool(), 0, 5, 0)
    ensures !Readable(SplitWrites(TightPool(), 0, 5, 0))
  {
    RequestToSizeIsLeast(288);
    assert (ALIGN * 5) % ALIGN == 0;
    var s := TightPool();
    assert AreaAdded(EmptyPool(), s, 0, 5);
    assert GotArea(EmptyPool(), s, 0, 5);
    StartedOk(s);
    hide PoolOk;
    SplitReadableIff(s, 0, 5, 0);
  }
}
