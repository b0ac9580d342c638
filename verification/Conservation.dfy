/** Nothing is lost: chunks fill their areas, so live and free granules add up to all there are. */
module Conservation {
  import opened MapSums
  import opened Tiling

  ghost function SizesOf(tiles: Tiles): map<int, nat> {
    map p | p in tiles :: tiles[p].size
  }

  lemma {:induction false} FewerKeys<T>(m: map<int, T>, k: int, m': map<int, T>)
    requires k in m && forall q :: q in m' <==> q in m && q != k
    ensures |m'| < |m|
  {
    var keys := m.Keys - {k};
    assert (forall q :: q in m'.Keys <==> q in keys) ==> m'.Keys == keys;
    assert |keys| == |m.Keys| - 1;
  }

  /** The chunks of all areas together are as long as the areas together. */
  lemma {:induction false} TilesFill(areas: Areas, tiles: Tiles)
    requires TilesOk(areas, tiles)
    ensures Total(SizesOf(tiles)) == Total(areas)
    decreases |tiles|
  {
    hide Total, TilesOk;
    if |areas| == 0 {
      NoTiles(areas, tiles);
      TotalNone(areas);
      TotalNone(SizesOf(tiles));
    } else {
      SomeKey(areas);
      var a :| a in areas;
      FirstTile(areas, tiles, a);
      if tiles[a].size == areas[a] {
        FillWithout(areas, tiles, a);
      } else {
        FillMerged(areas, tiles, a, a + tiles[a].size);
      }
    }
  }

  lemma NoTiles(areas: Areas, tiles: Tiles)
    requires TilesOk(areas, tiles) && |areas| == 0
    ensures |SizesOf(tiles)| == 0
  {
    forall p
      ensures p !in SizesOf(tiles)
    {
      assert p in tiles ==> TileOk(areas, tiles, p);
    }
    assert |SizesOf(tiles)| != 0 ==> exists p :: p in SizesOf(tiles) by {
      if |SizesOf(tiles)| != 0 {
        SomeKey(SizesOf(tiles));
      }
    }
  }

  lemma FirstTile(areas: Areas, tiles: Tiles, a: int)
    requires TilesOk(areas, tiles) && a in areas
    ensures a in tiles && tiles[a].home == a && tiles[a].size >= 2
    ensures tiles[a].size != areas[a] ==> var e := a + tiles[a].size; e in tiles && tiles[e].home == a
  {
    assert TileOk(areas, tiles, a);
  }

  lemma {:induction false} FillWithout(areas: Areas, tiles: Tiles, a: int)
    requires TilesOk(areas, tiles) && a in areas && a in tiles && tiles[a].size == areas[a]
    ensures Total(SizesOf(tiles)) == Total(areas)
    decreases |tiles|, 0
  {
    var sizes, rest := SizesOf(tiles), tiles - {a};
    RemoveAreaOk(areas, tiles, a);
    FewerKeys(tiles, a, rest);
    hide Total, TilesOk;
    TotalRemove(areas, a);
    TotalRemove(sizes, a);
    TotalSame(sizes - {a}, SizesOf(rest));
    TilesFill(areas - {a}, rest);
  }

  /** Joining the first two chunks of an area changes neither sum. */
  lemma {:induction false} FillMerged(areas: Areas, tiles: Tiles, a: int, e: int)
    requires TilesOk(areas, tiles) && a in areas && a in tiles && tiles[a].home == a && tiles[a].size >= 2
    requires e == a + tiles[a].size && e in tiles && tiles[e].home == a
    ensures Total(SizesOf(tiles)) == Total(areas)
    decreases |tiles|, 0
  {
    hide Total, TilesOk, Replace;
    var t := Replace(tiles, a, tiles[a].size + tiles[e].size, true);
    JoinFirst(areas, tiles, a, e);
    FewerKeys(tiles, e, t);
    var sizes, sizes' := SizesOf(tiles), SizesOf(t);
    TotalRemove(sizes, a);
    TotalRemove(sizes - {a}, e);
    TotalRemove(sizes', a);
    SameRest(sizes, sizes', a, e);
    TilesFill(areas, t);
  }

  lemma SameRest(sizes: map<int, nat>, sizes': map<int, nat>, a: int, e: int)
    requires a != e && forall q :: q in sizes' <==> q in sizes && q != e
    requires forall q :: q in sizes' && q in sizes && q != a ==> sizes'[q] == sizes[q]
    ensures Total(sizes - {a} - {e}) == Total(sizes' - {a})
  {
    hide Total;
    TotalSame(sizes - {a} - {e}, sizes' - {a});
  }

  lemma JoinFirst(areas: Areas, tiles: Tiles, a: int, e: int)
    requires TilesOk(areas, tiles) && a in areas && a in tiles && tiles[a].home == a
    requires e == a + tiles[a].size && e in tiles && tiles[e].home == a && tiles[a].size >= 2
    ensures var t := Replace(tiles, a, tiles[a].size + tiles[e].size, true);
            && TilesOk(areas, t) && (forall q :: q in t <==> q in tiles && q != e)
            && (forall q :: q in t && q in tiles ==> t[q].size == if q == a then tiles[a].size + tiles[e].size else tiles[q].size)
  {
    assert TileOk(areas, tiles, a) && TileOk(areas, tiles, e);
    ReplaceOk(areas, tiles, a, tiles[a].size + tiles[e].size, true);
    forall q | q in tiles && a < q < a + tiles[a].size + tiles[e].size
      ensures q == e
    {
      assert Apart(tiles, a, q);
      assert q > e ==> Apart(tiles, e, q);
    }
  }

  /** In use and free granules add up to the areas. */
  lemma LiveAndFree(areas: Areas, tiles: Tiles)
    requires TilesOk(areas, tiles)
    ensures Total(LiveOf(tiles)) + Total(FreeOf(tiles)) == Total(areas)
  {
    TilesFill(areas, tiles);
    hide Total, TilesOk;
    TotalSplit(SizesOf(tiles), LiveOf(tiles), FreeOf(tiles));
  }
}
