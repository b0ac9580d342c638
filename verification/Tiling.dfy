/** How chunks tile areas, in granules of 64 bytes. Position p stands for the chunk header at
    byte address 64 p + 32; an area of n granules based at a has its end marker at a + n. */
module Tiling {

  /** A chunk: its length, whether it is in use, and the area it lies in. */
  datatype Tile = Tile(size: nat, used: bool, home: int)

  type Tiles = map<int, Tile>

  /** Area bases and lengths. */
  type Areas = map<int, nat>

  ghost predicate Clear(areas: Areas, a: int, b: int)
    requires a in areas && b in areas
  {
    a + areas[a] < b
  }

  /** Areas are large enough for a chunk and keep apart, end markers included. */
  ghost predicate AreasOk(areas: Areas) {
    && (forall a :: a in areas ==> areas[a] >= 2)
    && (forall a, b {:trigger Clear(areas, a, b)} :: a in areas && b in areas && a < b ==> Clear(areas, a, b))
  }

  /** x is where an area based at a ends, or where another of its chunks starts. */
  ghost predicate Boundary(areas: Areas, tiles: Tiles, a: int, x: int) {
    && a in areas
    && (x == a + areas[a] || (x < a + areas[a] && x in tiles && tiles[x].home == a))
  }

  ghost predicate TileOk(areas: Areas, tiles: Tiles, p: int)
    requires p in tiles
  {
    var t := tiles[p];
    && t.size >= 2
    && t.home in areas && t.home <= p && p + t.size <= t.home + areas[t.home]
    && Boundary(areas, tiles, t.home, p + t.size)
  }

  ghost predicate Apart(tiles: Tiles, p: int, q: int)
    requires p in tiles && q in tiles
  {
    p + tiles[p].size <= q
  }

  /** Chunks follow one another from each area's base to its end, without overlap. */
  ghost predicate TilesOk(areas: Areas, tiles: Tiles) {
    && AreasOk(areas)
    && (forall a :: a in areas ==> a in tiles && tiles[a].home == a)
    && (forall p {:trigger TileOk(areas, tiles, p)} :: p in tiles ==> TileOk(areas, tiles, p))
    && (forall p, q {:trigger Apart(tiles, p, q)} :: p in tiles && q in tiles && p < q ==> Apart(tiles, p, q))
  }

  // ----- changes -----

  /** One chunk of the given length at c in place of whatever chunks it covers. */
  ghost function Replace(tiles: Tiles, c: int, total: nat, used: bool): Tiles
    requires c in tiles
  {
    map p | p in tiles && !(c < p < c + total) :: if p == c then Tile(total, used, tiles[c].home) else tiles[p]
  }

  /** The chunk at p cut in two, n granules staying below. */
  ghost function Carve(tiles: Tiles, p: int, n: nat, low: bool, high: bool): Tiles
    requires p in tiles && n <= tiles[p].size
  {
    tiles[p := Tile(n, low, tiles[p].home)][p + n := Tile(tiles[p].size - n, high, tiles[p].home)]
  }

  lemma ReplaceOk(areas: Areas, tiles: Tiles, c: int, total: nat, used: bool)
    requires TilesOk(areas, tiles) && c in tiles && total >= 2
    requires Boundary(areas, tiles, tiles[c].home, c + total)
    ensures TilesOk(areas, Replace(tiles, c, total, used))
  {
    var t, h := Replace(tiles, c, total, used), tiles[c].home;
    assert TileOk(areas, tiles, c);
    forall a | a in areas
      ensures a in t && t[a].home == a
    {
      if a < h {
        assert Clear(areas, a, h);
      } else if h < a {
        assert Clear(areas, h, a);
      }
    }
    forall p | p in t
      ensures TileOk(areas, t, p)
    {
      assert TileOk(areas, tiles, p);
      assert p < c ==> Apart(tiles, p, c);
    }
    forall p, q | p in t && q in t && p < q
      ensures Apart(t, p, q)
    {
      assert Apart(tiles, p, q);
    }
  }

  lemma CarveOk(areas: Areas, tiles: Tiles, p: int, n: nat, low: bool, high: bool)
    requires TilesOk(areas, tiles) && p in tiles && 2 <= n && n + 2 <= tiles[p].size
    ensures p + n !in tiles
    ensures TilesOk(areas, Carve(tiles, p, n, low, high))
  {
    assert TileOk(areas, tiles, p);
    assert p + n in tiles ==> Apart(tiles, p, p + n);
    var t := Carve(tiles, p, n, low, high);
    forall q | q in t
      ensures TileOk(areas, t, q)
    {
      if q in tiles {
        assert TileOk(areas, tiles, q);
      }
    }
    forall q, r | q in t && r in t && q < r
      ensures Apart(t, q, r)
    {
      if q in tiles && r in tiles {
        assert Apart(tiles, q, r);
      } else if q in tiles {
        assert q < p ==> Apart(tiles, q, p);
        assert p < q ==> Apart(tiles, p, q);
      } else {
        assert p < r;
        assert Apart(tiles, p, r);
      }
    }
  }

  /** An area that keeps clear of the others, end markers included. */
  ghost predicate Fresh(areas: Areas, a: int, n: nat) {
    forall b :: b in areas ==> a + n < b || b + areas[b] < a
  }

  lemma FreshPositions(areas: Areas, tiles: Tiles, a: int, n: nat, p: int)
    requires TilesOk(areas, tiles) && Fresh(areas, a, n) && p in tiles
    ensures p + tiles[p].size < a || a + n < p
  {
    assert TileOk(areas, tiles, p);
  }

  lemma AddAreaOk(areas: Areas, tiles: Tiles, a: int, n: nat, used: bool)
    requires TilesOk(areas, tiles) && Fresh(areas, a, n) && n >= 2
    ensures a !in tiles && a !in areas
    ensures TilesOk(areas[a := n], tiles[a := Tile(n, used, a)])
  {
    var areas', t := areas[a := n], tiles[a := Tile(n, used, a)];
    if a in tiles {
      FreshPositions(areas, tiles, a, n, a);
    }
    forall b, c | b in areas' && c in areas' && b < c
      ensures Clear(areas', b, c)
    {
      if b != a && c != a {
        assert Clear(areas, b, c);
      }
    }
    forall p | p in t
      ensures TileOk(areas', t, p)
    {
      if p != a {
        assert TileOk(areas, tiles, p);
        FreshPositions(areas, tiles, a, n, p);
      }
    }
    forall p, q | p in t && q in t && p < q
      ensures Apart(t, p, q)
    {
      if p != a && q != a {
        assert Apart(tiles, p, q);
      } else if p != a {
        FreshPositions(areas, tiles, a, n, p);
      } else {
        FreshPositions(areas, tiles, a, n, q);
      }
    }
  }

  lemma OnlyTile(areas: Areas, tiles: Tiles, a: int, q: int)
    requires TilesOk(areas, tiles) && a in areas && tiles[a].size == areas[a]
    requires q in tiles && tiles[q].home == a
    ensures q == a
  {
    assert TileOk(areas, tiles, q);
    assert a < q ==> Apart(tiles, a, q);
  }

  lemma RemoveAreaOk(areas: Areas, tiles: Tiles, a: int)
    requires TilesOk(areas, tiles) && a in areas && tiles[a].size == areas[a]
    ensures TilesOk(areas - {a}, tiles - {a})
  {
    var areas', t := areas - {a}, tiles - {a};
    forall b, c | b in areas' && c in areas' && b < c
      ensures Clear(areas', b, c)
    {
      assert Clear(areas, b, c);
    }
    forall p | p in t
      ensures TileOk(areas', t, p)
    {
      assert TileOk(areas, tiles, p);
      if tiles[p].home == a {
        OnlyTile(areas, tiles, a, p);
      }
    }
    forall p, q | p in t && q in t && p < q
      ensures Apart(t, p, q)
    {
      assert Apart(tiles, p, q);
    }
  }

  // ----- free and live chunks -----

  /** Free chunks and their lengths. */
  ghost function FreeOf(tiles: Tiles): map<int, nat> {
    map p | p in tiles && !tiles[p].used :: tiles[p].size
  }

  /** Chunks in use and their lengths. */
  ghost function LiveOf(tiles: Tiles): map<int, nat> {
    map p | p in tiles && tiles[p].used :: tiles[p].size
  }

  /** The chunk after a free chunk is in use. */
  ghost predicate Solo(tiles: Tiles, p: int)
    requires p in tiles
  {
    !tiles[p].used && p + tiles[p].size in tiles ==> tiles[p + tiles[p].size].used
  }

  /** No two free chunks touch. */
  ghost predicate Coalesced(tiles: Tiles) {
    forall p {:trigger Solo(tiles, p)} :: p in tiles ==> Solo(tiles, p)
  }
}
