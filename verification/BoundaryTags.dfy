/** The size words that tie neighbouring chunks together: every chunk stores its size and its
    in-use bit twice, in its own header and in the header after it. */
module BoundaryTags {
  import opened Tiling

  /** The size (in granules) and in-use bit packed in one word. */
  datatype Tag = Tag(size: nat, used: bool)

  type Tags = map<int, Tag>

  /** What an area's two ends pretend their outer neighbours to be. */
  const MARKER := Tag(0, true)

  function TagOf(t: Tile): Tag {
    Tag(t.size, t.used)
  }

  /** Chunk p's two copies agree with the tiling. */
  ghost predicate TagAt(tiles: Tiles, size: Tags, prevSize: Tags, p: int)
    requires p in tiles
  {
    var q := p + tiles[p].size;
    p in size && size[p] == TagOf(tiles[p]) && q in prevSize && prevSize[q] == TagOf(tiles[p])
  }

  /** Unless it starts its area, chunk p finds the chunk before it through its prevSize. */
  ghost predicate PredAt(tiles: Tiles, prevSize: Tags, p: int)
    requires p in tiles
  {
    p in prevSize
    && (p != tiles[p].home ==>
          var q := p - prevSize[p].size;
          q in tiles && q < p && q + tiles[q].size == p && tiles[q].home == tiles[p].home)
  }

  ghost predicate MarksAt(areas: Areas, size: Tags, prevSize: Tags, a: int)
    requires a in areas
  {
    var e := a + areas[a];
    a in prevSize && prevSize[a] == MARKER && e in size && size[e] == MARKER
  }

  ghost predicate TagsOk(areas: Areas, tiles: Tiles, size: Tags, prevSize: Tags) {
    && (forall p {:trigger TagAt(tiles, size, prevSize, p)} :: p in tiles ==> TagAt(tiles, size, prevSize, p))
    && (forall p {:trigger PredAt(tiles, prevSize, p)} :: p in tiles ==> PredAt(tiles, prevSize, p))
    && (forall a {:trigger MarksAt(areas, size, prevSize, a)} :: a in areas ==> MarksAt(areas, size, prevSize, a))
  }

  /** Every header position of an area, its end marker's included, is mapped. */
  ghost predicate Spans(keys: set<int>, a: int, n: nat) {
    forall x :: a <= x <= a + n ==> x in keys
  }

  ghost predicate Mapped(areas: Areas, keys: set<int>) {
    forall a :: a in areas ==> Spans(keys, a, areas[a])
  }

  /** No chunk starts where an area ends, and no area starts or ends inside another. */
  lemma EndsApart(areas: Areas, tiles: Tiles, a: int, p: int)
    requires TilesOk(areas, tiles) && a in areas && p in tiles
    ensures a + areas[a] != p
    ensures a + areas[a] == p + tiles[p].size ==> tiles[p].home == a
    ensures a != p + tiles[p].size || tiles[p].home == a
    ensures a == p ==> tiles[p].home == a
  {
    assert TileOk(areas, tiles, p);
    var h := tiles[p].home;
    assert a < h ==> Clear(areas, a, h);
    assert h < a ==> Clear(areas, h, a);
  }

  /** Two chunks never end at the same place. */
  lemma EndsDiffer(areas: Areas, tiles: Tiles, p: int, q: int)
    requires TilesOk(areas, tiles) && p in tiles && q in tiles && p != q
    ensures p + tiles[p].size != q + tiles[q].size
  {
    assert TileOk(areas, tiles, p) && TileOk(areas, tiles, q);
    assert p < q ==> Apart(tiles, p, q);
    assert q < p ==> Apart(tiles, q, p);
  }

  lemma TagsReplace(areas: Areas, tiles: Tiles, size: Tags, prevSize: Tags, c: int, total: nat, used: bool)
    requires TilesOk(areas, tiles) && TagsOk(areas, tiles, size, prevSize)
    requires c in tiles && total >= 2 && Boundary(areas, tiles, tiles[c].home, c + total)
    ensures TagsOk(areas, Replace(tiles, c, total, used), size[c := Tag(total, used)], prevSize[c + total := Tag(total, used)])
  {
    var t := Replace(tiles, c, total, used);
    var size', prevSize' := size[c := Tag(total, used)], prevSize[c + total := Tag(total, used)];
    ReplacedIn(tiles, c, total, used);
    hide Replace, TagAt, PredAt, MarksAt, TilesOk, Boundary;
    forall p | p in t
      ensures TagAt(t, size', prevSize', p) && PredAt(t, prevSize', p)
    {
      assert p in tiles;
      assert TagAt(tiles, size, prevSize, p) && PredAt(tiles, prevSize, p);
      ReplaceTag(areas, tiles, size, prevSize, c, total, used, p);
      ReplacePred(areas, tiles, prevSize, c, total, used, p);
    }
    forall a | a in areas
      ensures MarksAt(areas, size', prevSize', a)
    {
      assert MarksAt(areas, size, prevSize, a);
      ReplaceMarks(areas, tiles, size, prevSize, c, total, used, a);
    }
  }

  lemma ReplacedIn(tiles: Tiles, c: int, total: nat, used: bool)
    requires c in tiles
    ensures forall p :: p in Replace(tiles, c, total, used) ==> p in tiles
  {
  }

  lemma ReplaceTag(areas: Areas, tiles: Tiles, size: Tags, prevSize: Tags, c: int, total: nat, used: bool, p: int)
    requires TilesOk(areas, tiles) && c in tiles && total >= 2 && Boundary(areas, tiles, tiles[c].home, c + total)
    requires p in tiles && p in Replace(tiles, c, total, used) && TagAt(tiles, size, prevSize, p)
    ensures TagAt(Replace(tiles, c, total, used), size[c := Tag(total, used)], prevSize[c + total := Tag(total, used)], p)
  {
    ReplaceOk(areas, tiles, c, total, used);
    if p != c {
      EndsDiffer(areas, Replace(tiles, c, total, used), p, c);
    }
  }

  lemma ReplacePred(areas: Areas, tiles: Tiles, prevSize: Tags, c: int, total: nat, used: bool, p: int)
    requires TilesOk(areas, tiles) && c in tiles && total >= 2 && Boundary(areas, tiles, tiles[c].home, c + total)
    requires p in tiles && p in Replace(tiles, c, total, used) && PredAt(tiles, prevSize, p)
    ensures PredAt(Replace(tiles, c, total, used), prevSize[c + total := Tag(total, used)], p)
  {
    assert TileOk(areas, tiles, c);
    assert c + total in tiles ==> Apart(tiles, c, c + total);
    if p == c + total {
      EndsApart(areas, tiles, tiles[c].home, p);
    } else if p != tiles[p].home {
      var q := p - prevSize[p].size;
      if c < q < c + total {
        PredStaysOut(areas, tiles, c, total, q);
      }
    }
  }

  lemma ReplaceMarks(areas: Areas, tiles: Tiles, size: Tags, prevSize: Tags, c: int, total: nat, used: bool, a: int)
    requires TilesOk(areas, tiles) && c in tiles && total >= 2 && Boundary(areas, tiles, tiles[c].home, c + total)
    requires a in areas && MarksAt(areas, size, prevSize, a)
    ensures MarksAt(areas, size[c := Tag(total, used)], prevSize[c + total := Tag(total, used)], a)
  {
    var t := Replace(tiles, c, total, used);
    ReplaceOk(areas, tiles, c, total, used);
    assert TileOk(areas, t, c);
    EndsApart(areas, t, a, c);
  }

  /** A chunk inside a replaced run ends inside the run. */
  lemma PredStaysOut(areas: Areas, tiles: Tiles, c: int, total: nat, q: int)
    requires TilesOk(areas, tiles) && c in tiles && q in tiles && c < q < c + total
    requires Boundary(areas, tiles, tiles[c].home, c + total)
    ensures q + tiles[q].size <= c + total
  {
    assert TileOk(areas, tiles, q) && TileOk(areas, tiles, c);
    var h := tiles[c].home;
    if c + total in tiles {
      assert Apart(tiles, q, c + total);
    } else {
      var g := tiles[q].home;
      assert g < h ==> Clear(areas, g, h);
      assert h < g ==> Clear(areas, h, g);
    }
  }

  lemma CarvePred(areas: Areas, tiles: Tiles, prevSize: Tags, p: int, n: nat, low: bool, high: bool, q: int)
    requires TilesOk(areas, tiles) && p in tiles && 2 <= n && n + 2 <= tiles[p].size
    requires q in Carve(tiles, p, n, low, high) && (q in tiles ==> PredAt(tiles, prevSize, q))
    ensures var s := tiles[p].size;
            PredAt(Carve(tiles, p, n, low, high), prevSize[p + s := Tag(s - n, high)][p + n := Tag(n, low)], q)
  {
    CarveOk(areas, tiles, p, n, low, high);
    assert TileOk(areas, tiles, p);
    var s := tiles[p].size;
    if q == p + s {
      EndsApart(areas, tiles, tiles[p].home, q);
    } else if q != p + n && q != tiles[q].home {
      var r := q - prevSize[q].size;
      assert r != p;
      assert r in tiles && r != p + n;
    }
  }

  lemma CarveTag(areas: Areas, tiles: Tiles, size: Tags, prevSize: Tags, p: int, n: nat, low: bool, high: bool, q: int)
    requires TilesOk(areas, tiles) && p in tiles && 2 <= n && n + 2 <= tiles[p].size
    requires q in Carve(tiles, p, n, low, high) && (q in tiles ==> TagAt(tiles, size, prevSize, q))
    ensures var s := tiles[p].size;
            TagAt(Carve(tiles, p, n, low, high),
                  size[p + n := Tag(s - n, high)][p := Tag(n, low)],
                  prevSize[p + s := Tag(s - n, high)][p + n := Tag(n, low)], q)
  {
    var t := Carve(tiles, p, n, low, high);
    CarveOk(areas, tiles, p, n, low, high);
    if q != p && q != p + n {
      EndsDiffer(areas, t, q, p);
      EndsDiffer(areas, t, q, p + n);
    }
  }

  lemma TagsCarve(areas: Areas, tiles: Tiles, size: Tags, prevSize: Tags, p: int, n: nat, low: bool, high: bool)
    requires TilesOk(areas, tiles) && TagsOk(areas, tiles, size, prevSize)
    requires p in tiles && 2 <= n && n + 2 <= tiles[p].size
    ensures var s := tiles[p].size;
            TagsOk(areas, Carve(tiles, p, n, low, high),
                   size[p + n := Tag(s - n, high)][p := Tag(n, low)],
                   prevSize[p + s := Tag(s - n, high)][p + n := Tag(n, low)])
  {
    var s, t := tiles[p].size, Carve(tiles, p, n, low, high);
    var size' := size[p + n := Tag(s - n, high)][p := Tag(n, low)];
    var prevSize' := prevSize[p + s := Tag(s - n, high)][p + n := Tag(n, low)];
    hide Carve, TagAt, PredAt, MarksAt, TilesOk;
    forall q | q in t
      ensures TagAt(t, size', prevSize', q) && PredAt(t, prevSize', q)
    {
      assert q in tiles ==> TagAt(tiles, size, prevSize, q) && PredAt(tiles, prevSize, q);
      CarveTag(areas, tiles, size, prevSize, p, n, low, high, q);
      CarvePred(areas, tiles, prevSize, p, n, low, high, q);
    }
    forall a | a in areas
      ensures MarksAt(areas, size', prevSize', a)
    {
      assert MarksAt(areas, size, prevSize, a);
      CarveMarks(areas, tiles, size, prevSize, p, n, low, high, a);
    }
  }

  lemma CarveMarks(areas: Areas, tiles: Tiles, size: Tags, prevSize: Tags, p: int, n: nat, low: bool, high: bool, a: int)
    requires TilesOk(areas, tiles) && p in tiles && 2 <= n && n + 2 <= tiles[p].size
    requires a in areas && MarksAt(areas, size, prevSize, a)
    ensures var s := tiles[p].size;
            MarksAt(areas,
                    size[p + n := Tag(s - n, high)][p := Tag(n, low)],
                    prevSize[p + s := Tag(s - n, high)][p + n := Tag(n, low)], a)
  {
    var t := Carve(tiles, p, n, low, high);
    CarveOk(areas, tiles, p, n, low, high);
    assert TileOk(areas, tiles, p);
    EndsApart(areas, t, a, p);
    EndsApart(areas, t, a, p + n);
  }

  lemma TagsAddArea(areas: Areas, tiles: Tiles, size: Tags, prevSize: Tags, a: int, n: nat, used: bool,
                    size': Tags, prevSize': Tags)
    requires TilesOk(areas, tiles) && TagsOk(areas, tiles, size, prevSize) && Fresh(areas, a, n) && n >= 2
    requires forall x :: x in size && !(a <= x <= a + n) ==> x in size' && size'[x] == size[x]
    requires forall x :: x in prevSize && !(a <= x <= a + n) ==> x in prevSize' && prevSize'[x] == prevSize[x]
    requires a in size' && size'[a] == Tag(n, used) && a + n in size' && size'[a + n] == MARKER
    requires a in prevSize' && prevSize'[a] == MARKER && a + n in prevSize' && prevSize'[a + n] == Tag(n, used)
    ensures TagsOk(areas[a := n], tiles[a := Tile(n, used, a)], size', prevSize')
  {
    var areas', t := areas[a := n], tiles[a := Tile(n, used, a)];
    AddAreaOk(areas, tiles, a, n, used);
    forall p | p in t
      ensures TagAt(t, size', prevSize', p) && PredAt(t, prevSize', p)
    {
      if p != a {
        assert TagAt(tiles, size, prevSize, p) && PredAt(tiles, prevSize, p);
        FreshPositions(areas, tiles, a, n, p);
      }
    }
    forall b | b in areas'
      ensures MarksAt(areas', size', prevSize', b)
    {
      if b != a {
        assert MarksAt(areas, size, prevSize, b);
      }
    }
  }

  lemma TagsRemoveArea(areas: Areas, tiles: Tiles, size: Tags, prevSize: Tags, a: int, size': Tags, prevSize': Tags)
    requires TilesOk(areas, tiles) && TagsOk(areas, tiles, size, prevSize)
    requires a in areas && tiles[a].size == areas[a]
    requires forall x :: x in size && !(a <= x <= a + areas[a]) ==> x in size' && size'[x] == size[x]
    requires forall x :: x in prevSize && !(a <= x <= a + areas[a]) ==> x in prevSize' && prevSize'[x] == prevSize[x]
    ensures TagsOk(areas - {a}, tiles - {a}, size', prevSize')
  {
    var areas', t, n := areas - {a}, tiles - {a}, areas[a];
    forall p | p in t
      ensures TagAt(t, size', prevSize', p) && PredAt(t, prevSize', p)
    {
      assert TagAt(tiles, size, prevSize, p) && PredAt(tiles, prevSize, p);
      OtherArea(areas, tiles, a, p);
    }
    forall b | b in areas'
      ensures MarksAt(areas', size', prevSize', b)
    {
      assert MarksAt(areas, size, prevSize, b);
      assert a < b ==> Clear(areas, a, b);
      assert b < a ==> Clear(areas, b, a);
    }
  }

  lemma OtherArea(areas: Areas, tiles: Tiles, a: int, p: int)
    requires TilesOk(areas, tiles) && a in areas && tiles[a].size == areas[a] && p in tiles && p != a
    ensures tiles[p].home != a
    ensures p + tiles[p].size < a || a + areas[a] < p
  {
    assert TileOk(areas, tiles, p);
    var h := tiles[p].home;
    if h == a {
      OnlyTile(areas, tiles, a, p);
    }
    assert a < h ==> Clear(areas, a, h);
    assert h < a ==> Clear(areas, h, a);
  }
}
