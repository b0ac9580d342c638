/** The real-time memory pool: boundary-tagged chunks in areas, free lists by size, immediate
    coalescing. Positions are in granules of 64 bytes; pointers are byte addresses. */
module AllocPools {
  import opened ChunkSizes
  import opened Links
  import opened Tiling
  import opened BoundaryTags
  import opened Bins
  import opened MapSums
  import opened FreeLists
  import opened PoolState
  import opened PoolSteps
  import opened PoolEffects
  import opened PoolCalls
  import opened Conservation

  /** What the area allocation callback returned. */
  datatype Region = Null | At(address: nat)

  /** A pointer to user memory, or the exception the pool throws. */
  datatype Outcome = Done(ptr: int) | Failed

  /** Bytes asked of the callback for an area of n granules. */
  function AreaBytes(n: nat): nat {
    ALIGN * n + 160
  }

  /** The position an area gets when the callback returned this address: rounded up to 64. */
  function AlignedBase(address: nat): nat {
    (address + ALIGN_MASK) / ALIGN
  }

  /** User memory starts one granule after the area's alignment point: after two headers. */
  function Pointer(p: int): int {
    ALIGN * (p + 1)
  }

  /** The chunk a pointer belongs to. */
  function Chunk(ptr: int): int {
    ptr / ALIGN - 1
  }

  /** A cell is as long as a header; the cells of a chunk start at its pointer and end where the header
      of the next chunk starts. */
  lemma UserMemory(p: int, n: nat)
    requires n >= 2
    ensures HEADER * User(p) == Pointer(p) && Chunk(Pointer(p)) == p
    ensures HEADER * UserCells(n) == Filling(n) && HEADER * (User(p) + UserCells(n)) == Pointer(p + n) - HEADER
  {
  }

  /** A block of memory apart from those of all areas. */
  predicate Disjoint(areas: Areas, unaligned: map<int, nat>, address: nat, n: nat) {
    forall b :: b in areas && b in unaligned
      ==> address + AreaBytes(n) <= unaligned[b] || unaligned[b] + AreaBytes(areas[b]) <= address
  }

  ghost predicate Rooted(areas: Areas, unaligned: map<int, nat>) {
    forall a :: a in areas ==> a in unaligned && AlignedBase(unaligned[a]) == a
  }

  /** The program's alignment: the first multiple of 64 at or after the address. */
  lemma AlignedIsNext(address: nat)
    ensures address <= ALIGN * AlignedBase(address) < address + ALIGN
  {
  }

  /** So the overhead is enough: the user memory of any chunk of an area, header and end marker included,
      lies within the memory that the callback was asked for and gave. */
  lemma InsideMemory(s: Pool, p: int, unaligned: map<int, nat>)
    requires PoolOk(s) && p in s.requested && Rooted(s.areas, unaligned)
    ensures p in s.tiles && var a := s.tiles[p].home;
            && a in s.areas && a in unaligned
            && Pointer(p) % ALIGN == 0 && unaligned[a] + HEADER <= Pointer(p) - HEADER
            && Pointer(p) + s.requested[p] <= ALIGN * (p + s.tiles[p].size) + HEADER
            && ALIGN * (p + s.tiles[p].size) + HEADER + HEADER <= unaligned[a] + AreaBytes(s.areas[a])
  {
    assert TileOk(s.areas, s.tiles, p);
    var a := s.tiles[p].home;
    AlignedIsNext(unaligned[a]);
    RequestToSizeIsLeast(s.requested[p]);
  }

  /** The overhead added to each request is enough for the rounding, the header and the end
      marker: disjoint blocks give areas that keep clear of one another. */
  lemma DisjointIsFresh(areas: Areas, unaligned: map<int, nat>, address: nat, n: nat)
    requires Disjoint(areas, unaligned, address, n) && Rooted(areas, unaligned)
    ensures Fresh(areas, AlignedBase(address), n)
  {
  }

  ghost predicate AreaRingOk(first: Addr, ring: seq<Addr>, areas: Areas, next: map<Addr, Addr>, prev: map<Addr, Addr>) {
    if first == NONE then ring == [] && forall a :: a !in areas
    else |ring| > 0 && ring[0] == first && Cycle(ring, next, prev) && forall a :: a in ring <==> a in areas
  }

  /** Areas that stay keep the address they came from; one that is new came from this region. */
  ghost predicate BasesKept(areas: Areas, bases: map<int, nat>, areas': Areas, bases': map<int, nat>, region: Region) {
    forall a :: a in areas' ==>
      && a in bases'
      && if a in areas then a in bases && bases'[a] == bases[a] else region == At(bases'[a])
  }

  lemma BasesSame(areas: Areas, bases: map<int, nat>, region: Region)
    requires Rooted(areas, bases)
    ensures BasesKept(areas, bases, areas, bases, region)
  {
  }

  lemma BasesLess(areas: Areas, bases: map<int, nat>, a: int)
    requires Rooted(areas, bases)
    ensures BasesKept(areas, bases, areas - {a}, bases - {a}, Null)
  {
  }

  lemma BasesMore(areas: Areas, bases: map<int, nat>, a: int, n: nat, address: nat)
    requires Rooted(areas, bases) && a !in areas
    ensures BasesKept(areas, bases, areas[a := n], bases[a := address], At(address))
  {
  }

  lemma BasesWider(areas: Areas, bases: map<int, nat>, areas': Areas, bases': map<int, nat>, region: Region)
    requires BasesKept(areas, bases, areas', bases', Null)
    ensures BasesKept(areas, bases, areas', bases', region)
  {
  }

  lemma BasesTwice(areas: Areas, bases: map<int, nat>, areas1: Areas, bases1: map<int, nat>,
                   areas2: Areas, bases2: map<int, nat>, region: Region)
    requires BasesKept(areas, bases, areas1, bases1, region) && BasesKept(areas1, bases1, areas2, bases2, Null)
    ensures BasesKept(areas, bases, areas2, bases2, region)
  {
  }

  /** What went back to the callback is the address the area around p came from. */
  ghost predicate ReleasedFrom(s: Pool, p: int, unaligned: map<int, nat>, released: Region) {
    RunStart(s, p) in s.areas && RunStart(s, p) in unaligned && released == At(unaligned[RunStart(s, p)])
  }

  // ----- the ring of areas -----

  lemma RingIsAreas(first: Addr, ring: seq<Addr>, areas: Areas, next: map<Addr, Addr>, prev: map<Addr, Addr>)
    requires AreaRingOk(first, ring, areas, next, prev)
    ensures forall a :: a in ring <==> a in areas
    ensures Distinct(ring) && (first != NONE <==> |ring| > 0) && (first != NONE ==> ring[0] == first)
  {
  }

  lemma NoAreas(next: map<Addr, Addr>, prev: map<Addr, Addr>)
    ensures AreaRingOk(NONE, [], map[], next, prev) && Rooted(map[], map[])
  {
  }

  /** One step along the ring of areas. */
  lemma RingStepOn(first: Addr, ring: seq<Addr>, areas: Areas, next: map<Addr, Addr>, prev: map<Addr, Addr>, i: nat)
    requires AreaRingOk(first, ring, areas, next, prev) && i < |ring|
    ensures ring[i] in areas && ring[i] in next
    ensures next[ring[i]] == first <==> i + 1 == |ring|
    ensures i + 1 < |ring| ==> next[ring[i]] == ring[i + 1]
    ensures forall j :: i < j < |ring| ==> ring[j] != ring[i]
  {
    assert LinkedAt(ring, i, next, prev);
    assert ring[i] in ring;
  }

  class AllocPool {
    const lists: FreeLists
    const areaLinks: LinkMemory
    const areaInitSize: nat
    const areaMoreSize: nat
    var firstArea: Addr
    var threw: bool
    var areaSize: Areas
    var unaligned: map<int, nat>
    var size: Tags
    var prevSize: Tags
    var data: Cells
    ghost var tiles: Tiles
    ghost var requested: map<int, nat>
    ghost var areaRing: seq<Addr>

    ghost function S(): Pool
      reads this
    {
      Pool(areaSize, tiles, size, prevSize, requested, data)
    }

    ghost function F(): Filing
      reads lists, lists.links
    {
      Filing(lists.sizes, lists.links.next.Keys, lists.links.prev.Keys)
    }

    ghost predicate AreasLinked()
      reads this, areaLinks
    {
      AreaRingOk(firstArea, areaRing, areaSize, areaLinks.next, areaLinks.prev) && Rooted(areaSize, unaligned)
    }

    /** The invariant, while the free chunks in holes are out of the lists. */
    ghost predicate Good(holes: set<int>)
      reads this, lists, lists.links, lists.words, areaLinks
    {
      lists.links != areaLinks && lists.Valid() && Sound(S(), F(), holes) && AreasLinked()
    }

    ghost predicate Valid()
      reads this, lists, lists.links, lists.words, areaLinks
    {
      Good({})
    }

    /** A new pool. When the callback fails to provide the initial area the program throws: threw
        says so. */
    constructor (areaInitSize: nat, areaMoreSize: nat, region: Region)
      requires areaInitSize == 0 || (2 <= areaInitSize && ALIGN * areaInitSize < 0x8000_0000)
      ensures Valid() && fresh(lists) && fresh(lists.links) && fresh(lists.words) && fresh(areaLinks)
      ensures this.areaInitSize == areaInitSize && this.areaMoreSize == areaMoreSize
      ensures Started(S()) && threw == (areaInitSize > 0 && region.Null?)
      ensures areaSize == if areaInitSize == 0 || threw then map[] else map[AlignedBase(region.address) := areaInitSize]
      ensures unaligned == if areaInitSize == 0 || threw then map[] else map[AlignedBase(region.address) := region.address]
    {
      lists := new FreeLists();
      areaLinks := new LinkMemory();
      this.areaInitSize, this.areaMoreSize, threw := areaInitSize, areaMoreSize, false;
      firstArea, areaSize, unaligned := NONE, map[], map[];
      size, prevSize, data := map[], map[], map[];
      tiles, requested, areaRing := map[], map[], [];
      new;
      InitAlloc(region);
    }

    method InitAlloc(region: Region)
      requires Valid() && S() == EmptyPool() && unaligned == map[]
      requires areaInitSize == 0 || (2 <= areaInitSize && ALIGN * areaInitSize < 0x8000_0000)
      modifies this, lists, lists.links, lists.words, areaLinks
      ensures Valid() && Started(S()) && threw == (areaInitSize > 0 && region.Null?)
      ensures areaSize == if areaInitSize == 0 || threw then map[] else map[AlignedBase(region.address) := areaInitSize]
      ensures unaligned == if areaInitSize == 0 || threw then map[] else map[AlignedBase(region.address) := region.address]
    {
      threw := areaInitSize > 0 && region.Null?;
      if areaInitSize == 0 || threw {
        return;
      }
      hide Sound, AreaRingOk, FreeLists.Valid, GotArea;
      var a := NewArea(areaInitSize, region.address);
      LinkFree(a);
      assert GotArea(EmptyPool(), S(), a, areaInitSize);
    }

    // ----- areas -----

    /** Claims memory the callback provided: one free chunk between two markers. */
    method NewArea(n: nat, address: nat) returns (a: int)
      requires Valid() && n >= 2 && ALIGN * n < 0x8000_0000 && Disjoint(areaSize, unaligned, address, n)
      modifies this, lists.links, areaLinks
      ensures Good({a}) && a == AlignedBase(address) && a >= 0 && a !in old(tiles) && a !in old(areaSize)
      ensures tiles == old(tiles)[a := Tile(n, false, a)] && areaSize == old(areaSize)[a := n]
      ensures unaligned == old(unaligned)[a := address]
      ensures GotArea(old(S()), S(), a, n) && threw == old(threw)
    {
      hide Sound, AreaRingOk, Rooted, AreaAdded, KeepsOthers, FreeLists.Valid, Fresh;
      a := AlignedBase(address);
      ghost var s, f := S(), F();
      DisjointIsFresh(areaSize, unaligned, address, n);
      FreshApart(s, f, a, n);
      LinkArea(a, n, address);
      lists.Map(a, n);
      InitArea(a, n);
      assert S().(areas := s.areas[a := n]) == S();
      AddedAreas(s, S(), a, n);
      Added(s, f, S(), F(), a, n);
    }

    lemma AddedAreas(s: Pool, s': Pool, a: int, n: nat)
      requires AreaAdded(s.(areas := map[]), s'.(areas := map[a := n]), a, n)
      requires s'.areas == s.areas[a := n]
      ensures AreaAdded(s, s', a, n)
    {
    }

    /** Puts the area at the front of the ring of areas. */
    method LinkArea(a: int, n: nat, address: nat)
      requires AreasLinked() && a !in areaSize && a >= 0 && a == AlignedBase(address)
      modifies this`firstArea, this`areaSize, this`unaligned, this`areaRing, areaLinks
      ensures AreasLinked() && areaSize == old(areaSize)[a := n] && unaligned == old(unaligned)[a := address]
    {
      label before:
      areaLinks.Map(a, 0);
      if firstArea != NONE {
        CycleFrame(areaRing, old@before(areaLinks.next), old@before(areaLinks.prev), areaLinks.next, areaLinks.prev);
        assert a !in areaRing;
        ghost var ring := Inserted(areaRing, |areaRing|, a);
        InsertedMembers(areaRing, |areaRing|, a);
        areaLinks.InsertBefore(a, firstArea, areaRing, |areaRing|);
        RotateCycle(ring, |ring| - 1, areaLinks.next, areaLinks.prev);
        RotatedMembers(ring, |ring| - 1);
        areaRing := Rotated(ring, |ring| - 1);
      } else {
        areaLinks.BeEmpty(a);
        areaRing := [a];
      }
      firstArea := a;
      areaSize, unaligned := areaSize[a := n], unaligned[a := address];
    }

    /** The end markers and the one free chunk of a new area. */
    method InitArea(a: int, n: nat)
      requires n >= 2
      modifies this`size, this`prevSize, this`data, this`tiles
      ensures AreaAdded(old(S()).(areas := map[]), S().(areas := map[a := n]), a, n)
      ensures tiles == old(tiles)[a := Tile(n, false, a)]
    {
      ClaimHeaders(a, n);
      SetNeighborsInUse(a, n);
      SetSizeFree(a, n);
      tiles := tiles[a := Tile(n, false, a)];
    }

    /** Header words and contents of memory just obtained: present, but unspecified. */
    method ClaimHeaders(a: int, n: nat)
      modifies this`size, this`prevSize, this`data
      ensures forall x :: x in size <==> x in old(size) || a <= x <= a + n
      ensures forall x :: x in old(size) && x in size ==> size[x] == old(size)[x]
      ensures forall x :: x in prevSize <==> x in old(prevSize) || a <= x <= a + n
      ensures forall x :: x in old(prevSize) && x in prevSize ==> prevSize[x] == old(prevSize)[x]
      ensures forall x :: x in data <==> x in old(data) && !(2 * a + 1 <= x <= 2 * (a + n) + 1)
      ensures forall x :: x in data && x in old(data) ==> data[x] == old(data)[x]
    {
      size := size + map x | a <= x <= a + n && x !in size :: Tag(0, false);
      prevSize := prevSize + map x | a <= x <= a + n && x !in prevSize :: Tag(0, false);
      data := map x | x in data && !(2 * a + 1 <= x <= 2 * (a + n) + 1) :: data[x];
    }

    // ----- header words -----

    method SetSizeFree(p: int, n: nat)
      requires p in size && p + n in prevSize
      modifies this`size, this`prevSize, this`data
      ensures size == old(size)[p := Tag(n, false)] && prevSize == old(prevSize)[p + n := Tag(n, false)]
      ensures data == old(data) - {2 * p + 1, 2 * (p + n) + 1}
    {
      prevSize := prevSize[p + n := Tag(n, false)];
      size := size[p := Tag(n, false)];
      data := data - {2 * p + 1, 2 * (p + n) + 1};
    }

    method SetSizeInUse(p: int, n: nat)
      requires p in size && p + n in prevSize
      modifies this`size, this`prevSize, this`data
      ensures size == old(size)[p := Tag(n, true)] && prevSize == old(prevSize)[p + n := Tag(n, true)]
      ensures data == old(data) - {2 * p + 1, 2 * (p + n) + 1}
    {
      prevSize := prevSize[p + n := Tag(n, true)];
      size := size[p := Tag(n, true)];
      data := data - {2 * p + 1, 2 * (p + n) + 1};
    }

    method SetNeighborsInUse(p: int, n: nat)
      requires p in prevSize && p + n in size
      modifies this`size, this`prevSize, this`data
      ensures size == old(size)[p + n := MARKER] && prevSize == old(prevSize)[p := MARKER]
      ensures data == old(data) - {2 * p + 1, 2 * (p + n) + 1}
    {
      size := size[p + n := MARKER];
      prevSize := prevSize[p := MARKER];
      data := data - {2 * p + 1, 2 * (p + n) + 1};
    }

    /** What the header words now mean. */
    ghost method Reshaped(tiles': Tiles, requested': map<int, nat>)
      modifies this`tiles, this`requested
      ensures tiles == tiles' && requested == requested'
    {
      tiles, requested := tiles', requested';
    }

    method IsArea(c: int) returns (whole: bool)
      requires PoolOk(S()) && c in tiles
      ensures whole <==> c in areaSize && areaSize[c] == tiles[c].size
    {
      WholeAreaTags(S(), c);
      TileBounds(S(), c);
      whole := prevSize[c] == MARKER && size[c + size[c].size] == MARKER;
    }

    // ----- lists -----

    /** Takes a free chunk out of its list. */
    method UnlinkFree(c: int, ghost holes: set<int>, ghost holes': set<int>)
      requires Good(holes) && c in tiles && !tiles[c].used && c !in holes
      requires forall q :: q in holes' <==> q in holes || q == c
      modifies lists, lists.links, lists.words
      ensures Good(holes')
    {
      hide Sound, AreaRingOk, Rooted, FreeLists.Valid, HeadersAgree;
      ghost var f := F();
      CanUnlink(S(), f, holes, c);
      lists.UnlinkFree(c, size);
      Unlinked(S(), f, holes, c, F(), holes');
    }

    /** Puts the only hole back in its list. */
    method LinkFree(c: int)
      requires Good({c}) && c in tiles && !tiles[c].used
      modifies lists, lists.links, lists.words
      ensures Valid()
    {
      hide Sound, AreaRingOk, Rooted, FreeLists.Valid, HeadersAgree;
      CanLink(S(), F(), c);
      lists.LinkFree(c, size);
    }

    // ----- the exit paths of Alloc -----

    /** return_chunk: the hole goes to the request whole. */
    method ReturnChunk(c: int, request: nat)
      requires Good({c}) && c in tiles && !tiles[c].used
      requires Granules(request) <= tiles[c].size < Granules(request) + 2
      modifies this`size, this`prevSize, this`data, this`tiles, this`requested
      ensures Valid() && KeepsOthers(old(S()), S(), c)
      ensures S() == Merged(old(S()), c, old(tiles[c].size), true, old(requested)[c := request])
    {
      hide Sound, AreaRingOk, Rooted, FreeLists.Valid, KeepsOthers, Replace;
      Taken(S(), F(), c, request);
      var n := size[c].size;
      SetSizeInUse(c, n);
      Reshaped(Replace(tiles, c, n, true), requested[c := request]);
    }

    /** found_bigger_fit: the front of the hole goes to the request, the rest is listed again. */
    method FoundBiggerFit(c: int, n: nat, request: nat)
      requires Good({c}) && c in tiles && !tiles[c].used
      requires n == Granules(request) && n + 2 <= tiles[c].size
      modifies this`size, this`prevSize, this`data, this`tiles, this`requested, lists, lists.links, lists.words
      ensures Valid() && KeepsOthers(old(S()), S(), c)
      ensures S() == Cut(old(S()), c, n, true, false, old(requested)[c := request])
    {
      hide Sound, AreaRingOk, Rooted, FreeLists.Valid, KeepsOthers, Carve, HeadersAgree, Cut;
      Parted(S(), F(), c, n, request);
      ghost var s' := Cut(S(), c, n, true, false, requested[c := request]);
      CutWrites(S(), c, n, requested[c := request]);
      var remainderSize := size[c].size - n;
      SetSizeFree(c + n, remainderSize);
      lists.LinkFree(c + n, size);
      SetSizeInUse(c, n);
      Reshaped(s'.tiles, s'.requested);
      assert S() == s';
    }

    // ----- Alloc -----

    /** The size of area the pool would ask for when nothing fits n granules. */
    function AreaNeeded(n: nat): nat {
      if areaMoreSize == 0 then areaInitSize else if n > areaMoreSize then n else areaMoreSize
    }

    /** Whether the pool may grow for a request of n granules. */
    predicate MayGrow(n: nat)
      reads this
    {
      areaMoreSize > 0 || (firstArea == NONE && n <= areaInitSize)
    }

    /** What a caller must provide for: a size below 2^31 and, if the pool is going to grow, an area
        of such a size, apart from the pool's own memory, that is either taken whole or leaves room
        for another chunk. */
    ghost predicate AllocReady(request: nat, region: Region)
      reads this
    {
      var n := Granules(request);
      ALIGN * n < 0x8000_0000 && (NothingFree(S(), n) && MayGrow(n) ==> GrowReady(n, region))
    }

    predicate GrowReady(n: nat, region: Region)
      reads this
    {
      && ALIGN * AreaNeeded(n) < 0x8000_0000
      && (region.At? ==> Disjoint(areaSize, unaligned, region.address, AreaNeeded(n)))
      && (areaMoreSize == 0 || n <= areaMoreSize ==> n + 2 <= AreaNeeded(n))
    }

    method Search(n: nat) returns (c: int, fit: Fit)
      requires Valid() && ALIGN * n < 0x8000_0000
      ensures fit == TooSmall <==> NothingFree(S(), n)
      ensures fit != TooSmall ==> TakenFrom(S(), c, n) && fit == (if tiles[c].size < n + 2 then Exact else Bigger)
    {
      hide Sound, AreaRingOk, Rooted, FreeLists.Valid, HeadersAgree, TakenFrom, NothingFree, BestFit, NothingFits;
      HeadersOk(S(), F(), {});
      c, fit := lists.Search(n, size);
      SearchMeans(S(), F(), n, c);
      assert fit != TooSmall ==> TakenFrom(S(), c, n);
    }

    /** The exits for a chunk found in the lists. */
    method TakeFit(c: int, fit: Fit, n: nat, request: nat)
      requires Valid() && n == Granules(request)
      requires c in tiles && !tiles[c].used && tiles[c].size >= n
      requires fit == if tiles[c].size < n + 2 then Exact else Bigger
      modifies this`size, this`prevSize, this`data, this`tiles, this`requested, lists, lists.links, lists.words
      ensures Valid() && TookAt(old(S()), S(), c, request) && areaSize == old(areaSize)
    {
      hide Sound, AreaRingOk, Rooted, FreeLists.Valid, Carve, Replace, Granules, TookAt;
      UnlinkFree(c, {}, {c});
      ExitTaken(c, fit == Bigger, n, request);
    }

    /** The rest of both exits: split or not. */
    method ExitTaken(c: int, split: bool, n: nat, request: nat)
      requires Good({c}) && c in tiles && !tiles[c].used && n == Granules(request)
      requires if split then n + 2 <= tiles[c].size else n <= tiles[c].size < n + 2
      modifies this`size, this`prevSize, this`data, this`tiles, this`requested, lists, lists.links, lists.words
      ensures Valid() && TookAt(old(S()), S(), c, request) && areaSize == old(areaSize)
    {
      hide Sound, AreaRingOk, Rooted, FreeLists.Valid, KeepsOthers, Granules, HeadersAgree, Listed, Merged, Cut;
      SoundIsOk(S(), F(), {c});
      if split {
        FoundBiggerFit(c, n, request);
      } else {
        ReturnChunk(c, request);
      }
    }

    /** Nothing free is long enough, and the pool may not grow or cannot. */
    ghost predicate CannotServe(request: nat, region: Region)
      reads this
    {
      NothingFree(S(), Granules(request)) && (MayGrow(Granules(request)) ==> region.Null?)
    }

    /** Allocation: the best fitting chunk if any fits, else a new area, else failure. */
    method Alloc(request: nat, region: Region) returns (r: Outcome)
      requires Valid() && AllocReady(request, region)
      modifies this, lists, lists.links, lists.words, areaLinks
      ensures Valid()
      ensures r.Failed? <==> old(CannotServe(request, region))
      ensures r.Failed? ==> S() == old(S()) && unaligned == old(unaligned)
      ensures r.Done? ==> r.ptr == Pointer(Chunk(r.ptr)) && GrantedAt(old(S()), S(), Chunk(r.ptr), request)
      ensures r.Done? ==> Step(old(S()), Event.Granted(Chunk(r.ptr), request), S())
      ensures r.Done? ==>
                if NothingFree(old(S()), Granules(request))
                then Chunk(r.ptr) == AlignedBase(region.address)
                     && areaSize == old(areaSize)[Chunk(r.ptr) := if areaMoreSize == 0 then areaInitSize
                                                                  else if Granules(request) <= areaMoreSize then areaMoreSize
                                                                  else Granules(request)]
                else TakenFrom(old(S()), Chunk(r.ptr), Granules(request)) && areaSize == old(areaSize)
      ensures r.Done? ==> BasesKept(old(areaSize), old(unaligned), areaSize, unaligned, region)
    {
      hide Sound, AreaRingOk, Rooted, FreeLists.Valid, KeepsOthers, Granules, GrantedAt, NothingFree, AlignedBase, Disjoint,
        TookAt, GrewAndTook;
      hide BasesKept;
      ghost var s := S();
      BasesSame(areaSize, unaligned, region);
      SoundIsOk(s, F(), {});
      var n := Granules(request);
      assert n >= 2 && ALIGN * n == RequestToSize(request);
      var c, fit := Search(n);
      if fit != TooSmall {
        FitFound(S(), c, n);
        TakeFit(c, fit, n, request);
        GrantingOk(s, S(), c, request);
        return Done(Pointer(c));
      }
      if areaMoreSize == 0 && (firstArea != NONE || n > areaInitSize) {
        return Failed;
      }
      if region.Null? {
        return Failed;
      }
      c := GrowFor(n, request, region);
      GrantingOk(s, S(), c, request);
      r := Done(Pointer(c));
    }

    /** The exits that take a new area. */
    method GrowFor(n: nat, request: nat, region: Region) returns (c: int)
      requires Valid() && GrowReady(n, region) && n == Granules(request) && region.At?
      modifies this, lists, lists.links, lists.words, areaLinks
      ensures Valid() && GrewAndTook(old(S()), S(), c, request) && c >= 0
      ensures c == AlignedBase(region.address) && areaSize == old(areaSize)[c := AreaNeeded(n)]
      ensures BasesKept(old(areaSize), old(unaligned), areaSize, unaligned, region)
    {
      hide Sound, AreaRingOk, Rooted, FreeLists.Valid, Granules, AlignedBase, Disjoint, GotArea, TookAt;
      hide BasesKept;
      assert n >= 2;
      ghost var s := S();
      ghost var bases := unaligned;
      c := NewArea(AreaNeeded(n), region.address);
      BasesMore(s.areas, bases, c, AreaNeeded(n), region.address);
      ghost var s1 := S();
      ExitTaken(c, !(areaMoreSize > 0 && n > areaMoreSize), n, request);
      assert GotArea(s, s1, c, AreaNeeded(n)) && TookAt(s1, S(), c, request);
    }

    // ----- Free -----

    /** Takes the area out of the ring of areas; the one after it becomes the first. */
    method UnlinkArea(a: int)
      requires AreasLinked() && a in areaSize
      modifies this`firstArea, this`areaSize, this`unaligned, this`areaRing, areaLinks
      ensures AreasLinked() && areaSize == old(areaSize) - {a} && unaligned == old(unaligned) - {a}
    {
      ghost var k: nat :| k < |areaRing| && areaRing[k] == a;
      ghost var ring := areaRing;
      assert LinkedAt(ring, k, areaLinks.next, areaLinks.prev);
      if areaLinks.next[a] == a {
        assert |ring| == 1;
        firstArea, areaRing := NONE, [];
      } else {
        WithoutMembers(ring, k);
        var next := areaLinks.next[a];
        assert next in ring && AlignedBase(unaligned[next]) == next;
        areaLinks.RemoveLeaveDangling(a, ring, k);
        firstArea := next;
        ghost var rest := Without(ring, k);
        ghost var i := if k == |rest| then 0 else k;
        assert rest[i] == next;
        RotateCycle(rest, i, areaLinks.next, areaLinks.prev);
        RotatedMembers(rest, i);
        areaRing := Rotated(rest, i);
      }
      areaSize, unaligned := areaSize - {a}, unaligned - {a};
    }

    /** The area's memory goes back to the callback: headers and contents are gone. */
    method ReleaseMemory(a: int, n: nat)
      requires a in areaSize && areaSize[a] == n
      modifies this`size, this`prevSize, this`data, this`tiles
      ensures AreaRemoved(old(S()), S().(areas := areaSize - {a}), a)
      ensures tiles == old(tiles) - {a}
    {
      size := map x | x in size && !(a <= x <= a + n) :: size[x];
      prevSize := map x | x in prevSize && !(a <= x <= a + n) :: prevSize[x];
      data := map x | x in data && !(2 * a + 1 <= x <= 2 * (a + n) + 1) :: data[x];
      tiles := tiles - {a};
    }

    /** Returns an area that is one free chunk to the callback it came from. */
    method FreeArea(a: int) returns (released: nat)
      requires Good({a}) && a in areaSize && a in tiles && !tiles[a].used && tiles[a].size == areaSize[a]
      modifies this, lists.links, areaLinks
      ensures Valid() && areaSize == old(areaSize) - {a} && tiles == old(tiles) - {a}
      ensures AreaRemoved(old(S()), S(), a) && KeepsOthers(old(S()), S(), NONE)
      ensures a in old(unaligned) && released == old(unaligned)[a] && unaligned == old(unaligned) - {a}
    {
      hide Sound, AreaRingOk, FreeLists.Valid, KeepsOthers, AreaRemoved;
      released := unaligned[a];
      hide Rooted;
      ghost var s, f := S(), F();
      var n := areaSize[a];
      AreaUnlisted(s, f, a);
      SoundIsOk(s, f, {a});
      NonNegative(s, a);
      ReleaseMemory(a, n);
      lists.Unmap(a, n);
      UnlinkArea(a);
      Removed(s, f, S(), F(), a);
    }

    /** ptr is the address of a live block. */
    ghost predicate Live(ptr: int)
      reads this
    {
      Chunk(ptr) in requested && ptr == Pointer(Chunk(ptr))
    }

    /** Unlinks the free chunks around a live one; where the run starts and ends. */
    method Coalesce(p: int) returns (chunk: int, size: nat, ghost holes: set<int>)
      requires Valid() && p in tiles && tiles[p].used
      modifies lists, lists.links, lists.words
      ensures Good(holes) && p in this.size && chunk == RunStart(S(), p) && chunk + size == RunEnd(S(), p)
      ensures RunAround(S(), p, chunk, chunk + size)
      ensures forall q :: q in holes <==> q in tiles && chunk <= q < chunk + size && q != p
    {
      hide Sound, AreaRingOk, Rooted, FreeLists.Valid, RunAround;
      SoundIsOk(S(), F(), {});
      TagsTell(S(), p);
      chunk, size, holes := p, this.size[p].size, {};
      if !prevSize[p].used {
        var before := prevSize[p].size;
        chunk := p - before;
        size := size + before;
        UnlinkFree(chunk, {}, {chunk});
        holes := {chunk};
      }
      var next := chunk + size;
      if !this.size[next].used {
        size := size + this.size[next].size;
        UnlinkFree(next, holes, holes + {next});
        holes := holes + {next};
      }
    }

    /** Gives a block back: merged with its free neighbours it is listed, or its whole area is
        returned when that is all free and the pool can grow again. */
    method Free(ptr: int) returns (released: Region)
      requires Valid() && (ptr == 0 || Live(ptr))
      modifies this, lists, lists.links, lists.words, areaLinks
      ensures Valid()
      ensures ptr == 0 ==> S() == old(S()) && released == Null
      ensures ptr != 0 ==> GivenBack(old(S()), S(), Chunk(ptr), areaMoreSize > 0)
      ensures ptr != 0 ==> Step(old(S()), Event.Returned(Chunk(ptr), areaMoreSize > 0), S())
      ensures ptr != 0 && areaSize != old(areaSize) ==> ReleasedFrom(old(S()), Chunk(ptr), old(unaligned), released)
      ensures ptr != 0 && areaSize == old(areaSize) ==> released == Null && unaligned == old(unaligned)
      ensures BasesKept(old(areaSize), old(unaligned), areaSize, unaligned, Null)
    {
      hide Sound, AreaRingOk, Rooted, FreeLists.Valid, GivenBack, BackOnly, ReleasedFrom, BasesKept;
      if ptr == 0 {
        BasesSame(areaSize, unaligned, Null);
        return Null;
      }
      released := FreeBlock(Chunk(ptr));
    }

    method FreeBlock(p: int) returns (released: Region)
      requires Valid() && p in requested
      modifies this, lists, lists.links, lists.words, areaLinks
      ensures Valid() && GivenBack(old(S()), S(), p, areaMoreSize > 0) && BackOnly(old(S()), S(), p, areaMoreSize > 0)
      ensures areaSize != old(areaSize) ==> ReleasedFrom(old(S()), p, old(unaligned), released)
      ensures areaSize == old(areaSize) ==> released == Null && unaligned == old(unaligned)
      ensures BasesKept(old(areaSize), old(unaligned), areaSize, unaligned, Null)
    {
      hide Sound, AreaRingOk, Rooted, FreeLists.Valid, KeepsOthers, Merged, RunAround, RunStart, RunEnd, GivenBack, BackOnly,
        GivenTo, ReleasedFrom, BasesKept;
      ghost var s := S();
      LiveTile(s, F(), {}, p);
      var chunk, total, holes := Coalesce(p);
      MakeFree(p, chunk, total, holes);
      MergedHere(s, S(), p, chunk, total);
      released := FileOrRelease(chunk, s, p);
    }

    /** The end of Free: back to the callback, or to the lists. */
    method FileOrRelease(chunk: int, ghost s: Pool, ghost p: int) returns (released: Region)
      requires Good({chunk}) && chunk in tiles && !tiles[chunk].used
      requires PoolOk(s) && s.areas == areaSize && GivenTo(s, S(), p) && KeepsOthers(s, S(), p) && chunk == RunStart(s, p)
      modifies this, lists, lists.links, lists.words, areaLinks
      ensures Valid() && GivenBack(s, S(), p, areaMoreSize > 0) && BackOnly(s, S(), p, areaMoreSize > 0)
      ensures areaSize != s.areas ==> ReleasedFrom(s, p, old(unaligned), released)
      ensures areaSize == s.areas ==> released == Null && unaligned == old(unaligned)
      ensures BasesKept(s.areas, old(unaligned), areaSize, unaligned, Null)
    {
      hide Sound, AreaRingOk, Rooted, FreeLists.Valid, KeepsOthers, AreaRemoved, GivenBack, GivenTo, BackOnly, BasesKept;
      ghost var s1 := S();
      BasesSame(areaSize, unaligned, Null);
      BasesLess(areaSize, unaligned, chunk);
      SoundIsOk(s1, F(), {chunk});
      if areaMoreSize > 0 {
        var whole := IsArea(chunk);
        if whole {
          var address := FreeArea(chunk);
          GaveBackArea(s, s1, S(), p);
          BackIs(s, S(), p, true);
          return At(address);
        }
      }
      LinkFree(chunk);
      GaveBack(s, s1, p, areaMoreSize > 0);
      BackIs(s, s1, p, areaMoreSize > 0);
      released := Null;
    }

    /** Writes the tags of the coalesced chunk. */
    method MakeFree(ghost p: int, chunk: int, total: nat, ghost holes: set<int>)
      requires Good(holes) && p in requested && RunAround(S(), p, chunk, chunk + total)
      requires forall q :: q in holes <==> q in tiles && chunk <= q < chunk + total && q != p
      modifies this`size, this`prevSize, this`data, this`tiles, this`requested
      ensures Good({chunk}) && KeepsOthers(old(S()), S(), p)
      ensures chunk in tiles && !tiles[chunk].used && tiles[chunk].size == total
      ensures S() == Merged(old(S()), chunk, total, false, old(requested) - {p})
    {
      hide Sound, AreaRingOk, Rooted, FreeLists.Valid, KeepsOthers, Replace, RunAround;
      Freed(S(), F(), holes, p, chunk, chunk + total);
      RunMapped(S(), F(), holes, p, chunk, chunk + total);
      SetSizeFree(chunk, total);
      Reshaped(Replace(tiles, chunk, total, false), requested - {p});
    }

    // ----- Realloc -----

    /** Looks for room around a block: in it, forward, then around or backward. What is found is
        unlinked. */
    method FindRoom(p: int, n: nat) returns (fits: bool, c: int, total: nat, ghost holes: set<int>)
      requires Valid() && p in requested
      modifies lists, lists.links, lists.words
      ensures fits <==> FitsInPlace(S(), p, n)
      ensures fits ==> Good(holes) && RoomAt(S(), p, n, c, total, holes)
      ensures !fits ==> Valid() && p in tiles && tiles[p].size < n
    {
      hide Sound, AreaRingOk, Rooted, FreeLists.Valid, RoomAt, RunAround, RunStart, RunEnd;
      ghost var s := S();
      SoundIsOk(s, F(), {});
      LiveTile(s, F(), {}, p);
      TagsTell(s, p);
      PrevChunkTag(s, p);
      RunTags(s, p);
      fits, c, total, holes := true, p, size[p].size, {};
      if total >= n {
        RoomAlone(s, p, n);
        return;
      }
      var next, nextSize := p + total, 0;
      if !size[next].used {
        nextSize := size[next].size;
        if nextSize + total >= n {
          total, holes := total + nextSize, {next};
          RoomWider(s, p, n, p, holes);
          UnlinkFree(next, {}, holes);
          return;
        }
      }
      var prev := p - prevSize[p].size;
      if !size[prev].used {
        var before := size[prev].size;
        if !size[next].used && nextSize + before + total >= n {
          c, total, holes := prev, total + nextSize + before, {next, prev};
          RoomWider(s, p, n, prev, holes);
          UnlinkFree(next, {}, {next});
          UnlinkFree(prev, {next}, holes);
          return;
        }
        if before + total >= n {
          c, total, holes := prev, total + before, {prev};
          RoomWider(s, p, n, prev, holes);
          UnlinkFree(prev, {}, holes);
          return;
        }
      }
      fits := false;
    }

    /** split: the run becomes the new block, less whatever it has to spare. */
    method Reshape(p: int, c: int, total: nat, n: nat, request: nat, ghost holes: set<int>)
      requires Good(holes) && RoomAt(S(), p, n, c, total, holes) && n == Granules(request)
      modifies this, lists, lists.links, lists.words, areaLinks
      ensures Valid() && Resized(old(S()), S(), p, c, request)
      ensures Reshaping(old(S()), S(), p, c, total, request, areaMoreSize > 0)
      ensures S().tiles[c].size == if n + 2 <= total then n else total
      ensures forall x :: User(c) <= x <= 2 * (c + total)
                ==> CellAt(data, x) == if n + 2 <= total && x == 2 * (c + n) + 1 then Nothing else CellAt(old(data), x)
      ensures BasesKept(old(areaSize), old(unaligned), areaSize, unaligned, Null)
    {
      hide Sound, AreaRingOk, Rooted, FreeLists.Valid, RoomAt, RoomFor, KeepsOthers, Granules, Reshaping, Resized, BasesKept;
      RoomStart(S(), F(), p, n, c, total, holes);
      if n + 2 <= total {
        ReshapeSplit(p, c, total, n, request, holes);
      } else {
        ReshapeWhole(p, c, total, n, request, holes);
      }
    }

    /** The front serves the request, the rest is given back. */
    method ReshapeSplit(p: int, c: int, total: nat, n: nat, request: nat, ghost holes: set<int>)
      requires Good(holes) && RoomAt(S(), p, n, c, total, holes) && n == Granules(request) && n + 2 <= total
      modifies this, lists, lists.links, lists.words, areaLinks
      ensures Valid() && Resized(old(S()), S(), p, c, request)
      ensures Reshaping(old(S()), S(), p, c, total, request, areaMoreSize > 0)
      ensures c in tiles && tiles[c].size == n
      ensures forall x :: User(c) <= x <= 2 * (c + total)
                ==> CellAt(data, x) == if x == 2 * (c + n) + 1 then Nothing else CellAt(old(data), x)
      ensures BasesKept(old(areaSize), old(unaligned), areaSize, unaligned, Null)
    {
      hide Sound, AreaRingOk, Rooted, FreeLists.Valid, RoomAt, RoomFor, KeepsOthers, Granules, GivenBack, BackOnly, Split,
        Reshaping, Resized, BasesKept;
      ghost var s, f := S(), F();
      RoomStart(s, f, p, n, c, total, holes);
      RoomIs(s, p, n, c, total, holes);
      SoundIsOk(s, f, holes);
      NonNegative(s, c);
      assert 2 <= n && ALIGN * n == RequestToSize(request);
      SplitOff(p, c, total, n, request, holes);
      assert Chunk(Pointer(c + n)) == c + n;
      var _ := Free(Pointer(c + n));
      Trimmed(s, S(), f, holes, p, n, c, total, request, areaMoreSize > 0);
      BackIs(Split(s, p, c, total, n, request), S(), c + n, areaMoreSize > 0);
      ReshapedSplit(s, S(), p, c, total, n, request, areaMoreSize > 0);
      ResizedThere(s, S(), p, c, request);
    }

    /** The whole run serves the request. */
    method ReshapeWhole(p: int, c: int, total: nat, n: nat, request: nat, ghost holes: set<int>)
      requires Good(holes) && RoomAt(S(), p, n, c, total, holes) && n == Granules(request) && total < n + 2
      modifies this`size, this`prevSize, this`data, this`tiles, this`requested
      ensures Valid() && Resized(old(S()), S(), p, c, request)
      ensures Reshaping(old(S()), S(), p, c, total, request, areaMoreSize > 0)
      ensures c in tiles && tiles[c].size == total
      ensures forall x :: User(c) <= x <= 2 * (c + total) ==> CellAt(data, x) == CellAt(old(data), x)
      ensures BasesKept(old(areaSize), old(unaligned), areaSize, unaligned, Null)
    {
      hide Sound, AreaRingOk, FreeLists.Valid, RoomAt, RoomFor, KeepsOthers, Granules, Reshaping, Resized, BasesKept;
      ghost var s, f := S(), F();
      BasesSame(areaSize, unaligned, Null);
      RoomStart(s, f, p, n, c, total, holes);
      RoomIs(s, p, n, c, total, holes);
      SoundIsOk(s, f, holes);
      NonNegative(s, c);
      assert 2 <= n && ALIGN * n == RequestToSize(request);
      hide Rooted;
      GrownWhole(s, f, holes, p, n, c, total, request);
      SetSizeInUse(c, total);
      Reshaped(Replace(tiles, c, total, true), Renamed(requested, p, c, request));
      ReshapedWhole(s, S(), p, c, total, request, areaMoreSize > 0);
    }

    lemma ResizedThere(s: Pool, s': Pool, p: int, c: int, request: nat)
      requires Resized(s, s', p, c, request)
      ensures c in s'.tiles
    {
    }

    /** The two live blocks that a run is split in, the remainder's tags first. */
    method SplitOff(p: int, c: int, total: nat, n: nat, request: nat, ghost holes: set<int>)
      requires Good(holes) && RoomAt(S(), p, n, c, total, holes) && n == Granules(request) && n + 2 <= total
      modifies this`size, this`prevSize, this`data, this`tiles, this`requested
      ensures Valid() && c in old(tiles) && S() == Split(old(S()), p, c, total, n, request) && c + n in requested
    {
      hide Sound, AreaRingOk, Rooted, FreeLists.Valid, RoomAt, KeepsOthers, Granules, Split;
      ghost var s, f := S(), F();
      assert n >= 2;
      RoomStart(s, f, p, n, c, total, holes);
      GrownSplit(s, f, holes, p, n, c, total, request);
      SetSizeInUse(c + n, total - n);
      SetSizeInUse(c, n);
      SplitWrites(s, p, c, total, n, request);
      ghost var s2 := Split(s, p, c, total, n, request);
      Reshaped(s2.tiles, s2.requested);
    }

    method MoveCells(from: int, to: int, count: int)
      modifies this`data
      ensures data == CopyCells(old(data), from, to, count)
    {
      data := CopyCells(data, from, to, count);
    }

    /** Resizes in place when there is room. */
    method ResizeInPlace(p: int, n: nat, request: nat) returns (fits: bool, c: int)
      requires Valid() && p in requested && n == Granules(request)
      modifies this, lists, lists.links, lists.words, areaLinks
      ensures Valid() && p in old(tiles) && p in old(size)
      ensures fits <==> FitsInPlace(old(S()), p, n)
      ensures !fits ==> S() == old(S()) && tiles[p].size < n && firstArea == old(firstArea) && unaligned == old(unaligned)
      ensures fits ==> c == NewPlace(old(S()), p, n) && Resized(old(S()), S(), p, c, request)
      ensures fits ==> SurvivesInPlace(old(S()), S(), p, n, c)
      ensures fits ==> ResizedInPlace(old(S()), S(), p, c, request, areaMoreSize > 0)
      ensures fits ==> BasesKept(old(areaSize), old(unaligned), areaSize, unaligned, Null)
    {
      hide Sound, AreaRingOk, Rooted, FreeLists.Valid, RoomAt, KeepsOthers, Granules, RunStart, RunEnd, Resized, RunAround;
      hide CopyCells, Carried, NewPlace, FitsInPlace, SurvivesInPlace, Reshaping, Copied, BasesKept;
      ghost var s := S();
      SoundIsOk(s, F(), {});
      LiveTile(s, F(), {}, p);
      TagsTell(s, p);
      var total; ghost var holes;
      fits, c, total, holes := FindRoom(p, n);
      if fits {
        RoomShape(s, F(), p, n, c, total, holes);
        var oldSize := size[p].size;
        Reshape(p, c, total, n, request, holes);
        ghost var s3 := S();
        FinishResize(s, p, c, total, n, request, oldSize);
        assert Reshaping(s, s3, p, c, total, request, areaMoreSize > 0) && S() == Copied(s3, p, c, s.tiles[p].size);
      }
    }

    /** The memmove of a block that was shifted back. */
    method FinishResize(ghost s: Pool, p: int, c: int, ghost total: nat, ghost n: nat, ghost request: nat, oldSize: nat)
      requires Valid() && PoolOk(s) && p in s.tiles && p in s.size && oldSize == s.tiles[p].size
      requires c == NewPlace(s, p, n) && c <= p && p + oldSize <= c + total && n == Granules(request)
      requires c < p ==> total == RunEnd(s, p) - RunStart(s, p) && s.tiles[p].size < n <= total
      requires Resized(s, S(), p, c, request) && S().tiles[c].size == (if n + 2 <= total then n else total)
      requires forall x :: User(c) <= x <= 2 * (c + total)
                 ==> CellAt(data, x) == if n + 2 <= total && x == 2 * (c + n) + 1 then Nothing else CellAt(s.data, x)
      modifies this`data
      ensures Valid() && Resized(s, S(), p, c, request) && SurvivesInPlace(s, S(), p, n, c)
      ensures S() == Copied(old(S()), p, c, oldSize)
    {
      hide Sound, AreaRingOk, Rooted, FreeLists.Valid, KeepsOthers, Granules, RunStart, RunEnd, CopyCells, Carried, NewPlace;
      ghost var s3 := S();
      if c != p {
        assert c < p;
        ghost var count := UserCells(oldSize);
        MoveCells(User(p), User(c), UserCells(oldSize));
        Overwritten(s3, F(), c, User(p), count);
        ResizedCopied(s, s3, S(), p, c, request);
        ShiftedBack(s, s3, S(), p, c, n, total);
      } else {
        StayedPut(s, s3, p, n, total);
      }
    }

    /** Resizing by moving to a new block. */
    method MoveBlock(ptr: int, request: nat, region: Region) returns (r: Outcome)
      requires Valid() && Live(ptr) && AllocReady(request, region)
      requires Chunk(ptr) in tiles && tiles[Chunk(ptr)].size < Granules(request)
      modifies this, lists, lists.links, lists.words, areaLinks
      ensures Valid()
      ensures r.Failed? <==> old(CannotServe(request, region))
      ensures r.Failed? ==> S() == old(S()) && unaligned == old(unaligned)
      ensures r.Done? ==> BasesKept(old(areaSize), old(unaligned), areaSize, unaligned, region)
      ensures r.Done? ==> r.ptr == Pointer(Chunk(r.ptr)) && Resized(old(S()), S(), Chunk(ptr), Chunk(r.ptr), request)
      ensures r.Done? ==> ResizedByMoving(old(S()), S(), Chunk(ptr), Chunk(r.ptr), request, areaMoreSize > 0)
      ensures r.Done? ==> Chunk(r.ptr) in tiles
                          && Carried(old(data), data, Chunk(ptr), Chunk(r.ptr), UserCells(old(tiles[Chunk(ptr)].size)), -1)
    {
      hide Sound, AreaRingOk, Rooted, FreeLists.Valid, KeepsOthers, Granules, RequestToSize, Carried, CopyCells, GivenBack,
        AllocReady, CannotServe, Resized, Granting, BackOnly, BasesKept;
      var p := Chunk(ptr);
      ghost var s, bases := S(), unaligned;
      SoundIsOk(s, F(), {});
      LiveTile(s, F(), {}, p);
      TagsTell(s, p);
      var oldSize := size[p].size;
      r := Alloc(request, region);
      if r.Failed? {
        return;
      }
      var c := Chunk(r.ptr);
      ghost var s1 := S();
      GrantedEnough(s, s1, F(), p, c, request);
      MoveCells(User(p), User(c), UserCells(oldSize));
      Overwritten(s1, F(), c, User(p), UserCells(oldSize));
      ghost var s2, bases2 := S(), unaligned;
      NonNegative(s, p);
      var _ := Free(ptr);
      BasesTwice(s.areas, bases, s2.areas, bases2, areaSize, unaligned, region);
      MovedBlock(s, s1, s2, S(), p, c, request, areaMoreSize > 0);
      BackIs(s2, S(), p, areaMoreSize > 0);
      assert Granting(s, s1, c, request) && BackOnly(Copied(s1, p, c, s.tiles[p].size), S(), p, areaMoreSize > 0);
    }

    /** Reallocation: in place when there is room there, else by moving. The block serves the new
        request, nothing else changes, and its contents come along but for the one cell that a
        shift back with a split overwrites. */
    method Realloc(ptr: int, request: nat, region: Region) returns (r: Outcome)
      requires Valid() && (ptr == 0 || Live(ptr))
      requires ptr == 0 || !FitsInPlace(S(), Chunk(ptr), Granules(request)) ==> AllocReady(request, region)
      modifies this, lists, lists.links, lists.words, areaLinks
      ensures Valid()
      ensures r.Failed? <==> old((ptr == 0 || !FitsInPlace(S(), Chunk(ptr), Granules(request))) && CannotServe(request, region))
      ensures r.Failed? ==> S() == old(S()) && unaligned == old(unaligned)
      ensures r.Done? ==> BasesKept(old(areaSize), old(unaligned), areaSize, unaligned, region)
      ensures r.Done? ==> r.ptr == Pointer(Chunk(r.ptr))
      ensures r.Done? && ptr == 0 ==> GrantedAt(old(S()), S(), Chunk(r.ptr), request)
      ensures r.Done? && ptr != 0 ==> Resized(old(S()), S(), Chunk(ptr), Chunk(r.ptr), request)
                                      && Survives(old(S()), S(), Chunk(ptr), Chunk(r.ptr), Granules(request))
      ensures r.Done? && ptr == 0 ==> Step(old(S()), Event.Granted(Chunk(r.ptr), request), S())
      ensures r.Done? && ptr != 0 ==>
                Step(old(S()), Event.Moved(Chunk(ptr), Chunk(r.ptr), request, areaMoreSize > 0), S())
    {
      hide Sound, AreaRingOk, Rooted, FreeLists.Valid, KeepsOthers, Granules, RequestToSize, Carried, GivenBack,
        Resized, GrantedAt, NothingFree, TakenFrom, NewPlace, FitsInPlace, Disjoint, Granting, ResizedInPlace,
        ResizedByMoving;
      if ptr == 0 {
        r := Alloc(request, region);
        return;
      }
      var n := Granules(request);
      var fits, c := ResizeInPlace(Chunk(ptr), n, request);
      if fits {
        BasesWider(old(areaSize), old(unaligned), areaSize, unaligned, region);
        assert Chunk(Pointer(c)) == c;
        return Done(Pointer(c));
      }
      r := MoveBlock(ptr, request, region);
    }

    // ----- the owner of a block -----

    /** What the program does with its memory: a value stored in cell i of a live block. */
    method Write(ptr: int, i: nat, v: int)
      requires Valid() && Live(ptr) && HEADER * i < requested[Chunk(ptr)]
      modifies this`data
      ensures Valid() && data == old(data)[User(Chunk(ptr)) + i := v]
      ensures Step(old(S()), Event.Wrote(Chunk(ptr)), S())
    {
      hide Sound, AreaRingOk, Rooted, FreeLists.Valid;
      ghost var s, p := S(), Chunk(ptr);
      LiveTile(s, F(), {}, p);
      CellInside(s, p, i);
      data := data[User(Chunk(ptr)) + i := v];
      WrittenSound(s, S(), F(), p);
    }

    // ----- starting over -----

    /** What holds while areas are set up again one by one; those in rest are still to come. */
    ghost predicate Resetting(rest: set<int>)
      reads this, lists, lists.links, lists.words, areaLinks
    {
      && lists.links != areaLinks && lists.Valid() && AreasLinked() && Sites(S(), F())
      && Sound(S().(areas := areaSize - rest), F(), {}) && requested == map[]
    }

    /** Every block is given up: each area becomes one free chunk again. */
    method FreeAllInternal()
      requires Valid()
      modifies this, lists, lists.links, lists.words
      ensures Valid() && requested == map[] && areaSize == old(areaSize) && unaligned == old(unaligned)
      ensures forall a :: a in areaSize ==> a in tiles && tiles[a] == Tile(areaSize[a], false, a)
      ensures Step(old(S()), AllFreed, S())
    {
      hide Sound, AreaRingOk, Rooted, FreeLists.Valid, Sites, Cleared, KeepsWords;
      ghost var s, f := S(), F();
      SoundSites(s, f, {});
      ValidLists();
      lists.InitBins();
      tiles, requested := map[], map[];
      NothingSound(S(), F());
      SitesKept(s, f, S(), F());
      assert areaSize - areaSize.Keys == map[];
      ResetAreas();
      AllCleared(s, S(), F());
    }

    method ResetAreas()
      requires Resetting(areaSize.Keys)
      modifies this`size, this`prevSize, this`data, this`tiles, lists, lists.links, lists.words
      ensures Valid() && requested == map[]
      ensures KeepsWords(old(size), size) && KeepsWords(old(prevSize), prevSize)
      ensures forall a :: a in areaSize ==> a in tiles && tiles[a] == Tile(areaSize[a], false, a)
    {
      hide Sound, AreaRingOk, Rooted, FreeLists.Valid, Sites, KeepsWords, Resetting, Good, Distinct;
      WordsKept(size);
      WordsKept(prevSize);
      ghost var rest, i := areaSize.Keys, 0;
      var area, more := firstArea, firstArea != NONE;
      ResettingRing(rest);
      while more
        invariant Resetting(rest)
        invariant KeepsWords(old(size), size) && KeepsWords(old(prevSize), prevSize)
        invariant 0 <= i <= |areaRing| && (more <==> i < |areaRing|) && (more ==> area == areaRing[i])
        invariant forall a :: a in rest <==> a in areaRing[i..]
        invariant forall a :: a in areaSize && a !in rest ==> a in tiles && tiles[a] == Tile(areaSize[a], false, a)
        decreases |areaRing| - i
      {
        ResettingRing(rest);
        RingStepOn(firstArea, areaRing, areaSize, areaLinks.next, areaLinks.prev, i);
        var next := areaLinks.next[area];
        RestAfter(areaRing, rest, i);
        ghost var size0, prevSize0 := size, prevSize;
        ResetArea(area, rest);
        WordsKeptTwice(old(size), size0, size);
        WordsKeptTwice(old(prevSize), prevSize0, prevSize);
        area, more := next, next != firstArea;
        rest, i := rest - {areaRing[i]}, i + 1;
      }
      ResettingDone(rest);
    }

    lemma RestAfter(ring: seq<int>, rest: set<int>, i: nat)
      requires Distinct(ring) && i < |ring| && (forall a :: a in rest <==> a in ring[i..])
      ensures ring[i] in rest && forall a :: a in rest - {ring[i]} <==> a in ring[i + 1..]
    {
      var now, later := ring[i..], ring[i + 1..];
      assert now == [ring[i]] + later;
      assert now[0] == ring[i] && ring[i] in now;
      assert forall a :: a in now <==> a == ring[i] || a in later;
    }

    lemma ResettingRing(rest: set<int>)
      requires Resetting(rest)
      ensures AreaRingOk(firstArea, areaRing, areaSize, areaLinks.next, areaLinks.prev)
      ensures forall a :: a in areaRing <==> a in areaSize
      ensures Distinct(areaRing) && (firstArea != NONE <==> |areaRing| > 0) && (firstArea != NONE ==> areaRing[0] == firstArea)
    {
      RingIsAreas(firstArea, areaRing, areaSize, areaLinks.next, areaLinks.prev);
    }

    lemma ResettingDone(rest: set<int>)
      requires Resetting(rest) && forall a :: a !in rest
      ensures Valid() && requested == map[]
    {
      AllSetUp(S(), F(), rest);
    }

    lemma ValidLists()
      requires lists.Valid()
      ensures lists.words.Length == 4
    {
    }

    /** One turn of the loop. */
    method ResetArea(a: int, ghost rest: set<int>)
      requires Resetting(rest) && a in areaSize && a in rest
      modifies this`size, this`prevSize, this`data, this`tiles, lists, lists.links, lists.words
      ensures Resetting(rest - {a}) && tiles == old(tiles)[a := Tile(areaSize[a], false, a)]
      ensures KeepsWords(old(size), size) && KeepsWords(old(prevSize), prevSize)
    {
      hide Sound, AreaRingOk, Rooted, FreeLists.Valid, Sites, HeadersAgree, AreaAdded;
      ghost var s, f := S(), F();
      SitesAre(s, f, a);
      var n := areaSize[a];
      FillArea(a, n);
      SetUp(s, S(), f, rest, a);
      SitesKept(s, f, S(), f);
      ghost var part := S().(areas := areaSize - (rest - {a}));
      CanLink(part, f, a);
      lists.LinkFree(a, size);
      SitesKept(S(), f, S(), F());
    }

    /** The tags of an area that is one free chunk. */
    method FillArea(a: int, n: nat)
      requires n >= 2 && a in size && a in prevSize && a + n in size && a + n in prevSize
      requires forall x :: a <= x <= a + n ==> x in size && x in prevSize
      modifies this`size, this`prevSize, this`data, this`tiles
      ensures AreaAdded(old(S()).(areas := map[]), S().(areas := map[a := n]), a, n)
      ensures tiles == old(tiles)[a := Tile(n, false, a)]
      ensures KeepsWords(old(size), size) && KeepsWords(old(prevSize), prevSize)
    {
      SetSizeFree(a, n);
      SetNeighborsInUse(a, n);
      tiles := tiles[a := Tile(n, false, a)];
    }

    /** The areas' addresses, in ring order. */
    ghost function Addresses(): (addresses: seq<nat>)
      reads this
      requires forall i :: 0 <= i < |areaRing| ==> areaRing[i] in unaligned
    {
      seq(|areaRing|, i requires 0 <= i < |areaRing| && areaRing[i] in unaligned reads this => unaligned[areaRing[i]])
    }

    ghost predicate RingAddressed()
      reads this
    {
      && Distinct(areaRing) && (forall a :: a in areaRing <==> a in areaSize)
      && forall i :: 0 <= i < |areaRing| ==> areaRing[i] in unaligned
    }

    /** Every area goes back to the callback, each once, in ring order. */
    method FreeAll() returns (released: seq<nat>)
      requires Valid()
      modifies this, lists, lists.links, lists.words
      ensures Valid() && S() == EmptyPool() && unaligned == map[]
      ensures old(RingAddressed()) && released == old(Addresses())
    {
      hide Sound, AreaRingOk, FreeLists.Valid;
      RingIsAreas(firstArea, areaRing, areaSize, areaLinks.next, areaLinks.prev);
      released := [];
      var area, more := firstArea, firstArea != NONE;
      while more
        invariant |released| <= |areaRing| && (more <==> |released| < |areaRing|)
        invariant more ==> area == areaRing[|released|]
        invariant forall i :: 0 <= i < |released| ==> areaRing[i] in unaligned && released[i] == unaligned[areaRing[i]]
        decreases |areaRing| - |released|
        modifies {}
      {
        RingStepOn(firstArea, areaRing, areaSize, areaLinks.next, areaLinks.prev, |released|);
        var next := areaLinks.next[area];
        released := released + [unaligned[area]];
        area, more := next, next != firstArea;
      }
      ValidLists();
      DropAll();
    }

    method DropAll()
      requires lists.words.Length == 4 && lists.links != areaLinks
      modifies this, lists, lists.links, lists.words
      ensures Valid() && S() == EmptyPool() && unaligned == map[]
    {
      hide Sound, FreeLists.Valid, AreaRingOk, Rooted;
      firstArea, areaRing, areaSize, unaligned := NONE, [], map[], map[];
      size, prevSize, data, tiles, requested := map[], map[], map[], map[], map[];
      lists.InitBins();
      NothingSound(S(), F());
      NoAreas(areaLinks.next, areaLinks.prev);
    }

    method Reinit(region: Region) returns (released: seq<nat>)
      requires Valid()
      requires areaInitSize == 0 || (2 <= areaInitSize && ALIGN * areaInitSize < 0x8000_0000)
      modifies this, lists, lists.links, lists.words, areaLinks
      ensures Valid() && Step(old(S()), Restarted, S()) && threw == (areaInitSize > 0 && region.Null?)
      ensures areaSize == if areaInitSize == 0 || threw then map[] else map[AlignedBase(region.address) := areaInitSize]
      ensures unaligned == if areaInitSize == 0 || threw then map[] else map[AlignedBase(region.address) := region.address]
      ensures old(RingAddressed()) && released == old(Addresses())
    {
      hide Sound, AreaRingOk, Rooted, FreeLists.Valid, Started;
      released := FreeAll();
      InitAlloc(region);
    }

    // ----- accounts -----

    lemma FreeAreListed()
      requires Valid()
      ensures HeadersAgree(lists.sizes, size)
      ensures Total(lists.sizes) == Total(FreeOf(tiles)) && TilesOk(areaSize, tiles)
      ensures forall p :: p in lists.sizes <==> p in tiles && !tiles[p].used
      ensures forall p :: p in lists.sizes && p in tiles ==> lists.sizes[p] == tiles[p].size
    {
      HeadersOk(S(), F(), {});
      TotalSame(lists.sizes, FreeOf(tiles));
    }

    /** The free bytes; with the bytes in use they make up all areas. */
    method TotalFree() returns (total: nat)
      requires Valid()
      ensures total == ALIGN * Total(FreeOf(tiles))
      ensures total + ALIGN * Total(LiveOf(tiles)) == ALIGN * Total(areaSize)
    {
      hide Sound, AreaRingOk, Rooted, FreeLists.Valid, HeadersAgree, Total, TilesOk;
      FreeAreListed();
      LiveAndFree(areaSize, tiles);
      total := lists.TotalFree(size);
    }

    /** The largest free chunk; asked only when there is one. */
    method LargestFreeChunk() returns (maxsize: nat)
      requires Valid() && exists p :: p in tiles && !tiles[p].used
      ensures exists p :: p in tiles && !tiles[p].used && maxsize == ALIGN * tiles[p].size
      ensures forall p :: p in tiles && !tiles[p].used ==> ALIGN * tiles[p].size <= maxsize
    {
      hide Sound, AreaRingOk, Rooted, FreeLists.Valid, HeadersAgree, Total, TilesOk;
      FreeAreListed();
      assert |lists.sizes| != 0 by {
        var p :| p in tiles && !tiles[p].used;
        assert p in lists.sizes;
      }
      maxsize := lists.LargestFreeChunk(size);
    }

    // ----- the pool's own consistency check -----

    predicate DoCheckFreeChunk(p: int)
      reads this, lists, lists.links
    {
      CheckFreeChunk(size, prevSize, SaneLinks(p, lists.links.next, lists.links.prev), p)
    }

    predicate DoCheckInUseChunk(p: int)
      reads this, lists, lists.links
    {
      && CheckChunk(size, prevSize, p) && size[p].used && p in prevSize && p + size[p].size in size
      && (!prevSize[p].used && prevSize[p].size > 0 ==>
            var prv := p - prevSize[p].size; prv in size && prv + size[prv].size == p && DoCheckFreeChunk(prv))
      && (!size[p + size[p].size].used ==> DoCheckFreeChunk(p + size[p].size))
    }

    lemma FreePasses(p: int)
      requires Valid() && p in tiles && !tiles[p].used
      ensures DoCheckFreeChunk(p)
    {
      FreeChunkPasses(S(), p);
      ListedIsSane(lists.bins, lists.sizes, lists.links.next, lists.links.prev, p);
    }

    lemma InUsePasses(p: int)
      requires Valid() && p in tiles && tiles[p].used
      ensures DoCheckInUseChunk(p)
    {
      hide CheckFreeChunk, DoCheckFreeChunk, FreeLists.Valid, AreaRingOk, Rooted, PoolOk;
      SoundIsOk(S(), F(), {});
      ChunkPasses(S(), p);
      if !prevSize[p].used {
        FreePasses(p - prevSize[p].size);
      }
      if !size[p + size[p].size].used {
        FreePasses(p + size[p].size);
      }
    }

    /** Walks an area from its base to its end marker: every chunk of it is met and passes. */
    method DoCheckArea(a: int) returns (ok: bool, ghost met: set<int>)
      requires Valid() && a in areaSize
      ensures ok && forall q :: q in tiles && tiles[q].home == a ==> q in met
    {
      hide Sound, AreaRingOk, Rooted, FreeLists.Valid, DoCheckInUseChunk, DoCheckFreeChunk, OnPath, PoolOk;
      SoundIsOk(S(), F(), {});
      WalkStart(S(), a);
      ok, met := prevSize[a].used, {};
      var p := a;
      WalkStep(S(), a, p);
      while size[p] != MARKER
        invariant OnPath(S(), a, p) && p in size && p <= a + areaSize[a]
        invariant ok && forall q :: q in tiles && tiles[q].home == a && a <= q < p ==> q in met
        decreases a + areaSize[a] - p
      {
        WalkStep(S(), a, p);
        if size[p].used {
          InUsePasses(p);
          ok := ok && DoCheckInUseChunk(p);
        } else {
          FreePasses(p);
          ok := ok && DoCheckFreeChunk(p);
        }
        met := met + {p};
        p := p + size[p].size;
        WalkStep(S(), a, p);
        PathBound(S(), a, p);
      }
      WalkStep(S(), a, p);
      forall q | q in tiles && tiles[q].home == a
        ensures q in met
      {
        WalkAll(S(), a, q);
      }
    }

    /** Walks a bin: every chunk in it is free, of its class, and passes. */
    method DoCheckBin(i: nat) returns (ok: bool)
      requires Valid() && i < NUM_BINS
      ensures ok
    {
      hide Sound, AreaRingOk, Rooted, DoCheckFreeChunk, HeadersAgree, Total, TilesOk, Cycle, BitmapOk;
      FreeAreListed();
      ghost var bin := lists.bins[i];
      assert RingOk(lists.bins, lists.sizes, lists.links.next, lists.links.prev, i);
      RingStep(bin, i, -1, lists.links.next, lists.links.prev);
      ok := true;
      var p, k: int := lists.links.next[Sentinel(i)], 0;
      while p != Sentinel(i)
        invariant 0 <= k <= |bin| && ok && p == if k == |bin| then Sentinel(i) else bin[k]
        decreases |bin| - k
      {
        RingStep(bin, i, k, lists.links.next, lists.links.prev);
        RingMembers(bin, lists.sizes, i, p);
        HeaderOf(lists.sizes, size, p);
        FreePasses(p);
        ok := ok && BinOf(size[p].size) == i && DoCheckFreeChunk(p);
        p, k := lists.links.next[p], k + 1;
      }
    }

    /** The whole check: it never fails. */
    method DoCheckPool() returns (ok: bool)
      requires Valid()
      ensures ok
    {
      hide Sound, AreaRingOk, Rooted, FreeLists.Valid;
      RingIsAreas(firstArea, areaRing, areaSize, areaLinks.next, areaLinks.prev);
      ok := true;
      ghost var i := 0;
      var area, more := firstArea, firstArea != NONE;
      while more
        invariant 0 <= i <= |areaRing| && (more <==> i < |areaRing|) && (more ==> area == areaRing[i]) && ok
        decreases |areaRing| - i
      {
        RingStepOn(firstArea, areaRing, areaSize, areaLinks.next, areaLinks.prev, i);
        var next := areaLinks.next[area];
        var good, _ := DoCheckArea(area);
        ok := ok && good;
        area, more, i := next, next != firstArea, i + 1;
      }
      var bin := 0;
      while bin < NUM_BINS
        invariant 0 <= bin <= NUM_BINS && ok
      {
        var good := DoCheckBin(bin);
        ok := ok && good;
        bin := bin + 1;
      }
    }
  }
}
