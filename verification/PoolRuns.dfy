/** Whole runs of the pool: what holds in every state, and what a block can rely on for as long
    as it lives. */
module PoolRuns {
  import opened ChunkSizes
  import opened MapSums
  import opened Tiling
  import opened BoundaryTags
  import opened PoolState
  import opened PoolSteps
  import opened PoolEffects
  import opened PoolCalls
  import opened Conservation

  // ----- in every state -----

  /** Byte addresses of the user memory of a live block. */
  ghost function FirstByte(p: int): int {
    ALIGN * (p + 1)
  }

  ghost function LastByte(s: Pool, p: int): int
    requires p in s.tiles
  {
    ALIGN * (p + s.tiles[p].size) + HEADER - 1
  }

  /** Two live blocks never share a byte, headers in between included, and each holds at least
      what was asked for, at an address divisible by 64. */
  lemma LiveBlocks(s: Pool, p: int, q: int)
    requires PoolOk(s) && p in s.requested && q in s.requested
    ensures p in s.tiles && q in s.tiles
    ensures FirstByte(p) % ALIGN == 0 && LastByte(s, p) + 1 - FirstByte(p) >= s.requested[p]
    ensures p != q ==> LastByte(s, p) + HEADER < FirstByte(q) || LastByte(s, q) + HEADER < FirstByte(p)
  {
    EdgeOutside(s.areas, s.tiles, p, q);
    EdgeOutside(s.areas, s.tiles, q, p);
    TileBounds(s, p);
    TileBounds(s, q);
    RequestToSizeIsLeast(s.requested[p]);
  }

  /** A live block's user memory lies inside the memory of one area. */
  lemma LiveInside(s: Pool, p: int)
    requires PoolOk(s) && p in s.requested
    ensures p in s.tiles && var a := s.tiles[p].home;
            a in s.areas && FirstByte(a) <= FirstByte(p) && LastByte(s, p) < ALIGN * (a + s.areas[a]) + HEADER
  {
    assert TileOk(s.areas, s.tiles, p);
  }

  // ----- over runs -----

  /** A run of a new pool: states, and the calls between them. */
  ghost predicate Run(states: seq<Pool>, events: seq<Event>) {
    && |states| == |events| + 1 && Started(states[0])
    && forall i {:trigger StepAt(states, events, i)} :: 0 <= i < |events| ==> StepAt(states, events, i)
  }

  ghost predicate StepAt(states: seq<Pool>, events: seq<Event>, i: int)
    requires |states| == |events| + 1 && 0 <= i < |events|
  {
    Step(states[i], events[i], states[i + 1])
  }

  /** The invariant holds at every moment of every run. */
  lemma {:induction false} RunOk(states: seq<Pool>, events: seq<Event>, i: nat)
    requires Run(states, events) && i < |states|
    ensures PoolOk(states[i])
  {
    hide Step, PoolOk, Started;
    if i == 0 {
      StartedOk(states[0]);
    } else {
      RunOk(states, events, i - 1);
      assert StepAt(states, events, i - 1);
      StepOk(states[i - 1], events[i - 1], states[i]);
    }
  }

  /** A run goes on with one call more. */
  lemma RunGrows(states: seq<Pool>, events: seq<Event>, e: Event, s: Pool)
    requires Run(states, events) && Step(states[|states| - 1], e, s)
    ensures Run(states + [s], events + [e])
  {
    hide Step, Started;
    var states', events' := states + [s], events + [e];
    forall i | 0 <= i < |events'|
      ensures StepAt(states', events', i)
    {
      assert i < |events| ==> StepAt(states, events, i);
      assert states'[i] == states[i];
    }
  }

  lemma LiveTiles(s: Pool, q: int)
    requires PoolOk(s) && q in s.requested
    ensures q in s.tiles && s.tiles[q].used
  {
  }

  /** From one moment of a run to any later one, a block that no call in between was about keeps
      its place, its length, its request and its contents. */
  lemma {:induction false} LiveThroughout(states: seq<Pool>, events: seq<Event>, i: nat, j: nat, q: int)
    requires Run(states, events) && i <= j < |states| && q in states[i].requested
    requires forall k :: i <= k < j ==> Spares(events[k], q)
    ensures q in states[i].tiles && KeepsBlock(states[i], states[j], q)
    decreases j - i
  {
    hide Step, PoolOk, Started, Spares, KeepsBlock;
    RunOk(states, events, i);
    LiveTiles(states[i], q);
    if i == j {
      KeepsSelf(states[i], q);
    } else {
      LiveThroughout(states, events, i, j - 1, q);
      RunOk(states, events, j - 1);
      assert StepAt(states, events, j - 1);
      KeptOnce(states[i], states[j - 1], q);
      StepKeeps(states[j - 1], events[j - 1], states[j], q);
      KeptTwice(states[i], states[j - 1], states[j], q);
    }
  }

  lemma KeptOnce(s: Pool, s': Pool, q: int)
    requires q in s.tiles && q in s.requested && KeepsBlock(s, s', q)
    ensures q in s'.tiles && q in s'.requested
  {
  }

  lemma KeptTwice(s: Pool, s': Pool, s'': Pool, q: int)
    requires q in s.tiles && q in s.requested && q in s'.tiles && q in s'.requested
    requires KeepsBlock(s, s', q) && KeepsBlock(s', s'', q)
    ensures KeepsBlock(s, s'', q)
  {
  }

  /** At every moment of a run live and free lengths add up to the areas. */
  lemma RunConserves(states: seq<Pool>, events: seq<Event>, i: nat)
    requires Run(states, events) && i < |states|
    ensures Total(LiveOf(states[i].tiles)) + Total(FreeOf(states[i].tiles)) == Total(states[i].areas)
  {
    RunOk(states, events, i);
    LiveAndFree(states[i].areas, states[i].tiles);
  }

  /** Granted blocks stay served: while nothing is done to it, a block has room for its request, and
      shares no byte with any other live block. */
  lemma StaysServed(states: seq<Pool>, events: seq<Event>, i: nat, j: nat, q: int)
    requires Run(states, events) && i < j < |states| && events[i].Granted?
    requires forall k :: i < k < j ==> Spares(events[k], events[i].p)
    ensures var p, s := events[i].p, states[j];
            && p in s.requested && s.requested[p] == events[i].request && p in s.tiles
            && LastByte(s, p) + 1 - FirstByte(p) >= events[i].request
            && (q in s.requested && q != p
                ==> q in s.tiles && (LastByte(s, p) + HEADER < FirstByte(q) || LastByte(s, q) + HEADER < FirstByte(p)))
  {
    hide PoolOk, Started, KeepsOthers, Granting, KeepsBlock, BackOnly, Resizing, Cleared, Spares;
    var p := events[i].p;
    RunOk(states, events, i);
    RunOk(states, events, j);
    assert StepAt(states, events, i);
    GrantingOk(states[i], states[i + 1], p, events[i].request);
    GrantedAsked(states[i], states[i + 1], p, events[i].request);
    LiveThroughout(states, events, i + 1, j, p);
    KeptRequest(states[i + 1], states[j], p);
    LiveBlocks(states[j], p, if q in states[j].requested then q else p);
  }

  lemma GrantedAsked(s: Pool, s': Pool, p: int, request: nat)
    requires GrantedAt(s, s', p, request)
    ensures p in s'.requested && s'.requested[p] == request
  {
  }

  lemma KeptRequest(s: Pool, s': Pool, q: int)
    requires q in s.tiles && q in s.requested && KeepsBlock(s, s', q)
    ensures q in s'.tiles && q in s'.requested && s'.requested[q] == s.requested[q]
  {
  }

  // ----- contents that do not survive -----

  /** Header words at 0 .. 8; those between chunks mean nothing. */
  function Words(at0: Tag, at4: Tag, at8: Tag): Tags {
    var x := Tag(0, false);
    map[0 := at0, 1 := x, 2 := x, 3 := x, 4 := at4, 5 := x, 6 := x, 7 := x, 8 := at8]
  }

  lemma GranulesOf(request: nat, n: nat)
    requires n >= 3 && ALIGN * (n - 1) < request + HEADER <= ALIGN * n
    ensures Granules(request) == n
  {
    RequestToSizeIsLeast(request);
    assert (ALIGN * n) % ALIGN == 0;
  }

  /** Eight granules: four free, then a live block of four that holds a value in its second cell. */
  function LossPool(value: int): Pool {
    Pool(map[0 := 8],
         map[0 := Tile(4, false, 0), 4 := Tile(4, true, 0)],
         Words(Tag(4, false), Tag(4, true), MARKER),
         Words(MARKER, Tag(4, false), Tag(4, true)),
         map[4 := 200],
         map[User(4) + 1 := value])
  }

  lemma LossTiles(value: int)
    ensures var s := LossPool(value);
            TilesOk(s.areas, s.tiles) && Coalesced(s.tiles) && Bare(s.data, s.tiles) && PoolState.Granted(s.requested, s.tiles)
  {
    GranulesOf(200, 4);
    hide Granules;
    var s := LossPool(value);
    assert TileOk(s.areas, s.tiles, 0) && TileOk(s.areas, s.tiles, 4);
    assert Solo(s.tiles, 0) && Solo(s.tiles, 4) && BareAt(s.data, s.tiles, 0) && BareAt(s.data, s.tiles, 4);
  }

  lemma LossTags(value: int)
    ensures var s := LossPool(value);
            && TagsOk(s.areas, s.tiles, s.size, s.prevSize) && Bounded(s.areas)
            && Mapped(s.areas, s.size.Keys) && Mapped(s.areas, s.prevSize.Keys)
  {
    var s := LossPool(value);
    assert TagAt(s.tiles, s.size, s.prevSize, 0) && TagAt(s.tiles, s.size, s.prevSize, 4);
    assert PredAt(s.tiles, s.prevSize, 0) && PredAt(s.tiles, s.prevSize, 4) && MarksAt(s.areas, s.size, s.prevSize, 0);
  }

  lemma LossPoolOk(value: int)
    ensures PoolOk(LossPool(value))
    ensures var s := LossPool(value); 4 in s.size && RunStart(s, 4) == 0 && RunEnd(s, 4) == 8
  {
    LossTiles(value);
    LossTags(value);
    hide TilesOk, TagsOk, Coalesced, Bare, PoolState.Granted, Bounded, Mapped;
  }

  /** Enlarged to five granules the block shifts back to the start of the area, and whatever was in
      its second cell is gone; what was in the others is kept. */
  lemma LossExample(value: int, s': Pool, c: int)
    requires var s := LossPool(value); Resized(s, s', 4, c, 288) && Survives(s, s', 4, c, Granules(288))
    ensures PoolOk(LossPool(value)) && CellAt(LossPool(value).data, User(4) + 1) == Data(value)
    ensures c == 0 && CellAt(s'.data, User(0) + 1) == Nothing
    ensures forall i {:trigger CarriedCell(LossPool(value).data, s'.data, 4, 0, i, 1)} :: 0 <= i < 7
              ==> CarriedCell(LossPool(value).data, s'.data, 4, 0, i, 1)
  {
    var s := LossPool(value);
    LossPoolOk(value);
    GranulesOf(288, 5);
    assert CarriedCell(s.data, s'.data, 4, c, 1, LostIndex(4 - c, 5, 8));
  }
}
