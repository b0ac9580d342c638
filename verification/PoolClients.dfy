/** A pool under any list of calls: whatever a client asks for, in whatever order, is a run, and each
    call is answered as it should be. */
module PoolClients {
  import opened ChunkSizes
  import opened PoolState
  import opened PoolSteps
  import opened PoolEffects
  import opened PoolCalls
  import opened PoolRuns
  import opened FreeLists
  import opened Links
  import opened AllocPools

  /** A call. Blocks are named by their place among those the client holds; areas come with the
      calls that may need one. */
  datatype Call =
    | Ask(request: nat, region: Region)
    | GiveBack(k: nat)
    | Resize(k: nat, request: nat, region: Region)
    | Store(k: nat, i: nat, v: int)
    | FreeEverything
    | Restart(region: Region)

  /** The sizes of areas that a pool was made for: the first, and those it grows by. */
  datatype Terms = Terms(init: nat, more: nat)

  /** A client: the pool, where its areas came from, the blocks the client holds, and for what. */
  datatype Client = Client(pool: Pool, bases: map<int, nat>, blocks: seq<int>, asked: seq<nat>)

  // ----- how calls are answered -----

  ghost predicate MayGrowFor(t: Terms, s: Pool, n: nat) {
    t.more > 0 || ((forall a :: a !in s.areas) && n <= t.init)
  }

  function Needed(t: Terms, n: nat): nat {
    if t.more == 0 then t.init else if n > t.more then n else t.more
  }

  /** Whether the call may be made: the program's demands on sizes and areas. */
  ghost predicate MayAsk(t: Terms, c: Client, request: nat, region: Region) {
    var n := Granules(request);
    && ALIGN * n < 0x8000_0000
    && (NothingFree(c.pool, n) && MayGrowFor(t, c.pool, n) ==>
          && ALIGN * Needed(t, n) < 0x8000_0000
          && (region.At? ==> Disjoint(c.pool.areas, c.bases, region.address, Needed(t, n)))
          && (t.more == 0 || n <= t.more ==> n + 2 <= Needed(t, n)))
  }

  /** Nothing free is long enough, and the pool may not grow or cannot. */
  ghost predicate Refused(t: Terms, c: Client, request: nat, region: Region) {
    NothingFree(c.pool, Granules(request)) && (MayGrowFor(t, c.pool, Granules(request)) ==> region.Null?)
  }

  ghost predicate BasesFollow(c: Client, c': Client, region: Region) {
    BasesKept(c.pool.areas, c.bases, c'.pool.areas, c'.bases, region)
  }

  ghost predicate AskAnswered(t: Terms, c: Client, request: nat, region: Region, e: Event, c': Client) {
    if MayAsk(t, c, request, region) && !Refused(t, c, request, region) then
      && |c'.blocks| == |c.blocks| + 1
      && var ptr := c'.blocks[|c.blocks|];
         && ptr == Pointer(Chunk(ptr)) && e == Event.Granted(Chunk(ptr), request)
         && c'.blocks == c.blocks + [ptr] && c'.asked == c.asked + [request] && BasesFollow(c, c', region)
         && c'.pool.areas == if NothingFree(c.pool, Granules(request)) then c.pool.areas[Chunk(ptr) := Needed(t, Granules(request))]
                             else c.pool.areas
    else e == Unchanged && c' == c
  }

  ghost predicate GiveBackAnswered(t: Terms, c: Client, k: nat, e: Event, c': Client) {
    if k < |c.blocks| && k < |c.asked| then
      && e == Event.Returned(Chunk(c.blocks[k]), t.more > 0)
      && c'.blocks == c.blocks[..k] + c.blocks[k + 1..] && c'.asked == c.asked[..k] + c.asked[k + 1..]
      && BasesFollow(c, c', Null)
    else e == Unchanged && c' == c
  }

  ghost predicate ResizeAnswered(t: Terms, c: Client, k: nat, request: nat, region: Region, e: Event, c': Client) {
    if k < |c.blocks| && k < |c.asked| && MayAsk(t, c, request, region)
       && (FitsInPlace(c.pool, Chunk(c.blocks[k]), Granules(request)) || !Refused(t, c, request, region)) then
      && |c'.blocks| == |c.blocks|
      && var ptr := c'.blocks[k];
         && ptr == Pointer(Chunk(ptr)) && e == Event.Moved(Chunk(c.blocks[k]), Chunk(ptr), request, t.more > 0)
         && c'.blocks == c.blocks[k := ptr] && c'.asked == c.asked[k := request] && BasesFollow(c, c', region)
    else e == Unchanged && c' == c
  }

  ghost predicate StoreAnswered(c: Client, k: nat, i: nat, v: int, e: Event, c': Client) {
    if k < |c.blocks| && k < |c.asked| && HEADER * i < c.asked[k] then
      && e == Event.Wrote(Chunk(c.blocks[k]))
      && c' == c.(pool := c.pool.(data := c.pool.data[User(Chunk(c.blocks[k])) + i := v]))
    else e == Unchanged && c' == c
  }

  ghost predicate FreeEverythingAnswered(c: Client, e: Event, c': Client) {
    && e == AllFreed && c'.blocks == [] && c'.asked == []
    && c'.pool.areas == c.pool.areas && c'.bases == c.bases
  }

  /** The pool has its first area, if it was made for one and got it. */
  ghost predicate FromStart(t: Terms, region: Region, c: Client) {
    var none := t.init == 0 || region.Null?;
    && c.blocks == [] && c.asked == [] && Started(c.pool)
    && c.pool.areas == (if none then map[] else map[AlignedBase(region.address) := t.init])
    && c.bases == (if none then map[] else map[AlignedBase(region.address) := region.address])
  }

  /** This call is answered by this event, and leaves the client like this. */
  ghost predicate Answered(t: Terms, c: Client, call: Call, e: Event, c': Client) {
    && Step(c.pool, e, c'.pool)
    && match call
       case Ask(request, region) => AskAnswered(t, c, request, region, e, c')
       case GiveBack(k) => GiveBackAnswered(t, c, k, e, c')
       case Resize(k, request, region) => ResizeAnswered(t, c, k, request, region, e, c')
       case Store(k, i, v) => StoreAnswered(c, k, i, v, e, c')
       case FreeEverything => FreeEverythingAnswered(c, e, c')
       case Restart(region) => e == Restarted && FromStart(t, region, c')
  }

  // ----- what a client holds -----

  ghost predicate HeldAt(requested: map<int, nat>, blocks: seq<int>, asked: seq<nat>, k: int)
    requires 0 <= k < |blocks| == |asked|
  {
    && Chunk(blocks[k]) in requested && blocks[k] == Pointer(Chunk(blocks[k]))
    && requested[Chunk(blocks[k])] == asked[k]
  }

  /** The client holds these live blocks, for these requests, each once. */
  ghost predicate Holds(requested: map<int, nat>, blocks: seq<int>, asked: seq<nat>) {
    && |blocks| == |asked|
    && (forall k {:trigger HeldAt(requested, blocks, asked, k)} :: 0 <= k < |blocks| ==> HeldAt(requested, blocks, asked, k))
    && (forall j, k :: 0 <= j < k < |blocks| ==> blocks[j] != blocks[k])
  }

  lemma HoldsMore(requested: map<int, nat>, blocks: seq<int>, asked: seq<nat>, ptr: int, request: nat)
    requires Holds(requested, blocks, asked) && Chunk(ptr) !in requested && ptr == Pointer(Chunk(ptr))
    ensures Holds(requested[Chunk(ptr) := request], blocks + [ptr], asked + [request])
  {
    var requested', blocks', asked' := requested[Chunk(ptr) := request], blocks + [ptr], asked + [request];
    forall k | 0 <= k < |blocks'|
      ensures HeldAt(requested', blocks', asked', k)
      ensures k < |blocks| ==> blocks'[k] != ptr
    {
      assert k < |blocks| ==> HeldAt(requested, blocks, asked, k);
    }
  }

  lemma HoldsLess(requested: map<int, nat>, blocks: seq<int>, asked: seq<nat>, k: nat)
    requires Holds(requested, blocks, asked) && k < |blocks|
    ensures Holds(requested - {Chunk(blocks[k])}, blocks[..k] + blocks[k + 1..], asked[..k] + asked[k + 1..])
  {
    var requested', blocks', asked' := requested - {Chunk(blocks[k])}, blocks[..k] + blocks[k + 1..], asked[..k] + asked[k + 1..];
    assert HeldAt(requested, blocks, asked, k);
    forall j | 0 <= j < |blocks'|
      ensures HeldAt(requested', blocks', asked', j)
    {
      var i := if j < k then j else j + 1;
      assert HeldAt(requested, blocks, asked, i) && blocks'[j] == blocks[i] && asked'[j] == asked[i];
    }
  }

  lemma HoldsMoved(requested: map<int, nat>, requested': map<int, nat>, blocks: seq<int>, asked: seq<nat>, k: nat, ptr: int,
                   request: nat)
    requires Holds(requested, blocks, asked) && k < |blocks| && ptr == Pointer(Chunk(ptr))
    requires Chunk(ptr) != Chunk(blocks[k]) ==> Chunk(ptr) !in requested
    requires forall q :: q in requested && q != Chunk(blocks[k]) ==> q in requested' && requested'[q] == requested[q]
    requires Chunk(ptr) in requested' && requested'[Chunk(ptr)] == request
    ensures Holds(requested', blocks[k := ptr], asked[k := request])
  {
    var blocks', asked' := blocks[k := ptr], asked[k := request];
    assert HeldAt(requested, blocks, asked, k);
    forall j | 0 <= j < |blocks'|
      ensures HeldAt(requested', blocks', asked', j)
      ensures j != k ==> blocks'[j] != ptr
    {
      assert HeldAt(requested, blocks, asked, j);
    }
  }

  lemma ResizedRequests(s: Pool, s': Pool, p: int, c: int, request: nat)
    requires PoolOk(s) && Resized(s, s', p, c, request)
    ensures c != p ==> c !in s.requested
    ensures forall q :: q in s.requested && q != p ==> q in s'.requested && s'.requested[q] == s.requested[q]
    ensures c in s'.requested && s'.requested[c] == request
  {
    forall q | q in s.requested && q != p
      ensures q in s'.requested && s'.requested[q] == s.requested[q]
    {
      assert KeepsBlock(s, s', q);
    }
  }

  lemma RequestsMore(s: Pool, s': Pool, p: int, request: nat)
    requires GrantedAt(s, s', p, request)
    ensures p !in s.requested && s'.requested == s.requested[p := request]
  {
  }

  // ----- a client at work -----

  ghost function TermsOf(pool: AllocPool): Terms {
    Terms(pool.areaInitSize, pool.areaMoreSize)
  }

  ghost function ClientOf(pool: AllocPool, blocks: seq<int>, asked: seq<nat>): Client
    reads pool
  {
    Client(pool.S(), pool.unaligned, blocks, asked)
  }

  lemma SameDemands(pool: AllocPool, blocks: seq<int>, asked: seq<nat>, request: nat, region: Region)
    requires pool.Valid()
    ensures var t, c := TermsOf(pool), ClientOf(pool, blocks, asked);
            && (MayAsk(t, c, request, region) <==> pool.AllocReady(request, region))
            && (Refused(t, c, request, region) <==> pool.CannotServe(request, region))
  {
    hide FreeLists.Valid, Sound, Granules, NothingFree, Disjoint, Rooted;
    NoAreasYet(pool);
  }

  lemma NoAreasYet(pool: AllocPool)
    requires pool.Valid()
    ensures pool.firstArea == NONE <==> forall a :: a !in pool.areaSize
  {
    hide FreeLists.Valid, Sound, Cycle, Rooted;
    assert |pool.areaRing| > 0 ==> pool.areaRing[0] in pool.areaRing;
  }

  /** Whether an allocating call may be made. */
  method Check(pool: AllocPool, request: nat, region: Region) returns (ready: bool)
    requires pool.Valid()
    ensures ready == pool.AllocReady(request, region)
  {
    hide AllocPool.Valid, NothingFree, AllocPool.GrowReady, AllocPool.MayGrow;
    var n := Granules(request);
    if ALIGN * n >= 0x8000_0000 {
      return false;
    }
    var _, fit := pool.Search(n);
    ready := fit != TooSmall || !pool.MayGrow(n) || pool.GrowReady(n, region);
  }

  lemma UnchangedStep(s: Pool)
    ensures Step(s, Unchanged, s)
  {
  }

  method AskFor(pool: AllocPool, request: nat, region: Region, blocks: seq<int>, asked: seq<nat>)
      returns (blocks': seq<int>, asked': seq<nat>, ghost e: Event)
    requires pool.Valid() && Holds(pool.requested, blocks, asked)
    modifies pool, pool.lists, pool.lists.links, pool.lists.words, pool.areaLinks
    ensures pool.Valid() && Holds(pool.requested, blocks', asked')
    ensures Answered(TermsOf(pool), old(ClientOf(pool, blocks, asked)), Ask(request, region), e, ClientOf(pool, blocks', asked'))
  {
    hide AllocPool.Valid, AllocPool.AllocReady, AllocPool.CannotServe, Step, Holds, GrantedAt, Granules, MayAsk, Refused, BasesKept,
      TakenFrom, NothingFree;
    ghost var s := pool.S();
    SameDemands(pool, blocks, asked, request, region);
    UnchangedStep(s);
    var ready := Check(pool, request, region);
    if !ready {
      return blocks, asked, Unchanged;
    }
    var r := pool.Alloc(request, region);
    if r.Failed? {
      return blocks, asked, Unchanged;
    }
    RequestsMore(s, pool.S(), Chunk(r.ptr), request);
    HoldsMore(s.requested, blocks, asked, r.ptr, request);
    return blocks + [r.ptr], asked + [request], Event.Granted(Chunk(r.ptr), request);
  }

  lemma Invariant(pool: AllocPool)
    requires pool.Valid()
    ensures PoolOk(pool.S())
  {
    SoundIsOk(pool.S(), pool.F(), {});
  }

  lemma HoldsOne(requested: map<int, nat>, blocks: seq<int>, asked: seq<nat>, k: nat)
    requires Holds(requested, blocks, asked) && k < |blocks|
    ensures |asked| == |blocks| && HeldAt(requested, blocks, asked, k)
  {
  }

  lemma HoldsPairs(requested: map<int, nat>, blocks: seq<int>, asked: seq<nat>)
    requires Holds(requested, blocks, asked)
    ensures |asked| == |blocks|
  {
  }

  method ReturnOne(pool: AllocPool, k: nat, blocks: seq<int>, asked: seq<nat>)
      returns (blocks': seq<int>, asked': seq<nat>, ghost e: Event)
    requires pool.Valid() && Holds(pool.requested, blocks, asked) && k < |blocks|
    modifies pool, pool.lists, pool.lists.links, pool.lists.words, pool.areaLinks
    ensures pool.Valid() && Holds(pool.requested, blocks', asked')
    ensures Answered(TermsOf(pool), old(ClientOf(pool, blocks, asked)), GiveBack(k), e, ClientOf(pool, blocks', asked'))
  {
    hide AllocPool.Valid, Step, Holds, GivenBack, BackOnly, BasesKept;
    ghost var s, p := pool.S(), Chunk(blocks[k]);
    HoldsOne(pool.requested, blocks, asked, k);
    Invariant(pool);
    LiveNonNegative(s, p);
    HoldsLess(s.requested, blocks, asked, k);
    var _ := pool.Free(blocks[k]);
    BackIs(s, pool.S(), p, pool.areaMoreSize > 0);
    BackOk(s, pool.S(), p, pool.areaMoreSize > 0);
    return blocks[..k] + blocks[k + 1..], asked[..k] + asked[k + 1..], Event.Returned(p, pool.areaMoreSize > 0);
  }

  lemma LiveNonNegative(s: Pool, p: int)
    requires PoolOk(s) && p in s.requested
    ensures p >= 0 && Pointer(p) != 0
  {
    NonNegative(s, p);
  }

  method ResizeOne(pool: AllocPool, k: nat, request: nat, region: Region, blocks: seq<int>, asked: seq<nat>)
      returns (blocks': seq<int>, asked': seq<nat>, ghost e: Event)
    requires pool.Valid() && Holds(pool.requested, blocks, asked) && k < |blocks|
    modifies pool, pool.lists, pool.lists.links, pool.lists.words, pool.areaLinks
    ensures pool.Valid() && Holds(pool.requested, blocks', asked')
    ensures Answered(TermsOf(pool), old(ClientOf(pool, blocks, asked)), Resize(k, request, region), e,
                     ClientOf(pool, blocks', asked'))
  {
    hide AllocPool.Valid, AllocPool.AllocReady, AllocPool.CannotServe, Step, Holds, Resized, Survives, Granules, FitsInPlace,
      MayAsk, Refused, BasesKept;
    ghost var s, p := pool.S(), Chunk(blocks[k]);
    HoldsOne(pool.requested, blocks, asked, k);
    Invariant(pool);
    LiveNonNegative(s, p);
    SameDemands(pool, blocks, asked, request, region);
    UnchangedStep(s);
    var ready := Check(pool, request, region);
    if !ready {
      return blocks, asked, Unchanged;
    }
    var r := pool.Realloc(blocks[k], request, region);
    if r.Failed? {
      return blocks, asked, Unchanged;
    }
    ResizedRequests(s, pool.S(), p, Chunk(r.ptr), request);
    HoldsMoved(s.requested, pool.requested, blocks, asked, k, r.ptr, request);
    return blocks[k := r.ptr], asked[k := request], Event.Moved(p, Chunk(r.ptr), request, pool.areaMoreSize > 0);
  }

  method StoreOne(pool: AllocPool, k: nat, i: nat, v: int, blocks: seq<int>, asked: seq<nat>) returns (ghost e: Event)
    requires pool.Valid() && Holds(pool.requested, blocks, asked) && k < |blocks| && k < |asked| && HEADER * i < asked[k]
    modifies pool`data
    ensures pool.Valid() && Holds(pool.requested, blocks, asked)
    ensures Answered(TermsOf(pool), old(ClientOf(pool, blocks, asked)), Store(k, i, v), e, ClientOf(pool, blocks, asked))
  {
    hide AllocPool.Valid, Step, Holds;
    HoldsOne(pool.requested, blocks, asked, k);
    pool.Write(blocks[k], i, v);
    e := Event.Wrote(Chunk(blocks[k]));
  }

  lemma HoldsNone()
    ensures Holds(map[], [], [])
  {
  }

  /** Makes one call, if the client may make it. */
  method Perform(pool: AllocPool, call: Call, blocks: seq<int>, asked: seq<nat>)
      returns (blocks': seq<int>, asked': seq<nat>, ghost e: Event)
    requires pool.Valid() && Holds(pool.requested, blocks, asked)
    requires pool.areaInitSize == 0 || (2 <= pool.areaInitSize && ALIGN * pool.areaInitSize < 0x8000_0000)
    modifies pool, pool.lists, pool.lists.links, pool.lists.words, pool.areaLinks
    ensures pool.Valid() && Holds(pool.requested, blocks', asked')
    ensures Answered(TermsOf(pool), old(ClientOf(pool, blocks, asked)), call, e, ClientOf(pool, blocks', asked'))
  {
    hide AllocPool.Valid, Step, Holds, AskAnswered, Started;
    blocks', asked', e := blocks, asked, Unchanged;
    UnchangedStep(pool.S());
    HoldsPairs(pool.requested, blocks, asked);
    HoldsNone();
    match call
    case Ask(request, region) =>
      blocks', asked', e := AskFor(pool, request, region, blocks, asked);
    case GiveBack(k) =>
      if k < |blocks| {
        blocks', asked', e := ReturnOne(pool, k, blocks, asked);
      }
    case Resize(k, request, region) =>
      if k < |blocks| {
        blocks', asked', e := ResizeOne(pool, k, request, region, blocks, asked);
      }
    case Store(k, i, v) =>
      if k < |blocks| && HEADER * i < asked[k] {
        e := StoreOne(pool, k, i, v, blocks, asked);
      }
    case FreeEverything =>
      pool.FreeAllInternal();
      blocks', asked', e := [], [], AllFreed;
    case Restart(region) =>
      ghost var s := pool.S();
      var _ := pool.Reinit(region);
      RestartStarts(s, pool.S());
      blocks', asked', e := [], [], Restarted;
  }

  lemma RestartStarts(s: Pool, s': Pool)
    requires Step(s, Restarted, s')
    ensures Started(s') && s'.requested == map[]
  {
    StartedOk(s');
  }

  ghost function PoolsOf(clients: seq<Client>): (states: seq<Pool>)
    ensures |states| == |clients| && forall i :: 0 <= i < |clients| ==> states[i] == clients[i].pool
  {
    seq(|clients|, i requires 0 <= i < |clients| => clients[i].pool)
  }

  /** events[i] answers calls[i] and takes the client to its next state, holding its blocks each once. */
  ghost predicate AnsweredAt(t: Terms, clients: seq<Client>, calls: seq<Call>, events: seq<Event>, i: nat)
    requires i < |events| <= |calls| && |clients| == |events| + 1
  {
    && Answered(t, clients[i], calls[i], events[i], clients[i + 1])
    && Holds(clients[i + 1].pool.requested, clients[i + 1].blocks, clients[i + 1].asked)
  }

  ghost predicate AllAnswered(t: Terms, region: Region, clients: seq<Client>, calls: seq<Call>, events: seq<Event>) {
    && |events| <= |calls| && |clients| == |events| + 1 && FromStart(t, region, clients[0])
    && forall i: nat {:trigger AnsweredAt(t, clients, calls, events, i)} ::
         i < |events| ==> AnsweredAt(t, clients, calls, events, i)
  }

  lemma AnsweredMore(t: Terms, region: Region, clients: seq<Client>, calls: seq<Call>, events: seq<Event>, e: Event, c: Client)
    requires AllAnswered(t, region, clients, calls, events) && |events| < |calls|
    requires Answered(t, clients[|events|], calls[|events|], e, c) && Holds(c.pool.requested, c.blocks, c.asked)
    ensures AllAnswered(t, region, clients + [c], calls, events + [e])
  {
    hide Answered, Holds, FromStart;
    var clients', events' := clients + [c], events + [e];
    forall i: nat | i < |events'|
      ensures AnsweredAt(t, clients', calls, events', i)
    {
      assert i < |events| ==> AnsweredAt(t, clients, calls, events, i);
    }
  }

  /** The pools that a client goes through are a run. */
  lemma AnsweredRuns(t: Terms, region: Region, clients: seq<Client>, calls: seq<Call>, events: seq<Event>)
    requires AllAnswered(t, region, clients, calls, events)
    ensures PoolRuns.Run(PoolsOf(clients), events)
  {
    hide Step, Started, Holds, AskAnswered, GiveBackAnswered, ResizeAnswered, StoreAnswered, FreeEverythingAnswered;
    forall i | 0 <= i < |events|
      ensures StepAt(PoolsOf(clients), events, i)
    {
      assert AnsweredAt(t, clients, calls, events, i);
    }
  }

  /** A new pool under any list of calls: each is answered in turn, and the pool goes through a run; so
      all that holds of runs holds of it. */
  method Drive(areaInitSize: nat, areaMoreSize: nat, region: Region, calls: seq<Call>)
      returns (pool: AllocPool, ghost clients: seq<Client>, ghost events: seq<Event>)
    requires areaInitSize == 0 || (2 <= areaInitSize && ALIGN * areaInitSize < 0x8000_0000)
    ensures pool.Valid() && |events| == |calls|
    ensures AllAnswered(Terms(areaInitSize, areaMoreSize), region, clients, calls, events)
    ensures clients[|calls|].pool == pool.S() && clients[|calls|].bases == pool.unaligned
    ensures PoolRuns.Run(PoolsOf(clients), events)
  {
    hide AllocPool.Valid, Started, Holds, Answered;
    ghost var t := Terms(areaInitSize, areaMoreSize);
    pool := new AllocPool(areaInitSize, areaMoreSize, region);
    StartedOk(pool.S());
    HoldsNone();
    var blocks, asked, i := [], [], 0;
    clients, events := [ClientOf(pool, [], [])], [];
    while i < |calls|
      invariant i <= |calls| && pool.Valid() && Holds(pool.requested, blocks, asked)
      invariant pool.areaInitSize == areaInitSize && pool.areaMoreSize == areaMoreSize
      invariant fresh(pool) && fresh(pool.lists) && fresh(pool.lists.links) && fresh(pool.lists.words) && fresh(pool.areaLinks)
      invariant AllAnswered(t, region, clients, calls, events)
      invariant |events| == i && clients[i] == ClientOf(pool, blocks, asked)
    {
      ghost var e;
      blocks, asked, e := Perform(pool, calls[i], blocks, asked);
      AnsweredMore(t, region, clients, calls, events, e, ClientOf(pool, blocks, asked));
      clients, events, i := clients + [ClientOf(pool, blocks, asked)], events + [e], i + 1;
    }
    AnsweredRuns(t, region, clients, calls, events);
  }
}
