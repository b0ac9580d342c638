# Allocator, parameter generation and synthesis pipeline of scmage

A Dafny model of the three bodies of code in scmage that carry real invariants, and proofs about
them. `dafny verify dfyconfig.toml` checks the whole project.

**The real-time memory pool** (`SC_AllocPool`, `SC_List`, `clz`). Positions are counted in granules
of 64 bytes; position p stands for the chunk header at byte 64 p + 32, so that pointers are
multiples of 64. `AllocPool` is a class whose header words, links, bins, bitmap and areas are fields
updated in place as the program updates them. Ghost state says what they mean: which chunks tile
which area, which blocks are live and for what request. User memory is kept in cells of 32 bytes,
half a granule, because writing a header destroys exactly one such cell.

- `Bits`, `ChunkSizes`: CLZ, CTZ and masks; rounding of requests; the 128 size classes.
- `Links`, `Bins`, `FreeLists`: circular lists in addressable memory, the bins, the 4 x 32 bit
  bitmap, linking, unlinking and the search.
- `Tiling`, `BoundaryTags`, `PoolState`, `PoolSteps`, `PoolEffects`: the invariant as values, what
  each kind of change does to it, and what whole operations promise.
- `AllocPool`: the class. `Conservation`, `MapSums`: sums of sizes. `AreaSplits`: which splits of a
  new area leave a pool at all.
- `PoolCalls`, `PoolRuns`, `PoolClients`: the exact effect of each call as a step between values,
  whole runs of such steps, and a client that makes any list of calls on the class.

**MAGE's parameter generation** (`hts.cpp`). `ParameterStream` is a class over the banded work
arrays, with the routine's own loops over exact reals. Its specification is independent of those
loops: `NormalEquations` defines W'U^-1W and W'U^-1mu as sums over frames and windows, `Ldl` the
factorisation and the two substitutions, `LeastSquares` the weighted squared error,
`GlobalVariance` the second stage, and `ObjectiveExpansion` the derivatives of its objective;
`WindowResponse` says without any matrix what a window sees of a trajectory.
`StateDurations` is the fitting of state durations to a total.

**The synthesis pipeline** (`mage.cpp`, `Model.cpp`, `ModelQueue.cpp`, `MemQueue.h`,
`LabelQueue.cpp`, `MsgFifo.h`, `Vocoder.cpp`). `ModelDurations` caps durations; `FrameWindow` and
`ModelQueues` gather the statistics of a sliding window of models, compacted to voiced frames, run
the generation on them and recover every frame, and `WindowSynthesis` does all of it for a window;
`Queues` are the rings; `Pipeline` is the whole as interleaved steps of three threads, a look at a
queue and the change that follows it being two steps; `LabelRuns` says when each label is
synthesised once; `MagePipeline` is the class those steps belong to, and `MageRuns` runs it under
any schedule, with `FramePace` on how fast frames are consumed; `MessageFifo` is the three-headed lock-free queue with every load and store a step of
its own; `MlsaFilter` and `Vocoders` are the synthesis filter in its packed buffer. What filter that is
is said without its sums: `FilterSections` by the stages of a section, `FilterInverse`, `FilterSignals` and
`FilterUndoing` by the filter that undoes it, `FilterResponse` and `FilterTones` by what it makes of powers
of z.

Some properties one would expect fail in the code, and the model says exactly when:

- A label that is not there is taken exactly when the labels are cleared between the look that finds
  one and the pop that takes it, with none stored in between (`LabelRuns.EachLabelOnce`,
  `ClearedExample`). Unless a push was under way, every label is then refused and the old slots are
  synthesised over and over, until the labels are cleared again or 2^32 - 1 - 512 of them have been
  taken (`RefusedTillCleared`).
- The words written when a new area is split can be read as a pool exactly when a minimal chunk is
  left over, which the code does not check (`AreaSplits.SplitReadableIff`, `TightExample`);
  `AllocReady` is the condition that rules it out.
- `Realloc` that shifts a block back and splits it loses one 32-byte cell of its contents, and only
  when the remainder starts within the old contents (`PoolEffects.LostWithin`,
  `PoolRuns.LossExample`).
- The search hands out a chunk that is too small for no request below 2^31 bytes, and for a larger one
  exactly when some listed chunk of the last bin has a difference from it that wraps to a nonnegative
  `int` (`FreeLists.FreeLists.Search`, `WrapInstance`).
- Fitting durations finds no state to shorten exactly when the first state's estimate leaves no
  room for the others (`StateDurations.Fit`, `FailureExample`).
- A frame's results are read back from where its statistics were written, for every frame that is read,
  exactly when both sides agree on whether the stream is compacted to voiced frames; or, compacted
  where written only, all frames are voiced; or, compacted where read only, no voiced frame follows an
  unvoiced one (`FrameWindow.PlacesAgreeIff`, `AllReadBackIff`, `PlacesUnwritten`, `PlacesDisagree`).
- From a push on the filter coefficients move in straight lines; they arrive at their target exactly when
  the interpolation period divides the frame period, after that many samples, or there is nowhere to go,
  and stay where they are then (`Vocoders.Vocoder.PlayFrame`, `RampFallsShort`).

What the model takes as given: what the area callbacks return (a parameter, possibly null, disjoint
from the pool's own memory), chunk sizes below 2^31 because differences are cast to `int`, windows
of symmetric extent, and the constants of the HTS library that are not part of this repository
(`W1`, `W2`, `INFTY`, `INFTY2`, `INVINF2`, `GV_MAX_ITERATION`: parameters). The functions `sqrt`,
`exp`, `log` and `abs` are parameters too, with at most the one fact that is needed.

## Model

| member | source | states |
|---|---|---|
| Bits.CtzIsLowest | lib/scmage/sc/include/common/clz.h:87 | CTZ computed through CLZ of `~x & (x - 1)` is the position of the lowest set bit |
| Bits.MaskIsMod | lib/scmage/sc/common/MsgFifo.h:76 | masking with 2^k - 1 is the remainder modulo 2^k, and shifting by k the quotient |
| ChunkSizes.RequestToSizeIsLeast | lib/scmage/sc/common/SC_AllocPool.h:156-162 | the granted size is the least multiple of 64, at least 128, that holds header and request |
| ChunkSizes.FastIsStaged | lib/scmage/sc/common/SC_AllocPool.h:166-187 | the CLZ-based bin index equals the staged one for every size |
| ChunkSizes.BinIndexMonotone | lib/scmage/sc/common/SC_AllocPool.h:180-187 | a larger size never has a lower bin |
| ChunkSizes.SmallBinUniform | lib/scmage/sc/common/SC_AllocPool.cpp:314-326 | a small bin holds chunks of one size only, so no size check is needed there |
| ChunkSizes.NextSmallBinEmpty | lib/scmage/sc/common/SC_AllocPool.cpp:319-322 | the bin after a small chunk's own can never be populated |
| Links.LinkMemory.InsertAfter | lib/scmage/sc/common/SC_List.h:52-57 | the ring with the node inserted after its anchor, every other node's links kept |
| Links.LinkMemory.InsertBefore | lib/scmage/sc/common/SC_List.h:59-64 | the ring with the node inserted before its anchor, every other node's links kept |
| Links.LinkMemory.RemoveLeaveDangling | lib/scmage/sc/common/SC_List.h:42-45 | the ring without the node, its own links untouched |
| Links.LinkMemory.IsEmpty | lib/scmage/sc/common/SC_List.h:75 | true exactly for a ring of one node |
| Links.LinkMemory.Cat | lib/scmage/sc/common/SC_List.h:145-175 | both rings joined in order, the second left empty, in all three branches |
| Bins.MarkFlag | lib/scmage/sc/common/SC_AllocPool.h:189-194 | OR-ing the bit in sets that bin's flag and changes no other |
| Bins.ClearFlag | lib/scmage/sc/common/SC_AllocPool.h:196-201 | AND-ing the complement clears that bin's flag and changes no other |
| Bins.LinkOk | lib/scmage/sc/common/SC_AllocPool.cpp:525-540 | filing a chunk at its place keeps every bin's ring, class and order by size, and files it exactly once |
| Bins.UnlinkOk | lib/scmage/sc/common/SC_AllocPool.h:244-251 | taking a chunk out keeps every bin's ring, class and order, and the chunk is in no bin |
| FreeLists.FreeLists.NextFullBin | lib/scmage/sc/common/SC_AllocPool.h:203-223 | the least populated bin at or after the start, or -1 if there is none |
| FreeLists.FreeLists.FindSlot | lib/scmage/sc/common/SC_AllocPool.cpp:534-538 | the place that keeps a large bin sorted, largest first |
| FreeLists.FreeLists.LinkFree | lib/scmage/sc/common/SC_AllocPool.cpp:525-540 | the lists gain exactly this chunk; a bitmap bit is set exactly when its bin is populated |
| FreeLists.FreeLists.UnlinkFree | lib/scmage/sc/common/SC_AllocPool.h:244-251 | the lists lose exactly this chunk; a bitmap bit is set exactly when its bin is populated |
| FreeLists.FreeLists.Search | lib/scmage/sc/common/SC_AllocPool.cpp:307-363 | for a need below 2^31 bytes finds nothing exactly when no listed chunk is long enough, else one of least sufficient length over all bins; for a larger one nothing is long enough, and a chunk that is too small is handed out exactly when one in the last bin looks large enough after the cast |
| FreeLists.BestEverywhere | lib/scmage/sc/common/SC_AllocPool.cpp:350-363 | the best chunk of the first bin that has a sufficient one is the best of all bins |
| FreeLists.ToInt32Exact | lib/scmage/sc/common/SC_AllocPool.cpp:330-331 | the cast difference of two sizes is exact below 2^31 |
| FreeLists.ToInt32ExactIff | lib/scmage/sc/common/SC_AllocPool.cpp:330-331 | the cast is exact on differences in the range of a 32-bit int and on no others |
| FreeLists.WrapExample | lib/scmage/sc/common/SC_AllocPool.cpp:330-331 | a chunk of 262144 bytes looks large enough for 4 GB; one of 128 bytes would, but is in bin 8, which a search for 4 GB never visits |
| FreeLists.WrapInstance | lib/scmage/sc/common/SC_AllocPool.cpp:328-363 | lists with just that chunk, and the search that hands it out for 4 GB |
| FreeLists.ListedIsSane | lib/scmage/sc/common/SC_AllocPool.cpp:613-615 | a listed chunk's neighbours point back at it |
| FreeLists.FreeLists.TotalFree | lib/scmage/sc/common/SC_AllocPool.cpp:238-249 | the sum of the sizes of all listed chunks, each counted once |
| FreeLists.FreeLists.LargestFreeChunk | lib/scmage/sc/common/SC_AllocPool.cpp:251-281 | the true maximum over all listed chunks, found in the highest flagged bin only |
| Tiling.ReplaceOk | lib/scmage/sc/common/SC_AllocPool.cpp:165-179 | one chunk in place of a run of chunks still tiles every area exactly |
| Tiling.CarveOk | lib/scmage/sc/common/SC_AllocPool.cpp:396-402 | a chunk cut in two still tiles every area exactly |
| BoundaryTags.TagsReplace | lib/scmage/sc/common/SC_AllocPool.h:60-80 | after the two tag writes of a merge every chunk's size word equals the next one's copy, and end markers stand |
| BoundaryTags.TagsCarve | lib/scmage/sc/common/SC_AllocPool.cpp:396-411 | after the four tag writes of a split every chunk's size word equals the next one's copy, and end markers stand |
| PoolState.FreedRun | lib/scmage/sc/common/SC_AllocPool.cpp:165-179 | freeing a block with its free neighbours keeps the invariant, no two free chunks touch, other live blocks keep place, length, request and contents |
| PoolState.TakenPart | lib/scmage/sc/common/SC_AllocPool.cpp:396-411 | splitting a free chunk for a request keeps the invariant and every live block |
| PoolState.GrownRun | lib/scmage/sc/common/SC_AllocPool.cpp:433-513 | a block that takes over the free chunks around it keeps the invariant and every other live block |
| PoolState.WholeAreaTags | lib/scmage/sc/common/SC_AllocPool.h:80 | the two marker words identify exactly the chunks that fill their area |
| PoolState.NextTag | lib/scmage/sc/common/SC_AllocPool.cpp:173-177 | the next header says free exactly when a free chunk follows in the same area |
| PoolState.PrevTag | lib/scmage/sc/common/SC_AllocPool.cpp:165-171 | the word before a header says free exactly when a free chunk precedes in the same area, and where it starts |
| PoolSteps.TagsTell | lib/scmage/sc/common/SC_AllocPool.cpp:163-177 | the run read off the tags is exactly the block and the free chunks next to it |
| AllocPools.DisjointIsFresh | lib/scmage/sc/common/SC_AllocPool.h:112 | the area overhead is enough for rounding, header and end marker: disjoint memory gives areas that keep clear |
| AllocPools.InsideMemory | lib/scmage/sc/common/SC_AllocPool.h:112 | a live block's user memory, its chunk's header and the next one, at multiples of 64, all lie within the memory the callback was asked for and gave |
| AllocPools.UserMemory | lib/scmage/sc/common/SC_AllocPool.h:82 | the cells of a chunk are its bytes from its pointer to where the next chunk's header starts |
| AreaSplits.SplitReadableIff | lib/scmage/sc/common/SC_AllocPool.cpp:388-411 | the words the split of a new area leaves satisfy the consistency check, under any reading of them, exactly when at least two granules are left over |
| AreaSplits.TightExample | lib/scmage/sc/common/SC_AllocPool.cpp:364-411 | an instance: a first request of exactly the growth size, where the pool is in order before the split and unreadable after it |
| AllocPools.AllocPool.constructor | lib/scmage/sc/common/SC_AllocPool.cpp:92-102 | a new pool satisfies the invariant, holds no live block and exactly its initial area, or none when the callback fails and the constructor throws |
| AllocPools.AllocPool.NewArea | lib/scmage/sc/common/SC_AllocPool.cpp:190-221 | the area joins the ring of areas as one free chunk between end markers, nothing else changes |
| AllocPools.AllocPool.FreeArea | lib/scmage/sc/common/SC_AllocPool.cpp:223-236 | the area leaves the ring and the pool, the address it was obtained at is handed back, every live block is untouched |
| AllocPools.AllocPool.FoundBiggerFit | lib/scmage/sc/common/SC_AllocPool.cpp:394-411 | the front of the chunk serves the request, the rest is a listed free chunk |
| AllocPools.AllocPool.ReturnChunk | lib/scmage/sc/common/SC_AllocPool.cpp:404-414 | the whole chunk serves the request, with less than a minimal chunk to spare |
| AllocPools.AllocPool.Alloc | lib/scmage/sc/common/SC_AllocPool.cpp:283-416 | fails exactly when no free chunk is long enough and the pool may not or cannot grow; else a block of least sufficient length over all bins, or a new area: of the initial size in a pool that does not grow further, else of the growth size or as much as the request needs, whichever is more; slack below 128 bytes; all other blocks untouched; invariant kept |
| AllocPools.AllocPool.Free | lib/scmage/sc/common/SC_AllocPool.cpp:147-187 | null does nothing; else the block and the free chunks around it become one listed chunk, or the area is returned, at its own address, when wholly free in a growable pool; all other blocks untouched; invariant kept; the step Returned |
| AllocPools.AllocPool.FindRoom | lib/scmage/sc/common/SC_AllocPool.cpp:440-488 | room in place exists exactly when the run around the block is long enough; the block moves only if it must |
| AllocPools.AllocPool.Reshape | lib/scmage/sc/common/SC_AllocPool.cpp:500-514 | the block serves its new request, the remainder is given back, contents change in the remainder's header cell only |
| AllocPools.AllocPool.Realloc | lib/scmage/sc/common/SC_AllocPool.cpp:419-523 | fails exactly when there is no room in place and allocation fails, then changing nothing; else the block serves the new request with its contents, but for the one cell named by LostIndex; all other blocks untouched; invariant kept |
| AllocPools.AllocPool.Write | lib/scmage/sc/common/SC_AllocPool.h:82 | an owner stores any value in any cell its request covers, the last perhaps in part: that cell changes and nothing else; the step Wrote |
| PoolEffects.LostWithin | lib/scmage/sc/common/SC_AllocPool.cpp:504-518 | contents are lost exactly when the block shifts back, splits, and the remainder starts within the old contents |
| PoolRuns.LossExample | lib/scmage/sc/common/SC_AllocPool.cpp:504-518 | an instance: a pool in order with 4 live granules behind 4 free ones; enlarged to 5 the block shifts back, the value stored in its second cell is gone and all its other cells are kept |
| PoolEffects.Trimmed | lib/scmage/sc/common/SC_AllocPool.cpp:500-514 | splitting a live run and freeing its remainder leaves the block with just what the request needs and nothing else moved |
| PoolEffects.MovedBlock | lib/scmage/sc/common/SC_AllocPool.cpp:490-498 | allocate, copy, free: the block stands elsewhere with all its old contents |
| AllocPools.AllocPool.FreeAllInternal | lib/scmage/sc/common/SC_AllocPool.cpp:122-140 | every area is one listed free chunk again, no block is live, the areas stay; the step AllFreed |
| AllocPools.AllocPool.FreeAll | lib/scmage/sc/common/SC_AllocPool.cpp:106-120 | every area's address is handed back exactly once, in ring order, and the pool is empty |
| AllocPools.AllocPool.Reinit | lib/scmage/sc/common/SC_AllocPool.cpp:142-145 | the addresses of all areas are handed back in ring order, then the state a new pool has |
| AllocPools.AllocPool.TotalFree | lib/scmage/sc/common/SC_AllocPool.cpp:238-249 | free bytes, and free plus in-use bytes are the bytes of all areas |
| AllocPools.AllocPool.LargestFreeChunk | lib/scmage/sc/common/SC_AllocPool.cpp:251-281 | the size of a free chunk than which none is larger |
| AllocPools.AllocPool.DoCheckArea | lib/scmage/sc/common/SC_AllocPool.cpp:542-554 | the walk from an area's first chunk to its end marker meets every chunk of it, and each passes its check |
| AllocPools.AllocPool.DoCheckBin | lib/scmage/sc/common/SC_AllocPool.cpp:556-564 | every chunk of a bin is free, of the bin's class, and passes its check |
| AllocPools.AllocPool.DoCheckPool | lib/scmage/sc/common/SC_AllocPool.cpp:567-582 | the pool's own consistency check never fails in a state with the invariant |
| PoolSteps.FreeChunkPasses | lib/scmage/sc/common/SC_AllocPool.cpp:596-619 | a free chunk's tags agree, its neighbours are in use, so it is fully consolidated |
| PoolSteps.ChunkPasses | lib/scmage/sc/common/SC_AllocPool.cpp:621-645 | a live chunk's tags agree and its free neighbours are found through them |
| Conservation.TilesFill | lib/scmage/sc/common/SC_AllocPool.cpp:542-554 | the chunks of all areas together are as long as the areas together |
| Conservation.LiveAndFree | lib/scmage/sc/common/SC_AllocPool.cpp:238-249 | live and free lengths add up to the lengths of all areas |
| PoolRuns.LiveBlocks | lib/scmage/sc/common/SC_AllocPool.cpp:647-667 | two live blocks share no byte, each holds its request, each address is a multiple of 64 |
| PoolRuns.LiveInside | lib/scmage/sc/common/SC_AllocPool.cpp:190-221 | a live block's memory lies within the memory of one area |
| PoolCalls.StepOk | lib/scmage/sc/common/SC_AllocPool.cpp:106-523 | every call, given by its exact effect on headers, chunks and contents, leads from a state with the invariant to one with it |
| PoolCalls.StepKeeps | lib/scmage/sc/common/SC_AllocPool.cpp:106-523 | every call keeps place, length, request and contents of every block it is not about |
| PoolCalls.GrantingOk | lib/scmage/sc/common/SC_AllocPool.cpp:283-416 | whichever way a request is served, the result is a pool with the new block granted and all others kept |
| PoolCalls.BackOk | lib/scmage/sc/common/SC_AllocPool.cpp:147-187 | whichever way a block is given back, the result is a pool without it |
| PoolCalls.ResizingOk | lib/scmage/sc/common/SC_AllocPool.cpp:419-523 | in place, shifted back or moved: resizing leaves a pool with all other blocks kept |
| PoolCalls.ClearedOk | lib/scmage/sc/common/SC_AllocPool.cpp:122-140 | resetting every area leaves a pool |
| PoolRuns.RunOk | lib/scmage/sc/common/SC_AllocPool.cpp:106-523 | the invariant holds at every moment of every run from a new pool, with no assumption on its states |
| PoolRuns.LiveThroughout | lib/scmage/sc/common/SC_AllocPool.cpp:283-523 | over any run, with blocks' owners storing what they like, a block that no call in between was about keeps place, length, request and contents |
| PoolRuns.StaysServed | lib/scmage/sc/common/SC_AllocPool.cpp:283-416 | over any run, a granted block has room for its request and shares no byte with another block for as long as nothing is done to it |
| PoolRuns.RunConserves | lib/scmage/sc/common/SC_AllocPool.cpp:238-249 | at every moment of every run from a new pool live and free lengths add up to the areas |
| PoolClients.Perform | lib/scmage/sc/common/SC_AllocPool.cpp:92-523 | each call on the class is answered as it should be: an allocation or resizing is carried out exactly when it may be made and can be served and changes nothing otherwise, a block is given back or stored in exactly when the client holds it; the blocks held, their requests and the origins of areas follow from those before; each answer is a step of a run |
| PoolClients.Drive | lib/scmage/sc/common/SC_AllocPool.cpp:92-523 | a new pool under any list of calls: the i-th event answers the i-th call in the state the earlier ones left, blocks are held each once throughout, and the pools are a run, so what is proved of runs holds of the class |
| Ldl.FactorsAll | lib/scmage/mage/src/hts.cpp:893-911 | with nonzero pivots the recurrences give A = L D L' on every entry |
| Ldl.LowerBanded | lib/scmage/mage/src/hts.cpp:899-908 | the factor has no entry outside the band, so the in-place band holds all of it |
| Ldl.SolutionSolves | lib/scmage/mage/src/hts.cpp:914-941 | forward then backward substitution solves the full system A x = b |
| Ldl.ProbeIsPivot | lib/scmage/mage/src/hts.cpp:893-911 | each pivot is the value of the quadratic form at some vector that is 1 in its row |
| NormalEquations.NormalBanded | lib/scmage/mage/src/hts.cpp:863-890 | W'U^-1W vanishes outside the band kept in storage |
| NormalEquations.FormIsEnergy | lib/scmage/mage/src/hts.cpp:863-890 | the quadratic form of W'U^-1W is the weighted sum of squared window outputs |
| NormalEquations.PivotsPositive | lib/scmage/mage/src/hts.cpp:893-911 | with nonnegative weights and a positively weighted static window every pivot is positive, for every length |
| LeastSquares.OptimalIffSolves | lib/scmage/mage/src/hts.cpp:841-941 | a trajectory minimises the weighted squared error exactly when it solves the normal equations |
| LeastSquares.DeviationCosts | lib/scmage/mage/src/hts.cpp:841-941 | any other trajectory's error exceeds the solution's by the energy of the difference |
| LeastSquares.SolvesIsUniquelyOptimal | lib/scmage/mage/src/hts.cpp:841-941 | with the static window anchored, a trajectory that differs anywhere costs strictly more |
| WindowResponse.ResponseIs | lib/scmage/mage/src/hts.cpp:863-890 | what a window sees at frame r is the sum of its coefficients, from one end of its extent to the other, times the frames from r - radius to r + radius, as far as they exist |
| WindowResponse.ErrorIsMisfit | lib/scmage/mage/src/hts.cpp:841-941 | the weighted squared error is the sum over windows and frames of weight times the square of mean less what the window sees |
| WindowResponse.SolvesIffLeastMisfit | lib/scmage/mage/src/hts.cpp:841-941 | a trajectory solves the normal equations exactly when no other has a smaller such sum |
| ParameterStream.PStream.CalcWuwAndWum | lib/scmage/mage/src/hts.cpp:863-890 | the band and the vector hold W'U^-1W and W'U^-1mu as defined by sums over frames and windows |
| ParameterStream.PStream.LdlFactorization | lib/scmage/mage/src/hts.cpp:893-911 | the band is overwritten with the factors of the matrix it held |
| ParameterStream.PStream.ForwardSubstitution | lib/scmage/mage/src/hts.cpp:914-926 | the work vector solves the lower triangular system |
| ParameterStream.PStream.BackwardSubstitution | lib/scmage/mage/src/hts.cpp:929-941 | column m solves the upper triangular system, other columns are untouched |
| ParameterStream.PStream.CalcGv | lib/scmage/mage/src/hts.cpp:1039-1059 | mean and variance over the switched-on frames |
| ParameterStream.PStream.ConvGv | lib/scmage/mage/src/hts.cpp:978-993 | the switched-on frames are stretched about their mean, others and other columns are untouched; with all frames on and ratio squared the quotient, the mean is kept and the variance becomes the wanted one |
| ParameterStream.PStream.BandProduct | lib/scmage/mage/src/hts.cpp:1011-1024 | the product computed from the band is the full matrix times the trajectory |
| ParameterStream.PStream.CalcDerivative | lib/scmage/mage/src/hts.cpp:996-1036 | the step at each frame is the joint objective's slope over its curvature, which ObjectiveExpands shows to be its first and second derivative, and the value returned is minus the objective |
| ObjectiveExpansion.ObjectiveExpands | lib/scmage/mage/src/hts.cpp:996-1036 | with all frames on, the objective along one frame is a polynomial of fourth degree whose first derivative is the slope and whose second is the curvature |
| ObjectiveExpansion.ObjectiveIs | lib/scmage/mage/src/hts.cpp:996-1036 | the objective is, but for a term that no trajectory changes, minus half the weighted squared error, weighed, plus the Gaussian term of the variance |
| ObjectiveExpansion.LikelihoodExpands | lib/scmage/mage/src/hts.cpp:1011-1030 | the likelihood part along one frame: linear term the residual, quadratic term the matrix entry |
| ObjectiveExpansion.VarianceShifts | lib/scmage/mage/src/hts.cpp:1039-1059 | the variance along one frame is a quadratic |
| ParameterStream.PStream.GvParmgen | lib/scmage/mage/src/hts.cpp:944-975 | with all switches off the whole stage leaves the solution where it is, whatever the number of iterations |
| ParameterStream.PStream.Mlpg | lib/scmage/mage/src/hts.cpp:842-860 | every column solves its normal equations, and is optimal when weights are nonnegative; nothing outside the stream is touched; switches matter only when a global variance is used |
| GlobalVariance.RescaledMean | lib/scmage/mage/src/hts.cpp:978-993 | stretching about the mean leaves the mean |
| GlobalVariance.ReachesWantedVariance | lib/scmage/mage/src/hts.cpp:978-993 | with ratio squared equal to wanted over actual variance the variance becomes exactly the wanted one |
| GlobalVariance.StillAtSolution | lib/scmage/mage/src/hts.cpp:1025-1034 | where the equations hold and the switch is off the step is zero |
| StateDurations.Search | lib/scmage/mage/src/hts.cpp:782-819 | the state found is the first of largest deviation among those that may change, or -1 exactly when none may |
| StateDurations.MostDeviantIsFarthest | lib/scmage/mage/src/hts.cpp:782-819 | for the absolute value: the state chosen is the first that the step would leave farthest, in units of its variance, from its mean plus rho variances |
| StateDurations.Fit | lib/scmage/mage/src/hts.cpp:757-823 | rho makes means plus rho variances add up to the target; the estimate is those to the nearest frame; the target is reached exactly when the first state's leaves room for the others, by one adjustment per frame of difference, each of the first state that the step would leave farthest off, in units of its variance; all durations at least 1 |
| StateDurations.SetDuration | lib/scmage/mage/src/hts.cpp:732-823 | the outcome for every wanted length: means to the nearest frame when none is given, too short, exactly one frame per state, or longer and fitted as Fit says |
| StateDurations.FailureExample | lib/scmage/mage/src/hts.cpp:757-823 | two states of means 10 and 1 and equal variances, wanted length 4, for which no state is found to shorten |
| ModelDurations.SharesFit | lib/scmage/mage/src/Model.cpp:252-262 | scaled durations add up to at most the cap, and to more than the cap minus the number of states |
| ModelDurations.WantedIsAskedFor | lib/scmage/mage/src/Model.cpp:226-246 | overwritten, shifted or scaled, a duration is the value, the sum or the product with its fraction dropped, or 1 where that is negative |
| ModelDurations.Model.UpdateDuration | lib/scmage/mage/src/Model.cpp:217-268 | the durations asked for are value, sum or product with the fraction dropped, 1 where negative; they stand when their total is within the cap, else each is its share of the cap with the fraction dropped; nonnegative, adding up to the recorded total, which is within the cap |
| ModelDurations.WindowFits | lib/scmage/mage/src/Constants.h:151-158 | a full window of capped models has fewer frames than the frame memory |
| FrameWindow.WindowCount | lib/scmage/mage/src/ModelQueue.cpp:240-255 | the recorded totals of the models add up to the frames counted state by state |
| FrameWindow.PlacesApart | lib/scmage/mage/src/ModelQueue.cpp:265-313 | different kept frames have different places, in the same order |
| FrameWindow.PlacesFull | lib/scmage/mage/src/ModelQueue.cpp:265-313 | the places in use are the first ones without a gap |
| FrameWindow.PlacesAgreeIff | lib/scmage/mage/src/ModelQueue.cpp:177-208 | a frame's statistics are written at all and to the place that is read, exactly when both sides agree and it is kept, or no unvoiced frame came before it, nor, if compacted where written only, is it unvoiced itself |
| FrameWindow.AllReadBackIff | lib/scmage/mage/src/ModelQueue.cpp:168-211 | every frame that is read gets its own results exactly when both sides agree, or all frames are voiced (compacted where written only), or voiced ones come first (compacted where read only) |
| FrameWindow.PlacesUnwritten | lib/scmage/mage/src/ModelQueue.cpp:271-308 | an instance: the first frame, unvoiced, of a stream compacted where written only is read from the second frame's results |
| FrameWindow.PlacesDisagree | lib/scmage/mage/src/ModelQueue.cpp:177-186 | an instance: an unvoiced frame before a voiced one is read from the wrong place |
| ModelQueues.MarkWindow | lib/scmage/mage/src/ModelQueue.cpp:240-255 | every frame of the window is marked exactly when its state's flag is above the threshold; the total equals the frames counted and fits the memory |
| ModelQueues.Fits | lib/scmage/mage/src/ModelQueue.cpp:275-287 | true exactly when every frame under the window exists and, for a compacted stream, is voiced |
| ModelQueues.GatherStream | lib/scmage/mage/src/ModelQueue.cpp:257-359 | every kept frame's row, at its place, holds its state's means and as weights the inverses of its variances, a dynamic feature's weight being zero exactly when its window does not fit |
| ModelQueues.FinvInverts | lib/scmage/mage/src/hts.cpp:826-839 | between the thresholds the result times the variance is 1; beyond them it is the stated bound, with the variance's sign, or 0 |
| ModelQueues.InverseSign | lib/scmage/mage/src/hts.cpp:826-839 | such an inverse of a nonnegative variance is nonnegative, and positive exactly below the upper threshold |
| ModelQueues.NoZeroPivot | lib/scmage/mage/src/ModelQueue.cpp:295-298 | because window 0 is never zeroed, the problem every window of models poses has positively weighted static features |
| ModelQueues.OptimizeStream | lib/scmage/mage/src/ModelQueue.cpp:257-399 | for any window of models with variances in range each feature's result solves the problem that the kept frames pose, where weight times variance is 1 if the window fits and the weight is 0 if not, is optimal for it, and no division by zero occurs; with a global variance too, if no curvature vanishes at the solution |
| ModelQueues.Generate | lib/scmage/mage/src/ModelQueue.cpp:130-217 | one frame per frame of the newest model, in order, each read from its place: rank among voiced frames for pitch, frame index otherwise |
| WindowSynthesis.Synthesize | lib/scmage/mage/src/ModelQueue.cpp:130-399 | marking, gathering, solving and reading a whole window, for streams with and without a global variance: each stream of each frame of the newest model has the values, at that frame's place, of trajectories that are optimal for means and inverse variances of the window's states, wherever it is read from where it was written |
| WindowSynthesis.FrameIsFrom | lib/scmage/mage/src/ModelQueue.cpp:168-215 | a frame read from results that hold such trajectories is made of them |
| Queues.MemQueue.Push | lib/scmage/mage/src/MemQueue.h:263-289 | appends the block in order, in one part or two; beyond the free room exactly the oldest items are overwritten while still counted; of a block longer than the ring the last items stay |
| Queues.MemQueue.Next | lib/scmage/mage/src/MemQueue.h:389-393 | the slot handed out holds no queued item exactly when the queue is not full |
| Queues.MemQueue.PushNext | lib/scmage/mage/src/MemQueue.h:294-305 | the items built in the next slots, any number of them, become the newest; beyond the free room the count exceeds the slots |
| Queues.MemQueue.Get | lib/scmage/mage/src/MemQueue.h:355-380 | copies the oldest items in order, as many as asked for or as there are |
| Queues.MemQueue.Pop | lib/scmage/mage/src/MemQueue.h:309-337 | what is copied out followed by what stays is what was there, for over-long requests too |
| Queues.MemQueue.Drop | lib/scmage/mage/src/MemQueue.h:342-352 | removes the oldest items, as many as asked for or as there are |
| Queues.MemQueue.IsFull | lib/scmage/mage/src/MemQueue.h:405-410 | true exactly when every slot is in use |
| Queues.LabelQueue.Push | lib/scmage/mage/src/LabelQueue.cpp:41-49 | the slot, the pointer and the 32-bit count change whatever the count is; with room that appends the label |
| Queues.LabelQueue.Pop | lib/scmage/mage/src/LabelQueue.cpp:63-71 | the pointer and the 32-bit count change whatever the count is; with a label there that removes and returns the oldest, without one the count wraps to 2^32 - 1 |
| Queues.LabelQueue.Clear | lib/scmage/mage/src/LabelQueue.cpp:127-136 | the queue is empty, and the label that would have come next is returned |
| Queues.TakenOk | lib/scmage/mage/src/LabelQueue.cpp:63-71 | taking from a ring with labels leaves the rest in order; taking from an empty one leaves a ring that holds no sequence |
| Queues.StoredOk | lib/scmage/mage/src/LabelQueue.cpp:41-49 | storing in a ring with room appends |
| MessageFifo.NextSlot | lib/scmage/sc/common/MsgFifo.h:76 | stepping a head with the mask steps the count of messages, modulo the capacity |
| MessageFifo.HeadsTell | lib/scmage/sc/common/MsgFifo.h:43-50 | comparing heads is comparing counts: no data, nothing to free, full |
| MessageFifo.StepKeepsInv | lib/scmage/sc/common/MsgFifo.h:47-73 | every load and store of every thread keeps free <= read <= write < free + N and every unfreed message in its slot |
| MessageFifo.InOrderExactlyOnce | lib/scmage/sc/common/MsgFifo.h:47-73 | in every interleaving messages are performed and then freed in the order accepted, each once, at most N - 1 unfreed |
| MessageFifo.RefusedIffFull | lib/scmage/sc/common/MsgFifo.h:48-50 | a write is refused exactly when N - 1 messages are unfreed as the writer looks |
| MessageFifo.SlotsApart | lib/scmage/sc/common/MsgFifo.h:51-71 | the three threads never work on the same slot |
| MessageFifo.KeptUntilFreed | lib/scmage/sc/common/MsgFifo.h:51-71 | a message stays in its slot from acceptance until it is freed |
| MessageFifo.DrainedIsDone | lib/scmage/sc/common/MsgFifo.h:43-45 | a loop that finds nothing to do has nothing left to do |
| MessageFifo.HistoryGrows | lib/scmage/sc/common/MsgFifo.h:47-73 | nothing accepted, performed or freed is ever undone |
| MessageFifo.MsgFifo.Write | lib/scmage/sc/common/MsgFifo.h:47-56 | accepts the message exactly when fewer than N - 1 are unfreed |
| MessageFifo.MsgFifo.Perform | lib/scmage/sc/common/MsgFifo.h:58-65 | performs every message not yet performed, in order |
| MessageFifo.MsgFifo.Free | lib/scmage/sc/common/MsgFifo.h:66-73 | frees every performed message not yet freed, in order |
| MessageFifo.MsgFifo.MakeEmpty | lib/scmage/sc/common/MsgFifo.h:38-42 | forgets every message |
| Pipeline.StepKeepsInv | lib/scmage/mage/src/mage.cpp:272-446 | every step of the three threads, looks and changes apart, keeps the pipeline invariant; what a thread saw of the frame queue still holds when it acts on it |
| Pipeline.EachTakenOnce | lib/scmage/mage/src/mage.cpp:292-302 | in every interleaving the n-th synthesis is of the n-th label taken, lasts as long as the model computed for that label, and has at most two predecessors as context; the model queue holds min(n, 2) models |
| Pipeline.LastingIs | lib/scmage/mage/src/mage.cpp:368-406 | the duration that counts for the n-th label taken is the one the n-th model computed was given |
| Pipeline.FramesOfEach | lib/scmage/mage/src/mage.cpp:348-364 | the frames produced are, label after label as taken, as many as its model lasts, numbered from 0 |
| LabelRuns.EachLabelOnce | lib/scmage/mage/src/mage.cpp:272-290 | up to any moment of any run each accepted label has been taken and synthesised once, in order, exactly if none was taken after the labels had been cleared since it was seen; otherwise labels were taken that were not there |
| LabelRuns.LabelStep | lib/scmage/mage/src/mage.cpp:272-290 | the only step that breaks the order of labels is the pop of a label that is not there |
| LabelRuns.TakenFromNone | lib/scmage/mage/src/LabelQueue.cpp:63-71 | such a pop always breaks it, and leaves the count at 2^32 - 1 |
| LabelRuns.RefusedTillCleared | lib/scmage/mage/src/mage.cpp:433-446 | after such a pop with no push under way, however long it takes, until the labels are cleared again or 2^32 - 1 - 512 labels have been taken, every label pushed is refused and every look finds a label, one of those left in the slots; the count is exact |
| LabelRuns.ClearedExample | lib/scmage/mage/src/mage.cpp:272-290 | a run: one label pushed and seen, the labels cleared, the label taken all the same, the next push refused |
| Pipeline.NeverSkipped | lib/scmage/mage/src/mage.cpp:412-430 | the branch that would drop a model is never taken, whatever resets occur |
| Pipeline.FramesInOrder | lib/scmage/mage/src/mage.cpp:348-364 | consumed frames are the first of those produced, and those are the frames of the syntheses in order, as many for each label as its model lasts |
| FramePace.FramePerHop | lib/scmage/mage/src/mage.cpp:348-364 | from when the count starts anew until it is reset, frames consumed, about to be, or missing when due, are the samples counted divided by hopLen |
| Pipeline.NextSlotIsFree | lib/scmage/mage/src/mage.cpp:337-345 | the slot prepared for a new model holds no model still in use |
| MagePipeline.Mage.CheckRoom | lib/scmage/mage/src/mage.cpp:435 | the queues in memory take the step CheckRoom of the pipeline |
| MagePipeline.Mage.StoreLabel | lib/scmage/mage/src/mage.cpp:436 | takes the step StoreLabel |
| MagePipeline.Mage.PushLabel | lib/scmage/mage/src/mage.cpp:433-446 | the two steps in a row; with the labels in order, appends the label exactly when there is room |
| MagePipeline.Mage.CheckLabel | lib/scmage/mage/src/mage.cpp:274 | takes the step CheckLabel |
| MagePipeline.Mage.TakeLabel | lib/scmage/mage/src/mage.cpp:276 | takes the step TakeLabel, whatever the count is |
| MagePipeline.Mage.PopLabel | lib/scmage/mage/src/mage.cpp:272-285 | the two steps in a row; with the labels in order and nothing in between, takes the oldest label exactly when there is one |
| MagePipeline.Mage.ClearLabels | lib/scmage/mage/src/mage.cpp:287-290 | takes the step ClearLabels, and returns the label that would have come next |
| MagePipeline.Mage.Reset | lib/scmage/mage/src/mage.cpp:305-326 | takes the step Reset |
| MagePipeline.Mage.PrepareModel | lib/scmage/mage/src/mage.cpp:337-345 | takes the step PrepareModel |
| MagePipeline.Mage.PushModel | lib/scmage/mage/src/mage.cpp:406 | takes the step PushModel |
| MagePipeline.Mage.OptimizeParameters | lib/scmage/mage/src/mage.cpp:412-430 | takes the step OptimizeParameters, and always starts a synthesis |
| MagePipeline.Mage.CheckFrameRoom | lib/scmage/mage/src/ModelQueue.cpp:170-171 | takes the step CheckFrameRoom, which finds room or leaves the thread waiting |
| MagePipeline.Mage.EmitFrame | lib/scmage/mage/src/ModelQueue.cpp:173-213 | takes the step EmitFrame, which is never without room |
| MagePipeline.Mage.Finish | lib/scmage/mage/src/mage.cpp:412-430 | takes the step Finish |
| MagePipeline.Mage.Tick | lib/scmage/mage/src/mage.cpp:350-363 | takes the step Tick: counts a sample, or looks for a frame every hopLen samples |
| MagePipeline.Mage.ReadFrame | lib/scmage/mage/src/mage.cpp:354 | takes the step ReadFrame, with a frame there |
| MagePipeline.Mage.DropFrame | lib/scmage/mage/src/mage.cpp:355-357 | takes the step DropFrame |
| MagePipeline.Mage.UpdateSamples | lib/scmage/mage/src/mage.cpp:348-364 | the steps in a row: the oldest frame leaves the queue exactly when it is time for one and there is one |
| MageRuns.Perform | lib/scmage/mage/src/mage.cpp:272-446 | any step whose thread is ready for it is taken by the class as the pipeline's step |
| MageRuns.ReadyIffPossible | lib/scmage/mage/src/mage.cpp:272-446 | a thread is ready for a step exactly when the pipeline has such a step from the state it is in |
| MageRuns.Drive | lib/scmage/mage/src/mage.cpp:272-446 | the class under any schedule goes through the run of exactly those steps of the schedule, in order, whose thread was ready for them; its labels are synthesised once exactly under the condition of EachLabelOnce |
| MlsaFilter.OutputLinear | lib/scmage/mage/src/Vocoder.cpp:496-573 | the filtered sample superposes in sample and memory together |
| MlsaFilter.MovesLinear | lib/scmage/mage/src/Vocoder.cpp:496-573 | the memory after a sample superposes in sample and memory together |
| MlsaFilter.RunsSuperpose | lib/scmage/mage/src/Vocoder.cpp:276-325 | over runs of any length, with coefficients changing from sample to sample, outputs and memories of combined inputs are the same combination |
| MlsaFilter.StepDetermined | lib/scmage/mage/src/Vocoder.cpp:565-573 | what a sample leaves in memory is determined by the memory it found |
| MlsaFilter.RunWith | lib/scmage/mage/src/Vocoder.cpp:496-573 | a run is a run for any coefficients that agree up to the order |
| FilterSections.StagesPassAll | lib/scmage/mage/src/Vocoder.cpp:496-516 | over runs from empty memory: the first stage of a section is a one-pole low pass of its input, each later one the all-pass difference equation between stages |
| FilterSections.SectionIsFir | lib/scmage/mage/src/Vocoder.cpp:496-516 | without warping a section puts out the sum of each coefficient times the input so many samples before |
| FilterSections.FirstCascadeStages | lib/scmage/mage/src/Vocoder.cpp:518-540 | each stage of the first cascade is a one-pole low pass of the one before, a sample late, times the first coefficient |
| FilterInverse.CascadeUndone | lib/scmage/mage/src/Vocoder.cpp:527-537 | with the taps' signs alternating, and fed what a cascade put out, it feeds back the same value and puts out what the cascade was fed |
| FilterInverse.FirstUndone | lib/scmage/mage/src/Vocoder.cpp:518-540 | a sample through the first cascade, then through the one with negated coefficient and mirrored memory: the sample again, memories mirrored again |
| FilterInverse.SecondUndone | lib/scmage/mage/src/Vocoder.cpp:542-563 | the same of the second cascade |
| FilterSignals.SignalConvolves | lib/scmage/mage/src/Vocoder.cpp:565-573 | with coefficients that stay, the output is the input convolved with the impulse response |
| FilterSignals.FiltersCommute | lib/scmage/mage/src/Vocoder.cpp:565-573 | two filters of the same order and warping may be applied in either order |
| FilterUndoing.SignalUndone | lib/scmage/mage/src/Vocoder.cpp:565-573 | from empty memory, the filter with negated coefficients undoes the filter, for every signal |
| FilterUndoing.NegatedUndoes | lib/scmage/mage/src/Vocoder.cpp:565-573 | the same over runs of any length: what was fed in comes out again, sample by sample |
| FilterResponse.CascadeGain | lib/scmage/mage/src/Vocoder.cpp:527-537 | where each tap is s times the one before, a cascade feeds back its input over P(-s) and puts out P(s) times that, P being the Pade polynomial |
| FilterResponse.Response | lib/scmage/mage/src/Vocoder.cpp:496-573 | on powers of a real z the output is the input times P(s1) P(s2) over P(-s1) P(-s2), s1 and s2 being the exponents of the two cascades at the warped z |
| FilterResponse.ExponentsAre | lib/scmage/mage/src/Vocoder.cpp:430-438 | s1 + s2 is the polynomial of the mel-cepstrum at the warped z, less the gain coefficient, for coefficients in filter form |
| FilterTones.ToneMoves | lib/scmage/mage/src/Vocoder.cpp:496-573 | for every real z but 0 and alpha there is a memory that the next sample only multiplies by z, and the output is the response |
| FilterTones.ToneRun | lib/scmage/mage/src/Vocoder.cpp:565-573 | over runs of any length from such a memory, fed powers of z, each output is the response times that power |
| Vocoders.Vocoder.Mlsafir | lib/scmage/mage/src/Vocoder.cpp:496-516 | one section in place: its output and its m + 2 values, nothing else touched |
| Vocoders.Vocoder.Mlsadf1 | lib/scmage/mage/src/Vocoder.cpp:518-540 | the first cascade in place, within its 2 (pd + 1) values |
| Vocoders.Vocoder.Mlsadf2 | lib/scmage/mage/src/Vocoder.cpp:542-563 | the second cascade in place, within its pd (m + 2) + pd + 1 values |
| Vocoders.Vocoder.Mlsadf | lib/scmage/mage/src/Vocoder.cpp:565-573 | the filter in place, its sample and its memory; coefficients, target and increment are not touched, every access is within the buffer; the rows on its response and its inverse say which filter |
| Vocoders.Vocoder.Mc2b | lib/scmage/mage/src/Vocoder.cpp:430-438 | the result is the filter form of the given coefficients, as the inverse recurrence says |
| Vocoders.Vocoder.ExponentsAreSpectrum | lib/scmage/mage/src/Vocoder.cpp:430-438 | with the converted coefficients in the buffer the filter's exponents add up to the mel-cepstrum at the warped z, less the gain coefficient |
| Vocoders.Vocoder.PadePolynomials | lib/scmage/mage/src/Vocoder.cpp:84-95 | the polynomials of orders 4 and 5 that the table and the offset into it select |
| Vocoders.Vocoder.Prepare | lib/scmage/mage/src/Vocoder.cpp:203-242 | the target is the new frame's, the coefficients jump to the old target and set out on a straight line that ends at the new one |
| Vocoders.Vocoder.Pop | lib/scmage/mage/src/Vocoder.cpp:276-325 | amplified, filtered, scaled; the coefficients move one step of their line, or stay once they have arrived |
| Vocoders.Vocoder.GainAndVolume | lib/scmage/mage/src/Vocoder.cpp:293-315 | with ngain the excitation is multiplied by c[0], else by its exponential; a nonnegative volume multiplies, a negative one leaves the sample alone |
| Vocoders.Vocoder.Play | lib/scmage/mage/src/Vocoder.cpp:276-317 | any number of samples one after another: after k of them each coefficient has taken k steps of its line, or as many as were left; target and increment stay |
| Vocoders.Vocoder.PlayFrame | lib/scmage/mage/src/Vocoder.cpp:203-317 | a frame and any number of samples: the coefficients set out from the old target, are at the new one after k samples exactly if the periods divide and k reaches their quotient or there was nowhere to go, and stay |
| Vocoders.Vocoder.PlayedIsRun | lib/scmage/mage/src/Vocoder.cpp:276-317 | what is played is a run of the filter fed with the amplified excitation, and its output that of the run at the volume |
| Vocoders.Vocoder.PlaysSuperpose | lib/scmage/mage/src/Vocoder.cpp:276-317 | pieces played with the same coefficients superpose in excitation and memory, sample by sample |
| Vocoders.Vocoder.RampFallsShort | lib/scmage/mage/src/Vocoder.cpp:299-310 | an instance: three samples a frame and two a step, from 0 for 3, stays at 2 however many samples are played |
| Vocoders.Vocoder.RampReachesIff | lib/scmage/mage/src/Vocoder.cpp:237-238 | the whole number of steps of one frame arrives at the target exactly when the periods divide or there is nowhere to go |

## Left out

- IEEE arithmetic: rounding, overflow, NaN and infinities; the model computes over exact reals.
- Overflow of 32-bit products in the duration cap and of `size_t` in requests near the word size.
- AllocPools.AllocPool.constructor: an initial area of a single granule is excluded, because no chunk fits in it; so is one of 2^31 bytes and more.
- Exceptions: the constructor that throws is a field saying so, after which the object would not exist.
- AllocPools.AllocPool.Alloc: requires that a new area is taken whole or leaves room for another chunk, because the code breaks its own check otherwise, and sizes below 2^31, because differences are cast to `int`.
- PoolClients.Perform: makes a resizing call only if the area it brings would do for an allocation, even where the block would fit in place.
- AllocPools.AllocPool.LargestFreeChunk: requires some free chunk; without one the program reads outside the bins.
- AllocPool areas whose size is not a multiple of 64: the code does not round them, and neither does the model, which counts granules.
- Link.ContainsBuf, PopHead, PushHead and their like, which the pool does not use.
- Garbage filling and the `DISABLE_MEMORY_POOLS` build.
- ModelQueues.OptimizeStream: for a stream with a global variance assumes that no curvature of the second stage vanishes at the solution, because the code divides by it; the global-variance statistics are parameters.
- ParameterStream.PStream.Mlpg: assumes the global-variance switches off, as the code sets them, and divides by curvatures assumed nonzero in that stage.
- The gathering of global-variance statistics in ModelQueue.cpp and Model.cpp, and `mlsacheck`.
- Decision trees, model files and interpolation weights behind `HTS_ModelSet`; the durations and statistics they yield are arbitrary in the model.
- Queues.MemQueue.Push: a block that runs over the end of the ring twice, for which the program copies outside its memory.
- Memory orders weaker than sequential consistency, and the writes inside one operation of a MAGE queue: each such operation is one step, with its `++` or `--` of the count indivisible although the program's counters are plain integers.
- MessageFifo.MsgFifo.MakeEmpty: taken while the other threads are at rest; racing with them it loses the order of the heads.
- `MsgFifoNoFree`: the three-headed queue whose freer follows the performer at once covers it.
- LabelRuns.EachLabelOnce: labels refused because the queue is full, or cleared while queued, are not among those accepted; labels are pushed by one thread.
- Waiting: the model says what may happen while the frame queue is full, not that the consumer ever makes room.
- The generalised filter (`stage != 0`), excitation, pitch control and `Vocoder::reset`.
- Vocoders.Vocoder.Prepare: models the spectral coefficients only, not pitch period, voicing and the generalised filter that the same routine sets up.
- Vocoders.Vocoder.Pop: models the filter with stage 0 only, and the excitation sample is a parameter; so do Play and PlayFrame.
- PsolaVocoder, QtCollider, file access, platform code, the UGen glue and the generated parsers.
