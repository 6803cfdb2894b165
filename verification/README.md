# Frontier Directorate core: verification model

This project models the deterministic C core of Frontier Directorate and proves what the
core promises about itself.

- **Worlds.** A world is a grid of tiles with a region record, six entities and a clock. The
  generator lays coast, elevation, river, biomes, settlements and a shortest road from
  bounded random draws; an independent validator scans and walks the result. The theorems
  join the two: whatever the draws, coast, river and settlements pass by construction, the
  road is the canonical shortest path and passes whenever it meets at most one river tile,
  and that condition decides whether the last, constructive attempt succeeds. It can fail:
  `Barred` gives a configuration and draws for which it does, `Meadow` a family
  of draws, on every size, for which it cannot.
- **Steps.** A joint decision is accepted exactly when it is the all-PASS decision for the
  current tick and digest; an accepted step moves clock and digest and nothing else.
- **Saves.** A save is a sectioned, digested file. The writer emits exactly the bytes it
  announced, the loader accepts exactly the canonical encodings, and the two are inverse on
  every world reachable by generate, load and step.
- **Replays.** A replay is an event-sourced log in two streams and checkpoints. Whatever is
  built opens; whatever opens is the log of some run; advancing by any schedule of batches
  follows that run.
- **Arithmetic.** SHA-256 streams like its one-shot form over the padded message (sections
  5.1.1 and 6.2 of FIPS 180-4) and gives the published digests, Philox is a bijection on
  counters and gives the published blocks, and bounded sampling is exactly uniform by counting.
- **Protocols.** The benchmark's batch barrier and the lock-free peak counter are state
  machines whose invariants hold in every interleaving.

Everywhere but in `Sha256`, `Rng`, `KnownAnswers` and the streaming halves of `Digests` and
`DecisionDigests` the hash is a parameter `sha` of the members that use it; no property here needs
it to be injective.

The modules follow the source files. `Grid`, `Counting`, `TilePath`, `World` and `Invariants` are
shared. `Heap`, `ShortestRoad`, `RoadSearch`, `RoadBuilder` and `RoadCharges` are the road;
`Layout`, `Coast`, `Elevation`, `River`, `Ground`, `Biomes`, `BiomeShares` and `Placement` the
stages before it; `Attempt` says what one attempt leads to and `Generate` builds it. `Validate` is
the validator and `Mainland` what its coast rule is for. `Codec`, `Hashing`, `Wire`, `Digests` and
`DecisionDigests` are the canonical bytes; `Decisions` and `Step` the step; `Frames` and `Save*` the
save container. Of the replay, `ReplayLog` is what it means, `ReplayWire` and `ReplayFormat` its
bytes, `ReplayLayout`, `ReplayStreams` and `ReplayBuild` the builder, `ReplayRead`, `ReplayMerge`
and `ReplayOpen` the reader, `ReplayRoundTrip` joins the two and `ReplayAdvance` plays it. `Sha256`, `Philox` and `Rng`, whose
published vectors are in `KnownAnswers`, `Barrier` and `Peak` stand alone.
Objects the source updates in place are classes (`World.Game`, `Heap.IndexedHeap`,
`SaveWriter.Writer`, `Sha256.Context`, `ReplayOpen.Replay`) and its loops are loops; specifications
are functions and predicates.

`dafny verify dfyconfig.toml` checks the whole project.

## Model

| member | source | states |
|---|---|---|
| `Heap.IndexedHeap.Swap` | src/core/fd_generate.c:23-30 | `nodes` and `positions` stay inverse to each other, and only the two named slots exchange their nodes |
| `Heap.IndexedHeap.Up` | src/core/fd_generate.c:32-43 | a heap ordered except above one slot, the state a decrease-key leaves, is ordered again and holds the same nodes |
| `Heap.IndexedHeap.Down` | src/core/fd_generate.c:45-66 | a heap ordered except below one slot is ordered again and holds the same nodes |
| `Heap.IndexedHeap.Insert` | src/core/fd_generate.c:68-75 | the heap stays valid and holds exactly one node more |
| `Heap.IndexedHeap.Pop` | src/core/fd_generate.c:77-88 | the node returned precedes every held node in the (distance, index) order; exactly that node leaves and the heap stays valid |
| `ShortestRoad.CanonicalRouteUnique` | src/core/fd_generate.c:580-588 | a road whose every step comes from the lowest-numbered of all cost-tight predecessors is unique, so the road depends on the cost field alone |
| `ShortestRoad.CanonicalDistances` | src/core/fd_generate.c:565-590 | the cost of a canonical route is the least over all 4-connected passable routes to its end |
| `ShortestRoad.CanonicalRouteExists` | src/core/fd_generate.c:565-590 | every reachable tile has such a canonical route, so there is exactly one |
| `ShortestRoad.ShortestIsInduced` | src/core/fd_generate.c:531-563 | because every entered tile costs at least one, a minimum-cost route, canonical or not, repeats no tile and has no chord |
| `RoadSearch.PoppedNeverImproves` | src/core/fd_generate.c:577-589 | a tile popped from the heap is never improved again, so never reinserted, and no sum reaches the 32-bit sentinel |
| `RoadSearch.RelaxImproves` | src/core/fd_generate.c:577-589 | overwriting a distance or a tied predecessor keeps the whole search invariant |
| `RoadSearch.RelaxKeeps` | src/core/fd_generate.c:565-576 | leaving a neighbour alone, water or no better, keeps the whole search invariant |
| `RoadSearch.RouteLowerBound` | src/core/fd_generate.c:622-652 | at any moment a route either ends at a popped tile it does not undercut, or already costs at least as much as the last pop |
| `RoadSearch.PoppedIsOptimal` | src/core/fd_generate.c:622-652 | every popped tile carries its true minimum distance |
| `RoadSearch.PredecessorIsCanonical` | src/core/fd_generate.c:580-588 | every popped tile but the start records the lowest-numbered of all its cost-tight predecessors |
| `RoadSearch.TraceBack` | src/core/fd_generate.c:660-686 | following recorded predecessors from any reached tile strictly lowers the distance and reaches the start in at most tile-count steps |
| `RoadSearch.ChainIsCanonical` | src/core/fd_generate.c:660-686 | the tiles met on that walk are the canonical shortest route, so the walk never reaches its internal-error exit |
| `RoadSearch.DryHeapReachesAll` | src/core/fd_generate.c:653-659 | when the heap runs dry, every tile any route can reach has been popped |
| `RoadBuilder.RelaxNeighbor` | src/core/fd_generate.c:565-590 | one relaxation keeps the heap valid and the search invariant, with one neighbour fewer left to do |
| `RoadBuilder.Search` | src/core/fd_generate.c:592-659 | the loop ends with the goal popped, or with proof that no route to it exists |
| `RoadBuilder.WalkBack` | src/core/fd_generate.c:660-690 | the backward walk marks exactly the recorded route, or stops only because that route holds two river tiles |
| `RoadBuilder.ConstructRoad` | src/core/fd_generate.c:592-696 | on success the road bits are exactly the canonical minimum-cost chordless route, with the crossing bit on its one river tile; it fails if and only if the goal is unreachable or that route meets two river tiles, and even then only road bits change; entry costs are those of the two rows below |
| `RoadCharges.EntryCharges` | src/core/fd_generate.c:531-563 | entering a tile costs 1, 2, 4, 7 or 8 for settlement, grassland, forest, hills or wetlands, 20 more with river and 1 more with the tie bit, for all tiles and both bits; nothing else can be entered |
| `RoadCharges.FewestTies` | src/core/fd_generate.c:531-590 | the drawn road meets no more tie bits than any other route whose terrain and rivers cost the same |
| `RoadCharges.TieTurnsRoad` | src/core/fd_generate.c:531-590 | on four grassland tiles the road turns at tile 2 exactly when tile 1 has a tie bit and tile 2 has none, for all sixteen choices of bits |
| `RoadBuilder.DrawnRoadIsValid` | src/core/fd_validate.c:278-389 | a chordless route over land with at most one river tile, once drawn, is a valid road between its two ends |
| `TilePath.PathDegrees` | src/core/fd_validate.c:146-229 | on an induced path every tile has one or two marked neighbours and exactly the two ends have one |
| `TilePath.TraceStep` | src/core/fd_validate.c:192-221 | while exactly one marked tile lies onward, stepping onto it extends a trace that fixes all neighbours behind it |
| `TilePath.NeverRevisits` | src/core/fd_validate.c:192-221 | that one onward tile was never on the trace before, so the walk cannot loop |
| `TilePath.TraceComplete` | src/core/fd_validate.c:192-229 | a trace with nothing onward that has visited as many tiles as are marked is one induced path covering all of them, with no detached cycle |
| `TilePath.TraceFollows` | src/core/fd_validate.c:192-229 | if the marked tiles form an induced path from the same end, the walk follows precisely that path |
| `TilePath.InducedPathUnique` | src/core/fd_validate.c:134-229 | an overlay has at most one such path from a given end |
| `Validate.NeighborCount` | src/core/fd_validate.c:17-63 | the count of marked neighbours other than the one excluded, and one of them when there is any |
| `Validate.AdjacentTerrain` | src/core/fd_validate.c:65-85 | true exactly when some 4-neighbour has the terrain |
| `Validate.ValidateCoastLand` | src/core/fd_validate.c:87-132 | accepts exactly the maps with 55 to 80 percent land in which each row is one unbroken run overlapping the run above |
| `Mainland.LandIsConnected` | src/core/fd_validate.c:87-132 | on every map so accepted one can walk over land from any land tile to any other |
| `Validate.ScanRiver` | src/core/fd_validate.c:146-187 | the tile scan passes exactly when every river tile is locally admissible, and its counters are the sizes of the river, end and outlet sets |
| `Validate.WalkRiver` | src/core/fd_validate.c:188-229 | the walk succeeds on every valid river, and when it succeeds it has traced one strictly rising induced path covering the overlay |
| `Validate.ValidateRiver` | src/core/fd_validate.c:134-229 | accepts exactly when the river overlay is one simple induced path, strictly rising from the only outlet, at the sea, to hills at least eight steps from water |
| `Validate.ValidateSettlements` | src/core/fd_validate.c:231-276 | accepts exactly when there are two settlement tiles at the required places and distances |
| `Validate.ScanRoad` | src/core/fd_validate.c:291-335 | the scan passes exactly on locally admissible road tiles and finds the lowest-numbered end |
| `Validate.WalkRoad` | src/core/fd_validate.c:336-376 | the walk succeeds on every induced road path from that end, covers it, and counts an entry to the crossing once |
| `Validate.CrossedIffInterior` | src/core/fd_validate.c:353-386 | the walk agrees with the scan on crossings exactly when the crossing is not the end the walk starts from |
| `Validate.ValidateRoad` | src/core/fd_validate.c:278-389 | accepts exactly when the road overlay is one induced land path joining the two settlements whose marked crossings are its river tiles, at most one, and not the lower-numbered end |
| `Validate.ValidateOwnership` | src/core/fd_validate.c:391-442 | accepts exactly when entities, region record and map agree on identities, owners, sites and counts |
| `Validate.TakeCensus` | src/core/fd_validate.c:452-492 | one pass gives the size of every terrain class and whether every tile is admissible |
| `Validate.ValidateWorld` | src/core/fd_validate.c:444-550 | each verdict bit, ownership included, holds exactly when its invariant does, the reported counts are those of the map, and all bits pass exactly when the world meets every authoritative invariant |
| `Layout.PlanIsValid` | src/core/fd_generate.c:698-826 | every outcome of the bounded draws, on every admissible size, gives a valid layout plan |
| `Layout.LayoutInNumbers` | src/core/fd_generate.c:704-779 | the base water is three tenths of the width, the amplitude a thirty-second, the outlet row two more than its offset and the source 0, 2 or 3 rows below it; on admissible sizes the guards that would move outlet or source never fire |
| `Layout.CourseIsChordless` | src/core/fd_generate.c:478-529 | the planned river course visits no tile twice and touches itself only between consecutive tiles |
| `Layout.CourseOnLand` | src/core/fd_generate.c:478-529 | every tile of the course is on the map, on land, and lies at least a hundredth of its step number from the shore, which is why it never needs raising |
| `Layout.SitesAreApart` | src/core/fd_validate.c:222-276 | for every plan the source is eight and the inland town four steps from any sea, the towns twelve apart, the coastal one beside the mouth |
| `Layout.ShoreTouchesSea` | src/core/fd_validate.c:231-256 | the river mouth and the coastal town always have a sea tile beside them |
| `Coast.PaintCoast` | src/core/fd_generate.c:776-825 | the nested painting loops leave exactly the planned sea and land and count the land |
| `Coast.CoastAlwaysOk` | src/core/fd_validate.c:87-132 | any map that follows a valid plan passes the coast and land rule |
| `Elevation.UpliftBounded` | src/core/fd_generate.c:226-314 | the three octaves add at most 1023 centimetres to any tile, whatever the lattice draws |
| `Elevation.AddOctave` | src/core/fd_generate.c:258-313 | one octave raises each land tile by its interpolated noise and nothing else |
| `Elevation.BlendIsMean` | src/core/fd_generate.c:276-294 | one interpolation is the floor of the weighted mean of two lattice values, and exactly the first at a lattice line |
| `Elevation.RainfallInNumbers` | src/core/fd_generate.c:303-311 | rainfall is 800 mm and 8 more for each 25 cm of height, 2400 from 50 m on, and never falls as land rises |
| `Elevation.ApplyElevation` | src/core/fd_generate.c:226-314 | land is only ever raised, by the sum of the three octaves, and all other fields are unchanged |
| `River.SetRiverTile` | src/core/fd_generate.c:452-476 | succeeds exactly when the tile does not have to be raised; then it becomes a grassland river tile at the given level and the least carve is brought up to date, otherwise only the raised counter moves |
| `River.ConstructRiver` | src/core/fd_generate.c:478-529 | succeeds exactly when the whole course fits; then exactly the course is carved, rising a centimetre a step from the marked outlet, and the recorded carve is the least over the course |
| `Biomes.CourseFits` | src/core/fd_generate.c:452-529 | after any elevation field the whole course fits, so the river never needs raising |
| `Biomes.WetlandEligible` | src/core/fd_generate.c:316-342 | true exactly when the tile is on or beside river or sea |
| `Biomes.AssignBiomes` | src/core/fd_generate.c:839-870 | dry land gets the terrain its draw selects (the shares of the draws are the next two rows), with wetland only where eligible; sea and river are untouched, and the order of visits does not matter |
| `BiomeShares.DryShares` | src/core/fd_generate.c:855-866 | of the million draws on dry land away from water exactly the hill density gives hills and the forest density forest, hills below forest below grassland |
| `BiomeShares.WetShares` | src/core/fd_generate.c:855-866 | beside water exactly the lowest draws, as many as the wetland density, give wetlands, and all others answer as away from water |
| `Biomes.BiomesMakeGround` | src/core/fd_generate.c:832-870 | coast, elevation, river and biomes together give a ground that follows the plan |
| `Ground.GroundHasRiver` | src/core/fd_validate.c:134-229 | on every such ground the course is a valid river |
| `Ground.GroundHasSettlements` | src/core/fd_validate.c:231-276 | on every such ground the two towns are valid settlements |
| `Ground.GroundTilesOk` | src/core/fd_validate.c:452-492 | on every such ground each tile is admissible |
| `Ground.OffCourse` | src/core/fd_generate.c:830-831 | neither town ever lands on the river course, the sea or the other town |
| `Placement.RepresentKeepsGround` | src/core/fd_generate.c:873-886 | forcing the three missing terrains keeps the ground valid and represents every terrain |
| `Placement.SettleKeepsGround` | src/core/fd_generate.c:892-899 | placing the two towns keeps the ground valid and keeps every terrain represented |
| `Placement.InlandIsReachable` | src/core/fd_generate.c:592-659 | for every ground the inland town can be reached by land from the coastal one |
| `Placement.RepresentedIsCovered` | src/core/fd_validate.c:444-550 | with every terrain represented and two towns placed, the coverage rule holds |
| `Generate.InitializeEntities` | src/core/fd_generate.c:394-450 | the six entities have identifiers 2^32 + 1 to 2^32 + 6, kinds 1 to 5 and 5, their owners, names and sites, and the region record agrees |
| `World.InputsInNumbers` | src/core/fd_generate.c:146-219 | the admissible inputs as ranges; the limits on tile count and on single densities follow from the others |
| `Attempt.GroundExists` | src/core/fd_generate.c:776-899 | every outcome of the draws leads through coast, elevation, river, biomes and towns to some ground |
| `Attempt.GroundIsOne` | src/core/fd_generate.c:776-899 | and to no other, so the ground is a function of configuration and draws |
| `Attempt.ProducesOne` | src/core/fd_generate.c:698-922 | two runs of one attempt on the same draws produce the same map, road included |
| `Attempt.PassesExactly` | src/core/fd_generate.c:698-922 | an attempt passes if and only if its ground shows every terrain and its canonical road does not meet two river tiles; in the fallback only the road can fail |
| `Barred.FallbackCanFail` | src/core/fd_generate.c:663-671 | the fallback does not always pass: for one admissible configuration and one outcome of its draws no world is generated |
| `Meadow.MeadowPasses` | src/core/fd_generate.c:698-922 | on every admissible size the fallback passes when all dry tiles draw grassland and no tie bit is set, because the dry way inland undercuts any two crossings |
| `Meadow.WorldsExist` | src/core/fd_generate.c:924-1063 | for every admissible configuration with positive densities some world is generated by some draws |
| `Generate.CandidateMeetsInvariants` | src/core/fd_validate.c:444-550 | a candidate whose road was drawn passes every invariant if and only if it passes terrain coverage |
| `Generate.GenerateCandidate` | src/core/fd_generate.c:698-922 | accepts exactly when the attempt passes, and then holds the one map its draws lead to, meets every invariant, never raised its river and carries its own digest; it rejects for the road exactly when the canonical road meets two river tiles, otherwise for missing terrain, and that never in the fallback |
| `Generate.GenerateWorld` | src/core/fd_generate.c:924-1063 | bad inputs and oversized worlds are refused; otherwise a world is generated exactly when some attempt passes, it is the one its first passing attempt leads to, and each earlier rejection is explained |
| `Digests.ConfigBytesInjective` | src/core/fd_generate.c:90-112 | different configurations never feed the same bytes to their digest |
| `Digests.StateBytesInjective` | src/core/fd_core.c:375-441 | states with the same hashed bytes agree in settings, seed, content, clock, every tile, entity and region field |
| `Digests.BytesIdentifyWorld` | src/core/fd_core.c:375-441 | and valid worlds with the same hashed bytes are the same world, counters that are not hashed included |
| `Digests.ComputeHash` | src/core/fd_core.c:375-441 | the streaming loops record the digest of exactly those bytes and change nothing else |
| `Digests.HashConfig` | src/core/fd_generate.c:90-112 | the loop over ten values hashes exactly the configuration bytes |
| `Digests.HashContent` | src/core/fd_generate.c:114-133 | the loop over packs hashes exactly the content bytes |
| `Hashing.StateHashIgnoresRecord` | src/core/fd_core.c:375-441 | the digest of a state does not depend on the digest recorded in it |
| `DecisionDigests.HashedBehindText` | src/core/fd_core.c:375-441 | the bytes hashed for a state, a configuration, a content list and a decision each begin with the length and the text of their own purpose |
| `Hashing.PrefixesSeparate` | src/core/fd_core.c:375-441 | bytes that begin with one such text begin with no other, so no input hashed for one purpose is an input for another |
| `Codec.LoadStored64` | src/core/fd_core.c:94-124 | loading a stored 64-bit value gives it back, wherever it lies in the buffer |
| `Codec.StoreLoaded64` | src/core/fd_core.c:94-124 | storing a loaded 64-bit value gives back the same eight bytes |
| `Codec.SignedRoundTrip` | src/core/fd_serialize.c:595-602 | the cast between signed elevations and their unsigned wire form loses nothing either way |
| `Codec.OverlayRoundTrip` | src/core/fd_serialize.c:595-602 | the overlay mask survives its wire form, undefined bits included |
| `Sha256.PaddedInjective` | src/core/fd_sha256.c:128-154 | two messages below 2^61 bytes with the same padded form are the same message |
| `Sha256.LengthFieldMeans` | src/core/fd_sha256.c:128-154 | the last eight bytes denote the bit length of the message modulo 2^64 |
| `Sha256.PaddedInOneBlock` | src/core/fd_sha256.c:128-154 | with at most 55 bytes left the final block alone completes the fold over the padded message |
| `Sha256.PaddedInTwoBlocks` | src/core/fd_sha256.c:135-141 | with 56 to 63 bytes left one extra block is compressed first, and the fold is again that of the padded message |
| `Sha256.Extend` | src/core/fd_sha256.c:105-126 | filling the block to its end or short of it changes the absorbed prefix by exactly that block or not at all |
| `Sha256.Context.CompressBlock` | src/core/fd_sha256.c:10-89 | the state becomes its compression with the block, the block itself unchanged; the digests below fix what compression computes |
| `Sha256.Context.Update` | src/core/fd_sha256.c:105-126 | after any chunk, empty or spanning many blocks, the context stands for the concatenation of all it was fed |
| `Sha256.Context.Final` | src/core/fd_sha256.c:128-154 | the digest is the fold of compression over the padded concatenation, at every block fill |
| `Sha256.DigestChunks` | src/core/fd_sha256.c:105-154 | any chunking of a message gives the digest of the whole |
| `KnownAnswers.AbcDigest` | tests/core/test_core.c:211-216 | the digest of "abc" is the published one |
| `KnownAnswers.ScopeDigest` | tests/core/test_core.c:233-237 | the digest of the 98 framed bytes of the first coast scope under the zero seed, two padded blocks, is the vector the repository records |
| `Philox.MultiplyThenInvert` | src/core/fd_rng.c:10-37 | the two odd multipliers have inverses modulo 2^32 that undo the low product |
| `Philox.UnroundRound` | src/core/fd_rng.c:17-34 | one round can be undone for every key |
| `Philox.RoundUnround` | src/core/fd_rng.c:17-34 | every block is the result of a round |
| `Philox.Bijection` | src/core/fd_rng.c:10-37 | for every key two counters give the same block only if they are equal, and every block has a counter |
| `Philox.RunPhilox` | src/core/fd_rng.c:10-37 | the in-place rounds with the bumped key compute that bijection, ten of them as the two vectors show |
| `Philox.ZeroVector` | tests/core/test_core.c:222-230 | the block of the zero counter under the zero key is the Random123 vector |
| `Philox.PiVector` | src/core/fd_rng.c:10-37 | the Random123 vector over the digits of pi, in which all counter and key words differ |
| `Rng.ScopeBytesInjective` | src/core/fd_rng.c:39-79 | the framed fields of two scopes are equal only if the scopes are, so no two streams share a hash input |
| `Rng.RngDigest` | src/core/fd_rng.c:39-79 | the digest is taken over exactly those framed bytes |
| `Rng.CounterInjective` | src/core/fd_rng.c:81-108 | within a scope the counter determines sample index, draw site and retry block |
| `Rng.DistinctDraws` | src/core/fd_rng.c:81-108 | two draws of one scope get the same four words if and only if sample index, draw site and retry block all agree |
| `Rng.RetryWord` | src/core/fd_rng.c:81-108 | lane k of a retry block is word k of the Philox block whose key is digest words 0 and 1 masked by 6 and 7, and whose counter is digest words 2 to 5 masked by the low and high half of the sample, the site and the retry number |
| `Rng.Bounded` | src/core/fd_rng.c:125-165 | the draw is the first accepted word in (block, lane) order reduced by the bound, or exhaustion exactly when all words are rejected |
| `Rng.PreimageCount` | src/core/fd_rng.c:136-164 | over a span of whole windows each residue is hit once per window |
| `Rng.Uniform` | src/core/fd_rng.c:136-164 | each residue has exactly floor(2^32 / bound) accepted preimages, so the reduction is exactly uniform |
| `KnownAnswers.FacingDraw` | src/core/fd_generate.c:729-737 | the first bounded draw of the zero seed, from its scope through SHA-256, key, counter and Philox to the reduced value |
| `Barrier.StepKeepsInv` | bench/core/bench_u01.c:209-304 | every atomic step of a worker or of the dispatcher keeps the protocol invariant |
| `Barrier.Exclusive` | bench/core/bench_u01.c:209-251 | in every interleaving no world is held by two workers, and a held world lies in the dispatched slice |
| `Barrier.EpochsAgree` | bench/core/bench_u01.c:209-304 | in every interleaving each worker is at the current epoch or one behind, modulo its wrap, and `completed` counts those that finished |
| `Barrier.ExactlyOnce` | bench/core/bench_u01.c:292-304 | whenever no dispatch is running, every world has been stepped once for each dispatch that covered it, if no step failed, and never more often |
| `Barrier.NoLostWakeup` | bench/core/bench_u01.c:209-304 | while a dispatch or the final join waits, some thread can always move |
| `Barrier.StepUsesWork` | bench/core/bench_u01.c:209-304 | every step except a spurious wake-up uses up some of the dispatch's remaining work |
| `Barrier.DispatchReturns` | bench/core/bench_u01.c:292-304 | a dispatch takes at most 97 steps plus two for each spurious wake-up, and can stop moving only when it has returned |
| `Peak.StepKeepsInv` | src/core/fd_core.c:126-162 | every atomic step keeps the invariant, and the peak never decreases |
| `Peak.PeakIsExact` | src/core/fd_core.c:126-150 | in every interleaving the peak never exceeds the greatest live total so far, equals it whenever no allocation is in flight, and never decreases |
| `Peak.FreeNeverUnderflows` | src/core/fd_core.c:152-162 | a block that was returned can always be freed without the live counter going below zero |
| `Peak.InFlightFinishes` | src/core/fd_core.c:126-150 | an allocation in flight, left alone, finishes in at most two steps |
| `Decisions.AcceptedIsPass` | src/core/fd_core.c:922-961 | a joint decision passes exactly when, up to its struct sizes, it is the all-PASS decision for the current tick and digest; each refusal is of an auditable kind |
| `Decisions.AcceptedInNumbers` | src/core/fd_core.c:890-961 | field by field, with its sizes and codes: the accepted decisions and no others |
| `Decisions.ActionAccepted` | src/core/fd_core.c:890-920 | for a seat of the region the only action that passes is PASS without parameters |
| `Decisions.ValidateAction` | src/core/fd_core.c:890-920 | answers the diagnostic of the first failing check, naming the first nonzero parameter, and OK exactly for a seat of the region passing without parameters |
| `Decisions.ValidateJoint` | src/core/fd_core.c:922-961 | answers the diagnostic of the first failing check over header, clock, digest and both seats, and OK exactly for the all-PASS decision of the current tick and digest |
| `Decisions.StagedHashesAlike` | src/core/fd_core.c:963-988 | normalising the struct sizes of a decision does not change its digest |
| `DecisionDigests.HashDecision` | src/core/fd_core.c:963-988 | the streaming loops over seats and parameters hash exactly the canonical decision bytes |
| `DecisionDigests.DecisionBytesInjective` | src/core/fd_core.c:963-988 | two decisions hash the same bytes if and only if they agree up to struct sizes and ABI numbers |
| `Step.WorldOkIgnoresClock` | src/core/fd_core.c:990-1125 | no authoritative invariant looks at the clock or the recorded digest |
| `Step.AnswersDecides` | src/core/fd_core.c:990-1125 | a step answers OK exactly when decision, clock and world are all acceptable |
| `Step.RunTicks` | src/core/fd_core.c:1030-1108 | the 24 by 23 phase loop fills 552 phase and 146 entity entries within bounds, stages at entry 550 before hashing at 551, and its error exit is unreachable once the first tick passed |
| `Step.WorldStep` | src/core/fd_core.c:990-1125 | a refused step changes nothing; an accepted one adds 24 ticks, sets the digest of the new state, changes nothing else, and reports both |
| `Frames.ReadFrame` | src/core/fd_serialize.c:320-371 | a frame is read exactly when clean header, larger tag, room and payload digest all agree |
| `Frames.SplitsOnce` | src/core/fd_serialize.c:307-394 | a body splits into frames in at most one way |
| `Frames.WholeBody` | src/core/fd_serialize.c:307-394 | the unique split is acceptable exactly when every mandatory tag occurs and is critical |
| `Frames.Recount` | src/core/fd_serialize.c:378-390 | the second counting scan agrees with the first and cannot run past the end |
| `Frames.ParseSave` | src/core/fd_serialize.c:307-394 | accepts exactly the bodies that split into at most 64 frames with strictly increasing tags and matching digests, tags 1 to 11 present and critical; later tags are optional |
| `Frames.ParseReplay` | src/core/fd_replay.c:682-758 | the same for replays with tags 1 to 5 |
| `Wire.TileStored` | src/core/fd_serialize.c:595-602 | reading a written tile gives it back |
| `Wire.TileRead` | src/core/fd_serialize.c:595-602 | rewriting a read tile gives the same 24 bytes |
| `Wire.RegionStored` | src/core/fd_serialize.c:603-613 | reading a written region record gives it back |
| `Wire.EntityStored` | src/core/fd_serialize.c:621-646 | reading a written entity, name included, gives it back |
| `Wire.EntityRead` | src/core/fd_serialize.c:621-646 | rewriting a read entity gives the same bytes |
| `SaveFormat.SaveSizeExact` | src/core/fd_serialize.c:94-122 | the precomputed size is exactly the length of the encoding, for all tile, content and name lengths, and fits 32 bits |
| `SaveFormat.SaveIsSealed` | src/core/fd_serialize.c:70-82 | each save begins with the magic and ends with the digest of everything before it, behind the length 34 and the text FrontierDirectorate/Save/Footer/v1 |
| `SaveFormat.SteppedIsAuthentic` | src/core/fd_core.c:990-1125 | a step keeps a world valid, with true configuration, content and state digests |
| `SaveWriter.EntitySectionLength` | src/core/fd_serialize.c:83-92 | the loop over names gives the exact length of the entity section |
| `SaveWriter.PutEntities` | src/core/fd_serialize.c:266-280 | the entity loop appends exactly the payload of section 8 |
| `SaveWriter.PutMap` | src/core/fd_serialize.c:237-263 | the tile loop and region fields append exactly the payload of section 7 |
| `SaveWriter.WorldSave` | src/core/fd_serialize.c:141-305 | succeeds exactly when the size fits the limit and the buffer; then the buffer holds the canonical bytes, as many as announced, between the save magic and the digest of length 34, footer text and body, and no byte outside changes; on failure no byte changes |
| `SaveRead.LoadConfig` | src/core/fd_serialize.c:459-489 | accepts exactly the canonical encodings of a configuration, and returns the encoded one |
| `SaveRead.LoadContent` | src/core/fd_serialize.c:490-512 | accepts exactly the encodings of strictly increasing pack lists |
| `SaveRead.LoadMap` | src/core/fd_serialize.c:582-613 | accepts exactly the encodings of a map of the configured size and restores every tile, counter and region field |
| `SaveRead.LoadEntities` | src/core/fd_serialize.c:614-651 | accepts exactly the encodings of six entities with printable names and no byte left over |
| `SaveLoad.ManifestIsWritten` | src/core/fd_serialize.c:428-445 | an accepted manifest is byte for byte the one written, up to the minor version and the section count of the file |
| `SaveLoad.VersionsAreWritten` | src/core/fd_serialize.c:447-458 | an accepted version section is byte for byte the one written, up to the API and replay minor words |
| `SaveLoad.Seal` | src/core/fd_serialize.c:663-676 | accepts exactly the valid worlds whose digest is the stored one |
| `SaveLoad.DecodeWorld` | src/core/fd_serialize.c:410-687 | accepts exactly the section tables that encode an acceptable world, and returns that world |
| `SaveLoad.WorldLoad` | src/core/fd_serialize.c:689-735 | accepts exactly the files that hold some acceptable world, and returns that world in a fresh object |
| `SaveRoundTrip.SaveThenLoad` | src/core/fd_serialize.c:141-735 | the save of an authentic world loads back to the same world if and only if its tick is at most 2^64-25 and file and memory bounds allow it |
| `SaveRoundTrip.LoadsOnce` | src/core/fd_serialize.c:410-687 | a file holds at most one world |
| `SaveRoundTrip.SaveLoadSave` | src/core/fd_serialize.c:141-735 | saving, loading and saving again is byte-identical |
| `SaveRoundTrip.PayloadsDetermine` | src/core/fd_serialize.c:410-687 | the section payloads determine every authoritative field of the world |
| `SaveRoundTrip.ReachableIsAuthentic` | src/core/fd_core.c:990-1125 | every world reached by generate, load and step, in any order, is valid and carries true digests |
| `SaveRoundTrip.LoadedFits` | src/core/fd_serialize.c:689-735 | a loaded world saves to no more bytes than it was loaded from |
| `SaveRoundTrip.CloneViaSave` | src/core/fd_serialize.c:737-765 | the clone is a fresh equal world, and exists exactly when clock and limits allow it |
| `ReplayLog.NthChangesTwoFields` | src/core/fd_replay.c:1381-1387 | any number of accepted steps changes only the tick and the recorded digest, so committing those two fields of a verified clone equals stepping in place |
| `ReplayLog.NthAdds` | src/core/fd_replay.c:1311-1400 | stepping m times and then n times is stepping m + n times |
| `ReplayLog.VerdictIsTheAnswer` | src/core/fd_replay.c:265-272 | on a valid world each attempt has exactly one diagnostic, and every refusal is auditable |
| `ReplayLog.RunsStayAuthentic` | src/core/fd_core.c:990-1125 | over every list of attempts the tick is the start tick plus 24 for each accepted one, the digest is that of the current state, and nothing else changes |
| `ReplayLog.RunIsLog` | src/core/fd_replay.c:274-336 | classifying any attempts gives strictly increasing audit indices that fill, with the records, all of 0 to total-1 |
| `ReplayLog.LogIsRun` | src/core/fd_replay.c:1000-1098 | conversely every consistent log is the log of some list of attempts |
| `ReplayLog.EveryAttemptLogged` | src/core/fd_replay.c:552-604 | no attempt is lost or moved: each accepted one stands as the record after those accepted before it, in its staged form, each refused one as the audit after those refused before it |
| `ReplayLog.RecordAt` | src/core/fd_replay.c:577-583 | record k is the transition from the k-th to the next state |
| `ReplayWire.RecordStored` | src/core/fd_replay.c:56-136 | decoding an encoded record gives it back |
| `ReplayWire.RecordRead` | src/core/fd_replay.c:56-136 | re-encoding a decoded record gives the same 228 bytes |
| `ReplayWire.JointStored` | src/core/fd_replay.c:138-195 | decoding an encoded joint decision gives it back, unnormalised sizes included |
| `ReplayWire.AuditStored` | src/core/fd_replay.c:197-263 | decoding an encoded audit gives it back, message and zero padding included |
| `ReplayWire.AuditRead` | src/core/fd_replay.c:220-263 | re-encoding a decoded audit gives the same 328 bytes |
| `ReplayFormat.ReplaySizeExact` | src/core/fd_replay.c:338-389 | the precomputed size is exactly the length of the file, and the five payload offsets add up to it |
| `ReplayFormat.SizeInNumbers` | src/core/fd_replay.c:338-389 | 228 bytes a record, 328 an audit, and another save behind 16 bytes after every 1024 records |
| `ReplayFormat.ReplayIsSealed` | src/core/fd_replay.c:22-38 | each replay begins with its magic and ends with the digest of everything before it behind the length and text of its own footer domain |
| `ReplayLayout.WriteHeads` | src/core/fd_replay.c:513-547 | the five section headers and counts land at offsets that leave exactly the room each payload needs |
| `ReplayStreams.SealedIsBody` | src/core/fd_replay.c:619-632 | a buffer whose streams, counts and digests are complete is byte for byte the canonical body |
| `ReplayBuild.ClassifyAttempts` | src/core/fd_replay.c:274-336 | counts exactly the accepted and the audited attempts, or refuses when a bound is exceeded |
| `ReplayBuild.WriteStreams` | src/core/fd_replay.c:548-618 | the build loop leaves all records, all audits and one checkpoint per 1024 accepted attempts, each at its place, however accepted and refused attempts interleave |
| `ReplayBuild.BuildInto` | src/core/fd_replay.c:429-635 | succeeds exactly for a buildable list and a buffer of its size, which then holds the canonical file; short buffers and other lists are refused untouched, and its layout and cursor mismatch exits are unreachable |
| `ReplayBuild.BuildSize` | src/core/fd_replay.c:391-427 | announces the exact size for exactly the buildable lists |
| `ReplayBuild.BuildableInNumbers` | src/core/fd_replay.c:274-389 | which attempt lists can be built, as inequalities between counts, sizes and the limits of the context |
| `ReplayBuild.Build` | src/core/fd_replay.c:637-680 | succeeds exactly when the list is buildable and the buffer large enough; then the bytes are the canonical replay, its magic in front and its footer digest behind, otherwise nothing is written |
| `ReplayRead.LoadRecords` | src/core/fd_replay.c:918-963 | accepts exactly the record streams that are well formed and chained tick to tick and digest to digest |
| `ReplayRead.LoadAudits` | src/core/fd_replay.c:964-999 | accepts exactly the audit streams with strictly increasing indices in range, and re-encoding them gives back the bytes |
| `ReplayMerge.Merge` | src/core/fd_replay.c:1000-1098 | re-simulation succeeds if and only if the two streams merge by attempt index onto 0 to total-1 with every tick, digest and diagnostic as the run gives it; the two count-mismatch exits are unreachable |
| `ReplayOpen.CheckCheckpoints` | src/core/fd_replay.c:1103-1155 | accepts exactly the checkpoints that load to the recorded states, one per 1024 records, with no byte left over |
| `ReplayOpen.CountsAreWritten` | src/core/fd_replay.c:812-850 | an accepted replay manifest is byte for byte the one written for its counts, up to the minor version |
| `ReplayOpen.Open` | src/core/fd_replay.c:760-1185 | accepts exactly the files that hold some log, and yields that log with the cursor at zero |
| `ReplayRoundTrip.BuildThenOpen` | src/core/fd_replay.c:429-1185 | every built replay opens, to a log in which each attempt stands in its place: the accepted decisions as records, the refused ones as audits, in attempt order |
| `ReplayRoundTrip.OpenedIsRun` | src/core/fd_replay.c:760-1185 | every file that opens is the log of a list of attempts from its tick-zero world |
| `ReplayAdvance.CreateWorld` | src/core/fd_replay.c:1294-1309 | the world of an opened replay is always created and is the tick-zero world |
| `ReplayAdvance.CommitBatch` | src/core/fd_replay.c:1354-1387 | stepping a clone and copying two fields equals stepping the world itself, and any failure leaves the world alone |
| `ReplayAdvance.Advance` | src/core/fd_replay.c:1311-1400 | failure changes neither cursor nor world; success moves both by the batch, cut to what is left; on the replay's own world it always succeeds |
| `ReplayAdvance.BatchesAdd` | src/core/fd_replay.c:1336-1388 | advancing by a and then b, each cut to what is left, leaves cursor and world where advancing by a + b does |
| `ReplayAdvance.Play` | src/core/fd_replay.c:1311-1400 | every schedule of batch sizes succeeds on the replay's own world and leaves cursor and world where one batch of the total would |

## Left out

- Frames.ParseSave: says when parsing succeeds, not which error code each failure returns; the same holds for the other readers and builders, where no caller branches on the code.
- SaveLoad.WorldLoad: decides success and the world loaded; error codes and diagnostic texts of refused files are not modelled.
- SaveRoundTrip.SaveThenLoad: `river_raised_tile_count` and `river_min_carve_cm` are not saved by the source, so they are not part of the equality.
- ReplayAdvance.Advance: the check that replay and world share a context is not modelled.
- Step.WorldStep: the item index of the diagnostic of an invalid world (the first failing tile) is left open; no valid run produces it.
- ReplayBuild.BuildInto: a buffer longer than the file is not modelled; its one caller passes one of exactly the announced size.
- Peak.PeakIsExact: live bytes plus one request are taken to stay below 2^64, as in any 64-bit address space; the mutual exclusion of the allocator itself is not modelled.
- Barrier.DispatchReturns: a section under the mutex is one atomic step; pinning, timing and thread creation are not modelled.
- Generate.GenerateWorld: running out of memory is not modelled, nor are the size and version headers of its inputs.
- Generate.GenerateCandidate: draws are arbitrary values within their bounds, and name syllables arbitrary printable names; that they come from the random stream is left out, and so is exhaustion of that stream.
- Allocation always succeeds; context handle counts and destruction are not modelled.
- Null arguments, struct-size and ABI headers of outputs, initialisers, query and snapshot getters.
- The sizes of C structures that enter capacity checks are constants for the LP64 data model.
- `fd_construct_river`, `fd_validate_river`, `fd_validate_road`, `fd_construct_road`, `fd_world_save`, `fd_decode_world`, `fd_replay_build_into` and `fd_replay_open` are each split into several methods that follow their loops in order.
- The terminal and C++ layers, the benchmark's statistics, and the statistical strength of the hash and the generator.
