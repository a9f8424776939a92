# Diplomacy map and territory core, in Dafny

This project models the combinatorial core of a Voronoi-map strategy game: how
the map graph is stitched together and how territories ("states") are seeded and
grown over it. The repository holds two generations of this code, and both are
modelled.

- **The first map** (`src/World.cpp`, `src/Map.cpp`, `src/State.cpp`, `src/State.h`):
  - `VoronoiGraph` builds the tile graph from per-cell edge lists. It sorts the
    raw edges by `v0.x` and merges each edge with the first later edge that
    matches it in either orientation. It then pushes every merged edge into both
    tiles' lists, sorts each list by angle, sets the `flipped` flags, and fills
    the index-aligned neighbour list.
    - Modules `Sorting` and `LegacyGraph`.
  - The first `World` keeps a pool of unclaimed tiles. It seeds eight states,
    grows them until no state can grow, and tracks the tile under the mouse.
    - Module `LegacyWorld`.
  - The first `State` is a tile set with boundary extraction and the greedy
    chaining pass that orders a border for drawing. The same extraction and
    chaining run on the selected tile and its neighbours in `World::draw`. The
    hand-placed province state of `src/Map.cpp` is also here.
    - Module `LegacyState`.
- **The newer map** (`src/world/Map.cpp`, `src/world/State.cpp`, `src/world/World.cpp`, `src/world/State.h`):
  - `Map` converts a generated Voronoi diagram into shared edges and sites. A
    site is `usable` exactly when every edge of it has a neighbour, and the
    edges of a site are linked through `next`.
    - Module `Map`.
  - `State` keeps its land consistent with each site's `owning_state` back-pointer.
    - Module `Territory`.
  - `World` draws seeds only from the unclaimed pool and grows states
    round-robin to a fixpoint.
    - Module `World`.
- **Shared pieces:**
  - `getExclaves` splits a point set into singleton sets, because its
    neighbour search is commented out. Module `Exclaves`.
  - The `OrderList` queue of orders. Module `Orders`.
  - The `Vec2i` hash packing and `clamp` of `src/Common.h`. Module `Common`.

How the model represents the source:

- Pointers to tiles, sites and shared edges become indices into the arrays that
  own them. The owner back-pointers of the newer map are an `array<State?>`
  indexed by site.
- Floating-point values are `real`.
- `atan2` is an oracle parameter, and so is the ε-equality of two points (`near`).
- The random generator is an oracle `draw`: the `n`-th number drawn is `draw(n)`,
  and a counter `draws` records how many numbers have been used. The source's
  `uniform_int_distribution(0, m - 1)` is `draw(draws) % m`. `draw(0)` is the
  first number after point generation: the first world's constructor draws
  two coordinates per point (src/World.cpp:156-158), and the newer map draws
  its points from the same generator (src/world/World.cpp:8).
- A hue draw consumes one number. The oracle `paint` converts the hue and the
  source's saturation, value and alpha constants into a colour.

Where the documented intent and the code differ, the model follows the code:

- An edge for which the merge finds no partner is silently dropped
  (`src/World.cpp:75-88`). No site is marked unusable for it.
- Patching incomplete cells exists only in a disabled `#if 0` block
  (`src/world/Map.cpp:171-357`), so `usable` is decided by missing neighbours alone.
- `unorderedBoundary` always returns one list holding every boundary edge. It
  never returns one list per exclave.
- An order's `tick` is documented to return true when the order has completed
  and false when it needs more processing (`src/gameplay/Orders.h:10-11`), but
  `OrderList::tick` clears the current order when its tick returns false
  (`src/gameplay/Orders.cpp:24-27`). An order that still needs processing is
  therefore dropped after one tick, and a completed order stays current and
  blocks the queue. `Orders.AfterTick` and `Orders.OrderList.Tick` clear on
  false, as the code does.

## Model

| member | source | states |
|---|---|---|
| Common.HashKey | src/Common.h:62-68 | The low 16 bits of the key are the low 16 bits of `x`; the high 16 bits are the low 16 bits of `y` |
| Common.HashKeyInjectiveOnLow16 | src/Common.h:66 | Two keys are equal exactly when both coordinates agree in their low 16 bits |
| Common.HashKeyCollidesModulo65536 | src/Common.h:66 | Moving either coordinate by 65536 gives the same key |
| Common.Clamp | src/Common.h:87-89 | The result lies in `[lo, hi]` when `lo <= hi`; it is `x` when `x` is in range, `lo` below the range, and `hi` above it |
| Common.ClampIdempotent | src/Common.h:87-89 | Clamping twice gives the same value as clamping once |
| Common.AnyMember | src/world/World.cpp:47 | Picks an element of a non-empty set; this stands for reading a hash set in its unspecified iteration order |
| Common.AccountedStep | src/world/World.cpp:32-35 | One more growth step that moves a pool element into the land keeps the land equal to its start plus exactly the elements that left the pool, with one more step counted |
| Common.AccountedBound | src/world/World.cpp:32-36 | After `steps` accounted growth steps the land contains its start and has grown by at most `steps` elements |
| Common.ClaimsStep | src/world/World.cpp:216-241 | Moving one pool element into a registered land keeps the account since the snapshot: every element that left the pool is in some land, and each land gained only elements of the snapshot pool |
| Common.SeededAccount | src/world/World.cpp:20-36 | A land seeded with one element and then grown `steps` times holds the seed and exactly the elements that left the pool, with `1 + steps` elements; the seed is no longer in the pool |
| Exclaves.UnionOfAppend | src/world/State.h:26-55 | The union of the exclaves grows by exactly the set appended |
| Exclaves.MemberOfUnion | src/world/State.h:26-55 | Every exclave is contained in the union of all exclaves |
| Exclaves.Search | src/world/State.h:33-53 | With the neighbour traversal disabled, the search from a start point yields exactly that one point |
| Exclaves.AppendSingleton | src/world/State.h:29-35 | Moving one point from the remaining set into a new singleton exclave keeps the exclaves a partition of the points handled so far |
| Exclaves.GetExclaves | src/world/State.h:26-55 | The exclaves partition the input: their union is the input and they are pairwise disjoint. Each is a singleton, there are exactly as many as input points, and empty input gives no exclaves (the same code is in src/State.h:23-52) |
| Orders.Enqueued | src/gameplay/Orders.cpp:10-13 | The order is appended at the back, tagged with the list's unit; the earlier orders and the current slot are unchanged |
| Orders.Running | src/gameplay/Orders.cpp:15-24 | An order runs exactly when there is a current order or a queued one; the current order runs if present, otherwise the front of the queue |
| Orders.TickFetchesFront | src/gameplay/Orders.cpp:17-20 | With no current order and a non-empty queue, tick runs the front order and the queue shrinks by exactly one |
| Orders.TickIdleIsNoop | src/gameplay/Orders.cpp:15-29 | With no current order and an empty queue, tick runs nothing and changes nothing |
| Orders.TickClearsOnFalse | src/gameplay/Orders.cpp:24-28 | With a current order, the queue is untouched, and the slot is cleared exactly when the order's tick returns false |
| Orders.DispatchIsFifo | src/gameplay/Orders.cpp:10-28 | If every order's first tick returns false, which clears it, successive ticks run the queued orders in the order they were enqueued |
| Orders.CompletedOrderStays | src/gameplay/Orders.cpp:22-28 | With a current order whose tick returns true on every tick, every tick runs that same order and no queued order ever runs |
| Orders.OrderList.constructor | src/gameplay/Orders.cpp:4-5 | A new list has no current order and an empty queue |
| Orders.OrderList.WithOrders | src/gameplay/Orders.cpp:7-8 | A new list has no current order and holds the given queue |
| Orders.OrderList.Enqueue | src/gameplay/Orders.cpp:10-13 | The new state is the old one with the order enqueued |
| Orders.OrderList.Tick | src/gameplay/Orders.cpp:15-29 | Runs at most one order, the one Running names; the new state is the old one after that single tick |
| Sorting.Swap | src/World.cpp:104-106 | Exchanges two cells, leaves the others alone, and keeps the multiset of elements |
| Sorting.Insert | src/World.cpp:67-69 | Extends a sorted prefix by one element and keeps the multiset |
| Sorting.SortByKey | src/World.cpp:67-69 | The array ends up non-decreasing in the key and is a permutation of its old contents (this stands for `std::sort`) |
| LegacyGraph.OrderedEdgeEndpoints | src/World.cpp:5-19 | `v0`/`v1` are the edge's own endpoints when not flipped and swapped when flipped; toggling `flipped` swaps them (the same code is in src/Map.cpp:59-73) |
| LegacyGraph.RawEdges | src/World.cpp:36-46 | Every raw edge belongs to an existing cell and has no second tile yet |
| LegacyGraph.InitialEdges | src/World.cpp:36-46 | The loop collects every cell's edges in order, each with `d0` its own cell and no `d1` |
| LegacyGraph.SortedRawEdges | src/World.cpp:36-69 | The raw edges of all cells, reordered only, non-decreasing in `v0.x`, each with its own cell and no second tile |
| LegacyGraph.ShouldMergeOrientationFree | src/World.cpp:71-74 | The merge test accepts a reversed edge exactly when it accepts the edge itself, and is symmetric whenever `near` is |
| LegacyGraph.FirstMatch | src/World.cpp:76-86 | The inner loop finds the first later edge accepted by the merge test, or reports that none is |
| LegacyGraph.MergePrefix | src/World.cpp:75-88 | Merging `n` raw edges gives at most `n` shared edges |
| LegacyGraph.MergeEdges | src/World.cpp:75-88 | The nested loop with `break` builds exactly the merged list of the whole raw list (the same code is in src/Map.cpp:121-142) |
| LegacyGraph.MergedEdgeOrigin | src/World.cpp:79-84 | Every merged edge comes from some raw edge `i`: its endpoints and `d0` are `i`'s, and its `d1` is the `d0` of `i`'s first later match |
| LegacyGraph.MergedEdgeIncluded | src/World.cpp:77-85 | Every raw edge that has a later match contributes its merged edge |
| LegacyGraph.MergedEdgesInRange | src/World.cpp:79-84 | Both tiles of every merged edge exist |
| LegacyGraph.Populated | src/World.cpp:92-95 | Populating gives one edge list per tile |
| LegacyGraph.PopulateEdgeLists | src/World.cpp:92-95 | The loop pushes each merged edge into both tiles' lists, giving exactly the populated lists (the same code is in src/Map.cpp:146-149) |
| LegacyGraph.PopulatedMembership | src/World.cpp:92-95 | Entries are unflipped. Shared edge `k` is in tile `t`'s list exactly when `t` is its `d0` or its `d1` |
| LegacyGraph.SumLengthsAppendAt | src/World.cpp:93-94 | Appending to one tile's list raises the total number of entries by one |
| LegacyGraph.SumLengthsEmpty | src/World.cpp:38 | Empty tile lists hold no entries |
| LegacyGraph.PopulatedTotal | src/World.cpp:92-95 | The tile lists hold twice as many entries as there are merged edges |
| LegacyGraph.Unflipped | src/World.cpp:107-115 | Clearing the flags keeps the length and each entry's edge |
| LegacyGraph.SetFlips | src/World.cpp:107-115 | Each entry keeps its edge, and `flipped` is set exactly when the angle difference is negative or exceeds 3.14159 |
| LegacyGraph.NeighboursOf | src/World.cpp:129-133 | One neighbour per edge, index-aligned: the endpoint of the edge that is not this tile |
| LegacyGraph.ResolveTile | src/World.cpp:100-134 | The tile's edges are a permutation of its populated list, sorted by angle, each with its flip flag, and with index-aligned neighbours (the same code is in src/Map.cpp:151-170) |
| LegacyGraph.ResolveTiles | src/World.cpp:100-135 | Every tile is resolved from its own populated list, in tile order, and keeps its cell's centre |
| LegacyGraph.ResolvedMember | src/World.cpp:104-106 | Every populated edge of a tile is still among its edges after sorting |
| LegacyGraph.NeighbourSymmetry | src/World.cpp:92-133 | If tile A lists B as the neighbour across an edge, that same shared edge is in B's list with A as B's neighbour across it |
| LegacyGraph.VoronoiGraph.constructor | src/World.cpp:34-136 | The shared edges are exactly the merge of the cells' raw edges, taken in an order that permutes them and is sorted by `v0.x`. One tile per cell with the cell's centre; every tile is resolved from its populated list and angle-ordered; the graph is well formed and its neighbour relation is symmetric (the same code is in src/Map.cpp:88-171) |
| LegacyState.CollectBoundary | src/State.cpp:56-68 | The list holds each boundary edge once: exactly the edges of land tiles whose neighbour is missing or outside the land (the same code is in src/Map.cpp:299-306) |
| LegacyState.ChainEdges | src/State.cpp:28-39 | The pass only permutes the list; afterwards each edge is followed by one that continues it whenever some later edge does |
| LegacyState.ChainAndRibbon | src/State.cpp:28-46 | The chain is a permutation of the boundary list, chained as above, and the ribbon holds each chained edge's `v0`, one per edge, in order |
| LegacyState.SelectionBorder | src/Map.cpp:281-327 | The highlighted region is the selected tile plus its neighbours; its border is exactly that region's boundary, chained, with one ribbon point per edge |
| LegacyState.MultisetPreservesDistinct | src/Map.cpp:309-320 | Permuting a list without duplicates keeps it free of duplicates and keeps its members |
| LegacyState.DistinctCountsOne | src/Map.cpp:309-320 | A list without duplicates holds each element at most once |
| LegacyState.ProvinceState.constructor | src/Map.cpp:12-18 | Every named tile set becomes a province of the same name, and there are no others |
| LegacyState.State.constructor | src/State.cpp:4-5 | Colour, name and land are the arguments |
| LegacyState.State.AddLandTile | src/State.cpp:7-9 | A plain insert into the land |
| LegacyState.State.RemoveLandTile | src/State.cpp:11-13 | A plain erase from the land |
| LegacyState.State.UnorderedBoundary | src/State.cpp:56-68 | Exactly one list, holding each boundary edge of the land once |
| LegacyState.State.BorderRibbons | src/State.cpp:22-47 | One chain and one ribbon: the land's boundary, chained, with each edge's `v0` in order |
| LegacyWorld.PoolEndpointsMembership | src/World.cpp:362-370 | A tile is a candidate exactly when it is in the pool and is `d0` or `d1` of some border edge |
| LegacyWorld.NoGrowthInSmallerPool | src/World.cpp:359-372 | Candidates come from the pool, so a state that cannot grow still cannot once the pool has shrunk |
| LegacyWorld.SeededStep | src/World.cpp:332-342 | Seeding the next state with a tile drawn from all tiles, erased from the pool, keeps every tile that left the pool among the seeds and leaves the other states alone |
| LegacyWorld.GeneratedLandLater | src/World.cpp:308-328 | A generated state keeps its seed, its bound and its "could not grow" outcome while later states shrink the pool |
| LegacyWorld.GeneratedLandsStep | src/World.cpp:308-328 | Generating one more state, holding its seed and exactly the tiles that then left the pool, extends the generation: every tile that left the pool is still in one of the generated lands |
| LegacyWorld.PassStep | src/World.cpp:347-351 | One more turn, in which a state grew by one pool tile or did not grow, extends a pass: lands only grow, the pool only shrinks and strictly once something grew, and while nothing grew every state offered a turn cannot grow |
| LegacyWorld.World.constructor | src/World.cpp:146-187 | The tiles and edges are the graph built from the cells, with every fact the graph constructor states. Every tile starts in the pool and 8 states are filled: state `i` holds the tile drawn `2i`-th after the point coordinates, every tile that left the pool is in some state's land, and no state can grow. No tile is selected |
| LegacyWorld.World.BorderCandidates | src/World.cpp:360-370 | The candidate list, with repeats, holds exactly the pool tiles at either end of a border edge |
| LegacyWorld.World.PickCandidate | src/World.cpp:359-379 | A candidate exists exactly when the state can grow, and the chosen one is claimable |
| LegacyWorld.World.GrowState | src/World.cpp:358-383 | Grows exactly when some pool tile touches the state's boundary. The claimed tile `claimed` is such a tile; it joins the land, leaves the pool, and costs one draw. Otherwise nothing changes |
| LegacyWorld.World.FillStates | src/World.cpp:330-356 | State `i` holds its seed `SeedTile(i)`, drawn from all tiles, and otherwise only pool tiles. Every tile that left the pool is in some state's land, and every state gained only pool tiles. Afterwards no state can grow. The registered ids are the old ones plus `0` to `count - 1`, and every other state is the same object as before |
| LegacyWorld.World.SeedAll | src/World.cpp:332-343 | State `i` holds exactly the tile drawn `2i`-th from all tiles; every tile that left the pool is one of these seeds, and no other land changes |
| LegacyWorld.World.SeedNext | src/World.cpp:333-342 | One seeding step extends the seeding by the drawn tile, two numbers being drawn; state `i`, a fresh object, is added to the registry or replaces the old one |
| LegacyWorld.World.Seed | src/World.cpp:333-342 | A fresh state registered under `i` whose land is the drawn tile; that tile leaves the pool, no other land changes, and two numbers are drawn |
| LegacyWorld.World.SeededClaimed | src/World.cpp:332-343 | After seeding, every tile that left the pool is in some land and every state holds, besides its seed, only pool tiles |
| LegacyWorld.World.ReseededClaims | src/World.cpp:330-356 | With claims accounted for over the seeded lands, each seeded state holds only pool tiles besides its seed |
| LegacyWorld.World.GrowUntilStable | src/World.cpp:345-355 | The loop stops only after a pass in which nothing grew, so no state can grow; seeds stay in their states; every tile that left the pool since the snapshot is in a land, and lands gained only pool tiles |
| LegacyWorld.World.GrowPass | src/World.cpp:345-351 | Lands only grow, keeping every claim accounted for; a pass that grows something shrinks the pool; a pass that grows nothing leaves the pool unchanged and shows that no state can grow |
| LegacyWorld.World.Offer | src/World.cpp:348-350 | One state's turn: if it grows, exactly one pool tile moves into its land and no other land changes; if not, nothing changes and it cannot grow |
| LegacyWorld.World.Turn | src/World.cpp:347-350 | The next turn of a pass, for some state not yet offered one (map order is unspecified), keeps the pass's account. Lands only grow, the pool only shrinks, every claim stays accounted for, and fewer states are left. While nothing has grown, every state already offered a turn cannot grow |
| LegacyWorld.World.GenerateStates | src/World.cpp:308-328 | State `i` holds the tile drawn at `starts[i]`, from all tiles, plus at most `max_size` pool tiles; a state that grew fewer than `max_size` times can no longer grow; every tile that left the pool is in one of the new states, and no new state's land is left in the pool. The registered ids are the old ones plus `0` to `count - 1`, and every other state is the same object as before |
| LegacyWorld.World.GenerateNext | src/World.cpp:309-327 | Generating state `i` extends the generation by its seed draw and its land |
| LegacyWorld.World.GeneratedStates | src/World.cpp:308-328 | A generation of `n` states puts each seed in its state, bounds each state, keeps the "could not grow" outcome and covers every tile that left the pool |
| LegacyWorld.World.GenerateOne | src/World.cpp:310-326 | A fresh state registered under `i` holds the tile drawn from all tiles, which has left the pool, and exactly the pool tiles claimed by its `steps` growths, `steps` at most `max_size`; if it grew fewer than `max_size` times it can no longer grow |
| LegacyWorld.World.GrowAtMost | src/World.cpp:322-326 | `steps` growths, at most `max_size`, each moving one pool tile into the land and costing one draw; fewer than `max_size` only when the state can no longer grow (the first failure) |
| LegacyWorld.World.OnMouseMove | src/World.cpp:297-306 | The selection becomes the first tile of minimal distance to the point; with no tiles it is unchanged (the same code is in src/Map.cpp:396-405) |
| LegacyWorld.SeedsCanCollide | src/World.cpp:333-337 | Seeds are drawn from all tiles, so two states can receive the same seed tile |
| Map.BuildEdges | src/world/Map.cpp:133-142 | One shared edge per diagram edge, whose points are the edge's two ends and whose `d[0]`, `d[1]` are its two sites |
| Map.BuiltEdgeEndpoints | src/world/Map.cpp:49-63 | `v0` and `v1` of a built edge are its first and last point |
| Map.LinkBoundAsWritten | src/world/Map.cpp:163 | The loop bound `edges.size() - 1` is one less than the count, and wraps to `SIZE_MAX` for zero |
| Map.EmptySiteLinkOutOfRange | src/world/Map.cpp:163-165 | For a site with no edges the bound is positive, so the loop indexes an empty vector |
| Map.LinkNext | src/world/Map.cpp:163-165 | Each edge but the last points to the next one, and the last edge's `next` is unchanged; an empty list stays empty |
| Map.ConvertSite | src/world/Map.cpp:143-168 | The site keeps its centre and one graph edge per diagram edge, with the neighbour or none. The edges are linked, and `usable` holds exactly when every edge has a neighbour |
| Map.UnorderedBoundaries | src/world/Map.cpp:368-384 | Exactly one list, holding each edge of a member site whose neighbour is missing or not a member, once |
| Map.Map.constructor | src/world/Map.cpp:133-168 | The arena edges correspond to the diagram's edges. Every site is converted as ConvertSite states: its centre, each graph edge with its points, angle, shared edge and neighbour, `next` linking each edge to the following one and the last to none, and `usable`. Every index is in range |
| Territory.CentreSumRemove | src/world/State.cpp:25-28 | The sum of the land's centres splits off any one site's centre |
| Territory.SingletonMean | src/world/State.cpp:25-29 | The centre of a one-site state is that site's centre |
| Territory.ConsistentLandsDisjoint | src/world/State.cpp:40-51 | When land sets and owner pointers agree, two different states own disjoint lands |
| Territory.State.constructor | src/world/State.cpp:20-33 | Alpha is forced to 100, the land is the argument, and the centre is the mean of the land's centres |
| Territory.State.SetName | src/world/State.cpp:35-38 | Only the name changes |
| Territory.State.RemoveLandTile | src/world/State.cpp:48-51 | The tile leaves the land, its owner becomes null unconditionally, and no other owner pointer changes |
| Territory.State.AddLandTile | src/world/State.cpp:40-46 | The previous owner, if any, loses the tile first. The tile then joins the land with this state as owner. No name changes. Land and owner pointers stay consistent if they were before |
| Territory.State.UnorderedBoundary | src/world/State.cpp:73-85 | Exactly one list, holding each boundary edge of the land once, including edges with no neighbour |
| World.PoolEndpointsMembership | src/world/World.cpp:221-228 | A site is a candidate exactly when it is in the pool and is `d[0]` or `d[1]` of some border edge |
| World.NoGrowthInSmallerPool | src/world/World.cpp:221-236 | Candidates come from the pool, so a state that cannot grow still cannot once the pool has shrunk |
| World.SeededStep | src/world/World.cpp:43-54 | Seeding the next state with one pool site extends the seeding: every site that left the pool is a seed, and the other states keep their lands |
| World.GeneratedLandLater | src/world/World.cpp:18-38 | A generated state keeps its seed, its bound and its "could not grow" outcome while later states shrink the pool |
| World.GeneratedLandsStep | src/world/World.cpp:18-38 | Generating one more state, holding its seed and exactly the sites that then left the pool, extends the generation: every site that left the pool is still in one of the generated lands |
| World.UnclaimedNeighbourClaimable | src/world/World.cpp:216-228 | A pool site across an edge of the land lies on the land's boundary and is therefore claimable |
| World.FixpointLeavesNoUnclaimedNeighbour | src/world/World.cpp:57-66 | When a state cannot grow, no site of its land has an unclaimed neighbour |
| World.PassStep | src/world/World.cpp:58-62 | One more turn, in which a state grew by one pool site or did not grow, extends a pass: lands only grow, the pool only shrinks and strictly once something grew, and while nothing grew every state offered a turn cannot grow |
| World.World.constructor | src/world/World.cpp:6-15 | The sites and edges are the diagram's, converted as the map constructor states: each site is converted from the diagram's site at the same index, and each edge carries the diagram edge's endpoints and sites. The pool holds exactly the usable sites, every site is unowned, there are no states, and nothing has been drawn |
| World.World.GetStateById | src/world/World.cpp:208-214 | Returns a state exactly when the id is registered, and then the registered one |
| World.World.BorderCandidates | src/world/World.cpp:221-228 | The candidate list, with repeats, holds exactly the pool sites at either end of a border edge |
| World.World.PickCandidate | src/world/World.cpp:219-236 | A candidate exists exactly when the state can grow, and the chosen one is claimable |
| World.World.Claim | src/world/World.cpp:237-239 | The site joins the land with this state as owner and leaves the pool; no other owner changes, and disjointness is kept |
| World.World.GrowState | src/world/World.cpp:216-241 | Grows exactly when some pool site touches the state's boundary. The claimed site `claimed` joins the land, leaves the pool, gets this state as owner, and costs one draw. Otherwise nothing changes. Disjointness is kept |
| World.World.FillStates | src/world/World.cpp:40-67 | States 0 to count-1 exist with non-empty land taken wholly from the pool, and the pool shrinks by at least `count`. Every site that left the pool is in some state's land, and every land gained only pool sites. At the end no state can grow, lands are pairwise disjoint and disjoint from the pool, and no land site has an unclaimed neighbour. The registered ids are the old ones plus `0` to `count - 1`, and every other state is the same object as before |
| World.World.SeedAll | src/world/World.cpp:42-55 | States 0 to count-1 each get one pool site, the pool shrinks by exactly `count`, every site that left the pool is a seed, and no other land changes |
| World.World.SeedNext | src/world/World.cpp:43-54 | One seeding step extends the seeding by one pool site: the pool is one site smaller, and state `i`, a fresh object, is added to the registry or replaces the old one |
| World.World.Seed | src/world/World.cpp:43-54 | A fresh state registered under `i` holds one site taken from the pool, and no other land changes; two numbers are drawn |
| World.World.Register | src/world/World.cpp:50-53 | A fresh state named `Generated State i`, whose land is the given site, is registered under `i`; no other land changes, and lands stay disjoint from each other and from the pool |
| World.World.GrowSeeded | src/world/World.cpp:56-66 | After seeding, the growth loop leaves states 0 to count-1 with non-empty land taken wholly from the pool. Every site that left the pool is in some land, and lands gained only pool sites. No state can grow, and no land site has an unclaimed neighbour |
| World.World.SeededClaimed | src/world/World.cpp:42-55 | After seeding, every site that left the pool is in some land, and the seeded states hold only pool sites |
| World.World.ClaimedWithout | src/world/World.cpp:40-67 | Claims accounted for with the seeded states counted as new are accounted for over the old lands, and the seeded lands lie wholly in the pool |
| World.World.GrowUntilStable | src/world/World.cpp:56-66 | The loop ends after a pass in which nothing grew; then no state can grow and disjointness still holds; every site that left the pool since the snapshot is in a land, and lands gained only pool sites |
| World.World.GrowPass | src/world/World.cpp:58-62 | Lands only grow, keeping every claim accounted for and disjointness; a pass that grows shrinks the pool; one that grows nothing leaves the pool unchanged and shows that no state can grow |
| World.World.Offer | src/world/World.cpp:59-61 | One state's turn: if it grows, exactly one pool site moves into its land and no other land changes; if not, nothing changes and it cannot grow |
| World.World.Turn | src/world/World.cpp:58-61 | The next turn of a pass, for some state not yet offered one (map order is unspecified), keeps the pass's account. Lands only grow, the pool only shrinks, every claim stays accounted for, and fewer states are left. While nothing has grown, every state already offered a turn cannot grow |
| World.World.GenerateStates | src/world/World.cpp:18-38 | State `i` holds the site drawn at `starts[i]`, from all sites, plus at most `max_size` pool sites; a state that grew fewer than `max_size` times can no longer grow; every site that left the pool is in one of the new states, and no new state's land is left in the pool. The registered ids are the old ones plus `0` to `count - 1`, and every other state is the same object as before |
| World.World.GenerateNext | src/world/World.cpp:19-37 | Generating state `i` extends the generation by its seed draw and its land |
| World.World.GeneratedStates | src/world/World.cpp:18-38 | A generation of `n` states puts each seed in its state, bounds each state, keeps the "could not grow" outcome and covers every site that left the pool |
| World.World.GenerateOne | src/world/World.cpp:20-36 | A fresh state registered under `i` holds the site drawn from all sites, which has left the pool, and exactly the pool sites claimed by its `steps` growths, `steps` at most `max_size`; if it grew fewer than `max_size` times it can no longer grow |
| World.World.GrowAtMost | src/world/World.cpp:32-36 | `steps` growths, at most `max_size`, each moving one pool site into the land and costing one draw; fewer than `max_size` only when the state can no longer grow (the first failure) |

## Left out

- Voronoi diagram generation (`src/voronoi/voronoi.h`, `jcv_diagram_generate`) is foreign code. Its output is an input record: per-cell edge lists for the first map, and a diagram of sites and edges for the newer one.
- jc_voronoi is not part of this model. The model assumes its site indices match array positions and that each diagram edge has two sites: `e->sites[1]` is never null, which `src/world/Map.cpp:140` dereferences unconditionally.
- Lloyd relaxation, noisy line subdivision and Perlin noise are left out. They are floating-point centroid averaging and random subdivision around the foreign generator.
- `atan2`, the ε-comparison of points, the random generator and HSV-to-RGB conversion are oracle parameters. The model states what is done with their results, not their values.
- Float rounding, NaN and the division in the centre of an empty state are not modelled. `Territory.Mean` returns no centre for empty land.
- Rendering, the GUI, ribbon quads, the game loop, the camera, players, units, tanks and squads are left out.
- The disabled gap-patching block of `src/world/Map.cpp` and the `if (false)` tile removal of `src/World.cpp:118` are dead code and are left out.
- The final `hash<i32>` step of the `Vec2i` hash is left out: the model stops at the packed key.
- `edge_map.at` throwing on an unknown edge is left out: the diagram is assumed well formed.
- The hard-coded provinces the first map's `World` constructor passes to its states are left out: they are constant data.
- The first world drawn in `src/Map.cpp` has no growth code, so only its drawing core is modelled (`LegacyState.SelectionBorder`, `LegacyWorld.World.OnMouseMove`).
- LegacyState.ChainEdges: the source moves the *first* continuing edge into the next slot. The contract states only that some continuing edge follows whenever one exists.
- ChainAndRibbon: chains with ChainEdges, so its contract has the same gap: some continuing edge follows, not necessarily the first.
- SelectionBorder: chains the selection's border with ChainEdges and has the same gap (`src/Map.cpp:309-320`).
- BorderRibbons: chains the land's border with ChainEdges and has the same gap (`src/State.cpp:28-39`).
- World.World.FillStates: which pool site becomes a seed depends on hash-set iteration order, which the source leaves unspecified. The model picks any pool site; it consumes the drawn index but does not use it to choose.
- LegacyWorld.World.constructor: requires at least one cell. With no tiles, `fillStates(8)` draws a tile index from `[0, -1]` (src/World.cpp:333), which is undefined.
- World.World.FillStates, World.World.Seed: `count` may not exceed the pool size. With an empty pool the source's distribution over `[0, -1]` is undefined.
- Only the newer world keeps owner pointers. The first world's `State` has none.

## Findings

| source | as written | input that shows it | evidently intended | confidence | as-written member | corrected member |
|---|---|---|---|---|---|---|
| src/World.cpp:333-337 | `fillStates` draws each seed uniformly from all tiles, including tiles already seeded | A generator that draws the same number for the first two seeds gives states 0 and 1 the same seed tile | Seeds drawn from the unclaimed pool and removed from it, as `src/world/World.cpp:43-48` does, so lands stay disjoint | not executed | LegacyWorld.SeedsCanCollide | World.World.FillStates |
| src/world/Map.cpp:163 | The `next`-linking loop runs to `edges.size() - 1` in unsigned arithmetic | A site with no edges: the bound wraps to `SIZE_MAX`, and `edges[0]` of an empty vector is read | No linking for a site with no edges | not executed | Map.EmptySiteLinkOutOfRange | Map.LinkNext |
