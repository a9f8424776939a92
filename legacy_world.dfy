/**
 * The first world: a graph built once, a pool of unclaimed tiles, numbered
 * states grown over the graph, and the tile under the mouse.
 *
 * The random generator is the oracle `draw`: the `n`-th number drawn is
 * `draw(n)` and `draws` counts the numbers drawn so far. `draw(0)` is the
 * first number drawn after the constructor has drawn the two coordinates of
 * every initial point (src/World.cpp:156-158). A uniform integer in
 * `[0, m - 1]` is `draw(draws) % m`; a hue draw consumes one number, which
 * together with the saturation, value and alpha constants is turned into a
 * colour by the oracle `paint`.
 */
module LegacyWorld {
  import opened Wrappers
  import opened Common
  import opened LegacyGraph
  import opened LegacyState
  import Sorting

  /** The shared edge a boundary pointer refers to. */
  function EdgeAt(tiles: seq<Tile>, edges: seq<Edge>, r: EdgeRef): Edge
    requires RefValid(tiles, edges, r)
  {
    edges[tiles[r.tile].edges[r.index].edge]
  }

  /** `t` is one of the two tiles of `e`. */
  predicate IsEndpoint(t: TileId, e: Edge)
  {
    e.d0 == t || e.d1 == Some(t)
  }

  /**
   * The growth candidates along `border`, in order: for each edge, its `d0`
   * and then its `d1` whenever that tile is in `pool`. A tile may appear more
   * than once.
   */
  function PoolEndpoints(tiles: seq<Tile>, edges: seq<Edge>, border: seq<EdgeRef>, pool: set<TileId>): seq<TileId>
    requires forall r :: r in border ==> RefValid(tiles, edges, r)
  {
    if border == [] then []
    else
      var last := |border| - 1;
      var e := EdgeAt(tiles, edges, border[last]);
      PoolEndpoints(tiles, edges, border[..last], pool)
        + (if e.d0 in pool then [e.d0] else [])
        + (if e.d1.Some? && e.d1.value in pool then [e.d1.value] else [])
  }

  /** A tile is a candidate exactly when it is in the pool and is an endpoint of a border edge. */
  lemma {:induction false} PoolEndpointsMembership(tiles: seq<Tile>, edges: seq<Edge>, border: seq<EdgeRef>, pool: set<TileId>)
    requires forall r :: r in border ==> RefValid(tiles, edges, r)
    ensures forall t :: t in PoolEndpoints(tiles, edges, border, pool) <==>
      t in pool && exists r :: r in border && IsEndpoint(t, EdgeAt(tiles, edges, r))
  {
    if border != [] {
      var last := |border| - 1;
      PoolEndpointsMembership(tiles, edges, border[..last], pool);
      assert border == border[..last] + [border[last]];
    }
  }

  /** `t` can be claimed by a state owning `land` while `pool` is unclaimed. */
  ghost predicate Claimable(tiles: seq<Tile>, edges: seq<Edge>, t: TileId, land: set<TileId>, pool: set<TileId>)
  {
    t in pool && exists r :: r in Boundary(tiles, land) && RefValid(tiles, edges, r) && IsEndpoint(t, EdgeAt(tiles, edges, r))
  }

  ghost predicate CanGrow(tiles: seq<Tile>, edges: seq<Edge>, land: set<TileId>, pool: set<TileId>)
  {
    exists t :: Claimable(tiles, edges, t, land, pool)
  }

  /** A state that cannot grow still cannot once the pool has shrunk. */
  lemma NoGrowthInSmallerPool(tiles: seq<Tile>, edges: seq<Edge>, land: set<TileId>, pool: set<TileId>, pool': set<TileId>)
    requires pool' <= pool && !CanGrow(tiles, edges, land, pool)
    ensures !CanGrow(tiles, edges, land, pool')
  {
    forall t | Claimable(tiles, edges, t, land, pool')
      ensures Claimable(tiles, edges, t, land, pool)
    {
    }
  }

  /** The seed tile of the `i`-th state of `fillStates`: two numbers (tile, hue) are drawn per state. */
  function SeedTile(tileCount: nat, draw: nat -> nat, start: nat, i: nat): TileId
    requires tileCount > 0
  {
    draw(start + 2 * i) % tileCount
  }

  /**
   * The seeding of states `0` to `|seeds| - 1` from `pool0`: state `j` holds
   * exactly `seeds[j]`, every tile that left the pool is one of the seeds,
   * and every other state keeps its land from `lands0`. A seed need not have
   * been in the pool.
   */
  ghost predicate SeededFrom(pool0: set<TileId>, lands0: map<int, set<TileId>>, lands: map<int, set<TileId>>,
                             pool: set<TileId>, seeds: seq<TileId>)
  {
    && pool <= pool0
    && (forall j :: 0 <= j < |seeds| ==> j in lands && lands[j] == {seeds[j]})
    && (forall t :: t in pool0 && t !in pool ==> t in seeds)
    && (forall id :: id in lands && !(0 <= id < |seeds|) ==> id in lands0 && lands[id] == lands0[id])
  }

  /** Seeding the next state with `seed`, erased from the pool, extends the seeding. */
  lemma SeededStep(pool0: set<TileId>, lands0: map<int, set<TileId>>, lands: map<int, set<TileId>>,
                   pool: set<TileId>, seeds: seq<TileId>, seed: TileId)
    requires SeededFrom(pool0, lands0, lands, pool, seeds)
    ensures SeededFrom(pool0, lands0, lands[|seeds| := {seed}], pool - {seed}, seeds + [seed])
  {
    var seeds' := seeds + [seed];
    forall t | t in pool0 && t !in pool - {seed}
      ensures t in seeds'
    {
      if t != seed {
        var j :| 0 <= j < |seeds| && seeds[j] == t;
        assert seeds'[j] == t;
      } else {
        assert seeds'[|seeds|] == t;
      }
    }
  }

  /** The lands of `lands0` with states `0` to `|seeds| - 1` replaced by their seeds. */
  function Reseeded(lands0: map<int, set<TileId>>, seeds: seq<TileId>): map<int, set<TileId>>
  {
    lands0 + map j | 0 <= j < |seeds| :: {seeds[j]}
  }

  /**
   * `land` was generated from the draw at `start`, while `pool0` was the
   * pool and `draws0` numbers had been drawn, and has since been left alone
   * while the pool became `pool` and `draws` numbers were drawn: it holds
   * the tile drawn at `start` and otherwise only tiles of `pool0`, it grew
   * at most `maxSize` times, and when it grew fewer it can no longer grow.
   */
  ghost predicate GeneratedLand(tiles: seq<Tile>, edges: seq<Edge>, draw: nat -> nat, maxSize: int,
                                pool0: set<TileId>, draws0: nat, pool: set<TileId>, draws: nat, start: nat, land: set<TileId>)
  {
    && |tiles| > 0 && draws0 <= start < draws
    && 1 <= |land| <= 1 + (if maxSize > 0 then maxSize else 0)
    && draw(start) % |tiles| in land
    && land <= {draw(start) % |tiles|} + pool0 && land !! pool
    && (|land| <= maxSize ==> !CanGrow(tiles, edges, land, pool))
  }

  /** A generated land stays generated while the pool shrinks and more numbers are drawn. */
  lemma GeneratedLandLater(tiles: seq<Tile>, edges: seq<Edge>, draw: nat -> nat, maxSize: int,
                           pool0: set<TileId>, draws0: nat, pool: set<TileId>, draws: nat,
                           pool': set<TileId>, draws': nat, start: nat, land: set<TileId>)
    requires GeneratedLand(tiles, edges, draw, maxSize, pool0, draws0, pool, draws, start, land)
    requires pool' <= pool && draws <= draws'
    ensures GeneratedLand(tiles, edges, draw, maxSize, pool0, draws0, pool', draws', start, land)
  {
    if |land| <= maxSize {
      NoGrowthInSmallerPool(tiles, edges, land, pool, pool');
    }
  }

  /**
   * `lands` were generated one after the other since the pool was `pool0`
   * and `draws0` numbers were drawn, and the pool is now `pool`: land `j`
   * was seeded by the draw at `starts[j]`, and every tile that left the
   * pool is in one of them, the one `taker` names.
   */
  ghost predicate GeneratedLands(tiles: seq<Tile>, edges: seq<Edge>, draw: nat -> nat, maxSize: int,
                                 pool0: set<TileId>, draws0: nat, pool: set<TileId>, draws: nat,
                                 starts: seq<nat>, lands: seq<set<TileId>>, taker: map<TileId, nat>)
  {
    && |starts| == |lands| && pool <= pool0 && draws0 <= draws
    && (forall j :: 0 <= j < |lands| ==> GeneratedLand(tiles, edges, draw, maxSize, pool0, draws0, pool, draws, starts[j], lands[j]))
    && (forall t :: t in pool0 && t !in pool ==> t in taker && taker[t] < |lands| && t in lands[taker[t]])
  }

  /**
   * Generating one more land, seeded by the draw at `start` and holding
   * otherwise exactly the tiles that left the pool, extends the generation.
   */
  lemma GeneratedLandsStep(tiles: seq<Tile>, edges: seq<Edge>, draw: nat -> nat, maxSize: int,
                           pool0: set<TileId>, draws0: nat, pool: set<TileId>, draws: nat,
                           starts: seq<nat>, lands: seq<set<TileId>>, taker: map<TileId, nat>,
                           pool': set<TileId>, draws': nat, land: set<TileId>)
    requires GeneratedLands(tiles, edges, draw, maxSize, pool0, draws0, pool, draws, starts, lands, taker)
    requires |tiles| > 0 && pool' <= pool && draws < draws'
    requires land == {draw(draws) % |tiles|} + (pool - pool')
    requires 1 <= |land| <= 1 + (if maxSize > 0 then maxSize else 0)
    requires land !! pool' && (|land| <= maxSize ==> !CanGrow(tiles, edges, land, pool'))
    ensures GeneratedLands(tiles, edges, draw, maxSize, pool0, draws0, pool', draws',
                           starts + [draws], lands + [land], TakerStep(taker, pool, pool', |lands|))
  {
    var starts', lands', taker' := starts + [draws], lands + [land], TakerStep(taker, pool, pool', |lands|);
    forall j | 0 <= j < |lands'|
      ensures GeneratedLand(tiles, edges, draw, maxSize, pool0, draws0, pool', draws', starts'[j], lands'[j])
    {
      if j < |lands| {
        GeneratedLandLater(tiles, edges, draw, maxSize, pool0, draws0, pool, draws, pool', draws', starts[j], lands[j]);
      }
    }
    forall t | t in pool0 && t !in pool'
      ensures t in taker' && taker'[t] < |lands'| && t in lands'[taker'[t]]
    {
      if t in pool {
        assert taker'[t] == |lands|;
      } else {
        assert taker'[t] == taker[t];
      }
    }
  }

  /**
   * A growth pass that started from the lands `lands` and the pool `pool`
   * and has offered a turn to every id except `ids`, and now stands at
   * `cur` and `curPool`: lands only grew, the pool only shrank, and if no
   * state grew nothing changed and no state offered a turn can grow.
   */
  ghost predicate PassFrom(tiles: seq<Tile>, edges: seq<Edge>, lands: map<int, set<TileId>>, pool: set<TileId>,
                           cur: map<int, set<TileId>>, curPool: set<TileId>, ids: set<int>, grew: bool)
  {
    && Grown(lands, cur) && curPool <= pool
    && (grew ==> |curPool| < |pool|)
    && (!grew ==> curPool == pool && cur == lands)
    && (!grew ==> forall id :: id in lands && id !in ids ==> !CanGrow(tiles, edges, lands[id], pool))
  }

  /** One more turn, in which state `id` grew by `claimed` or did not grow, extends the pass. */
  lemma PassStep(tiles: seq<Tile>, edges: seq<Edge>, lands: map<int, set<TileId>>, pool: set<TileId>,
                 cur: map<int, set<TileId>>, curPool: set<TileId>, ids: set<int>, grew: bool,
                 id: int, g: bool, claimed: TileId, next: map<int, set<TileId>>, nextPool: set<TileId>)
    requires PassFrom(tiles, edges, lands, pool, cur, curPool, ids, grew) && id in lands
    requires g ==> && claimed in curPool && nextPool == curPool - {claimed}
                   && next == cur[id := cur[id] + {claimed}]
    requires !g ==> nextPool == curPool && next == cur && !CanGrow(tiles, edges, next[id], nextPool)
    ensures PassFrom(tiles, edges, lands, pool, next, nextPool, ids - {id}, grew || g)
  {
    if g {
      assert |nextPool| < |curPool|;
    }
  }

  class World {
    const tiles: seq<Tile>
    const edges: seq<Edge>
    /** The raw edges of all cells in the sorted order the graph's merge consumed them. */
    ghost const sortedRaw: seq<Edge>
    var states: map<int, State>
    var unclaimed: set<TileId>
    var selected: Option<TileId>
    const draw: nat -> nat
    var draws: nat
    const paint: Hsv -> Colour

    /**
     * The graph is well formed, every tile named by the pool or a state
     * exists, and different ids hold different states (each is owned by its
     * slot of the map).
     */
    ghost predicate Valid()
      reads this, states.Values
    {
      && WellFormed(tiles, edges)
      && EdgesInRange(edges, |tiles|)
      && (forall t :: t in unclaimed ==> t < |tiles|)
      && (forall s, t :: s in states.Values && t in s.land ==> t < |tiles|)
      && (forall i, j :: i in states && j in states && i != j ==> states[i] != states[j])
    }

    /** Each registered state's land, by id. */
    ghost function Lands(): map<int, set<TileId>>
      reads this, states.Values
    {
      map id | id in states :: states[id].land
    }

    /**
     * Builds the graph from the generator's cells, puts every tile in the
     * pool and fills 8 states: every tile that left the pool is in a state's
     * land, and no state can grow.
     */
    constructor (cells: seq<Cell>, near: (Vec2, Vec2) -> bool, atan2: (real, real) -> real,
                 draw: nat -> nat, paint: Hsv -> Colour)
      requires |cells| > 0
      ensures Valid()
      ensures multiset(sortedRaw) == multiset(RawEdges(cells, |cells|))
      ensures Sorting.SortedBy(sortedRaw, (e: Edge) => e.v0.x)
      ensures edges == MergePrefix(sortedRaw, |sortedRaw|, near)
      ensures |tiles| == |cells| && forall t :: 0 <= t < |cells| ==> tiles[t].centre == cells[t].coord
      ensures forall t :: 0 <= t < |tiles| ==> Oriented(tiles[t], edges, atan2)
      ensures forall t :: 0 <= t < |tiles| ==> ResolvedFrom(tiles[t], t, Populated(|tiles|, edges, |edges|)[t], edges)
      ensures NeighbourSymmetric(tiles, edges)
      ensures forall i :: 0 <= i < 8 ==> i in states && SeedTile(|tiles|, draw, 0, i) in states[i].land
      ensures forall t: nat :: t < |tiles| && t !in unclaimed ==> exists id :: id in states && t in states[id].land
      ensures forall id :: id in states ==> !CanGrow(tiles, edges, states[id].land, unclaimed)
      ensures selected == None && this.draw == draw && this.paint == paint
    {
      var graph := new VoronoiGraph(cells, near, atan2);
      tiles := graph.tiles;
      edges := graph.edges;
      sortedRaw := graph.sortedRaw;
      this.draw := draw;
      this.paint := paint;
      draws := 0;
      states := map[];
      selected := None;
      unclaimed := {};
      new;
      for t := 0 to |tiles|
        invariant Valid() && states == map[] && draws == 0 && selected == None
        invariant forall u: nat :: u in unclaimed <==> u < t
      {
        unclaimed := unclaimed + {t};
      }
      var seeds := FillStates(8);
    }

    /** The candidate list of a border: every pool tile at either end of a border edge, in border order. */
    method BorderCandidates(border: seq<EdgeRef>) returns (candidates: seq<TileId>)
      requires forall r :: r in border ==> RefValid(tiles, edges, r)
      ensures candidates == PoolEndpoints(tiles, edges, border, unclaimed)
      ensures forall t :: t in candidates <==> t in unclaimed && exists r :: r in border && IsEndpoint(t, EdgeAt(tiles, edges, r))
    {
      candidates := [];
      for k := 0 to |border|
        invariant candidates == PoolEndpoints(tiles, edges, border[..k], unclaimed)
      {
        assert border[..k + 1][..k] == border[..k];
        var e := EdgeAt(tiles, edges, border[k]);
        if e.d0 in unclaimed {
          candidates := candidates + [e.d0];
        }
        if e.d1.Some? && e.d1.value in unclaimed {
          candidates := candidates + [e.d1.value];
        }
      }
      assert border[..|border|] == border;
      PoolEndpointsMembership(tiles, edges, border, unclaimed);
    }

    /**
     * The candidate chosen by the number `n`: one pool tile at either end of
     * a boundary edge of `s`, or none when there is no such tile.
     */
    method PickCandidate(s: State, n: nat) returns (next: Option<TileId>)
      requires Valid() && s in states.Values
      ensures next.Some? <==> CanGrow(tiles, edges, s.land, unclaimed)
      ensures next.Some? ==> Claimable(tiles, edges, next.value, s.land, unclaimed)
    {
      var border := s.UnorderedBoundary(tiles, edges);
      var candidates := BorderCandidates(border[0]);
      forall t | Claimable(tiles, edges, t, s.land, unclaimed)
        ensures t in candidates
      {
        var r :| r in Boundary(tiles, s.land) && RefValid(tiles, edges, r) && IsEndpoint(t, EdgeAt(tiles, edges, r));
      }
      if candidates == [] {
        return None;
      }
      var t := candidates[n % |candidates|];
      assert t in candidates;
      var r :| r in border[0] && IsEndpoint(t, EdgeAt(tiles, edges, r));
      assert Claimable(tiles, edges, t, s.land, unclaimed);
      return Some(t);
    }

    /**
     * Claims one unclaimed tile at either end of a boundary edge of `s`,
     * chosen by the next number drawn; with no candidate, changes nothing.
     * `claimed` is the tile claimed.
     */
    method GrowState(s: State) returns (grew: bool, ghost claimed: TileId)
      requires Valid() && s in states.Values
      modifies this`unclaimed, this`draws, s`land
      ensures Valid()
      ensures old(s.land) <= s.land
      ensures grew <==> CanGrow(tiles, edges, old(s.land), old(unclaimed))
      ensures grew ==> && Claimable(tiles, edges, claimed, old(s.land), old(unclaimed))
                       && s.land == old(s.land) + {claimed} && unclaimed == old(unclaimed) - {claimed}
      ensures !grew ==> s.land == old(s.land) && unclaimed == old(unclaimed)
      ensures draws == old(draws) + (if grew then 1 else 0)
    {
      var next := PickCandidate(s, draw(draws));
      if next == None {
        return false, 0;
      }
      draws := draws + 1;
      s.AddLandTile(next.value);
      unclaimed := unclaimed - {next.value};
      return true, next.value;
    }

    /**
     * Seeds `count` states with tiles drawn from ALL tiles (claimed or not),
     * then grows them round-robin until a whole pass grows nothing. State
     * `i` holds its seed `seeds[i]` and otherwise only tiles of the pool,
     * and every tile that left the pool is in some state's land.
     */
    method FillStates(count: int) returns (ghost seeds: seq<TileId>)
      requires Valid() && (count > 0 ==> |tiles| > 0)
      modifies this`states, this`unclaimed, this`draws, states.Values
      ensures Valid()
      ensures |seeds| == (if count > 0 then count else 0)
      ensures forall i :: 0 <= i < count ==> seeds[i] == SeedTile(|tiles|, draw, old(draws), i)
      ensures forall i :: 0 <= i < count ==> i in states && seeds[i] in states[i].land && states[i].land - {seeds[i]} <= old(unclaimed)
      ensures ClaimedSince(old(unclaimed), Reseeded(old(Lands()), seeds))
      ensures forall id :: id in states ==> !CanGrow(tiles, edges, states[id].land, unclaimed)
      ensures forall id :: id in states <==> id in old(states) || 0 <= id < count
      ensures forall id :: id in old(states) && !(0 <= id < count) ==> states[id] == old(states[id])
    {
      ghost var pool0, lands0 := unclaimed, Lands();
      seeds := SeedAll(count);
      SeededClaimed(pool0, lands0, seeds);
      GrowUntilStable(if count > 0 then count else 0, seeds, pool0, Reseeded(lands0, seeds));
      ReseededClaims(pool0, lands0, seeds);
    }

    /**
     * The seeding loop of `fillStates`: state `i` gets the tile drawn from
     * all tiles, which is erased from the pool; no other land changes.
     */
    method SeedAll(count: int) returns (ghost seeds: seq<TileId>)
      requires Valid() && (count > 0 ==> |tiles| > 0)
      modifies this`unclaimed, this`draws, this`states
      ensures Valid()
      ensures |seeds| == (if count > 0 then count else 0)
      ensures forall i :: 0 <= i < count ==> seeds[i] == SeedTile(|tiles|, draw, old(draws), i)
      ensures SeededFrom(old(unclaimed), old(Lands()), Lands(), unclaimed, seeds)
      ensures forall o :: o in states.Values ==> o in old(states.Values) || fresh(o)
      ensures forall id :: id in states <==> id in old(states) || 0 <= id < count
      ensures forall id :: id in old(states) && !(0 <= id < count) ==> states[id] == old(states[id])
    {
      var n := if count > 0 then count else 0;
      seeds := [];
      var i := 0;
      ghost var pool0, lands0, states0 := unclaimed, Lands(), states;
      while i < n
        invariant 0 <= i <= n && |seeds| == i
        invariant SeedingFrom(pool0, lands0, states0, old(draws), seeds)
        invariant forall o :: o in states.Values ==> o in old(states.Values) || fresh(o)
      {
        ghost var seed := SeedNext(i, pool0, lands0, states0, old(draws), seeds);
        seeds := seeds + [seed];
        i := i + 1;
      }
    }

    /**
     * States `0` to `|seeds| - 1` have been seeded with `seeds`, drawn from
     * `draws0` on, starting from the pool `pool0`, the lands `lands0` and
     * the registry `states0`.
     */
    ghost predicate SeedingFrom(pool0: set<TileId>, lands0: map<int, set<TileId>>, states0: map<int, State>,
                                draws0: nat, seeds: seq<TileId>)
      reads this, states.Values
    {
      && Valid()
      && draws == draws0 + 2 * |seeds|
      && (forall j :: 0 <= j < |seeds| ==> |tiles| > 0 && seeds[j] == SeedTile(|tiles|, draw, draws0, j))
      && SeededFrom(pool0, lands0, Lands(), unclaimed, seeds)
      && Renumbered(states0, states, |seeds|)
    }

    /** `Seed`, seen as one more step of the seeding that started from `pool0`, `lands0` and `states0`. */
    method SeedNext(i: nat, ghost pool0: set<TileId>, ghost lands0: map<int, set<TileId>>, ghost states0: map<int, State>,
                    ghost draws0: nat, ghost seeds: seq<TileId>)
      returns (ghost seed: TileId)
      requires |tiles| > 0 && |seeds| == i && SeedingFrom(pool0, lands0, states0, draws0, seeds)
      modifies this`unclaimed, this`draws, this`states
      ensures SeedingFrom(pool0, lands0, states0, draws0, seeds + [seed])
      ensures i in states && fresh(states[i]) && states == old(states)[i := states[i]]
    {
      ghost var lands, pool := Lands(), unclaimed;
      Seed(i);
      seed := SeedTile(|tiles|, draw, draws0, i);
      SeededStep(pool0, lands0, lands, pool, seeds, seed);
      RenumberedStep(states0, old(states), i, states[i]);
    }

    /** The lands by id after state `i` was registered, all others unchanged. */
    lemma LandsUpdated(lands: map<int, set<TileId>>, i: int)
      requires i in states
      requires forall j :: j in states <==> j in lands || j == i
      requires forall j :: j in lands && j != i ==> states[j].land == lands[j]
      ensures Lands() == lands[i := states[i].land]
    {
      var updated := lands[i := states[i].land];
      assert forall j :: j in Lands() <==> j in updated;
      forall j | j in updated
        ensures Lands()[j] == updated[j]
      {
      }
    }

    /**
     * One seeding step of `fillStates`: a fresh state registered under `i`
     * whose land is the tile drawn from all tiles; that tile leaves the pool.
     */
    method Seed(i: nat)
      requires Valid() && |tiles| > 0
      modifies this`states, this`unclaimed, this`draws
      ensures Valid()
      ensures i in states && fresh(states[i]) && states == old(states)[i := states[i]]
      ensures states[i].land == {SeedTile(|tiles|, draw, old(draws), 0)}
      ensures unclaimed == old(unclaimed) - states[i].land
      ensures draws == old(draws) + 2
      ensures Lands() == old(Lands())[i := states[i].land]
    {
      var seed := draw(draws) % |tiles|;
      draws := draws + 1;
      unclaimed := unclaimed - {seed};
      var hue := draw(draws);
      draws := draws + 1;
      var s := new State(paint(Hsv(hue, 0.6, 0.8, 0.5)), GeneratedName(i), {seed});
      states := states[i := s];
      LandsUpdated(old(Lands()), i);
    }

    /**
     * Since the snapshot (`pool0`, `lands0`): every tile that left the pool
     * is in some state's land, and every land gained only tiles of `pool0`.
     */
    ghost predicate ClaimedSince(pool0: set<TileId>, lands0: map<int, set<TileId>>)
      reads this, states.Values
    {
      Claims(pool0, lands0, Lands(), unclaimed)
    }

    /** A seeding accounts for its claims, counting each seeded state as holding its seed. */
    lemma SeededClaimed(pool0: set<TileId>, lands0: map<int, set<TileId>>, seeds: seq<TileId>)
      requires SeededFrom(pool0, lands0, Lands(), unclaimed, seeds)
      ensures ClaimedSince(pool0, Reseeded(lands0, seeds))
      ensures forall j :: 0 <= j < |seeds| ==> j in states && seeds[j] in states[j].land
    {
      forall t | t in pool0 && t !in unclaimed
        ensures exists id :: id in states && t in states[id].land
      {
        var j :| 0 <= j < |seeds| && seeds[j] == t;
        assert j in Lands();
      }
      forall id | id in states
        ensures states[id].land - LandOf(Reseeded(lands0, seeds), id) <= pool0
      {
        assert id in Lands();
      }
      forall j | 0 <= j < |seeds|
        ensures j in states && seeds[j] in states[j].land
      {
        assert j in Lands();
      }
    }

    /** Claims accounted for over `Reseeded(lands0, seeds)`: state `j` gained only pool tiles besides its seed. */
    lemma ReseededClaims(pool0: set<TileId>, lands0: map<int, set<TileId>>, seeds: seq<TileId>)
      requires ClaimedSince(pool0, Reseeded(lands0, seeds))
      ensures forall j :: 0 <= j < |seeds| && j in states ==> states[j].land - {seeds[j]} <= pool0
    {
      forall j | 0 <= j < |seeds| && j in states
        ensures states[j].land - {seeds[j]} <= pool0
      {
        assert LandOf(Reseeded(lands0, seeds), j) == {seeds[j]};
      }
    }

    /**
     * The round-robin growth passes, repeated until a pass in which no state
     * grows; the seeds stay in their lands and claims keep being accounted
     * for since the snapshot (`pool0`, `lands0`).
     */
    method GrowUntilStable(count: int, ghost seeds: seq<TileId>, ghost pool0: set<TileId>, ghost lands0: map<int, set<TileId>>)
      requires Valid() && ClaimedSince(pool0, lands0) && |seeds| >= count
      requires forall j :: 0 <= j < count ==> j in states && seeds[j] in states[j].land
      modifies this`unclaimed, this`draws, states.Values
      ensures Valid() && ClaimedSince(pool0, lands0)
      ensures unclaimed <= old(unclaimed)
      ensures forall j :: 0 <= j < count ==> seeds[j] in states[j].land
      ensures forall id :: id in states ==> !CanGrow(tiles, edges, states[id].land, unclaimed)
    {
      var shouldGrow := true;
      while shouldGrow
        invariant Valid() && ClaimedSince(pool0, lands0)
        invariant unclaimed <= old(unclaimed)
        invariant forall j :: 0 <= j < count ==> j in Lands() && seeds[j] in Lands()[j]
        invariant !shouldGrow ==> forall id :: id in states ==> !CanGrow(tiles, edges, states[id].land, unclaimed)
        decreases |unclaimed|, if shouldGrow then 1 else 0
      {
        var grew := GrowPass(pool0, lands0);
        if !grew {
          shouldGrow := false;
        }
      }
      forall j | 0 <= j < count
        ensures seeds[j] in states[j].land
      {
        assert j in Lands();
      }
    }

    /**
     * One pass: every state is offered one growth step, in map order. The
     * pass reports whether any state grew; if none did, nothing changed and
     * no state can grow.
     */
    method GrowPass(ghost pool0: set<TileId>, ghost lands0: map<int, set<TileId>>) returns (grew: bool)
      requires Valid() && ClaimedSince(pool0, lands0)
      modifies this`unclaimed, this`draws, states.Values
      ensures Valid() && ClaimedSince(pool0, lands0)
      ensures Grown(old(Lands()), Lands())
      ensures unclaimed <= old(unclaimed)
      ensures grew ==> |unclaimed| < |old(unclaimed)|
      ensures !grew ==> unclaimed == old(unclaimed) && Lands() == old(Lands())
      ensures !grew ==> forall id :: id in states ==> !CanGrow(tiles, edges, states[id].land, unclaimed)
    {
      ghost var lands, pool := Lands(), unclaimed;
      grew := false;
      var ids := states.Keys;
      while ids != {}
        invariant ids <= lands.Keys
        invariant Valid() && ClaimedSince(pool0, lands0)
        invariant PassFrom(tiles, edges, lands, pool, Lands(), unclaimed, ids, grew)
        decreases |ids|
      {
        var g;
        g, ids := Turn(pool0, lands0, lands, pool, ids, grew);
        grew := grew || g;
      }
      if !grew {
        forall id | id in states
          ensures !CanGrow(tiles, edges, states[id].land, unclaimed)
        {
          assert states[id].land == lands[id];
        }
      }
    }

    /**
     * The next turn of a pass: some state among `ids`, those not yet offered
     * a growth step in this pass, is offered one; `rest` are the states left.
     */
    method Turn(ghost pool0: set<TileId>, ghost lands0: map<int, set<TileId>>,
                ghost lands: map<int, set<TileId>>, ghost pool: set<TileId>, ids: set<int>, ghost grew: bool)
      returns (g: bool, rest: set<int>)
      requires Valid() && ClaimedSince(pool0, lands0)
      requires ids != {} && ids <= lands.Keys
      requires PassFrom(tiles, edges, lands, pool, Lands(), unclaimed, ids, grew)
      modifies this`unclaimed, this`draws, states.Values
      ensures Valid() && ClaimedSince(pool0, lands0)
      ensures rest <= lands.Keys && |rest| < |ids|
      ensures PassFrom(tiles, edges, lands, pool, Lands(), unclaimed, rest, grew || g)
    {
      var id := AnyMember(ids);
      ghost var cur, curPool := Lands(), unclaimed;
      ghost var claimed;
      g, claimed := Offer(id);
      if g {
        ClaimsStep(pool0, lands0, cur, curPool, id, claimed);
      }
      PassStep(tiles, edges, lands, pool, cur, curPool, ids, grew, id, g, claimed, Lands(), unclaimed);
      rest := ids - {id};
    }

    /** One turn of a pass: `growState` on the state registered under `id`. */
    method Offer(id: int) returns (grew: bool, ghost claimed: TileId)
      requires Valid() && id in states
      modifies this`unclaimed, this`draws, states.Values
      ensures Valid()
      ensures unclaimed <= old(unclaimed)
      ensures grew ==> && claimed in old(unclaimed) && unclaimed == old(unclaimed) - {claimed} && |unclaimed| < |old(unclaimed)|
                       && Lands() == old(Lands())[id := old(Lands())[id] + {claimed}]
      ensures !grew ==> unclaimed == old(unclaimed) && Lands() == old(Lands())
      ensures !grew ==> !CanGrow(tiles, edges, Lands()[id], unclaimed)
    {
      ghost var lands := Lands();
      assert states[id] in states.Values;
      grew, claimed := GrowState(states[id]);
      forall j | j in states && j != id
        ensures states[j].land == lands[j]
      {
        assert states[j] != states[id];
      }
      if grew {
        assert Lands() == lands[id := lands[id] + {claimed}];
      } else {
        assert Lands() == lands;
      }
    }

    /**
     * Seeds `count` states one at a time from all tiles (claimed or not),
     * each grown at most `maxSize` times, stopping at its first failure.
     * State `i` holds the tile drawn at `starts[i]` and otherwise only tiles
     * that left the pool, and every tile that left the pool is in one of
     * the new states.
     */
    method GenerateStates(count: int, maxSize: int) returns (ghost starts: seq<nat>)
      requires Valid() && (count > 0 ==> |tiles| > 0)
      modifies this`states, this`unclaimed, this`draws
      ensures Valid()
      ensures unclaimed <= old(unclaimed)
      ensures |starts| == if count > 0 then count else 0
      ensures forall i :: 0 <= i < count ==> i in states && 1 <= |states[i].land| <= 1 + (if maxSize > 0 then maxSize else 0)
      ensures forall i :: 0 <= i < count ==>
        && old(draws) <= starts[i] < draws
        && draw(starts[i]) % |tiles| in states[i].land
        && states[i].land <= {draw(starts[i]) % |tiles|} + old(unclaimed)
      ensures forall i :: 0 <= i < count && |states[i].land| <= maxSize ==> !CanGrow(tiles, edges, states[i].land, unclaimed)
      ensures forall i :: 0 <= i < count ==> states[i].land !! unclaimed
      ensures forall t :: t in old(unclaimed) && t !in unclaimed ==> exists i :: 0 <= i < count && t in states[i].land
      ensures forall id :: id in states <==> id in old(states) || 0 <= id < count
      ensures forall id :: id in old(states) && !(0 <= id < count) ==> states[id] == old(states[id])
    {
      var i := 0;
      starts := [];
      ghost var lands: seq<set<TileId>> := [];
      ghost var taker: map<TileId, nat> := map[];
      while i < count
        invariant Valid() && 0 <= i && (i > 0 ==> i <= count) && |lands| == i
        invariant Listed(lands)
        invariant GeneratedLands(tiles, edges, draw, maxSize, old(unclaimed), old(draws), unclaimed, draws, starts, lands, taker)
        invariant forall id :: id in states <==> id in old(states) || 0 <= id < i
        invariant forall id :: id in old(states) && !(0 <= id < i) ==> states[id] == old(states[id])
      {
        ghost var start, land;
        start, land, taker := GenerateNext(i, maxSize, old(unclaimed), old(draws), starts, lands, taker);
        starts, lands := starts + [start], lands + [land];
        i := i + 1;
      }
      GeneratedStates(maxSize, old(unclaimed), old(draws), starts, lands, taker);
    }

    /** States `0` to `|lands| - 1` exist and hold `lands`. */
    ghost predicate Listed(lands: seq<set<TileId>>)
      reads this, states.Values
    {
      forall j :: 0 <= j < |lands| ==> j in states && states[j].land == lands[j]
    }

    /** `GenerateOne` for state `i`, as one more step of a generation: `start` is the draw of its seed and `land` its land. */
    method GenerateNext(i: nat, maxSize: int, ghost pool0: set<TileId>, ghost draws0: nat, ghost starts: seq<nat>,
                        ghost lands: seq<set<TileId>>, ghost taker: map<TileId, nat>)
      returns (ghost start: nat, ghost land: set<TileId>, ghost taker': map<TileId, nat>)
      requires Valid() && |tiles| > 0 && |lands| == i && Listed(lands)
      requires GeneratedLands(tiles, edges, draw, maxSize, pool0, draws0, unclaimed, draws, starts, lands, taker)
      modifies this`states, this`unclaimed, this`draws
      ensures Valid() && Listed(lands + [land])
      ensures i in states && states == old(states)[i := states[i]]
      ensures GeneratedLands(tiles, edges, draw, maxSize, pool0, draws0, unclaimed, draws, starts + [start], lands + [land], taker')
    {
      start := draws;
      var steps := GenerateOne(i, maxSize);
      land := states[i].land;
      forall j | 0 <= j < i + 1
        ensures j in states && states[j].land == (lands + [land])[j]
      {
        if j < i {
          assert states[j] == old(states[j]);
        }
      }
      GeneratedLandsStep(tiles, edges, draw, maxSize, pool0, draws0, old(unclaimed), start, starts, lands, taker,
                         unclaimed, draws, land);
      taker' := TakerStep(taker, old(unclaimed), unclaimed, i);
    }

    /** What a generation of `|lands|` states from the pool `pool0` and the draw `draws0` says about those states. */
    lemma GeneratedStates(maxSize: int, pool0: set<TileId>, draws0: nat, starts: seq<nat>, lands: seq<set<TileId>>,
                          taker: map<TileId, nat>)
      requires Listed(lands)
      requires GeneratedLands(tiles, edges, draw, maxSize, pool0, draws0, unclaimed, draws, starts, lands, taker)
      ensures unclaimed <= pool0 && |starts| == |lands| && (|lands| > 0 ==> |tiles| > 0)
      ensures forall i :: 0 <= i < |lands| ==> i in states && 1 <= |states[i].land| <= 1 + (if maxSize > 0 then maxSize else 0)
      ensures forall i :: 0 <= i < |lands| ==>
        && draws0 <= starts[i] < draws
        && draw(starts[i]) % |tiles| in states[i].land
        && states[i].land <= {draw(starts[i]) % |tiles|} + pool0
      ensures forall i :: 0 <= i < |lands| && |states[i].land| <= maxSize ==> !CanGrow(tiles, edges, states[i].land, unclaimed)
      ensures forall i :: 0 <= i < |lands| ==> states[i].land !! unclaimed
      ensures forall t :: t in pool0 && t !in unclaimed ==> exists i :: 0 <= i < |lands| && t in states[i].land
    {
      if |lands| > 0 {
        assert GeneratedLand(tiles, edges, draw, maxSize, pool0, draws0, unclaimed, draws, starts[0], lands[0]);
      }
      forall i | 0 <= i < |lands|
        ensures i in states && states[i].land == lands[i]
        ensures draws0 <= starts[i] < draws && draw(starts[i]) % |tiles| in states[i].land
        ensures states[i].land <= {draw(starts[i]) % |tiles|} + pool0
        ensures GeneratedLand(tiles, edges, draw, maxSize, pool0, draws0, unclaimed, draws, starts[i], states[i].land)
      {
        assert GeneratedLand(tiles, edges, draw, maxSize, pool0, draws0, unclaimed, draws, starts[i], lands[i]);
      }
      forall t | t in pool0 && t !in unclaimed
        ensures exists i :: 0 <= i < |lands| && t in states[i].land
      {
        assert t in states[taker[t]].land;
      }
    }

    /**
     * One state of `generateStates`: a fresh state registered under `i`,
     * seeded with the tile drawn from all tiles and grown `steps` times, at
     * most `maxSize`, stopping at the first failure.
     */
    method GenerateOne(i: nat, maxSize: int) returns (ghost steps: nat)
      requires Valid() && |tiles| > 0
      modifies this`states, this`unclaimed, this`draws
      ensures Valid()
      ensures i in states && fresh(states[i]) && states == old(states)[i := states[i]]
      ensures var seed := draw(old(draws)) % |tiles|;
        seed in states[i].land && seed !in unclaimed && states[i].land == {seed} + (old(unclaimed) - unclaimed)
      ensures unclaimed <= old(unclaimed)
      ensures steps <= (if maxSize > 0 then maxSize else 0) && |states[i].land| == 1 + steps
      ensures steps < maxSize ==> !CanGrow(tiles, edges, states[i].land, unclaimed)
      ensures draws == old(draws) + 2 + steps
    {
      var seed := draw(draws) % |tiles|;
      draws := draws + 1;
      unclaimed := unclaimed - {seed};
      var hue := draw(draws);
      draws := draws + 1;
      var s := new State(paint(Hsv(hue, 0.8, 0.7, 0.8)), GeneratedName(i), {seed});
      states := states[i := s];
      assert states[i] == s && s in states.Values;
      steps := GrowAtMost(s, maxSize);
      SeededAccount(seed, old(unclaimed), s.land, unclaimed, steps);
    }

    /**
     * Grows `s` up to `maxSize` times, stopping at the first failure:
     * `steps` growths happened, each moving one pool tile into `s`.
     */
    method GrowAtMost(s: State, maxSize: int) returns (ghost steps: nat)
      requires Valid() && s in states.Values
      modifies this`unclaimed, this`draws, s`land
      ensures Valid()
      ensures old(s.land) <= s.land && |s.land| <= |old(s.land)| + (if maxSize > 0 then maxSize else 0)
      ensures steps <= (if maxSize > 0 then maxSize else 0)
      ensures Accounted(old(s.land), old(unclaimed), s.land, unclaimed, steps)
      ensures steps < maxSize ==> !CanGrow(tiles, edges, s.land, unclaimed)
      ensures draws == old(draws) + steps
    {
      var j := 0;
      while j < maxSize
        invariant Valid() && s in states.Values
        invariant j <= maxSize || j == 0
        invariant Accounted(old(s.land), old(unclaimed), s.land, unclaimed, j)
        invariant draws == old(draws) + j
      {
        ghost var land, pool := s.land, unclaimed;
        var grew, t := GrowState(s);
        if !grew {
          return j;
        }
        AccountedStep(old(s.land), old(unclaimed), land, pool, j, t);
        j := j + 1;
      }
      AccountedBound(old(s.land), old(unclaimed), s.land, unclaimed, j);
      return j;
    }

    /** Selects the first tile whose centre is strictly nearest to `p`; with no tile, keeps the selection. */
    method OnMouseMove(p: Vec2)
      modifies this`selected
      ensures |tiles| == 0 ==> selected == old(selected)
      ensures |tiles| > 0 ==> selected.Some? && selected.value < |tiles|
      ensures |tiles| > 0 ==> forall j :: 0 <= j < |tiles| ==>
        Distance2(p, tiles[selected.value].centre) <= Distance2(p, tiles[j].centre)
      ensures |tiles| > 0 ==> forall j :: 0 <= j < selected.value ==>
        Distance2(p, tiles[selected.value].centre) < Distance2(p, tiles[j].centre)
    {
      var nearest: Option<real> := None;   // None stands for +infinity
      for k := 0 to |tiles|
        invariant nearest.None? <==> k == 0
        invariant k == 0 ==> selected == old(selected)
        invariant k > 0 ==> selected.Some? && selected.value < k && nearest == Some(Distance2(p, tiles[selected.value].centre))
        invariant k > 0 ==> forall j :: 0 <= j < k ==> nearest.value <= Distance2(p, tiles[j].centre)
        invariant k > 0 ==> forall j :: 0 <= j < selected.value ==> nearest.value < Distance2(p, tiles[j].centre)
      {
        var distance := Distance2(p, tiles[k].centre);
        if nearest.None? || distance < nearest.value {
          nearest := Some(distance);
          selected := Some(k);
        }
      }
    }
  }

  /**
   * Seeds drawn from all tiles can coincide: with a generator whose numbers
   * are all equal, the first two states of `fillStates` get the same seed,
   * so both lands contain it.
   */
  lemma SeedsCanCollide(tileCount: nat, start: nat)
    requires tileCount > 0
    ensures SeedTile(tileCount, _ => 0, start, 0) == SeedTile(tileCount, _ => 0, start, 1)
  {
  }
}
