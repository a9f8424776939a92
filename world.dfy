/**
 * The newer world: the converted map, a pool of unclaimed usable sites,
 * numbered states grown over the map, and the owner column of the sites.
 *
 * As in the first world, the random generator is the oracle `draw` with the
 * counter `draws`, and `paint` turns a drawn hue into a colour. `draw(0)` is
 * the first number drawn after the map has drawn its points
 * (src/world/World.cpp:8).
 */
module World {
  import opened Wrappers
  import opened Common
  import Map
  import opened Territory

  /** `r` points at an existing graph edge whose shared edge is in the arena. */
  predicate RefValid(sites: seq<Map.Site>, edges: seq<Map.Edge>, r: Map.EdgeRef)
  {
    r.site < |sites| && r.index < |sites[r.site].edges| && sites[r.site].edges[r.index].edge < |edges|
  }

  /** The shared edge behind a boundary pointer (`e->edge`). */
  function EdgeAt(sites: seq<Map.Site>, edges: seq<Map.Edge>, r: Map.EdgeRef): Map.Edge
    requires RefValid(sites, edges, r)
  {
    edges[sites[r.site].edges[r.index].edge]
  }

  /** `t` is one of the two sites of `e`. */
  predicate IsEndpoint(t: SiteId, e: Map.Edge)
  {
    e.d0 == t || e.d1 == t
  }

  /**
   * The growth candidates along `border`, in order: for each edge, `d[0]`
   * and then `d[1]` whenever that site is in `pool`. A site may appear more
   * than once.
   */
  function PoolEndpoints(sites: seq<Map.Site>, edges: seq<Map.Edge>, border: seq<Map.EdgeRef>, pool: set<SiteId>): seq<SiteId>
    requires forall r :: r in border ==> RefValid(sites, edges, r)
  {
    if border == [] then []
    else
      var last := |border| - 1;
      var e := EdgeAt(sites, edges, border[last]);
      PoolEndpoints(sites, edges, border[..last], pool)
        + (if e.d0 in pool then [e.d0] else [])
        + (if e.d1 in pool then [e.d1] else [])
  }

  /** A site is a candidate exactly when it is in the pool and at either end of a border edge. */
  lemma {:induction false} PoolEndpointsMembership(sites: seq<Map.Site>, edges: seq<Map.Edge>, border: seq<Map.EdgeRef>, pool: set<SiteId>)
    requires forall r :: r in border ==> RefValid(sites, edges, r)
    ensures forall t :: t in PoolEndpoints(sites, edges, border, pool) <==>
      t in pool && exists r :: r in border && IsEndpoint(t, EdgeAt(sites, edges, r))
  {
    if border != [] {
      var last := |border| - 1;
      PoolEndpointsMembership(sites, edges, border[..last], pool);
      assert border == border[..last] + [border[last]];
    }
  }

  /** `t` can be claimed by a state owning `land` while `pool` is unclaimed. */
  ghost predicate Claimable(sites: seq<Map.Site>, edges: seq<Map.Edge>, t: SiteId, land: set<SiteId>, pool: set<SiteId>)
  {
    t in pool && exists r :: r in Map.Boundary(sites, land) && RefValid(sites, edges, r) && IsEndpoint(t, EdgeAt(sites, edges, r))
  }

  ghost predicate CanGrow(sites: seq<Map.Site>, edges: seq<Map.Edge>, land: set<SiteId>, pool: set<SiteId>)
  {
    exists t :: Claimable(sites, edges, t, land, pool)
  }

  /** A state that cannot grow still cannot once the pool has shrunk. */
  lemma NoGrowthInSmallerPool(sites: seq<Map.Site>, edges: seq<Map.Edge>, land: set<SiteId>, pool: set<SiteId>, pool': set<SiteId>)
    requires pool' <= pool && !CanGrow(sites, edges, land, pool)
    ensures !CanGrow(sites, edges, land, pool')
  {
    forall t | Claimable(sites, edges, t, land, pool')
      ensures Claimable(sites, edges, t, land, pool)
    {
    }
  }

  /**
   * The seeding of states `0` to `i - 1` from `pool0`: each holds a single
   * site of `pool0`, every site that left the pool is one of them, and every
   * other state keeps its land from `lands0`.
   */
  ghost predicate SeededFrom(pool0: set<SiteId>, lands0: map<int, set<SiteId>>, lands: map<int, set<SiteId>>,
                             pool: set<SiteId>, i: int)
  {
    && pool <= pool0
    && (forall j :: 0 <= j < i ==> j in lands && |lands[j]| == 1 && lands[j] <= pool0)
    && (forall t :: t in pool0 && t !in pool ==> exists j :: 0 <= j < i && t in lands[j])
    && (forall id :: id in lands && !(0 <= id < i) ==> id in lands0 && lands[id] == lands0[id])
  }

  /** Before any seeding, the seeding from the current pool and lands holds. */
  lemma SeededNone(pool: set<SiteId>, lands: map<int, set<SiteId>>)
    ensures SeededFrom(pool, lands, lands, pool, 0)
  {
  }

  /** Seeding state `i` with one pool site extends the seeding. */
  lemma SeededStep(pool0: set<SiteId>, lands0: map<int, set<SiteId>>, lands: map<int, set<SiteId>>,
                   pool: set<SiteId>, i: int, seed: set<SiteId>)
    requires 0 <= i && SeededFrom(pool0, lands0, lands, pool, i)
    requires |seed| == 1 && seed <= pool
    ensures SeededFrom(pool0, lands0, lands[i := seed], pool - seed, i + 1)
  {
    var lands' := lands[i := seed];
    forall t | t in pool0 && t !in pool - seed
      ensures exists j :: 0 <= j < i + 1 && t in lands'[j]
    {
      if t in seed {
        assert t in lands'[i];
      } else {
        var j :| 0 <= j < i && t in lands[j];
        assert t in lands'[j];
      }
    }
  }

  /**
   * `land` was generated from the draw at `start`, while `pool0` was the
   * pool and `draws0` numbers had been drawn, and has since been left alone
   * while the pool became `pool` and `draws` numbers were drawn: it holds
   * the site drawn at `start` and otherwise only sites of `pool0`, it grew
   * at most `maxSize` times, and when it grew fewer it can no longer grow.
   */
  ghost predicate GeneratedLand(sites: seq<Map.Site>, edges: seq<Map.Edge>, draw: nat -> nat, maxSize: int,
                                pool0: set<SiteId>, draws0: nat, pool: set<SiteId>, draws: nat, start: nat, land: set<SiteId>)
  {
    && |sites| > 0 && draws0 <= start < draws
    && 1 <= |land| <= 1 + (if maxSize > 0 then maxSize else 0)
    && draw(start) % |sites| in land
    && land <= {draw(start) % |sites|} + pool0 && land !! pool
    && (|land| <= maxSize ==> !CanGrow(sites, edges, land, pool))
  }

  /** A generated land stays generated while the pool shrinks and more numbers are drawn. */
  lemma GeneratedLandLater(sites: seq<Map.Site>, edges: seq<Map.Edge>, draw: nat -> nat, maxSize: int,
                           pool0: set<SiteId>, draws0: nat, pool: set<SiteId>, draws: nat,
                           pool': set<SiteId>, draws': nat, start: nat, land: set<SiteId>)
    requires GeneratedLand(sites, edges, draw, maxSize, pool0, draws0, pool, draws, start, land)
    requires pool' <= pool && draws <= draws'
    ensures GeneratedLand(sites, edges, draw, maxSize, pool0, draws0, pool', draws', start, land)
  {
    if |land| <= maxSize {
      NoGrowthInSmallerPool(sites, edges, land, pool, pool');
    }
  }

  /**
   * `lands` were generated one after the other since the pool was `pool0`
   * and `draws0` numbers were drawn, and the pool is now `pool`: land `j`
   * was seeded by the draw at `starts[j]`, and every site that left the
   * pool is in one of them, the one `taker` names.
   */
  ghost predicate GeneratedLands(sites: seq<Map.Site>, edges: seq<Map.Edge>, draw: nat -> nat, maxSize: int,
                                 pool0: set<SiteId>, draws0: nat, pool: set<SiteId>, draws: nat,
                                 starts: seq<nat>, lands: seq<set<SiteId>>, taker: map<SiteId, nat>)
  {
    && |starts| == |lands| && pool <= pool0 && draws0 <= draws
    && (forall j :: 0 <= j < |lands| ==> GeneratedLand(sites, edges, draw, maxSize, pool0, draws0, pool, draws, starts[j], lands[j]))
    && (forall t :: t in pool0 && t !in pool ==> t in taker && taker[t] < |lands| && t in lands[taker[t]])
  }

  /**
   * Generating one more land, seeded by the draw at `start` and holding
   * otherwise exactly the sites that left the pool, extends the generation.
   */
  lemma GeneratedLandsStep(sites: seq<Map.Site>, edges: seq<Map.Edge>, draw: nat -> nat, maxSize: int,
                           pool0: set<SiteId>, draws0: nat, pool: set<SiteId>, draws: nat,
                           starts: seq<nat>, lands: seq<set<SiteId>>, taker: map<SiteId, nat>,
                           pool': set<SiteId>, draws': nat, land: set<SiteId>)
    requires GeneratedLands(sites, edges, draw, maxSize, pool0, draws0, pool, draws, starts, lands, taker)
    requires |sites| > 0 && pool' <= pool && draws < draws'
    requires land == {draw(draws) % |sites|} + (pool - pool')
    requires 1 <= |land| <= 1 + (if maxSize > 0 then maxSize else 0)
    requires land !! pool' && (|land| <= maxSize ==> !CanGrow(sites, edges, land, pool'))
    ensures GeneratedLands(sites, edges, draw, maxSize, pool0, draws0, pool', draws',
                           starts + [draws], lands + [land], TakerStep(taker, pool, pool', |lands|))
  {
    var starts', lands', taker' := starts + [draws], lands + [land], TakerStep(taker, pool, pool', |lands|);
    forall j | 0 <= j < |lands'|
      ensures GeneratedLand(sites, edges, draw, maxSize, pool0, draws0, pool', draws', starts'[j], lands'[j])
    {
      if j < |lands| {
        GeneratedLandLater(sites, edges, draw, maxSize, pool0, draws0, pool, draws, pool', draws', starts[j], lands[j]);
      }
    }
    forall t | t in pool0 && t !in pool'
      ensures t in taker' && taker'[t] < |lands'| && t in lands'[taker'[t]]
    {
      if t in pool {
        assert taker'[t] == |lands|;
      } else {
        assert taker'[t] == taker[t];
      }
    }
  }

  /** The neighbour across each graph edge is the other site of its shared edge. */
  ghost predicate Coherent(sites: seq<Map.Site>, edges: seq<Map.Edge>)
    requires Map.Indexed(sites, edges)
  {
    forall i, k :: 0 <= i < |sites| && 0 <= k < |sites[i].edges| && sites[i].edges[k].neighbour.Some? ==>
      var e := edges[sites[i].edges[k].edge];
      var n := sites[i].edges[k].neighbour.value;
      (e.d0 == i && e.d1 == n) || (e.d0 == n && e.d1 == i)
  }

  /** No site of `land` has a neighbour in `pool`. */
  ghost predicate Enclosed(sites: seq<Map.Site>, land: set<SiteId>, pool: set<SiteId>)
  {
    forall t, k :: t in land && t < |sites| && 0 <= k < |sites[t].edges| && sites[t].edges[k].neighbour.Some? ==>
      sites[t].edges[k].neighbour.value !in pool
  }

  /** A pool site across a land edge is claimable: that edge is on the land's boundary. */
  lemma UnclaimedNeighbourClaimable(sites: seq<Map.Site>, edges: seq<Map.Edge>, land: set<SiteId>, pool: set<SiteId>,
                                    t: SiteId, k: nat)
    requires Map.Indexed(sites, edges) && Coherent(sites, edges)
    requires land !! pool
    requires t in land && t < |sites| && k < |sites[t].edges| && sites[t].edges[k].neighbour.Some?
    ensures sites[t].edges[k].neighbour.value in pool ==> Claimable(sites, edges, sites[t].edges[k].neighbour.value, land, pool)
  {
    var u := sites[t].edges[k].neighbour.value;
    var r := Map.EdgeRef(t, k);
    if u in pool {
      assert r in Map.Boundary(sites, land);
      assert RefValid(sites, edges, r) && IsEndpoint(u, EdgeAt(sites, edges, r));
    }
  }

  /**
   * Coverage at the fixpoint: when a state cannot grow and its land is
   * disjoint from the pool, no site of its land has an unclaimed neighbour
   * (on a map whose neighbour links agree with its shared edges).
   */
  lemma FixpointLeavesNoUnclaimedNeighbour(sites: seq<Map.Site>, edges: seq<Map.Edge>, land: set<SiteId>, pool: set<SiteId>)
    requires Map.Indexed(sites, edges) && Coherent(sites, edges)
    requires land !! pool && !CanGrow(sites, edges, land, pool)
    ensures Enclosed(sites, land, pool)
  {
    forall t, k | t in land && t < |sites| && 0 <= k < |sites[t].edges| && sites[t].edges[k].neighbour.Some?
      ensures sites[t].edges[k].neighbour.value !in pool
    {
      UnclaimedNeighbourClaimable(sites, edges, land, pool, t, k);
    }
  }

  /**
   * A growth pass that started from the lands `lands` and the pool `pool`
   * and has offered a turn to every id except `ids`, and now stands at
   * `cur` and `curPool`: lands only grew, the pool only shrank, and if no
   * state grew nothing changed and no state offered a turn can grow.
   */
  ghost predicate PassFrom(sites: seq<Map.Site>, edges: seq<Map.Edge>, lands: map<int, set<SiteId>>, pool: set<SiteId>,
                           cur: map<int, set<SiteId>>, curPool: set<SiteId>, ids: set<int>, grew: bool)
  {
    && Grown(lands, cur) && curPool <= pool
    && (grew ==> |curPool| < |pool|)
    && (!grew ==> curPool == pool && cur == lands)
    && (!grew ==> forall id :: id in lands && id !in ids ==> !CanGrow(sites, edges, lands[id], pool))
  }

  /** One more turn, in which state `id` grew by `claimed` or did not grow, extends the pass. */
  lemma PassStep(sites: seq<Map.Site>, edges: seq<Map.Edge>, lands: map<int, set<SiteId>>, pool: set<SiteId>,
                 cur: map<int, set<SiteId>>, curPool: set<SiteId>, ids: set<int>, grew: bool,
                 id: int, g: bool, claimed: SiteId, next: map<int, set<SiteId>>, nextPool: set<SiteId>)
    requires PassFrom(sites, edges, lands, pool, cur, curPool, ids, grew) && id in lands
    requires g ==> && claimed in curPool && nextPool == curPool - {claimed}
                   && next == cur[id := cur[id] + {claimed}]
    requires !g ==> nextPool == curPool && next == cur && !CanGrow(sites, edges, next[id], nextPool)
    ensures PassFrom(sites, edges, lands, pool, next, nextPool, ids - {id}, grew || g)
  {
    if g {
      assert |nextPool| < |curPool|;
    }
  }

  class World {
    const sites: seq<Map.Site>
    const edges: seq<Map.Edge>
    const owner: array<State?>
    var states: map<int, State>
    var unclaimed: set<SiteId>
    const draw: nat -> nat
    var draws: nat
    const paint: Hsv -> Colour

    ghost function Owners(): set<State>
      reads owner
    {
      set t | 0 <= t < owner.Length && owner[t] != null :: owner[t] as State
    }

    /**
     * The map is indexed, pool sites are usable and unowned, states are
     * distinct objects over existing sites, and every owner pointer is backed
     * by its state's land.
     */
    ghost predicate Valid()
      reads this, owner, states.Values, Owners()
    {
      && Map.Indexed(sites, edges)
      && owner.Length == |sites|
      && (forall t :: t in unclaimed ==> t < |sites| && sites[t].usable && owner[t] == null)
      && (forall s, t :: s in states.Values && t in s.land ==> t < |sites|)
      && (forall i, j :: i in states && j in states && i != j ==> states[i] != states[j])
      && (forall t :: 0 <= t < owner.Length && owner[t] != null ==> t in owner[t].land)
    }

    /** Each registered state's land, by id. */
    ghost function Lands(): map<int, set<SiteId>>
      reads this, states.Values
    {
      map id | id in states :: states[id].land
    }

    /** Different states' lands are disjoint, and disjoint from the pool. */
    ghost predicate Partitioned()
      reads this, states.Values
    {
      && (forall i, j :: i in states && j in states && i != j ==> states[i].land !! states[j].land)
      && (forall i :: i in states ==> states[i].land !! unclaimed)
    }

    /** Converts the diagram, leaves every site unowned and puts exactly the usable sites in the pool. */
    constructor (diagram: Map.Diagram, draw: nat -> nat, paint: Hsv -> Colour)
      requires Map.DiagramWellFormed(diagram)
      ensures Valid() && Partitioned() && states == map[] && fresh(owner)
      ensures |sites| == |diagram.sites| && |edges| == |diagram.edges|
      ensures forall i :: 0 <= i < |sites| ==> Map.ConvertedFrom(sites[i], diagram.sites[i])
      ensures forall k :: 0 <= k < |edges| ==>
        edges[k] == Map.Edge([diagram.edges[k].pos0, diagram.edges[k].pos1], diagram.edges[k].site0, diagram.edges[k].site1)
      ensures this.draw == draw && draws == 0 && this.paint == paint
      ensures forall t :: 0 <= t < owner.Length ==> owner[t] == null
      ensures forall t: nat :: t in unclaimed <==> t < |sites| && sites[t].usable
    {
      var m := new Map.Map(diagram);
      sites := m.sites;
      edges := m.edges;
      owner := new State?[|m.sites|](_ => null);
      states := map[];
      unclaimed := {};
      this.draw := draw;
      draws := 0;
      this.paint := paint;
      new;
      for t := 0 to |sites|
        invariant states == map[] && draws == 0 && owner.Length == |sites|
        invariant forall u :: 0 <= u < owner.Length ==> owner[u] == null
        invariant forall u: nat :: u in unclaimed <==> u < t && sites[u].usable
      {
        if sites[t].usable {
          unclaimed := unclaimed + {t};
        }
      }
    }

    /** `getStateById`: the state registered under `id`, or an empty pointer. */
    function GetStateById(id: int): (s: State?)
      reads this
      ensures s != null <==> id in states
      ensures s != null ==> s == states[id]
    {
      if id in states then states[id] else null
    }

    /** The candidate list of a border: every pool site at either end of a border edge, in border order. */
    method BorderCandidates(border: seq<Map.EdgeRef>) returns (candidates: seq<SiteId>)
      requires forall r :: r in border ==> RefValid(sites, edges, r)
      ensures candidates == PoolEndpoints(sites, edges, border, unclaimed)
      ensures forall t :: t in candidates <==> t in unclaimed && exists r :: r in border && IsEndpoint(t, EdgeAt(sites, edges, r))
    {
      candidates := [];
      for k := 0 to |border|
        invariant candidates == PoolEndpoints(sites, edges, border[..k], unclaimed)
      {
        assert border[..k + 1][..k] == border[..k];
        var e := EdgeAt(sites, edges, border[k]);
        if e.d0 in unclaimed {
          candidates := candidates + [e.d0];
        }
        if e.d1 in unclaimed {
          candidates := candidates + [e.d1];
        }
      }
      assert border[..|border|] == border;
      PoolEndpointsMembership(sites, edges, border, unclaimed);
    }

    /**
     * The candidate chosen by the number `n`: one pool site at either end of
     * a boundary edge of `s`, or none when there is no such site.
     */
    method PickCandidate(s: State, n: nat) returns (next: Option<SiteId>)
      requires Valid() && s in states.Values
      ensures next.Some? <==> CanGrow(sites, edges, s.land, unclaimed)
      ensures next.Some? ==> Claimable(sites, edges, next.value, s.land, unclaimed)
    {
      var border := s.UnorderedBoundary(sites);
      forall r | r in border[0]
        ensures RefValid(sites, edges, r)
      {
      }
      var candidates := BorderCandidates(border[0]);
      forall t | Claimable(sites, edges, t, s.land, unclaimed)
        ensures t in candidates
      {
        var r :| r in Map.Boundary(sites, s.land) && RefValid(sites, edges, r) && IsEndpoint(t, EdgeAt(sites, edges, r));
      }
      if candidates == [] {
        return None;
      }
      var t := candidates[n % |candidates|];
      assert t in candidates;
      var r :| r in border[0] && IsEndpoint(t, EdgeAt(sites, edges, r));
      assert Claimable(sites, edges, t, s.land, unclaimed);
      return Some(t);
    }

    /** `addLandTile` on a pool site followed by its removal from the pool. */
    method Claim(s: State, t: SiteId)
      requires Valid() && s in states.Values && t in unclaimed
      modifies this`unclaimed, owner, s`land
      ensures Valid()
      ensures old(Partitioned()) ==> Partitioned()
      ensures owner[t] == s && s.land == old(s.land) + {t} && unclaimed == old(unclaimed) - {t}
      ensures forall k :: 0 <= k < owner.Length && k != t ==> owner[k] == old(owner[k])
    {
      s.AddLandTile(owner, t, {});
      unclaimed := unclaimed - {t};
    }

    /**
     * Claims one unclaimed site at either end of a boundary edge of `s`,
     * chosen by the next number drawn, and makes `s` its owner; with no
     * candidate, changes nothing. `claimed` is the site claimed.
     */
    method GrowState(s: State) returns (grew: bool, ghost claimed: SiteId)
      requires Valid() && s in states.Values
      modifies this`unclaimed, this`draws, owner, s`land
      ensures Valid()
      ensures old(Partitioned()) ==> Partitioned()
      ensures old(s.land) <= s.land
      ensures grew <==> CanGrow(sites, edges, old(s.land), old(unclaimed))
      ensures grew ==> && Claimable(sites, edges, claimed, old(s.land), old(unclaimed)) && owner[claimed] == s
                       && s.land == old(s.land) + {claimed} && unclaimed == old(unclaimed) - {claimed}
      ensures !grew ==> s.land == old(s.land) && unclaimed == old(unclaimed)
      ensures draws == old(draws) + (if grew then 1 else 0)
    {
      var next := PickCandidate(s, draw(draws));
      if next == None {
        return false, 0;
      }
      draws := draws + 1;
      Claim(s, next.value);
      return true, next.value;
    }

    /**
     * Seeds `count` states with distinct sites taken from the pool, then
     * grows them round-robin until a whole pass grows nothing.
     */
    method FillStates(count: int)
      requires Valid() && Partitioned()
      requires count <= |unclaimed|
      modifies this, owner, states.Values
      ensures Valid() && Partitioned()
      ensures forall i :: 0 <= i < count ==> i in states && states[i].land != {} && states[i].land <= old(unclaimed)
      ensures |unclaimed| <= old(|unclaimed|) - (if count > 0 then count else 0)
      ensures ClaimedSince(old(unclaimed), old(Lands()))
      ensures forall id :: id in states ==> !CanGrow(sites, edges, states[id].land, unclaimed)
      ensures Coherent(sites, edges) ==> forall id :: id in states ==> Enclosed(sites, states[id].land, unclaimed)
      ensures forall id :: id in states <==> id in old(states) || 0 <= id < count
      ensures forall id :: id in old(states) && !(0 <= id < count) ==> states[id] == old(states[id])
    {
      ghost var pool0, lands0 := unclaimed, Lands();
      SeedAll(count);
      GrowSeeded(count, pool0, lands0);
    }

    /**
     * The growth phase of `fillStates`, once states `0` to `count - 1` have
     * been seeded from the pool `pool0` and the lands `lands0`.
     */
    method GrowSeeded(count: int, ghost pool0: set<SiteId>, ghost lands0: map<int, set<SiteId>>)
      requires Valid() && Partitioned()
      requires SeededFrom(pool0, lands0, Lands(), unclaimed, if count > 0 then count else 0)
      modifies this`unclaimed, this`draws, owner, states.Values
      ensures Valid() && Partitioned()
      ensures forall i :: 0 <= i < count ==> i in states && states[i].land != {} && states[i].land <= pool0
      ensures unclaimed <= old(unclaimed) && |unclaimed| <= old(|unclaimed|)
      ensures ClaimedSince(pool0, lands0)
      ensures forall id :: id in states ==> !CanGrow(sites, edges, states[id].land, unclaimed)
      ensures Coherent(sites, edges) ==> forall id :: id in states ==> Enclosed(sites, states[id].land, unclaimed)
    {
      var n := if count > 0 then count else 0;
      SeededClaimed(pool0, lands0, n);
      GrowUntilStable(count, pool0, Without(lands0, n));
      ClaimedWithout(pool0, lands0, n);
      if Coherent(sites, edges) {
        forall id | id in states
          ensures Enclosed(sites, states[id].land, unclaimed)
        {
          FixpointLeavesNoUnclaimedNeighbour(sites, edges, states[id].land, unclaimed);
        }
      }
    }

    /**
     * The seeding loop of `fillStates`: states `0` to `count - 1` each get
     * one site taken out of the pool; no land changes.
     */
    method SeedAll(count: int)
      requires Valid() && Partitioned()
      requires count <= |unclaimed|
      modifies this`unclaimed, this`draws, this`states
      ensures Valid() && Partitioned()
      ensures |unclaimed| == old(|unclaimed|) - (if count > 0 then count else 0)
      ensures SeededFrom(old(unclaimed), old(Lands()), Lands(), unclaimed, if count > 0 then count else 0)
      ensures forall o :: o in states.Values ==> o in old(states.Values) || fresh(o)
      ensures forall id :: id in states <==> id in old(states) || 0 <= id < count
      ensures forall id :: id in old(states) && !(0 <= id < count) ==> states[id] == old(states[id])
    {
      var n := if count > 0 then count else 0;
      var i := 0;
      ghost var pool0, lands0, states0 := unclaimed, Lands(), states;
      SeededNone(pool0, lands0);
      while i < n
        invariant 0 <= i <= n
        invariant SeedingFrom(pool0, lands0, states0, i)
        invariant forall o :: o in states.Values ==> o in old(states.Values) || fresh(o)
      {
        SeedNext(i, pool0, lands0, states0);
        i := i + 1;
      }
    }

    /**
     * States `0` to `i - 1` have been seeded from the pool `pool0`, the
     * lands `lands0` and the registry `states0`, each taking one pool site.
     */
    ghost predicate SeedingFrom(pool0: set<SiteId>, lands0: map<int, set<SiteId>>, states0: map<int, State>, i: int)
      reads this, owner, states.Values, Owners()
    {
      && Valid() && Partitioned()
      && |unclaimed| + i == |pool0|
      && SeededFrom(pool0, lands0, Lands(), unclaimed, i)
      && Renumbered(states0, states, i)
    }

    /** `Seed`, seen as one more step of the seeding that started from `pool0`, `lands0` and `states0`. */
    method SeedNext(i: nat, ghost pool0: set<SiteId>, ghost lands0: map<int, set<SiteId>>, ghost states0: map<int, State>)
      requires SeedingFrom(pool0, lands0, states0, i) && i < |pool0|
      modifies this`unclaimed, this`draws, this`states
      ensures SeedingFrom(pool0, lands0, states0, i + 1)
      ensures i in states && fresh(states[i]) && states == old(states)[i := states[i]]
    {
      ghost var lands, pool := Lands(), unclaimed;
      Seed(i);
      SeededStep(pool0, lands0, lands, pool, i, states[i].land);
      RenumberedStep(states0, old(states), i, states[i]);
    }

    /** The lands by id after state `i` was registered or regrown, all others unchanged. */
    lemma LandsUpdated(lands: map<int, set<SiteId>>, i: int)
      requires i in states
      requires forall j :: j in states <==> j in lands || j == i
      requires forall j :: j in lands && j != i ==> states[j].land == lands[j]
      ensures Lands() == lands[i := states[i].land]
    {
      var updated := lands[i := states[i].land];
      assert forall j :: j in Lands() <==> j in updated;
      forall j | j in updated
        ensures Lands()[j] == updated[j]
      {
      }
    }

    /**
     * One seeding step of `fillStates`: a site taken out of the pool becomes
     * the whole land of a fresh state registered under `i`, coloured by the
     * next hue drawn.
     */
    method Seed(i: nat)
      requires Valid() && Partitioned() && unclaimed != {}
      modifies this`unclaimed, this`draws, this`states
      ensures Valid() && Partitioned()
      ensures i in states && fresh(states[i]) && states == old(states)[i := states[i]]
      ensures |states[i].land| == 1 && states[i].land <= old(unclaimed)
      ensures unclaimed == old(unclaimed) - states[i].land && |unclaimed| == old(|unclaimed|) - 1
      ensures states[i].name == GeneratedName(i)
      ensures draws == old(draws) + 2
      ensures Lands() == old(Lands())[i := states[i].land]
    {
      // The index drawn picks a position in the pool's unspecified iteration order.
      draws := draws + 1;
      var seed := AnyMember(unclaimed);
      unclaimed := unclaimed - {seed};
      var hue := draw(draws);
      draws := draws + 1;
      Register(i, seed, paint(Hsv(hue, 0.6, 0.8, 0.5)));
    }

    /** Registers under `i` a fresh state named after `i` whose land is `seed`, a site of no land and out of the pool. */
    method Register(i: nat, seed: SiteId, colour: Colour)
      requires Valid() && Partitioned() && seed < |sites| && seed !in unclaimed
      requires forall id :: id in states ==> seed !in states[id].land
      modifies this`states
      ensures Valid() && Partitioned()
      ensures i in states && fresh(states[i]) && states == old(states)[i := states[i]]
      ensures states[i].land == {seed} && states[i].name == GeneratedName(i)
      ensures Lands() == old(Lands())[i := {seed}]
    {
      var s := new State(colour, GeneratedName(i), {seed}, sites);
      states := states[i := s];
      LandsUpdated(old(Lands()), i);
    }

    /**
     * Since the snapshot (`pool0`, `lands0`): every site that left the pool
     * is in some state's land, and every land gained only sites of `pool0`.
     */
    ghost predicate ClaimedSince(pool0: set<SiteId>, lands0: map<int, set<SiteId>>)
      reads this, states.Values
    {
      Claims(pool0, lands0, Lands(), unclaimed)
    }

    /** A seeding of states `0` to `n - 1` accounts for its claims, counting those states as new. */
    lemma SeededClaimed(pool0: set<SiteId>, lands0: map<int, set<SiteId>>, n: int)
      requires SeededFrom(pool0, lands0, Lands(), unclaimed, n)
      ensures ClaimedSince(pool0, Without(lands0, n))
      ensures forall j :: 0 <= j < n ==> j in states && states[j].land != {}
    {
      forall t | t in pool0 && t !in unclaimed
        ensures exists id :: id in states && t in states[id].land
      {
        var j :| 0 <= j < n && t in Lands()[j];
      }
      forall id | id in states
        ensures states[id].land - LandOf(Without(lands0, n), id) <= pool0
      {
        assert id in Lands();
      }
      forall j | 0 <= j < n
        ensures j in states && states[j].land != {}
      {
        assert j in Lands();
      }
    }

    /**
     * Claims accounted for over `Without(lands0, n)` are accounted for over
     * `lands0`, and the lands of states `0` to `n - 1` lie wholly in `pool0`.
     */
    lemma ClaimedWithout(pool0: set<SiteId>, lands0: map<int, set<SiteId>>, n: int)
      requires ClaimedSince(pool0, Without(lands0, n))
      ensures ClaimedSince(pool0, lands0)
      ensures forall j :: 0 <= j < n && j in states ==> states[j].land <= pool0
    {
      forall id | id in states
        ensures states[id].land - LandOf(lands0, id) <= pool0
      {
        assert LandOf(Without(lands0, n), id) <= LandOf(lands0, id);
      }
      forall j | 0 <= j < n && j in states
        ensures states[j].land <= pool0
      {
        assert LandOf(Without(lands0, n), j) == {};
      }
    }

    /**
     * The round-robin growth passes, repeated until a pass in which no state
     * grows; claims keep being accounted for since the snapshot (`pool0`, `lands0`).
     */
    method GrowUntilStable(count: int, ghost pool0: set<SiteId>, ghost lands0: map<int, set<SiteId>>)
      requires Valid() && Partitioned() && ClaimedSince(pool0, lands0)
      requires forall j :: 0 <= j < count ==> j in states && states[j].land != {}
      modifies this`unclaimed, this`draws, owner, states.Values
      ensures Valid() && Partitioned() && ClaimedSince(pool0, lands0)
      ensures unclaimed <= old(unclaimed) && |unclaimed| <= old(|unclaimed|)
      ensures forall j :: 0 <= j < count ==> states[j].land != {}
      ensures forall id :: id in states ==> !CanGrow(sites, edges, states[id].land, unclaimed)
    {
      var shouldGrow := true;
      while shouldGrow
        invariant Valid() && Partitioned() && ClaimedSince(pool0, lands0)
        invariant unclaimed <= old(unclaimed) && |unclaimed| <= old(|unclaimed|)
        invariant forall j :: 0 <= j < count ==> j in Lands() && Lands()[j] != {}
        invariant !shouldGrow ==> forall id :: id in states ==> !CanGrow(sites, edges, states[id].land, unclaimed)
        decreases |unclaimed|, if shouldGrow then 1 else 0
      {
        var grew := GrowPass(pool0, lands0);
        if !grew {
          shouldGrow := false;
        }
      }
      forall j | 0 <= j < count
        ensures states[j].land != {}
      {
        assert j in Lands();
      }
    }

    /**
     * One pass: every state is offered one growth step, in map order. If no
     * state grew, nothing changed and no state can grow.
     */
    method GrowPass(ghost pool0: set<SiteId>, ghost lands0: map<int, set<SiteId>>) returns (grew: bool)
      requires Valid() && Partitioned() && ClaimedSince(pool0, lands0)
      modifies this`unclaimed, this`draws, owner, states.Values
      ensures Valid() && Partitioned() && ClaimedSince(pool0, lands0)
      ensures Grown(old(Lands()), Lands())
      ensures unclaimed <= old(unclaimed)
      ensures grew ==> |unclaimed| < |old(unclaimed)|
      ensures !grew ==> unclaimed == old(unclaimed) && Lands() == old(Lands())
      ensures !grew ==> forall id :: id in states ==> !CanGrow(sites, edges, states[id].land, unclaimed)
    {
      ghost var lands, pool := Lands(), unclaimed;
      grew := false;
      var ids := states.Keys;
      while ids != {}
        invariant ids <= lands.Keys
        invariant Valid() && Partitioned() && ClaimedSince(pool0, lands0)
        invariant PassFrom(sites, edges, lands, pool, Lands(), unclaimed, ids, grew)
        decreases |ids|
      {
        var g;
        g, ids := Turn(pool0, lands0, lands, pool, ids, grew);
        grew := grew || g;
      }
      if !grew {
        forall id | id in states
          ensures !CanGrow(sites, edges, states[id].land, unclaimed)
        {
          assert states[id].land == lands[id];
        }
      }
    }

    /**
     * The next turn of a pass: some state among `ids`, those not yet offered
     * a growth step in this pass, is offered one; `rest` are the states left.
     */
    method Turn(ghost pool0: set<SiteId>, ghost lands0: map<int, set<SiteId>>,
                ghost lands: map<int, set<SiteId>>, ghost pool: set<SiteId>, ids: set<int>, ghost grew: bool)
      returns (g: bool, rest: set<int>)
      requires Valid() && Partitioned() && ClaimedSince(pool0, lands0)
      requires ids != {} && ids <= lands.Keys
      requires PassFrom(sites, edges, lands, pool, Lands(), unclaimed, ids, grew)
      modifies this`unclaimed, this`draws, owner, states.Values
      ensures Valid() && Partitioned() && ClaimedSince(pool0, lands0)
      ensures rest <= lands.Keys && |rest| < |ids|
      ensures PassFrom(sites, edges, lands, pool, Lands(), unclaimed, rest, grew || g)
    {
      var id := AnyMember(ids);
      ghost var cur, curPool := Lands(), unclaimed;
      ghost var claimed;
      g, claimed := Offer(id);
      if g {
        ClaimsStep(pool0, lands0, cur, curPool, id, claimed);
      }
      PassStep(sites, edges, lands, pool, cur, curPool, ids, grew, id, g, claimed, Lands(), unclaimed);
      rest := ids - {id};
    }

    /** One turn of a pass: `growState` on the state registered under `id`. */
    method Offer(id: int) returns (grew: bool, ghost claimed: SiteId)
      requires Valid() && Partitioned() && id in states
      modifies this`unclaimed, this`draws, owner, states.Values
      ensures Valid() && Partitioned()
      ensures unclaimed <= old(unclaimed)
      ensures grew ==> && claimed in old(unclaimed) && unclaimed == old(unclaimed) - {claimed} && |unclaimed| < |old(unclaimed)|
                       && Lands() == old(Lands())[id := old(Lands())[id] + {claimed}]
      ensures !grew ==> unclaimed == old(unclaimed) && Lands() == old(Lands())
      ensures !grew ==> !CanGrow(sites, edges, Lands()[id], unclaimed)
    {
      ghost var lands := Lands();
      assert states[id] in states.Values;
      grew, claimed := GrowState(states[id]);
      forall j | j in states && j != id
        ensures states[j].land == lands[j]
      {
        assert states[j] != states[id];
      }
      if grew {
        assert Lands() == lands[id := lands[id] + {claimed}];
      } else {
        assert Lands() == lands;
      }
    }

    /**
     * Seeds `count` states one at a time from all sites (claimed or not),
     * each grown at most `maxSize` times, stopping at its first failure.
     * State `i` holds the site drawn at `starts[i]` and otherwise only sites
     * that left the pool, and every site that left the pool is in one of
     * the new states.
     */
    method GenerateStates(count: int, maxSize: int) returns (ghost starts: seq<nat>)
      requires Valid() && (count > 0 ==> |sites| > 0)
      modifies this`states, this`unclaimed, this`draws, owner
      ensures Valid()
      ensures unclaimed <= old(unclaimed)
      ensures |starts| == if count > 0 then count else 0
      ensures forall i :: 0 <= i < count ==> i in states && 1 <= |states[i].land| <= 1 + (if maxSize > 0 then maxSize else 0)
      ensures forall i :: 0 <= i < count ==>
        && old(draws) <= starts[i] < draws
        && draw(starts[i]) % |sites| in states[i].land
        && states[i].land <= {draw(starts[i]) % |sites|} + old(unclaimed)
      ensures forall i :: 0 <= i < count && |states[i].land| <= maxSize ==> !CanGrow(sites, edges, states[i].land, unclaimed)
      ensures forall i :: 0 <= i < count ==> states[i].land !! unclaimed
      ensures forall t :: t in old(unclaimed) && t !in unclaimed ==> exists i :: 0 <= i < count && t in states[i].land
      ensures forall id :: id in states <==> id in old(states) || 0 <= id < count
      ensures forall id :: id in old(states) && !(0 <= id < count) ==> states[id] == old(states[id])
    {
      var i := 0;
      starts := [];
      ghost var lands: seq<set<SiteId>> := [];
      ghost var taker: map<SiteId, nat> := map[];
      while i < count
        invariant Valid() && 0 <= i && (i > 0 ==> i <= count) && |lands| == i
        invariant Listed(lands)
        invariant GeneratedLands(sites, edges, draw, maxSize, old(unclaimed), old(draws), unclaimed, draws, starts, lands, taker)
        invariant forall id :: id in states <==> id in old(states) || 0 <= id < i
        invariant forall id :: id in old(states) && !(0 <= id < i) ==> states[id] == old(states[id])
      {
        ghost var start, land;
        start, land, taker := GenerateNext(i, maxSize, old(unclaimed), old(draws), starts, lands, taker);
        starts, lands := starts + [start], lands + [land];
        i := i + 1;
      }
      GeneratedStates(maxSize, old(unclaimed), old(draws), starts, lands, taker);
    }

    /** States `0` to `|lands| - 1` exist and hold `lands`. */
    ghost predicate Listed(lands: seq<set<SiteId>>)
      reads this, states.Values
    {
      forall j :: 0 <= j < |lands| ==> j in states && states[j].land == lands[j]
    }

    /** `GenerateOne` for state `i`, as one more step of a generation: `start` is the draw of its seed and `land` its land. */
    method GenerateNext(i: nat, maxSize: int, ghost pool0: set<SiteId>, ghost draws0: nat, ghost starts: seq<nat>,
                        ghost lands: seq<set<SiteId>>, ghost taker: map<SiteId, nat>)
      returns (ghost start: nat, ghost land: set<SiteId>, ghost taker': map<SiteId, nat>)
      requires Valid() && |sites| > 0 && |lands| == i && Listed(lands)
      requires GeneratedLands(sites, edges, draw, maxSize, pool0, draws0, unclaimed, draws, starts, lands, taker)
      modifies this`states, this`unclaimed, this`draws, owner
      ensures Valid() && Listed(lands + [land])
      ensures i in states && states == old(states)[i := states[i]]
      ensures GeneratedLands(sites, edges, draw, maxSize, pool0, draws0, unclaimed, draws, starts + [start], lands + [land], taker')
    {
      start := draws;
      var steps := GenerateOne(i, maxSize);
      land := states[i].land;
      forall j | 0 <= j < i + 1
        ensures j in states && states[j].land == (lands + [land])[j]
      {
        if j < i {
          assert states[j] == old(states[j]);
        }
      }
      GeneratedLandsStep(sites, edges, draw, maxSize, pool0, draws0, old(unclaimed), start, starts, lands, taker,
                         unclaimed, draws, land);
      taker' := TakerStep(taker, old(unclaimed), unclaimed, i);
    }

    /** What a generation of `|lands|` states from the pool `pool0` and the draw `draws0` says about those states. */
    lemma GeneratedStates(maxSize: int, pool0: set<SiteId>, draws0: nat, starts: seq<nat>, lands: seq<set<SiteId>>,
                          taker: map<SiteId, nat>)
      requires Listed(lands)
      requires GeneratedLands(sites, edges, draw, maxSize, pool0, draws0, unclaimed, draws, starts, lands, taker)
      ensures unclaimed <= pool0 && |starts| == |lands| && (|lands| > 0 ==> |sites| > 0)
      ensures forall i :: 0 <= i < |lands| ==> i in states && 1 <= |states[i].land| <= 1 + (if maxSize > 0 then maxSize else 0)
      ensures forall i :: 0 <= i < |lands| ==>
        && draws0 <= starts[i] < draws
        && draw(starts[i]) % |sites| in states[i].land
        && states[i].land <= {draw(starts[i]) % |sites|} + pool0
      ensures forall i :: 0 <= i < |lands| && |states[i].land| <= maxSize ==> !CanGrow(sites, edges, states[i].land, unclaimed)
      ensures forall i :: 0 <= i < |lands| ==> states[i].land !! unclaimed
      ensures forall t :: t in pool0 && t !in unclaimed ==> exists i :: 0 <= i < |lands| && t in states[i].land
    {
      if |lands| > 0 {
        assert GeneratedLand(sites, edges, draw, maxSize, pool0, draws0, unclaimed, draws, starts[0], lands[0]);
      }
      forall i | 0 <= i < |lands|
        ensures i in states && states[i].land == lands[i]
        ensures draws0 <= starts[i] < draws && draw(starts[i]) % |sites| in states[i].land
        ensures states[i].land <= {draw(starts[i]) % |sites|} + pool0
        ensures GeneratedLand(sites, edges, draw, maxSize, pool0, draws0, unclaimed, draws, starts[i], states[i].land)
      {
        assert GeneratedLand(sites, edges, draw, maxSize, pool0, draws0, unclaimed, draws, starts[i], lands[i]);
      }
      forall t | t in pool0 && t !in unclaimed
        ensures exists i :: 0 <= i < |lands| && t in states[i].land
      {
        assert t in states[taker[t]].land;
      }
    }

    /**
     * One state of `generateStates`: a fresh state registered under `i`,
     * seeded with the site drawn from all sites and grown `steps` times, at
     * most `maxSize`, stopping at the first failure.
     */
    method GenerateOne(i: nat, maxSize: int) returns (ghost steps: nat)
      requires Valid() && |sites| > 0
      modifies this`states, this`unclaimed, this`draws, owner
      ensures Valid()
      ensures i in states && fresh(states[i]) && states == old(states)[i := states[i]]
      ensures var seed := draw(old(draws)) % |sites|;
        seed in states[i].land && seed !in unclaimed && states[i].land == {seed} + (old(unclaimed) - unclaimed)
      ensures unclaimed <= old(unclaimed)
      ensures steps <= (if maxSize > 0 then maxSize else 0) && |states[i].land| == 1 + steps
      ensures steps < maxSize ==> !CanGrow(sites, edges, states[i].land, unclaimed)
      ensures draws == old(draws) + 2 + steps
    {
      var seed := draw(draws) % |sites|;
      draws := draws + 1;
      unclaimed := unclaimed - {seed};
      var hue := draw(draws);
      draws := draws + 1;
      var s := new State(paint(Hsv(hue, 0.8, 0.7, 0.8)), GeneratedName(i), {seed}, sites);
      states := states[i := s];
      assert states[i] == s && s in states.Values;
      steps := GrowAtMost(s, maxSize);
      SeededAccount(seed, old(unclaimed), s.land, unclaimed, steps);
    }

    /**
     * Grows `s` up to `maxSize` times, stopping at the first failure:
     * `steps` growths happened, each moving one pool site into `s`.
     */
    method GrowAtMost(s: State, maxSize: int) returns (ghost steps: nat)
      requires Valid() && s in states.Values
      modifies this`unclaimed, this`draws, owner, s`land
      ensures Valid()
      ensures old(s.land) <= s.land && |s.land| <= |old(s.land)| + (if maxSize > 0 then maxSize else 0)
      ensures steps <= (if maxSize > 0 then maxSize else 0)
      ensures Accounted(old(s.land), old(unclaimed), s.land, unclaimed, steps)
      ensures steps < maxSize ==> !CanGrow(sites, edges, s.land, unclaimed)
      ensures draws == old(draws) + steps
    {
      var j := 0;
      while j < maxSize
        invariant Valid() && s in states.Values
        invariant j <= maxSize || j == 0
        invariant Accounted(old(s.land), old(unclaimed), s.land, unclaimed, j)
        invariant draws == old(draws) + j
      {
        ghost var land, pool := s.land, unclaimed;
        var grew, t := GrowState(s);
        if !grew {
          return j;
        }
        AccountedStep(old(s.land), old(unclaimed), land, pool, j, t);
        j := j + 1;
      }
      AccountedBound(old(s.land), old(unclaimed), s.land, unclaimed, j);
      return j;
    }
  }
}
