/**
 * The first planar-graph builder (`VoronoiGraph`). The Voronoi generator
 * reports every cell's edges independently; the builder gives neighbouring
 * tiles a shared identity for their common edge:
 *   1. every cell edge becomes a raw edge owned by its tile (`d1` unset);
 *   2. raw edges are sorted by the x of their first point;
 *   3. each raw edge is merged with the FIRST later raw edge that matches it
 *      (same endpoints within epsilon, in either orientation); the merged edge
 *      keeps the first edge's endpoints and tile, and takes the second's tile
 *      as `d1`; a raw edge with no later match yields nothing;
 *   4. every merged edge is appended, unflipped, to both of its tiles' lists;
 *   5. per tile, edges are sorted by the angle of their midpoint around the
 *      tile centre, each gets its `flipped` flag, and the neighbour through
 *      each edge is whichever of `d0`/`d1` is not the tile.
 * Merged edges live in an arena (`edges`) and tiles refer to them by index.
 * "Within epsilon" is the relation `near`; `atan2` is an oracle.
 */
module LegacyGraph {
  import opened Wrappers
  import opened Common
  import Sorting

  type TileId = nat

  /** An edge between two points with the tiles on either side; `d1` is unset on a raw edge. */
  datatype Edge = Edge(v0: Vec2, v1: Vec2, d0: TileId, d1: Option<TileId>)

  /** A tile's view of a shared edge: its index in the edge arena and whether its endpoints are swapped. */
  datatype OrderedEdge = OrderedEdge(edge: nat, flipped: bool)

  /** A tile: its centre, its edges and, index for index, the tile across each edge. */
  datatype Tile = Tile(centre: Vec2, edges: seq<OrderedEdge>, neighbours: seq<Option<TileId>>)

  /** One cell edge reported by the Voronoi generator: it begins at (x, y) and ends at (z, w). */
  datatype CellEdge = CellEdge(x: real, y: real, z: real, w: real)

  /** One cell reported by the Voronoi generator. */
  datatype Cell = Cell(coord: Vec2, edges: seq<CellEdge>)

  // ---------------------------------------------------------------- endpoints

  /** `OrderedEdge::v0`: the shared edge's second point when flipped, its first otherwise. */
  function V0(o: OrderedEdge, edges: seq<Edge>): Vec2
    requires o.edge < |edges|
  {
    if o.flipped then edges[o.edge].v1 else edges[o.edge].v0
  }

  /** `OrderedEdge::v1`: the endpoint opposite to `V0`. */
  function V1(o: OrderedEdge, edges: seq<Edge>): Vec2
    requires o.edge < |edges|
  {
    if o.flipped then edges[o.edge].v0 else edges[o.edge].v1
  }

  /** The accessors return the shared edge's endpoints, swapped exactly when `flipped` is set. */
  lemma OrderedEdgeEndpoints(o: OrderedEdge, edges: seq<Edge>)
    requires o.edge < |edges|
    ensures !o.flipped ==> V0(o, edges) == edges[o.edge].v0 && V1(o, edges) == edges[o.edge].v1
    ensures o.flipped ==> V0(o, edges) == edges[o.edge].v1 && V1(o, edges) == edges[o.edge].v0
    ensures V0(o.(flipped := !o.flipped), edges) == V1(o, edges)
    ensures V1(o.(flipped := !o.flipped), edges) == V0(o, edges)
  {
  }

  // ---------------------------------------------------------- step 1: raw edges

  function RawEdge(t: TileId, e: CellEdge): Edge
  {
    Edge(Vec2(e.x, e.y), Vec2(e.z, e.w), t, None)
  }

  /** The raw edges of the first `n` cells, cell by cell, in reported order. */
  function RawEdges(cells: seq<Cell>, n: nat): (r: seq<Edge>)
    requires n <= |cells|
    ensures forall k :: 0 <= k < |r| ==> r[k].d0 < n && r[k].d1.None?
  {
    if n == 0 then []
    else
      RawEdges(cells, n - 1)
        + seq(|cells[n - 1].edges|, k requires 0 <= k < |cells[n - 1].edges| => RawEdge(n - 1, cells[n - 1].edges[k]))
  }

  /** Builds the raw edge list: one raw edge per cell edge, owned by its cell's tile. */
  method InitialEdges(cells: seq<Cell>) returns (raw: seq<Edge>)
    ensures raw == RawEdges(cells, |cells|)
    ensures forall k :: 0 <= k < |raw| ==> raw[k].d0 < |cells| && raw[k].d1.None?
  {
    raw := [];
    for t := 0 to |cells|
      invariant raw == RawEdges(cells, t)
    {
      ghost var before := raw;
      for k := 0 to |cells[t].edges|
        invariant raw == before + seq(k, i requires 0 <= i < k => RawEdge(t, cells[t].edges[i]))
      {
        raw := raw + [RawEdge(t, cells[t].edges[k])];
      }
    }
  }

  // ------------------------------------------------------------- step 3: merge

  /** `ShouldMergeEdges`: same endpoints within epsilon, in the same or the reverse orientation. */
  predicate ShouldMergeEdges(a: Edge, b: Edge, near: (Vec2, Vec2) -> bool)
  {
    (near(a.v0, b.v0) && near(a.v1, b.v1)) || (near(a.v0, b.v1) && near(a.v1, b.v0))
  }

  /** Matching does not depend on the orientation of the second edge, nor (for a symmetric `near`) on argument order. */
  lemma ShouldMergeOrientationFree(a: Edge, b: Edge, near: (Vec2, Vec2) -> bool)
    ensures ShouldMergeEdges(a, b.(v0 := b.v1, v1 := b.v0), near) == ShouldMergeEdges(a, b, near)
    ensures (forall p, q :: near(p, q) == near(q, p)) ==> ShouldMergeEdges(b, a, near) == ShouldMergeEdges(a, b, near)
  {
  }

  /** The first index `j' >= j` whose raw edge matches `raw[i]`, if any. */
  function FirstMatch(raw: seq<Edge>, i: nat, j: nat, near: (Vec2, Vec2) -> bool): (r: Option<nat>)
    requires i < |raw|
    decreases |raw| - j
    ensures r.Some? ==> j <= r.value < |raw| && ShouldMergeEdges(raw[i], raw[r.value], near)
    ensures r.Some? ==> forall k :: j <= k < r.value ==> !ShouldMergeEdges(raw[i], raw[k], near)
    ensures r.None? ==> forall k :: j <= k < |raw| ==> !ShouldMergeEdges(raw[i], raw[k], near)
  {
    if j >= |raw| then None
    else if ShouldMergeEdges(raw[i], raw[j], near) then Some(j)
    else FirstMatch(raw, i, j + 1, near)
  }

  /** What raw edge `i` contributes: merged with its first later match, or nothing. */
  function MergedAt(raw: seq<Edge>, i: nat, near: (Vec2, Vec2) -> bool): Option<Edge>
    requires i < |raw|
  {
    match FirstMatch(raw, i, i + 1, near)
    case Some(j) => Some(Edge(raw[i].v0, raw[i].v1, raw[i].d0, Some(raw[j].d0)))
    case None => None
  }

  /** The merged edges contributed by the first `n` raw edges, in order. */
  function MergePrefix(raw: seq<Edge>, n: nat, near: (Vec2, Vec2) -> bool): (r: seq<Edge>)
    requires n <= |raw|
    ensures |r| <= n
  {
    if n == 0 then []
    else
      MergePrefix(raw, n - 1, near)
        + (match MergedAt(raw, n - 1, near) case Some(e) => [e] case None => [])
  }

  /** The nested merge loop: for each raw edge, scan forward and merge with the first match, then stop scanning. */
  method MergeEdges(raw: seq<Edge>, near: (Vec2, Vec2) -> bool) returns (merged: seq<Edge>)
    ensures merged == MergePrefix(raw, |raw|, near)
  {
    merged := [];
    for i := 0 to |raw|
      invariant merged == MergePrefix(raw, i, near)
    {
      var j := i + 1;
      while j < |raw|
        invariant i + 1 <= j <= |raw|
        invariant FirstMatch(raw, i, i + 1, near) == FirstMatch(raw, i, j, near)
        invariant merged == MergePrefix(raw, i, near)
      {
        if ShouldMergeEdges(raw[i], raw[j], near) {
          merged := merged + [Edge(raw[i].v0, raw[i].v1, raw[i].d0, Some(raw[j].d0))];
          break;
        }
        j := j + 1;
      }
    }
  }

  /**
   * Every merged edge comes from some raw edge `i` that has a later match:
   * its endpoints and `d0` are `raw[i]`'s and its `d1` is the `d0` of the
   * first later match.
   */
  lemma {:induction false} MergedEdgeOrigin(raw: seq<Edge>, n: nat, near: (Vec2, Vec2) -> bool, k: nat)
    requires n <= |raw| && k < |MergePrefix(raw, n, near)|
    ensures exists i :: 0 <= i < n && MergedAt(raw, i, near) == Some(MergePrefix(raw, n, near)[k])
  {
    var prev := MergePrefix(raw, n - 1, near);
    if k < |prev| {
      MergedEdgeOrigin(raw, n - 1, near, k);
      var i :| 0 <= i < n - 1 && MergedAt(raw, i, near) == Some(prev[k]);
      assert MergePrefix(raw, n, near)[k] == prev[k];
    } else {
      assert MergedAt(raw, n - 1, near) == Some(MergePrefix(raw, n, near)[k]);
    }
  }

  /** Conversely, every raw edge with a later match contributes its merged edge. */
  lemma {:induction false} MergedEdgeIncluded(raw: seq<Edge>, n: nat, near: (Vec2, Vec2) -> bool, i: nat)
    requires i < n <= |raw| && MergedAt(raw, i, near).Some?
    ensures MergedAt(raw, i, near).value in MergePrefix(raw, n, near)
  {
    if i < n - 1 {
      MergedEdgeIncluded(raw, n - 1, near, i);
    }
  }

  /** Merged edges join two in-range tiles and always have `d1` set. */
  lemma {:induction false} MergedEdgesInRange(raw: seq<Edge>, n: nat, near: (Vec2, Vec2) -> bool, tileCount: nat)
    requires n <= |raw|
    requires forall k :: 0 <= k < |raw| ==> raw[k].d0 < tileCount
    ensures EdgesInRange(MergePrefix(raw, n, near), tileCount)
  {
    var m := MergePrefix(raw, n, near);
    forall k | 0 <= k < |m|
      ensures m[k].d0 < tileCount && m[k].d1.Some? && m[k].d1.value < tileCount
    {
      MergedEdgeOrigin(raw, n, near, k);
    }
  }

  // ---------------------------------------------------------- step 4: populate

  /** Every edge joins two tiles below `tileCount`. */
  ghost predicate EdgesInRange(edges: seq<Edge>, tileCount: nat)
  {
    forall k :: 0 <= k < |edges| ==> edges[k].d0 < tileCount && edges[k].d1.Some? && edges[k].d1.value < tileCount
  }

  /** The per-tile lists after the first `m` merged edges were appended to both of their tiles. */
  function Populated(tileCount: nat, edges: seq<Edge>, m: nat): (lists: seq<seq<OrderedEdge>>)
    requires m <= |edges| && EdgesInRange(edges, tileCount)
    ensures |lists| == tileCount
  {
    if m == 0 then seq(tileCount, _ => [])
    else
      var e := edges[m - 1];
      var l := Populated(tileCount, edges, m - 1);
      var l' := l[e.d0 := l[e.d0] + [OrderedEdge(m - 1, false)]];
      l'[e.d1.value := l'[e.d1.value] + [OrderedEdge(m - 1, false)]]
  }

  /** Appends every merged edge, unflipped, to the lists of both of its tiles. */
  method PopulateEdgeLists(tileCount: nat, edges: seq<Edge>) returns (lists: seq<seq<OrderedEdge>>)
    requires EdgesInRange(edges, tileCount)
    ensures lists == Populated(tileCount, edges, |edges|)
  {
    lists := seq(tileCount, _ => []);
    for k := 0 to |edges|
      invariant lists == Populated(tileCount, edges, k)
    {
      var e := edges[k];
      lists := lists[e.d0 := lists[e.d0] + [OrderedEdge(k, false)]];
      lists := lists[e.d1.value := lists[e.d1.value] + [OrderedEdge(k, false)]];
    }
  }

  /**
   * After populating, a tile's list holds exactly the (unflipped) edges it
   * is an endpoint of, each once per side it is on.
   */
  lemma {:induction false} PopulatedMembership(tileCount: nat, edges: seq<Edge>, m: nat, t: TileId)
    requires m <= |edges| && EdgesInRange(edges, tileCount) && t < tileCount
    ensures forall o :: o in Populated(tileCount, edges, m)[t] ==> !o.flipped && o.edge < m
    ensures forall k :: 0 <= k < m ==>
      (OrderedEdge(k, false) in Populated(tileCount, edges, m)[t] <==> edges[k].d0 == t || edges[k].d1 == Some(t))
  {
    if m > 0 {
      PopulatedMembership(tileCount, edges, m - 1, t);
    }
  }

  function SumLengths(lists: seq<seq<OrderedEdge>>): nat
  {
    if lists == [] then 0 else SumLengths(lists[..|lists| - 1]) + |lists[|lists| - 1]|
  }

  lemma {:induction false} SumLengthsAppendAt(lists: seq<seq<OrderedEdge>>, t: nat, o: OrderedEdge)
    requires t < |lists|
    ensures SumLengths(lists[t := lists[t] + [o]]) == SumLengths(lists) + 1
    decreases |lists|
  {
    var last := |lists| - 1;
    var upd := lists[t := lists[t] + [o]];
    if t == last {
      assert upd[..last] == lists[..last];
    } else {
      assert upd[..last] == lists[..last][t := lists[t] + [o]];
      SumLengthsAppendAt(lists[..last], t, o);
    }
  }

  lemma {:induction false} SumLengthsEmpty(n: nat)
    ensures SumLengths(seq(n, _ => [])) == 0
  {
    if n > 0 {
      var empty: seq<seq<OrderedEdge>> := seq(n, _ => []);
      assert empty[..n - 1] == seq(n - 1, _ => []);
      SumLengthsEmpty(n - 1);
    }
  }

  /** The lists hold two entries per merged edge in total: one on each side. */
  lemma {:induction false} PopulatedTotal(tileCount: nat, edges: seq<Edge>, m: nat)
    requires m <= |edges| && EdgesInRange(edges, tileCount)
    ensures SumLengths(Populated(tileCount, edges, m)) == 2 * m
  {
    if m == 0 {
      SumLengthsEmpty(tileCount);
    } else {
      var e := edges[m - 1];
      var l := Populated(tileCount, edges, m - 1);
      PopulatedTotal(tileCount, edges, m - 1);
      var l' := l[e.d0 := l[e.d0] + [OrderedEdge(m - 1, false)]];
      SumLengthsAppendAt(l, e.d0, OrderedEdge(m - 1, false));
      SumLengthsAppendAt(l', e.d1.value, OrderedEdge(m - 1, false));
    }
  }

  // --------------------------------------------- step 5: sort, flip, neighbours

  /** `Tile::edgeAngle`: the angle of the edge's midpoint seen from the tile centre. */
  function EdgeAngle(centre: Vec2, e: Edge, atan2: (real, real) -> real): real
  {
    var mid := Vec2((e.v0.x + e.v1.x) * 0.5, (e.v0.y + e.v1.y) * 0.5);
    atan2(mid.y - centre.y, mid.x - centre.x)
  }

  /** `Tile::vertexAngle`: the angle of a point seen from the tile centre. */
  function VertexAngle(centre: Vec2, v: Vec2, atan2: (real, real) -> real): real
  {
    atan2(v.y - centre.y, v.x - centre.x)
  }

  /** The flip decision: the angular difference from `v0` to `v1` is negative or more than a half turn. */
  predicate NeedsFlip(centre: Vec2, e: Edge, atan2: (real, real) -> real)
  {
    var difference := VertexAngle(centre, e.v1, atan2) - VertexAngle(centre, e.v0, atan2);
    difference < 0.0 || difference > 3.14159
  }

  /** The neighbour across `e` as seen from tile `t`: whichever of `d0`/`d1` is not `t`. */
  function OtherTile(e: Edge, t: TileId): Option<TileId>
  {
    if e.d0 == t then e.d1 else Some(e.d0)
  }

  /** The sort key of a tile's edges. */
  function AngleKey(centre: Vec2, edges: seq<Edge>, atan2: (real, real) -> real): OrderedEdge -> real
  {
    (o: OrderedEdge) => if o.edge < |edges| then EdgeAngle(centre, edges[o.edge], atan2) else 0.0
  }

  function Unflipped(s: seq<OrderedEdge>): (r: seq<OrderedEdge>)
    ensures |r| == |s| && forall k :: 0 <= k < |s| ==> r[k] == s[k].(flipped := false)
  {
    seq(|s|, k requires 0 <= k < |s| => s[k].(flipped := false))
  }

  /** Sets each edge's `flipped` flag from the angles of its endpoints around the tile centre. */
  method SetFlips(a: array<OrderedEdge>, centre: Vec2, edges: seq<Edge>, atan2: (real, real) -> real)
    requires forall i :: 0 <= i < a.Length ==> a[i].edge < |edges|
    modifies a
    ensures forall i :: 0 <= i < a.Length ==>
      a[i] == old(a[i]).(flipped := NeedsFlip(centre, edges[old(a[i]).edge], atan2))
  {
    for k := 0 to a.Length
      invariant forall i :: 0 <= i < k ==> a[i] == old(a[i]).(flipped := NeedsFlip(centre, edges[old(a[i]).edge], atan2))
      invariant forall i :: k <= i < a.Length ==> a[i] == old(a[i])
    {
      var e := edges[a[k].edge];
      a[k] := a[k].(flipped := NeedsFlip(centre, e, atan2));
    }
  }

  /** The neighbour list of tile `t`: the tile across each of its edges, in order. */
  method NeighboursOf(t: TileId, tileEdges: seq<OrderedEdge>, edges: seq<Edge>) returns (neighbours: seq<Option<TileId>>)
    requires forall k :: 0 <= k < |tileEdges| ==> tileEdges[k].edge < |edges|
    ensures |neighbours| == |tileEdges|
    ensures forall k :: 0 <= k < |tileEdges| ==> neighbours[k] == OtherTile(edges[tileEdges[k].edge], t)
  {
    neighbours := [];
    for k := 0 to |tileEdges|
      invariant |neighbours| == k
      invariant forall i :: 0 <= i < k ==> neighbours[i] == OtherTile(edges[tileEdges[i].edge], t)
    {
      neighbours := neighbours + [OtherTile(edges[tileEdges[k].edge], t)];
    }
  }

  /**
   * Finishes tile `t`: its edges are a reordering of `list` sorted by angle,
   * each flipped exactly when `NeedsFlip`, and `neighbours[k]` is the tile
   * across `edges[k]`.
   */
  method ResolveTile(t: TileId, centre: Vec2, list: seq<OrderedEdge>, edges: seq<Edge>, atan2: (real, real) -> real)
    returns (tile: Tile)
    requires forall o :: o in list ==> o.edge < |edges| && !o.flipped
    ensures tile.centre == centre
    ensures multiset(Unflipped(tile.edges)) == multiset(list)
    ensures Sorting.SortedBy(Unflipped(tile.edges), AngleKey(centre, edges, atan2))
    ensures forall k :: 0 <= k < |tile.edges| ==>
      tile.edges[k].edge < |edges| && tile.edges[k].flipped == NeedsFlip(centre, edges[tile.edges[k].edge], atan2)
    ensures |tile.neighbours| == |tile.edges|
    ensures forall k :: 0 <= k < |tile.edges| ==> tile.neighbours[k] == OtherTile(edges[tile.edges[k].edge], t)
  {
    var a := new OrderedEdge[|list|](i requires 0 <= i < |list| => list[i]);
    assert a[..] == list;
    Sorting.SortByKey(a, AngleKey(centre, edges, atan2));
    ghost var sorted := a[..];
    forall k | 0 <= k < |sorted|
      ensures sorted[k].edge < |edges| && !sorted[k].flipped
    {
      assert sorted[k] in multiset(list);
    }
    SetFlips(a, centre, edges, atan2);
    assert Unflipped(a[..]) == sorted;
    var neighbours := NeighboursOf(t, a[..], edges);
    tile := Tile(centre, a[..], neighbours);
  }

  // ----------------------------------------------------------- whole graph

  /** Every tile's edge indices are in the arena and its neighbour list is aligned with its edge list. */
  ghost predicate WellFormed(tiles: seq<Tile>, edges: seq<Edge>)
  {
    forall t :: 0 <= t < |tiles| ==>
      |tiles[t].neighbours| == |tiles[t].edges| &&
      forall k :: 0 <= k < |tiles[t].edges| ==> tiles[t].edges[k].edge < |edges|
  }

  /** Tile `t` was resolved from `list`, the populated list of tile `t`. */
  ghost predicate ResolvedFrom(tile: Tile, t: TileId, list: seq<OrderedEdge>, edges: seq<Edge>)
  {
    && multiset(Unflipped(tile.edges)) == multiset(list)
    && |tile.neighbours| == |tile.edges|
    && (forall k :: 0 <= k < |tile.edges| ==>
          tile.edges[k].edge < |edges| && tile.neighbours[k] == OtherTile(edges[tile.edges[k].edge], t))
  }

  /** The tile's edges are sorted by angle around its centre and each is flipped exactly when `NeedsFlip`. */
  ghost predicate Oriented(tile: Tile, edges: seq<Edge>, atan2: (real, real) -> real)
  {
    && Sorting.SortedBy(Unflipped(tile.edges), AngleKey(tile.centre, edges, atan2))
    && (forall k :: 0 <= k < |tile.edges| ==>
          tile.edges[k].edge < |edges| && tile.edges[k].flipped == NeedsFlip(tile.centre, edges[tile.edges[k].edge], atan2))
  }

  /**
   * Neighbour symmetry: when tile `a` sees tile `b` across a shared edge,
   * `b` lists the same shared edge and sees `a` across it.
   */
  ghost predicate NeighbourSymmetric(tiles: seq<Tile>, edges: seq<Edge>)
    requires WellFormed(tiles, edges)
  {
    forall a, k :: 0 <= a < |tiles| && 0 <= k < |tiles[a].edges| && tiles[a].neighbours[k].Some? ==>
      var b := tiles[a].neighbours[k].value;
      b < |tiles| &&
      exists k' :: 0 <= k' < |tiles[b].edges| && tiles[b].edges[k'].edge == tiles[a].edges[k].edge
                   && tiles[b].neighbours[k'] == Some(a)
  }

  lemma {:induction false} ResolvedMember(tile: Tile, t: TileId, list: seq<OrderedEdge>, edges: seq<Edge>, o: OrderedEdge)
    requires ResolvedFrom(tile, t, list, edges) && o in list
    ensures exists k :: 0 <= k < |tile.edges| && tile.edges[k].edge == o.edge
  {
    assert o in multiset(Unflipped(tile.edges));
    var k :| 0 <= k < |tile.edges| && Unflipped(tile.edges)[k] == o;
  }

  /** Tiles resolved from the populated lists are neighbour-symmetric. */
  lemma NeighbourSymmetry(tiles: seq<Tile>, edges: seq<Edge>)
    requires EdgesInRange(edges, |tiles|)
    requires forall t :: 0 <= t < |tiles| ==> ResolvedFrom(tiles[t], t, Populated(|tiles|, edges, |edges|)[t], edges)
    ensures WellFormed(tiles, edges)
    ensures NeighbourSymmetric(tiles, edges)
  {
    var lists := Populated(|tiles|, edges, |edges|);
    forall a, k | 0 <= a < |tiles| && 0 <= k < |tiles[a].edges| && tiles[a].neighbours[k].Some?
      ensures var b := tiles[a].neighbours[k].value;
        b < |tiles| &&
        exists k' :: 0 <= k' < |tiles[b].edges| && tiles[b].edges[k'].edge == tiles[a].edges[k].edge
                     && tiles[b].neighbours[k'] == Some(a)
    {
      var id := tiles[a].edges[k].edge;
      var e := edges[id];
      var b := tiles[a].neighbours[k].value;
      PopulatedMembership(|tiles|, edges, |edges|, a);
      assert Unflipped(tiles[a].edges)[k] in multiset(lists[a]);
      assert OrderedEdge(id, false) in lists[a];
      assert e.d0 == a || e.d1 == Some(a);
      assert b == e.d0 || Some(b) == e.d1;
      PopulatedMembership(|tiles|, edges, |edges|, b);
      assert OrderedEdge(id, false) in lists[b];
      ResolvedMember(tiles[b], b, lists[b], edges, OrderedEdge(id, false));
      var k' :| 0 <= k' < |tiles[b].edges| && tiles[b].edges[k'].edge == id;
      assert tiles[b].neighbours[k'] == OtherTile(e, b) == Some(a);
    }
  }

  /** The raw edges of all cells, sorted by the `x` of their first endpoint. */
  method SortedRawEdges(cells: seq<Cell>) returns (sorted: seq<Edge>)
    ensures multiset(sorted) == multiset(RawEdges(cells, |cells|))
    ensures Sorting.SortedBy(sorted, (e: Edge) => e.v0.x)
    ensures forall k :: 0 <= k < |sorted| ==> sorted[k].d0 < |cells| && sorted[k].d1.None?
  {
    var raw := InitialEdges(cells);
    var a := new Edge[|raw|](i requires 0 <= i < |raw| => raw[i]);
    assert a[..] == raw;
    Sorting.SortByKey(a, (e: Edge) => e.v0.x);
    sorted := a[..];
    forall k | 0 <= k < |sorted|
      ensures sorted[k].d0 < |cells| && sorted[k].d1.None?
    {
      assert sorted[k] in multiset(raw);
    }
  }

  /** `tile` is tile `t` resolved from `list`, centred on `cell`. */
  ghost predicate ResolvedTile(tile: Tile, t: TileId, cell: Cell, list: seq<OrderedEdge>, edges: seq<Edge>, atan2: (real, real) -> real)
  {
    tile.centre == cell.coord && ResolvedFrom(tile, t, list, edges) && Oriented(tile, edges, atan2)
  }

  /** Resolves every tile from its populated list, in tile order. */
  method ResolveTiles(cells: seq<Cell>, lists: seq<seq<OrderedEdge>>, edges: seq<Edge>, atan2: (real, real) -> real)
    returns (built: seq<Tile>)
    requires |lists| == |cells|
    requires forall t, o :: 0 <= t < |lists| && o in lists[t] ==> o.edge < |edges| && !o.flipped
    ensures |built| == |cells|
    ensures forall t :: 0 <= t < |cells| ==> built[t].centre == cells[t].coord
    ensures forall t :: 0 <= t < |cells| ==> ResolvedFrom(built[t], t, lists[t], edges)
    ensures forall t :: 0 <= t < |cells| ==> Oriented(built[t], edges, atan2)
  {
    built := [];
    for t := 0 to |cells|
      invariant |built| == t
      invariant forall s :: 0 <= s < t ==> ResolvedTile(built[s], s, cells[s], lists[s], edges, atan2)
    {
      var tile := ResolveTile(t, cells[t].coord, lists[t], edges, atan2);
      built := built + [tile];
    }
    forall s | 0 <= s < |cells|
      ensures built[s].centre == cells[s].coord && ResolvedFrom(built[s], s, lists[s], edges) && Oriented(built[s], edges, atan2)
    {
      assert ResolvedTile(built[s], s, cells[s], lists[s], edges, atan2);
    }
  }

  /** The built graph: tiles and the arena of merged (shared) edges they refer to. */
  class VoronoiGraph {
    var tiles: seq<Tile>
    var edges: seq<Edge>
    /** The raw edges of all cells in the sorted order the merge consumed them. */
    ghost var sortedRaw: seq<Edge>

    /**
     * Builds the graph from the generator's cells; `near` is the epsilon
     * test, `atan2` the angle oracle. The arena is the merge of the sorted
     * raw edges, and every tile is resolved from its populated list.
     */
    constructor (cells: seq<Cell>, near: (Vec2, Vec2) -> bool, atan2: (real, real) -> real)
      ensures multiset(sortedRaw) == multiset(RawEdges(cells, |cells|))
      ensures Sorting.SortedBy(sortedRaw, (e: Edge) => e.v0.x)
      ensures edges == MergePrefix(sortedRaw, |sortedRaw|, near)
      ensures forall t :: 0 <= t < |tiles| ==> Oriented(tiles[t], edges, atan2)
      ensures |tiles| == |cells|
      ensures forall t :: 0 <= t < |cells| ==> tiles[t].centre == cells[t].coord
      ensures EdgesInRange(edges, |tiles|)
      ensures forall t :: 0 <= t < |tiles| ==> ResolvedFrom(tiles[t], t, Populated(|tiles|, edges, |edges|)[t], edges)
      ensures WellFormed(tiles, edges) && NeighbourSymmetric(tiles, edges)
    {
      var sorted := SortedRawEdges(cells);
      var merged := MergeEdges(sorted, near);
      MergedEdgesInRange(sorted, |sorted|, near, |cells|);
      var lists := PopulateEdgeLists(|cells|, merged);
      forall t | 0 <= t < |lists|
        ensures forall o: OrderedEdge :: o in lists[t] ==> o.edge < |merged| && !o.flipped
      {
        PopulatedMembership(|cells|, merged, |merged|, t);
      }
      var built := ResolveTiles(cells, lists, merged, atan2);
      tiles := built;
      edges := merged;
      sortedRaw := sorted;
      NeighbourSymmetry(built, merged);
    }
  }
}
