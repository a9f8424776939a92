/**
 * The first territory class (`State` over the first graph) and the border
 * drawing that goes with it: collecting the edges that separate a set of
 * tiles from the rest, and ordering them greedily into a chain whose
 * consecutive edges meet, whose starting points form the border ribbon.
 * The same collection and chaining also outline the selected tile and its
 * neighbours when the world is drawn.
 */
module LegacyState {
  import opened Wrappers
  import opened Common
  import opened LegacyGraph
  import Sorting

  /** A pointer to a tile's ordered edge: `&tiles[tile].edges[index]`. */
  datatype EdgeRef = EdgeRef(tile: TileId, index: nat)

  /** `r` points at an existing ordered edge whose shared edge is in the arena. */
  predicate RefValid(tiles: seq<Tile>, edges: seq<Edge>, r: EdgeRef)
  {
    r.tile < |tiles| && r.index < |tiles[r.tile].edges| && tiles[r.tile].edges[r.index].edge < |edges|
  }

  function RefV0(tiles: seq<Tile>, edges: seq<Edge>, r: EdgeRef): Vec2
    requires RefValid(tiles, edges, r)
  {
    V0(tiles[r.tile].edges[r.index], edges)
  }

  function RefV1(tiles: seq<Tile>, edges: seq<Edge>, r: EdgeRef): Vec2
    requires RefValid(tiles, edges, r)
  {
    V1(tiles[r.tile].edges[r.index], edges)
  }

  /** A neighbour slot is outside `land` when it is empty or names a tile not in `land`. */
  predicate Outside(n: Option<TileId>, land: set<TileId>)
  {
    n.None? || n.value !in land
  }

  /** The boundary of `land` among the tiles in `done`: the edges of those tiles whose neighbour is outside `land`. */
  ghost function BoundaryOf(tiles: seq<Tile>, land: set<TileId>, done: set<TileId>): set<EdgeRef>
  {
    set t, i | t in done && t < |tiles| && 0 <= i < |tiles[t].neighbours| && Outside(tiles[t].neighbours[i], land)
      :: EdgeRef(t, i)
  }

  /** The boundary of `land`: every edge of a tile of `land` whose neighbour is outside `land`. */
  ghost function Boundary(tiles: seq<Tile>, land: set<TileId>): set<EdgeRef>
  {
    BoundaryOf(tiles, land, land)
  }

  ghost predicate NoDuplicates<T>(s: seq<T>)
  {
    forall p, q :: 0 <= p < q < |s| ==> s[p] != s[q]
  }

  /**
   * Collects the boundary of `land` tile by tile, in the (unspecified) order
   * the tile set is visited: each boundary edge exactly once.
   */
  method CollectBoundary(tiles: seq<Tile>, edges: seq<Edge>, land: set<TileId>) returns (list: seq<EdgeRef>)
    requires WellFormed(tiles, edges)
    requires forall t :: t in land ==> t < |tiles|
    ensures NoDuplicates(list)
    ensures forall r :: r in list <==> r in Boundary(tiles, land)
    ensures forall r :: r in list ==> RefValid(tiles, edges, r)
  {
    list := [];
    var remaining := land;
    while remaining != {}
      invariant remaining <= land
      invariant NoDuplicates(list)
      invariant forall r :: r in list <==> r in BoundaryOf(tiles, land, land - remaining)
      invariant forall r :: r in list ==> RefValid(tiles, edges, r) && r.tile !in remaining
      decreases |remaining|
    {
      var t :| t in remaining;
      ghost var before := list;
      for i := 0 to |tiles[t].neighbours|
        invariant NoDuplicates(list)
        invariant forall r :: r in list <==> r in before || (r.tile == t && r.index < i && Outside(tiles[t].neighbours[r.index], land))
        invariant forall r :: r in list ==> RefValid(tiles, edges, r) && (r.tile == t || r.tile !in remaining)
      {
        if Outside(tiles[t].neighbours[i], land) {
          list := list + [EdgeRef(t, i)];
        }
      }
      remaining := remaining - {t};
    }
  }

  // ------------------------------------------------------------ chaining

  /** No edge after position `i` joins the end of `s[i]`. */
  ghost predicate NoJoinAfter<T>(s: seq<T>, i: int, joins: (T, T) -> bool)
    requires 0 <= i < |s|
  {
    forall j :: i < j < |s| ==> !joins(s[i], s[j])
  }

  /** Up to position `m`, each edge is followed by one that joins it whenever any later edge does. */
  ghost predicate ChainedUpTo<T>(s: seq<T>, m: int, joins: (T, T) -> bool)
  {
    forall i :: 0 <= i < m && i + 1 < |s| ==> joins(s[i], s[i + 1]) || NoJoinAfter(s, i, joins)
  }

  ghost predicate Chained<T>(s: seq<T>, joins: (T, T) -> bool)
  {
    ChainedUpTo(s, |s|, joins)
  }

  /**
   * The greedy chaining pass: for each position, the first later element
   * that joins it is swapped into the next position. The result is a
   * reordering in which an element is followed by one joining it whenever
   * any later element joins it.
   */
  method ChainEdges<T>(a: array<T>, joins: (T, T) -> bool)
    modifies a
    ensures multiset(a[..]) == old(multiset(a[..]))
    ensures Chained(a[..], joins)
  {
    for i := 0 to a.Length
      invariant multiset(a[..]) == old(multiset(a[..]))
      invariant ChainedUpTo(a[..], i, joins)
    {
      var j := i + 1;
      while j < a.Length
        invariant i + 1 <= j <= a.Length
        invariant forall k :: i < k < j ==> !joins(a[i], a[k])
      {
        if joins(a[i], a[j]) {
          ghost var before := a[..];
          Sorting.Swap(a, i + 1, j);
          assert forall k :: 0 <= k <= i ==> a[k] == before[k];
          assert joins(a[i], a[i + 1]);
          break;
        }
        j := j + 1;
      }
    }
  }

  /** `near(v0 of y, v1 of x)`: edge `y` starts where edge `x` ends. */
  function Joins(tiles: seq<Tile>, edges: seq<Edge>, near: (Vec2, Vec2) -> bool): (EdgeRef, EdgeRef) -> bool
  {
    (x: EdgeRef, y: EdgeRef) =>
      RefValid(tiles, edges, x) && RefValid(tiles, edges, y) && near(RefV0(tiles, edges, y), RefV1(tiles, edges, x))
  }

  /**
   * Orders a boundary list into a chain and turns it into the ribbon's
   * points: the starting point of each chained edge.
   */
  method ChainAndRibbon(tiles: seq<Tile>, edges: seq<Edge>, list: seq<EdgeRef>, near: (Vec2, Vec2) -> bool)
    returns (chain: seq<EdgeRef>, ribbon: seq<Vec2>)
    requires forall r :: r in list ==> RefValid(tiles, edges, r)
    ensures multiset(chain) == multiset(list)
    ensures Chained(chain, Joins(tiles, edges, near))
    ensures |ribbon| == |chain|
    ensures forall k :: 0 <= k < |chain| ==> RefValid(tiles, edges, chain[k]) && ribbon[k] == RefV0(tiles, edges, chain[k])
  {
    var a := new EdgeRef[|list|](i requires 0 <= i < |list| => list[i]);
    assert a[..] == list;
    ChainEdges(a, Joins(tiles, edges, near));
    chain := a[..];
    forall k | 0 <= k < |chain|
      ensures RefValid(tiles, edges, chain[k])
    {
      assert chain[k] in multiset(list);
    }
    ribbon := [];
    for k := 0 to |chain|
      invariant |ribbon| == k
      invariant forall i :: 0 <= i < k ==> ribbon[i] == RefV0(tiles, edges, chain[i])
    {
      ribbon := ribbon + [RefV0(tiles, edges, chain[k])];
    }
  }

  /**
   * The outline drawn around the selected tile: the selected tile and its
   * neighbours form a region whose boundary is collected, chained and turned
   * into ribbon points.
   */
  method SelectionBorder(tiles: seq<Tile>, edges: seq<Edge>, selected: TileId, near: (Vec2, Vec2) -> bool)
    returns (region: set<TileId>, chain: seq<EdgeRef>, ribbon: seq<Vec2>)
    requires WellFormed(tiles, edges) && selected < |tiles|
    requires forall k :: 0 <= k < |tiles[selected].neighbours| && tiles[selected].neighbours[k].Some? ==>
      tiles[selected].neighbours[k].value < |tiles|
    ensures region == {selected} + set k | 0 <= k < |tiles[selected].neighbours| && tiles[selected].neighbours[k].Some?
      :: tiles[selected].neighbours[k].value
    ensures NoDuplicates(chain) && forall r :: r in chain <==> r in Boundary(tiles, region)
    ensures Chained(chain, Joins(tiles, edges, near))
    ensures |ribbon| == |chain| && forall k :: 0 <= k < |chain| ==> RefValid(tiles, edges, chain[k]) && ribbon[k] == RefV0(tiles, edges, chain[k])
  {
    var ns := tiles[selected].neighbours;
    region := {selected};
    for k := 0 to |ns|
      invariant region == {selected} + set i | 0 <= i < k && ns[i].Some? :: ns[i].value
    {
      if ns[k].Some? {
        region := region + {ns[k].value};
      }
    }
    var list := CollectBoundary(tiles, edges, region);
    chain, ribbon := ChainAndRibbon(tiles, edges, list, near);
    MultisetPreservesDistinct(list, chain);
  }

  /** A reordering of a duplicate-free sequence is duplicate-free and has the same elements. */
  lemma MultisetPreservesDistinct<T>(s: seq<T>, t: seq<T>)
    requires multiset(s) == multiset(t) && NoDuplicates(s)
    ensures NoDuplicates(t) && forall x :: x in t <==> x in s
  {
    forall x | x in t
      ensures x in s
    {
      assert x in multiset(t);
    }
    forall x | x in s
      ensures x in t
    {
      assert x in multiset(s);
    }
    forall p, q | 0 <= p < q < |t|
      ensures t[p] != t[q]
    {
      if t[p] == t[q] {
        assert multiset(t)[t[p]] >= 2 by {
          assert t == t[..p] + [t[p]] + t[p + 1..q] + [t[q]] + t[q + 1..];
        }
        DistinctCountsOne(s, t[p]);
        assert false;
      }
    }
  }

  lemma {:induction false} DistinctCountsOne<T>(s: seq<T>, x: T)
    requires NoDuplicates(s)
    ensures multiset(s)[x] <= 1
  {
    if s != [] {
      var last := |s| - 1;
      assert s == s[..last] + [s[last]];
      DistinctCountsOne(s[..last], x);
      if s[last] == x {
        assert x !in s[..last];
      }
    }
  }

  /** A province of the hand-placed states of the first map: a set of grid cells. */
  datatype Province = Province(tiles: set<Vec2i>)

  /** The first map's state: a colour and its provinces by name. */
  class ProvinceState {
    const colour: Colour
    var land: map<string, Province>

    /** Copies every named tile set into a province of the same name. */
    constructor (colour: Colour, provinces: map<string, set<Vec2i>>)
      ensures this.colour == colour && land.Keys == provinces.Keys
      ensures forall name :: name in provinces ==> land[name] == Province(provinces[name])
    {
      this.colour := colour;
      land := map[];
      new;
      var remaining := provinces.Keys;
      while remaining != {}
        invariant remaining <= provinces.Keys
        invariant land.Keys == provinces.Keys - remaining
        invariant forall name :: name in land ==> land[name] == Province(provinces[name])
        decreases |remaining|
      {
        var name := AnyMember(remaining);
        land := land[name := Province(provinces[name])];
        remaining := remaining - {name};
      }
    }
  }

  /** A territory over the first graph: a colour, a name and a set of tiles. */
  class State {
    const colour: Colour
    const name: string
    var land: set<TileId>

    constructor (colour: Colour, name: string, land: set<TileId>)
      ensures this.colour == colour && this.name == name && this.land == land
    {
      this.colour := colour;
      this.name := name;
      this.land := land;
    }

    method AddLandTile(tile: TileId)
      modifies this`land
      ensures land == old(land) + {tile}
    {
      land := land + {tile};
    }

    method RemoveLandTile(tile: TileId)
      modifies this`land
      ensures land == old(land) - {tile}
    {
      land := land - {tile};
    }

    /** The boundary of the state's land, as a single list of edge pointers. */
    method UnorderedBoundary(tiles: seq<Tile>, edges: seq<Edge>) returns (exclaves: seq<seq<EdgeRef>>)
      requires WellFormed(tiles, edges)
      requires forall t :: t in land ==> t < |tiles|
      ensures |exclaves| == 1 && NoDuplicates(exclaves[0])
      ensures forall r :: r in exclaves[0] <==> r in Boundary(tiles, land)
      ensures forall r :: r in exclaves[0] ==> RefValid(tiles, edges, r)
    {
      var list := CollectBoundary(tiles, edges, land);
      exclaves := [list];
    }

    /** The border ribbons: each boundary list chained, with the starting point of each chained edge. */
    method BorderRibbons(tiles: seq<Tile>, edges: seq<Edge>, near: (Vec2, Vec2) -> bool)
      returns (chains: seq<seq<EdgeRef>>, ribbons: seq<seq<Vec2>>)
      requires WellFormed(tiles, edges)
      requires forall t :: t in land ==> t < |tiles|
      ensures |chains| == 1 && |ribbons| == 1
      ensures NoDuplicates(chains[0]) && forall r :: r in chains[0] <==> r in Boundary(tiles, land)
      ensures Chained(chains[0], Joins(tiles, edges, near))
      ensures |ribbons[0]| == |chains[0]|
      ensures forall k :: 0 <= k < |chains[0]| ==> RefValid(tiles, edges, chains[0][k]) && ribbons[0][k] == RefV0(tiles, edges, chains[0][k])
    {
      var exclaves := UnorderedBoundary(tiles, edges);
      var chain, ribbon := ChainAndRibbon(tiles, edges, exclaves[0], near);
      MultisetPreservesDistinct(exclaves[0], chain);
      chains := [chain];
      ribbons := [ribbon];
    }
  }
}
