/**
 * The newer map: a Voronoi diagram produced by an external generator is
 * converted into sites that share edges. Each diagram edge becomes one shared
 * `Edge` (both of its sites as `d0`/`d1`); each site gets one `GraphEdge` per
 * edge of its cell, chained in order through `next`, with the neighbouring
 * site (if any) alongside. A site with an edge on the map border (no
 * neighbour) is not usable.
 *
 * Sites and shared edges live in arenas; pointers become indices. The
 * generator's output is given as the `Diagram` records below.
 */
module Map {
  import opened Wrappers
  import opened Common

  type SiteId = nat

  /** A shared edge: its polyline and the sites on either side. */
  datatype Edge = Edge(points: seq<Vec2>, d0: SiteId, d1: SiteId)
  {
    /** The first point of the polyline. */
    function V0(): Vec2
      requires |points| > 0
    {
      points[0]
    }

    /** The last point of the polyline. */
    function V1(): Vec2
      requires |points| > 0
    {
      points[|points| - 1]
    }
  }

  /** A site's own view of one of its edges. */
  datatype GraphEdge = GraphEdge(edge: nat, points: seq<Vec2>, next: Option<nat>, angle: real, neighbour: Option<SiteId>)
  {
    function V0(): Vec2
      requires |points| > 0
    {
      points[0]
    }

    function V1(): Vec2
      requires |points| > 0
    {
      points[|points| - 1]
    }
  }

  /** A site: its centre, its edges in cell order, and whether it lies wholly inside the map. */
  datatype Site = Site(centre: Vec2, edges: seq<GraphEdge>, usable: bool)

  /** A generator edge: its two points and the indices of its two sites. */
  datatype DiagramEdge = DiagramEdge(pos0: Vec2, pos1: Vec2, site0: nat, site1: nat)

  /** A generator half-edge of one site: its edge, its points, its angle and the neighbouring site's index, if any. */
  datatype DiagramGraphEdge = DiagramGraphEdge(edge: nat, pos0: Vec2, pos1: Vec2, angle: real, neighbor: Option<nat>)

  datatype DiagramSite = DiagramSite(p: Vec2, edges: seq<DiagramGraphEdge>)

  /** The generator's output: its sites and its edge list. */
  datatype Diagram = Diagram(sites: seq<DiagramSite>, edges: seq<DiagramEdge>)

  /** Every index in the diagram names an existing site or edge. */
  predicate DiagramWellFormed(d: Diagram)
  {
    && (forall k :: 0 <= k < |d.edges| ==> d.edges[k].site0 < |d.sites| && d.edges[k].site1 < |d.sites|)
    && (forall i, k :: 0 <= i < |d.sites| && 0 <= k < |d.sites[i].edges| ==>
          d.sites[i].edges[k].edge < |d.edges| &&
          (d.sites[i].edges[k].neighbor.Some? ==> d.sites[i].edges[k].neighbor.value < |d.sites|))
  }

  /** One shared edge per diagram edge, in list order. */
  method BuildEdges(d: Diagram) returns (edges: seq<Edge>)
    ensures |edges| == |d.edges|
    ensures forall k :: 0 <= k < |d.edges| ==>
      edges[k] == Edge([d.edges[k].pos0, d.edges[k].pos1], d.edges[k].site0, d.edges[k].site1)
  {
    edges := [];
    for k := 0 to |d.edges|
      invariant |edges| == k
      invariant forall j :: 0 <= j < k ==> edges[j] == Edge([d.edges[j].pos0, d.edges[j].pos1], d.edges[j].site0, d.edges[j].site1)
    {
      var e := d.edges[k];
      edges := edges + [Edge([e.pos0, e.pos1], e.site0, e.site1)];
    }
  }

  /** A shared edge built from a diagram edge starts at its first point and ends at its second. */
  lemma BuiltEdgeEndpoints(e: DiagramEdge)
    ensures Edge([e.pos0, e.pos1], e.site0, e.site1).V0() == e.pos0
    ensures Edge([e.pos0, e.pos1], e.site0, e.site1).V1() == e.pos1
  {
  }

  // ------------------------------------------------------------- next links

  const SIZE_MAX: nat := 0xFFFF_FFFF_FFFF_FFFF

  /** `edges.size() - 1` in 64-bit unsigned arithmetic: the loop bound of the linking loop as written. */
  function LinkBoundAsWritten(n: nat): (bound: nat)
    requires n <= SIZE_MAX
    ensures n >= 1 ==> bound == n - 1
    ensures n == 0 ==> bound == SIZE_MAX
  {
    (n + SIZE_MAX) % (SIZE_MAX + 1)
  }

  /**
   * For a site without edges, the bound as written is not 0 but the largest
   * 64-bit value, so the first iteration runs and writes `edges[0]` and
   * reads `edges[1]` of an empty list.
   */
  lemma EmptySiteLinkOutOfRange()
    ensures 0 < LinkBoundAsWritten(0)
  {
  }

  /** Every edge but the last points to its successor; the last keeps its (null) link. */
  ghost predicate Linked(es: seq<GraphEdge>)
  {
    forall k :: 0 <= k < |es| - 1 ==> es[k].next == Some(k + 1)
  }

  /**
   * Links each edge to the next one, for every edge but the last; a site
   * with no edges is left alone. Nothing but `next` changes.
   */
  method LinkNext(es: seq<GraphEdge>) returns (linked: seq<GraphEdge>)
    ensures |linked| == |es| && Linked(linked)
    ensures forall k :: 0 <= k < |es| ==> linked[k] == es[k].(next := if k + 1 < |es| then Some(k + 1) else es[k].next)
  {
    linked := es;
    var k := 0;
    while k < |es| - 1
      invariant 0 <= k && (k <= |es| - 1 || |es| == 0)
      invariant |linked| == |es|
      invariant forall j :: 0 <= j < |es| ==> linked[j] == es[j].(next := if j < k then Some(j + 1) else es[j].next)
    {
      linked := linked[k := linked[k].(next := Some(k + 1))];
      k := k + 1;
    }
  }

  // ------------------------------------------------------------- sites

  /** The graph edge a diagram half-edge becomes, before linking. */
  function ToGraphEdge(e: DiagramGraphEdge): GraphEdge
  {
    GraphEdge(e.edge, [e.pos0, e.pos1], None, e.angle, e.neighbor)
  }

  /**
   * Converts one diagram site: one graph edge per half-edge, in order,
   * linked through `next`; the site is usable exactly when every edge has a
   * neighbour.
   */
  method ConvertSite(ds: DiagramSite) returns (site: Site)
    ensures site.centre == ds.p
    ensures |site.edges| == |ds.edges| && Linked(site.edges)
    ensures forall k :: 0 <= k < |ds.edges| ==>
      site.edges[k] == ToGraphEdge(ds.edges[k]).(next := if k + 1 < |ds.edges| then Some(k + 1) else None)
    ensures site.usable <==> forall k :: 0 <= k < |ds.edges| ==> ds.edges[k].neighbor.Some?
  {
    var usable := true;
    var es: seq<GraphEdge> := [];
    for k := 0 to |ds.edges|
      invariant |es| == k
      invariant forall j :: 0 <= j < k ==> es[j] == ToGraphEdge(ds.edges[j])
      invariant usable <==> forall j :: 0 <= j < k ==> ds.edges[j].neighbor.Some?
    {
      var e := ds.edges[k];
      var neighbour: Option<SiteId>;
      if e.neighbor.Some? {
        neighbour := Some(e.neighbor.value);
      } else {
        // An edge with no neighbour lies on the map border.
        neighbour := None;
        usable := false;
      }
      es := es + [GraphEdge(e.edge, [e.pos0, e.pos1], None, e.angle, neighbour)];
    }
    var linked := LinkNext(es);
    site := Site(ds.p, linked, usable);
  }

  /** `site` is the conversion of `ds`, as `ConvertSite` states it. */
  ghost predicate ConvertedFrom(site: Site, ds: DiagramSite)
  {
    && site.centre == ds.p
    && |site.edges| == |ds.edges| && Linked(site.edges)
    && (forall k :: 0 <= k < |ds.edges| ==>
          site.edges[k] == ToGraphEdge(ds.edges[k]).(next := if k + 1 < |ds.edges| then Some(k + 1) else None))
    && (site.usable <==> forall k :: 0 <= k < |ds.edges| ==> ds.edges[k].neighbor.Some?)
  }

  /** A pointer to a site's graph edge: `&sites[site].edges[index]`. */
  datatype EdgeRef = EdgeRef(site: SiteId, index: nat)

  /** `n` is empty or names a site outside `members`. */
  predicate Outside(n: Option<SiteId>, members: set<SiteId>)
  {
    n.None? || n.value !in members
  }

  /** The edges of the sites of `done` (a part of `members`) whose neighbour is outside `members`. */
  ghost function BoundaryOf(sites: seq<Site>, members: set<SiteId>, done: set<SiteId>): set<EdgeRef>
  {
    set s, i | s in done && s < |sites| && 0 <= i < |sites[s].edges| && Outside(sites[s].edges[i].neighbour, members)
      :: EdgeRef(s, i)
  }

  /** The boundary of a set of sites: every edge of a member whose neighbour is outside the set, or absent. */
  ghost function Boundary(sites: seq<Site>, members: set<SiteId>): set<EdgeRef>
  {
    BoundaryOf(sites, members, members)
  }

  ghost predicate NoDuplicates<T>(s: seq<T>)
  {
    forall p, q :: 0 <= p < q < |s| ==> s[p] != s[q]
  }

  /**
   * `Map::unorderedBoundaries`: a single list holding each boundary edge of
   * `members` exactly once, collected in the (unspecified) order of the set.
   */
  method UnorderedBoundaries(sites: seq<Site>, members: set<SiteId>) returns (exclaves: seq<seq<EdgeRef>>)
    requires forall s :: s in members ==> s < |sites|
    ensures |exclaves| == 1 && NoDuplicates(exclaves[0])
    ensures forall r :: r in exclaves[0] <==> r in Boundary(sites, members)
    ensures forall r :: r in exclaves[0] ==> r.site < |sites| && r.index < |sites[r.site].edges|
  {
    var list: seq<EdgeRef> := [];
    var remaining := members;
    while remaining != {}
      invariant remaining <= members
      invariant NoDuplicates(list)
      invariant forall r :: r in list <==> r in BoundaryOf(sites, members, members - remaining)
      invariant forall r :: r in list ==> r.site < |sites| && r.index < |sites[r.site].edges| && r.site !in remaining
      decreases |remaining|
    {
      var s :| s in remaining;
      ghost var before := list;
      for i := 0 to |sites[s].edges|
        invariant NoDuplicates(list)
        invariant forall r :: r in list <==> r in before || (r.site == s && r.index < i && Outside(sites[s].edges[r.index].neighbour, members))
        invariant forall r :: r in list ==> r.site < |sites| && r.index < |sites[r.site].edges| && (r.site == s || r.site !in remaining)
      {
        if Outside(sites[s].edges[i].neighbour, members) {
          list := list + [EdgeRef(s, i)];
        }
      }
      remaining := remaining - {s};
    }
    exclaves := [list];
  }

  /** The map: the converted sites and the arena of shared edges. */
  class Map {
    const sites: seq<Site>
    const edges: seq<Edge>

    /** Converts the generator's diagram. */
    constructor (diagram: Diagram)
      requires DiagramWellFormed(diagram)
      ensures |sites| == |diagram.sites| && |edges| == |diagram.edges|
      ensures forall k :: 0 <= k < |edges| ==>
        edges[k] == Edge([diagram.edges[k].pos0, diagram.edges[k].pos1], diagram.edges[k].site0, diagram.edges[k].site1)
      ensures forall i :: 0 <= i < |sites| ==> sites[i].centre == diagram.sites[i].p && Linked(sites[i].edges)
      ensures forall i :: 0 <= i < |sites| ==> |sites[i].edges| == |diagram.sites[i].edges|
      ensures forall i, k :: 0 <= i < |sites| && 0 <= k < |sites[i].edges| ==>
        sites[i].edges[k].edge == diagram.sites[i].edges[k].edge &&
        sites[i].edges[k].neighbour == diagram.sites[i].edges[k].neighbor
      ensures forall i :: 0 <= i < |sites| ==>
        (sites[i].usable <==> forall k :: 0 <= k < |sites[i].edges| ==> sites[i].edges[k].neighbour.Some?)
      ensures forall i :: 0 <= i < |sites| ==> ConvertedFrom(sites[i], diagram.sites[i])
      ensures Indexed(sites, edges)
    {
      var es := BuildEdges(diagram);
      var ss: seq<Site> := [];
      for i := 0 to |diagram.sites|
        invariant |ss| == i
        invariant forall j :: 0 <= j < i ==> ss[j].centre == diagram.sites[j].p && Linked(ss[j].edges)
        invariant forall j :: 0 <= j < i ==> |ss[j].edges| == |diagram.sites[j].edges|
        invariant forall j, k :: 0 <= j < i && 0 <= k < |ss[j].edges| ==>
          ss[j].edges[k].edge == diagram.sites[j].edges[k].edge &&
          ss[j].edges[k].neighbour == diagram.sites[j].edges[k].neighbor
        invariant forall j :: 0 <= j < i ==>
          (ss[j].usable <==> forall k :: 0 <= k < |ss[j].edges| ==> ss[j].edges[k].neighbour.Some?)
        invariant forall j :: 0 <= j < i ==> ConvertedFrom(ss[j], diagram.sites[j])
      {
        var site := ConvertSite(diagram.sites[i]);
        ss := ss + [site];
      }
      sites := ss;
      edges := es;
    }
  }

  /** Every edge, neighbour and site index in the map names something that exists. */
  ghost predicate Indexed(sites: seq<Site>, edges: seq<Edge>)
  {
    && (forall k :: 0 <= k < |edges| ==> edges[k].d0 < |sites| && edges[k].d1 < |sites| && |edges[k].points| > 0)
    && (forall i, k :: 0 <= i < |sites| && 0 <= k < |sites[i].edges| ==>
          sites[i].edges[k].edge < |edges| &&
          (sites[i].edges[k].neighbour.Some? ==> sites[i].edges[k].neighbour.value < |sites|))
  }
}
