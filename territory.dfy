/**
 * The newer territory class (`State` over the newer map). A state owns a set
 * of sites; each site records its owning state (the `owning_state` column of
 * the sites, kept here as the array `owner`). Adding a site takes it away from
 * its previous owner first, so the land sets and the back-pointers agree.
 */
module Territory {
  import opened Wrappers
  import opened Common
  import Map

  type SiteId = nat

  // ---------------------------------------------------------------- centre

  ghost function Pick(s: set<SiteId>): SiteId
    requires s != {}
  {
    var x :| x in s; x
  }

  /** The sum of the centres of the sites in `land`. */
  ghost function CentreSum(sites: seq<Map.Site>, land: set<SiteId>): Vec2
    requires forall t :: t in land ==> t < |sites|
    decreases land
  {
    if land == {} then Vec2(0.0, 0.0)
    else
      var t := Pick(land);
      sites[t].centre.Plus(CentreSum(sites, land - {t}))
  }

  /** The sum does not depend on the order in which sites are added: any member can be taken out first. */
  lemma {:induction false} CentreSumRemove(sites: seq<Map.Site>, land: set<SiteId>, x: SiteId)
    requires forall t :: t in land ==> t < |sites|
    requires x in land
    ensures CentreSum(sites, land) == sites[x].centre.Plus(CentreSum(sites, land - {x}))
    decreases |land|
  {
    var y := Pick(land);
    if y != x {
      CentreSumRemove(sites, land - {y}, x);
      CentreSumRemove(sites, land - {x}, y);
      assert land - {y} - {x} == land - {x} - {y};
    }
  }

  /** The mean of the centres of `land`; an empty land has none (the division by zero gives NaN). */
  ghost function Mean(sites: seq<Map.Site>, land: set<SiteId>): Option<Vec2>
    requires forall t :: t in land ==> t < |sites|
  {
    if land == {} then None
    else
      var sum := CentreSum(sites, land);
      Some(Vec2(sum.x / (|land| as real), sum.y / (|land| as real)))
  }

  /** A state founded on a single site is centred on that site. */
  lemma SingletonMean(sites: seq<Map.Site>, t: SiteId)
    requires t < |sites|
    ensures Mean(sites, {t}) == Some(sites[t].centre)
  {
    assert Pick({t}) == t;
    assert {t} - {t} == {};
    assert CentreSum(sites, {t}) == sites[t].centre;
    assert |{t}| == 1;
  }

  // ---------------------------------------------------------------- consistency

  /** The owner column and the land sets of `all` agree: a site is in a state's land exactly when it points back at it. */
  ghost predicate Consistent(all: set<State>, owner: array<State?>)
    reads all, owner
  {
    forall s, t :: s in all ==> (t in s.land <==> 0 <= t < owner.Length && owner[t] == s)
  }

  /** Consistency read at one state and one site. */
  lemma ConsistentAt(all: set<State>, owner: array<State?>, s: State, t: SiteId)
    requires Consistent(all, owner) && s in all
    ensures t in s.land <==> 0 <= t < owner.Length && owner[t] == s
  {
  }

  /** Consistency puts every site in at most one state's land. */
  lemma ConsistentLandsDisjoint(all: set<State>, owner: array<State?>, a: State, b: State)
    requires Consistent(all, owner) && a in all && b in all && a != b
    ensures a.land !! b.land
  {
    forall t | t in a.land
      ensures t !in b.land
    {
      ConsistentAt(all, owner, a, t);
      ConsistentAt(all, owner, b, t);
    }
  }

  class State {
    const colour: Colour
    var name: string
    var land: set<SiteId>
    const centre: Option<Vec2>

    /**
     * Takes the land as given (no site's owner is touched), forces the
     * colour's alpha to 100 and fixes the centre as the mean of the land's
     * site centres.
     */
    constructor (colour: Colour, name: string, land: set<SiteId>, sites: seq<Map.Site>)
      requires forall t :: t in land ==> t < |sites|
      ensures this.colour == colour.(a := 100) && this.name == name && this.land == land
      ensures centre == Mean(sites, land)
    {
      this.colour := colour.(a := 100);
      this.name := name;
      this.land := land;
      var sum := Vec2(0.0, 0.0);
      var remaining := land;
      while remaining != {}
        invariant remaining <= land
        invariant sum.Plus(CentreSum(sites, remaining)) == CentreSum(sites, land)
        decreases |remaining|
      {
        var t :| t in remaining;
        CentreSumRemove(sites, remaining, t);
        sum := sum.Plus(sites[t].centre);
        remaining := remaining - {t};
      }
      if land == {} {
        centre := None;
      } else {
        centre := Some(Vec2(sum.x / (|land| as real), sum.y / (|land| as real)));
      }
    }

    /** Renames the state; nothing else changes. */
    method SetName(name: string)
      modifies this`name
      ensures this.name == name
    {
      this.name := name;
    }

    /** Erases `tile` from the land and clears its owner, whoever it was. */
    method RemoveLandTile(owner: array<State?>, tile: SiteId)
      requires tile < owner.Length
      modifies this`land, owner
      ensures land == old(land) - {tile} && owner[tile] == null
      ensures forall k :: 0 <= k < owner.Length && k != tile ==> owner[k] == old(owner[k])
    {
      land := land - {tile};
      owner[tile] := null;
    }

    /**
     * Takes `tile` from its previous owner (if any), adds it to the land and
     * makes this state its owner. When the owner column and the lands of
     * `all` agreed before, they still agree.
     */
    method AddLandTile(owner: array<State?>, tile: SiteId, ghost all: set<State>)
      requires tile < owner.Length
      modifies this`land, owner, owner[tile]
      ensures owner[tile] == this && land == old(land) + {tile} && name == old(name)
      ensures forall k :: 0 <= k < owner.Length && k != tile ==> owner[k] == old(owner[k])
      ensures var prev := old(owner[tile]);
        prev != null && prev != this ==> prev.land == old(prev.land) - {tile} && prev.name == old(prev.name)
      ensures old(Consistent(all, owner)) && this in all && (old(owner[tile]) == null || old(owner[tile]) in all)
        ==> Consistent(all, owner)
    {
      var prev := owner[tile];
      if prev != null {
        prev.RemoveLandTile(owner, tile);
      }
      land := land + {tile};
      owner[tile] := this;
    }

    /** The state's boundary as one list: every edge of its land whose neighbour is not in the land, or absent. */
    method UnorderedBoundary(sites: seq<Map.Site>) returns (exclaves: seq<seq<Map.EdgeRef>>)
      requires forall t :: t in land ==> t < |sites|
      ensures |exclaves| == 1 && Map.NoDuplicates(exclaves[0])
      ensures forall r :: r in exclaves[0] <==> r in Map.Boundary(sites, land)
      ensures forall r :: r in exclaves[0] ==> r.site < |sites| && r.index < |sites[r.site].edges|
    {
      exclaves := Map.UnorderedBoundaries(sites, land);
    }

    /** The centre fixed at construction. */
    function Midpoint(): Option<Vec2>
    {
      centre
    }
  }
}
