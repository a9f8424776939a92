/**
 * `getExclaves`: splits a set of grid points into exclaves. The documented
 * algorithm is a breadth-first search over neighbouring points, but the
 * neighbour traversal is disabled, so each search visits only its start
 * point and every exclave is a singleton.
 */
module Exclaves {
  import opened Common

  /** The union of a sequence of sets. */
  function UnionOf<T>(ss: seq<set<T>>): set<T>
  {
    if ss == [] then {} else UnionOf(ss[..|ss| - 1]) + ss[|ss| - 1]
  }

  lemma UnionOfAppend<T>(ss: seq<set<T>>, s: set<T>)
    ensures UnionOf(ss + [s]) == UnionOf(ss) + s
  {
    assert (ss + [s])[..|ss|] == ss;
  }

  /** The sets of `ss` are pairwise disjoint. */
  ghost predicate PairwiseDisjoint<T>(ss: seq<set<T>>)
  {
    forall i, j :: 0 <= i < j < |ss| ==> ss[i] !! ss[j]
  }

  /** Every set of `ss` is a subset of their union. */
  lemma {:induction false} MemberOfUnion<T>(ss: seq<set<T>>, i: int)
    requires 0 <= i < |ss|
    ensures ss[i] <= UnionOf(ss)
    decreases |ss|
  {
    if i < |ss| - 1 {
      MemberOfUnion(ss[..|ss| - 1], i);
    }
  }

  /**
   * The breadth-first search from `start`. With the neighbour traversal
   * disabled, the queue only ever holds `start`, so the exclave is `{start}`.
   */
  method Search(start: Vec2i) returns (exclave: set<Vec2i>)
    ensures exclave == {start}
  {
    exclave := {};
    var queue := [start];
    while queue != []
      invariant queue == [] ==> exclave == {start}
      invariant queue != [] ==> queue == [start] && exclave == {}
    {
      var p := queue[0];
      exclave := exclave + {p};
      queue := queue[1..];
    }
  }

  /** Moving one point out of the rest into a new singleton exclave keeps the partition. */
  lemma AppendSingleton<T>(ss: seq<set<T>>, rest: set<T>, all: set<T>, p: T)
    requires UnionOf(ss) + rest + {p} == all && UnionOf(ss) !! rest + {p} && p !in rest
    requires PairwiseDisjoint(ss)
    ensures UnionOf(ss + [{p}]) + rest == all && UnionOf(ss + [{p}]) !! rest
    ensures PairwiseDisjoint(ss + [{p}])
  {
    forall i | 0 <= i < |ss|
      ensures ss[i] !! {p}
    {
      MemberOfUnion(ss, i);
    }
    UnionOfAppend(ss, {p});
  }

  /**
   * The exclaves partition `points` (pairwise disjoint, union `points`), and
   * each is a single point, so there are exactly as many as points.
   */
  method GetExclaves(points: set<Vec2i>) returns (exclaves: seq<set<Vec2i>>)
    ensures UnionOf(exclaves) == points
    ensures PairwiseDisjoint(exclaves)
    ensures forall i :: 0 <= i < |exclaves| ==> |exclaves[i]| == 1
    ensures |exclaves| == |points|
  {
    var rest := points;
    exclaves := [];
    while rest != {}
      invariant UnionOf(exclaves) + rest == points
      invariant UnionOf(exclaves) !! rest
      invariant PairwiseDisjoint(exclaves)
      invariant forall i :: 0 <= i < |exclaves| ==> |exclaves[i]| == 1
      invariant |exclaves| + |rest| == |points|
      decreases |rest|
    {
      var start :| start in rest;
      rest := rest - {start};
      var exclave := Search(start);
      AppendSingleton(exclaves, rest, points, start);
      exclaves := exclaves + [exclave];
    }
  }
}
