/** The cycle test of the Go graph compiler: a depth-first search with a visited set. */
module GoSearch {
  import opened Digraph
  import opened Links
  import opened CycleSearch

  /** Successors by id; every successor is itself a vertex. */
  ghost predicate Closed<V(!new)>(succ: map<V, set<V>>) {
    forall x, y :: x in succ && y in succ[x] ==> y in succ
  }

  ghost function EdgesOf<V(!new)>(succ: map<V, set<V>>): set<(V, V)> {
    set x, y | x in succ && y in succ[x] :: (x, y)
  }

  /** What an unsuccessful search leaves behind: the vertices it visited do not have v as successor, and all
      their successors are visited too. */
  ghost predicate Explored<V(!new)>(succ: map<V, set<V>>, v: V, before: set<V>, after: set<V>) {
    forall x :: x in after && x !in before ==> x in succ && v !in succ[x] && succ[x] <= after
  }

  /** The map of visited ids that the recursive calls share. */
  class Visited<V(==)> {
    var ids: set<V>

    constructor ()
      ensures ids == {}
    {
      ids := {};
    }
  }

  /** `findVertexInSuccessors`; the successors are tried in any order. */
  method FindVertexInSuccessors<V(==, !new)>(succ: map<V, set<V>>, p: V, v: V, visited: Visited<V>) returns (found: bool)
    requires Closed(succ) && p in succ && p !in visited.ids && visited.ids <= succ.Keys
    modifies visited
    ensures old(visited.ids) + {p} <= visited.ids <= succ.Keys
    ensures found ==> Reaches(EdgesOf(succ), p, v)
    ensures !found ==> Explored(succ, v, old(visited.ids), visited.ids)
    decreases succ.Keys - visited.ids
  {
    ghost var before := visited.ids;
    ghost var edges := EdgesOf(succ);
    visited.ids := visited.ids + {p};
    if v in succ[p] {
      assert (p, v) in edges;
      EdgeReaches(edges, p, v);
      return true;
    }
    var rest := succ[p];
    while rest != {}
      invariant rest <= succ[p] && before + {p} <= visited.ids <= succ.Keys
      invariant succ[p] - rest <= visited.ids
      invariant Explored(succ, v, before + {p}, visited.ids)
      decreases rest
    {
      var s :| s in rest;
      rest := rest - {s};
      if s !in visited.ids {
        found := FindVertexInSuccessors(succ, s, v, visited);
        if found {
          assert (p, s) in edges;
          EdgeReaches(edges, p, s);
          ReachesTransitive(edges, p, s, v);
          return true;
        }
      }
    }
    return false;
  }

  /** Nothing inside an explored region reaches v. */
  lemma {:induction false} ExploredMisses<V(!new)>(succ: map<V, set<V>>, v: V, region: set<V>, path: seq<V>)
    requires Explored(succ, v, {}, region) && IsPath(EdgesOf(succ), path) && path[0] in region
    ensures path[|path| - 1] != v
  {
    assert (path[0], path[1]) in EdgesOf(succ);
    if |path| > 2 {
      ExploredMisses(succ, v, region, path[1..]);
    }
  }

  lemma ExploredUnreachable<V(!new)>(succ: map<V, set<V>>, p: V, v: V, region: set<V>)
    requires Explored(succ, v, {}, region) && p in region
    ensures !Reaches(EdgesOf(succ), p, v)
  {
    forall path | IsPath(EdgesOf(succ), path) && path[0] == p
      ensures path[|path| - 1] != v
    {
      ExploredMisses(succ, v, region, path);
    }
  }

  /** The search with nothing visited is exact: true exactly if p reaches v by a nonempty path. */
  method Search<V(==, !new)>(succ: map<V, set<V>>, p: V, v: V) returns (found: bool)
    requires Closed(succ) && p in succ
    ensures found <==> Reaches(EdgesOf(succ), p, v)
  {
    var visited := new Visited<V>();
    found := FindVertexInSuccessors(succ, p, v, visited);
    if !found {
      ExploredUnreachable(succ, p, v, visited.ids);
    }
  }

  /** `testCircle` is total and exact: true exactly if some vertex reaches itself. */
  method TestCircle<V(==, !new)>(succ: map<V, set<V>>) returns (found: bool)
    requires Closed(succ)
    ensures found <==> !Acyclic(EdgesOf(succ))
  {
    ghost var edges := EdgesOf(succ);
    var rest := succ.Keys;
    while rest != {}
      invariant rest <= succ.Keys
      invariant forall v :: v in succ && v !in rest ==> !Reaches(edges, v, v)
      decreases rest
    {
      var v :| v in rest;
      found := Search(succ, v, v);
      if found {
        return true;
      }
      rest := rest - {v};
    }
    forall v
      ensures !Reaches(edges, v, v)
    {
      if Reaches(edges, v, v) {
        var w := FirstEdge(edges, v, v);
      }
    }
    return false;
  }

  // ---------------------------------------------------------------- agreement with the C++ search

  ghost function SuccessorMap(t: Table): map<nat, set<nat>> {
    map p: nat | p < |t| :: set v | v in t[p].succ
  }

  lemma SameEdges(t: Table)
    ensures EdgesOf(SuccessorMap(t)) == SuccEdges(t)
  {
  }

  /** On an acyclic graph the C++ search returns and gives the answer of the Go search, which is whether p
      reaches v; on any graph it gives no other answer. */
  lemma SearchesAgree(t: Table, p: nat, v: nat, fuel: nat)
    requires WellRanged(t) && p < |t|
    ensures CycleSearch.Search(t, p, v, fuel).Some? ==>
              CycleSearch.Search(t, p, v, fuel).value == Reaches(EdgesOf(SuccessorMap(t)), p, v)
    ensures Acyclic(SuccEdges(t)) && fuel >= |t| ==> CycleSearch.Search(t, p, v, fuel).Some?
  {
    SameEdges(t);
    if CycleSearch.Search(t, p, v, fuel).Some? {
      SearchIsExact(t, p, v, fuel);
    }
    if Acyclic(SuccEdges(t)) && fuel >= |t| {
      if MeetsCycle(Detours(SuccEdges(t), v), p) {
        MeetsLess(SuccEdges(t), v, p);
      }
      DepthBound(t, p, v);
      SearchReturns(t, p, v, fuel);
    }
  }
}
