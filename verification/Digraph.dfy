/** Finite directed graphs as sets of edges: paths, cycles, and the rank that an acyclic graph gives
    to every vertex.  The compiler rejects cycles; the executor's progress rests on the rank. */
module Digraph {

  ghost predicate IsPath<V(!new)>(edges: set<(V, V)>, p: seq<V>) {
    && |p| >= 2
    && forall i :: 0 <= i < |p| - 1 ==> (p[i], p[i + 1]) in edges
  }

  ghost predicate PathBetween<V(!new)>(edges: set<(V, V)>, u: V, v: V, p: seq<V>) {
    IsPath(edges, p) && p[0] == u && p[|p| - 1] == v
  }

  /** u reaches v by a nonempty path. */
  ghost predicate Reaches<V(!new)>(edges: set<(V, V)>, u: V, v: V) {
    exists p :: PathBetween(edges, u, v, p)
  }

  ghost predicate Acyclic<V(!new)>(edges: set<(V, V)>) {
    forall v :: !Reaches(edges, v, v)
  }

  ghost function Ancestors<V(!new)>(edges: set<(V, V)>, v: V): set<V> {
    set e | e in edges && Reaches(edges, e.0, v) :: e.0
  }

  /** The number of vertices that reach v. */
  ghost function Rank<V(!new)>(edges: set<(V, V)>, v: V): nat {
    |Ancestors(edges, v)|
  }

  lemma EdgeReaches<V(!new)>(edges: set<(V, V)>, u: V, v: V)
    requires (u, v) in edges
    ensures Reaches(edges, u, v)
  {
    assert PathBetween(edges, u, v, [u, v]);
  }

  lemma ReachesTransitive<V(!new)>(edges: set<(V, V)>, u: V, v: V, w: V)
    requires Reaches(edges, u, v) && Reaches(edges, v, w)
    ensures Reaches(edges, u, w)
  {
    var p :| PathBetween(edges, u, v, p);
    var q :| PathBetween(edges, v, w, q);
    var r := p + q[1..];
    forall i | 0 <= i < |r| - 1
      ensures (r[i], r[i + 1]) in edges
    {
      if i >= |p| - 1 {
        assert r[i] == q[i - (|p| - 1)] && r[i + 1] == q[i + 1 - (|p| - 1)];
      }
    }
    assert PathBetween(edges, u, w, r);
  }

  lemma ReachesMore<V(!new)>(edges: set<(V, V)>, more: set<(V, V)>, u: V, v: V)
    requires edges <= more && Reaches(edges, u, v)
    ensures Reaches(more, u, v)
  {
    var p :| PathBetween(edges, u, v, p);
    assert PathBetween(more, u, v, p);
  }

  /** A path starts with an edge. */
  lemma FirstEdge<V(!new)>(edges: set<(V, V)>, u: V, w: V) returns (v: V)
    requires Reaches(edges, u, w)
    ensures (u, v) in edges && (v == w || Reaches(edges, v, w))
  {
    var p :| PathBetween(edges, u, w, p);
    v := p[1];
    if |p| > 2 {
      assert PathBetween(edges, v, w, p[1..]);
    }
  }

  /** In an acyclic graph every edge climbs in rank. */
  lemma RankClimbs<V(!new)>(edges: set<(V, V)>, u: V, v: V)
    requires Acyclic(edges) && (u, v) in edges
    ensures Rank(edges, u) < Rank(edges, v)
  {
    EdgeReaches(edges, u, v);
    var below, above := Ancestors(edges, u), Ancestors(edges, v);
    forall x | x in below
      ensures x in above
    {
      ReachesTransitive(edges, x, u, v);
    }
    assert u in above;
    assert u !in below;
    SmallerSubset(below, above, u);
  }

  lemma SmallerSubset<T>(a: set<T>, b: set<T>, x: T)
    requires a <= b && x in b && x !in a
    ensures |a| < |b|
  {
    var rest := b - a;
    assert x in rest;
    assert b == a + rest;
  }

  /** Conversely, a graph that has any such climbing measure is acyclic. */
  lemma ClimbingIsAcyclic<V(!new)>(edges: set<(V, V)>, rank: V -> nat)
    requires forall e :: e in edges ==> rank(e.0) < rank(e.1)
    ensures Acyclic(edges)
  {
    forall v
      ensures !Reaches(edges, v, v)
    {
      if Reaches(edges, v, v) {
        var p :| PathBetween(edges, v, v, p);
        PathClimbs(edges, rank, p);
      }
    }
  }

  lemma {:induction false} PathClimbs<V(!new)>(edges: set<(V, V)>, rank: V -> nat, p: seq<V>)
    requires forall e :: e in edges ==> rank(e.0) < rank(e.1)
    requires IsPath(edges, p)
    ensures rank(p[0]) < rank(p[|p| - 1])
  {
    assert (p[0], p[1]) in edges;
    if |p| > 2 {
      PathClimbs(edges, rank, p[1..]);
    }
  }

  // ---------------------------------------------------------------- depth below a vertex

  ghost function Descendants<V(!new)>(edges: set<(V, V)>, v: V): set<V> {
    set e | e in edges && Reaches(edges, v, e.1) :: e.1
  }

  /** The number of vertices that v reaches: no path from v is longer when the graph is acyclic. */
  ghost function Depth<V(!new)>(edges: set<(V, V)>, v: V): nat {
    |Descendants(edges, v)|
  }

  lemma DepthFalls<V(!new)>(edges: set<(V, V)>, u: V, v: V)
    requires !Reaches(edges, v, v) && (u, v) in edges
    ensures Depth(edges, v) < Depth(edges, u)
  {
    EdgeReaches(edges, u, v);
    var above, below := Descendants(edges, u), Descendants(edges, v);
    forall x | x in below
      ensures x in above
    {
      ReachesTransitive(edges, u, v, x);
    }
    assert v in above;
    assert v !in below;
    SmallerSubset(below, above, v);
  }
}
