/** A Go graph whose meaning is up to the iteration order of the vertex map. */
module GoCounterexamples {
  import opened Options
  import opened Digraph
  import opened GoResults
  import opened GoDepend
  import opened GoGraph

  const VERTEX := Vertex("", false, "", true, [], [], [], [], [], [], [], [], [])

  /** u names v as a successor in any case, and v depends on u on error. */
  function Contradiction(u: Id, v: Id): map<Id, Vertex> {
    map[u := VERTEX.(id := u, successor := [v]), v := VERTEX.(id := v, depsOnErr := [u])]
  }

  /** The one edge u → v, which expects e. */
  function Expecting(u: Id, v: Id, e: int): Table {
    map[u := GoLinks({v}, map[], []), v := GoLinks({}, map[u := 0], [e])]
  }

  lemma NameOne(known: set<Id>, x: Id, p: Id, e: int, dep: bool)
    requires x in known
    ensures NamedCalls(known, [x], p, e, dep) == Some([if dep then Call(x, p, e, false) else Call(p, x, e, false)])
  {
    var c := if dep then Call(x, p, e, false) else Call(p, x, e, false);
    assert [x][..0] == [] && NamedCalls(known, [], p, e, dep) == Some([]);
    assert [] + [c] == [c];
  }

  lemma SuccessorCall(known: set<Id>, n: Vertex, x: Id)
    requires n == VERTEX.(id := n.id, successor := [x]) && x in known
    ensures VertexCalls(known, map[], n) == Some([Call(n.id, x, RESULT_ALL, false)])
  {
    NameOne(known, x, n.id, RESULT_ALL, false);
    var c := Call(n.id, x, RESULT_ALL, false);
    assert SuccessorCalls(known, n) == Some([c]);
    assert DepCalls(known, n) == Some([]);
    assert [] + [c] == [c];
  }

  lemma DependencyCall(known: set<Id>, n: Vertex, x: Id)
    requires n == VERTEX.(id := n.id, depsOnErr := [x]) && x in known
    ensures VertexCalls(known, map[], n) == Some([Call(x, n.id, RESULT_ERR, false)])
  {
    NameOne(known, x, n.id, RESULT_ERR, true);
    var c := Call(x, n.id, RESULT_ERR, false);
    assert [c] + [] == [c];
    assert DepCalls(known, n) == Some([c]);
    assert SuccessorCalls(known, n) == Some([]);
    assert [] + [c] == [c];
  }

  predicate ContradictingAsks(asks: Asks, u: Id, v: Id) {
    && asks.Keys == {u, v}
    && asks[u] == [Call(u, v, RESULT_ALL, false)] && asks[v] == [Call(u, v, RESULT_ERR, false)]
  }

  lemma AsksAre(u: Id, v: Id)
    requires u != v
    ensures Entered(Contradiction(u, v), map[]) && Resolves(Contradiction(u, v), map[])
    ensures ContradictingAsks(AsksOf(Contradiction(u, v), map[]), u, v)
  {
    var known := Contradiction(u, v).Keys;
    SuccessorCall(known, Contradiction(u, v)[u], v);
    DependencyCall(known, Contradiction(u, v)[v], u);
  }

  lemma FirstCall(u: Id, v: Id, e: int)
    requires u != v
    ensures Known(Empty({u, v}), Call(u, v, e, false))
    ensures Depend(Empty({u, v}), Call(u, v, e, false)) == Expecting(u, v, e)
  {
    var x := AddDependency(GoLinks({}, map[], []), Call(u, v, e, false));
    assert x == GoLinks({}, map[u := 0], [e]);
    assert {} + {v} == {v};
  }

  lemma SecondCall(u: Id, v: Id, a: int, b: int)
    requires u != v
    ensures Depend(Expecting(u, v, a), Call(u, v, b, false)) == Expecting(u, v, b)
  {
    var x := AddDependency(Expecting(u, v, a)[v], Call(u, v, b, false));
    assert [a][0 := b] == [b];
    assert x == GoLinks({}, map[u := 0], [b]);
    assert {v} + {v} == {v};
  }

  /** The second of two explicit calls decides. */
  lemma TwoCalls(u: Id, v: Id, a: int, b: int)
    requires u != v
    ensures var calls := [Call(u, v, a, false)] + [Call(u, v, b, false)];
            AllKnown(Empty({u, v}), calls) && DependAll(Empty({u, v}), calls) == Expecting(u, v, b)
  {
    var ids, c, d := {u, v}, Call(u, v, a, false), Call(u, v, b, false);
    OneMoreCall(ids, [], c);
    assert [] + [c] == [c];
    FirstCall(u, v, a);
    OneMoreCall(ids, [c], d);
    SecondCall(u, v, a, b);
  }

  lemma TwoAsks(asks: Asks, p: Id, q: Id)
    requires p in asks && q in asks && p != q && asks.Keys == {p, q}
    ensures IsOrder(asks, [p, q]) && Calls(asks, [p, q]) == asks[p] + asks[q]
  {
    CallsGrow(asks, [], p);
    CallsGrow(asks, [p], q);
    assert [] + [p] == [p] && [p] + [q] == [p, q];
    assert [] + asks[p] == asks[p];
  }

  /** What `Build` accepts when these are the links. */
  ghost predicate Accepts(vertices: map<Id, Vertex>, t: Table) {
    vertices.Keys <= t.Keys && AllVerified(vertices, t) && Acyclic(GoSearch.EdgesOf(SuccessorsOf(t)))
  }

  lemma ExpectingIsAccepted(u: Id, v: Id, e: int)
    requires u != v
    ensures Accepts(Contradiction(u, v), Expecting(u, v, e))
  {
    ClimbingIsAcyclic(GoSearch.EdgesOf(SuccessorsOf(Expecting(u, v, e))), (x: Id) => if x == u then 0 else 1);
  }

  /** The links that this order of the build leaves behind. */
  ghost predicate BuildsTo(asks: Asks, order: seq<Id>, t: Table) {
    && IsOrder(asks, order) && AllKnown(Empty(asks.Keys), Calls(asks, order))
    && t == DependAll(Empty(asks.Keys), Calls(asks, order))
  }

  lemma BuildOrder(asks: Asks, u: Id, v: Id, p: Id, q: Id, a: int, b: int)
    requires u != v && p != q && {p, q} == {u, v} && asks.Keys == {p, q}
    requires asks[p] == [Call(u, v, a, false)] && asks[q] == [Call(u, v, b, false)]
    ensures BuildsTo(asks, [p, q], Expecting(u, v, b))
  {
    TwoAsks(asks, p, q);
    TwoCalls(u, v, a, b);
    assert Calls(asks, [p, q]) == [Call(u, v, a, false)] + [Call(u, v, b, false)];
    assert asks.Keys == {u, v};
  }

  lemma BothOrders(asks: Asks, u: Id, v: Id)
    requires u != v && ContradictingAsks(asks, u, v)
    ensures BuildsTo(asks, [u, v], Expecting(u, v, RESULT_ERR)) && BuildsTo(asks, [v, u], Expecting(u, v, RESULT_ALL))
  {
    BuildOrder(asks, u, v, u, v, RESULT_ALL, RESULT_ERR);
    BuildOrder(asks, u, v, v, u, RESULT_ERR, RESULT_ALL);
  }

  /** The build accepts the graph in either order of its two vertices; the edge u → v expects an error when v is built
      last, and any result when u is. */
  lemma OrderDecidesExpectation(u: Id, v: Id, asks: Asks)
    requires u != v && asks == AsksOf(Contradiction(u, v), map[])
    ensures Entered(Contradiction(u, v), map[]) && Resolves(Contradiction(u, v), map[])
    ensures BuildsTo(asks, [u, v], Expecting(u, v, RESULT_ERR)) && BuildsTo(asks, [v, u], Expecting(u, v, RESULT_ALL))
    ensures forall e :: Accepts(Contradiction(u, v), Expecting(u, v, e))
  {
    AsksAre(u, v);
    BothOrders(asks, u, v);
    forall e
      ensures Accepts(Contradiction(u, v), Expecting(u, v, e))
    {
      ExpectingIsAccepted(u, v, e);
    }
  }
}
