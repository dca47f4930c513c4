/** From the Go compiler to the run: with its ids numbered, an accepted Go graph is a graph of the protocol, so
    every theorem about runs applies to it. */
module GoRuntime {
  import opened Options
  import opened VertexResults
  import opened Digraph
  import opened GoResults
  import opened Protocol
  import opened SetupGraph
  import L = Links
  import G = GoDepend
  import B = GoGraph
  import S = GoSearch
  import X = GoContexts

  type Id = G.Id

  // ---------------------------------------------------------------- what the compiler leaves behind

  /** Slots are dense, both ends of every edge know it, and everything named is a vertex. */
  ghost predicate Sound(t: G.Table) {
    && (forall x :: x in t ==> G.Dense(t[x]))
    && (forall u, v :: u in t && v in t ==> (v in t[u].succ <==> u in t[v].idx))
    && (forall x, y :: x in t && y in t[x].succ ==> y in t)
    && (forall x, y :: x in t && y in t[x].idx ==> y in t)
    && (forall x :: x in t ==> HasCodes(t[x]))
  }

  ghost predicate HasCodes(x: G.GoLinks) {
    forall k :: 0 <= k < |x.expected| ==> IsExpectation(x.expected[k])
  }

  lemma {:induction false} NamesInside(ids: set<Id>, calls: seq<G.Call>, x: Id)
    requires G.AllKnown(G.Empty(ids), calls) && x in ids
    ensures G.DependAll(G.Empty(ids), calls)[x].idx.Keys <= ids
  {
    if calls != [] {
      NamesInside(ids, calls[..|calls| - 1], x);
    }
  }

  lemma {:induction false} CodesInside(ids: set<Id>, calls: seq<G.Call>, x: Id)
    requires G.AllKnown(G.Empty(ids), calls) && x in ids && forall i :: 0 <= i < |calls| ==> IsExpectation(calls[i].expected)
    ensures HasCodes(G.DependAll(G.Empty(ids), calls)[x])
  {
    if calls != [] {
      CodesInside(ids, calls[..|calls| - 1], x);
    }
  }

  lemma CallsAreSound(ids: set<Id>, calls: seq<G.Call>)
    requires G.AllKnown(G.Empty(ids), calls) && forall i :: 0 <= i < |calls| ==> IsExpectation(calls[i].expected)
    ensures Sound(G.DependAll(G.Empty(ids), calls))
  {
    var t := G.DependAll(G.Empty(ids), calls);
    G.BuiltDense(ids, calls);
    B.SuccessorsInside(ids, calls);
    forall x | x in ids
      ensures t[x].idx.Keys <= ids && HasCodes(t[x])
    {
      NamesInside(ids, calls, x);
      CodesInside(ids, calls, x);
    }
    forall u, v | u in t && v in t
      ensures v in t[u].succ <==> u in t[v].idx
    {
      G.PairFinal(ids, calls, u, v);
    }
  }

  lemma {:induction false} CallsHaveCodes(known: set<Id>, asks: G.Asks, order: seq<Id>)
    requires forall p :: p in asks ==> B.About(asks[p], known, p)
    requires forall i :: 0 <= i < |order| ==> order[i] in asks
    ensures forall i :: 0 <= i < |G.Calls(asks, order)| ==> IsExpectation(G.Calls(asks, order)[i].expected)
  {
    if order != [] {
      CallsHaveCodes(known, asks, order[..|order| - 1]);
    }
  }

  /** Whatever the build order. */
  lemma BuildIsSound(vertices: map<Id, B.Vertex>, data: map<B.DataKey, Id>, order: seq<Id>)
    requires B.Entered(vertices, data) && G.IsOrder(B.AsksOf(vertices, data), order)
    ensures var calls := G.Calls(B.AsksOf(vertices, data), order);
            && G.AllKnown(G.Empty(vertices.Keys), calls)
            && Sound(G.DependAll(G.Empty(vertices.Keys), calls))
  {
    var asks := B.AsksOf(vertices, data);
    B.AsksAreOwn(vertices, data);
    B.AllCallsKnown(vertices.Keys, asks, order);
    CallsHaveCodes(vertices.Keys, asks, order);
    CallsAreSound(vertices.Keys, G.Calls(asks, order));
  }

  // ---------------------------------------------------------------- numbering

  ghost predicate Numbering(order: seq<Id>, ids: set<Id>) {
    && (forall x :: x in order <==> x in ids)
    && (forall i, j :: 0 <= i < j < |order| ==> order[i] != order[j])
  }

  ghost function ListOf(s: set<nat>): (r: seq<nat>)
    ensures forall x :: x in r <==> x in s
    ensures forall i, j :: 0 <= i < j < |r| ==> r[i] != r[j]
    decreases |s|
  {
    if s == {} then []
    else
      var x :| x in s;
      ListOf(s - {x}) + [x]
  }

  ghost function SuccessorNumbers(x: G.GoLinks, order: seq<Id>): set<nat> {
    set p: nat | p < |order| && order[p] in x.succ
  }

  ghost function SlotNumbers(x: G.GoLinks, order: seq<Id>): map<nat, nat> {
    map p: nat | p < |order| && order[p] in x.idx :: x.idx[order[p]]
  }

  function MaskOf(e: int): VertexResult {
    if IsExpectation(e) then X.Mask(e) else V_RESULT_ALL
  }

  /** The links of the Go compiler as a table of positions. */
  ghost function Numbered(t: G.Table, order: seq<Id>): L.Table
    requires Numbering(order, t.Keys)
  {
    seq(|order|, p requires 0 <= p < |order| =>
      NumberedVertex(t[order[p]], order))
  }

  ghost function NumberedVertex(x: G.GoLinks, order: seq<Id>): L.VertexLinks {
    L.VertexLinks(ListOf(SuccessorNumbers(x, order)), SlotNumbers(x, order),
                  seq(|x.expected|, k requires 0 <= k < |x.expected| => MaskOf(x.expected[k])))
  }

  ghost predicate Hit(m: map<nat, nat>, k: nat) {
    exists u :: u in m && m[u] == k
  }

  /** A one-to-one map onto 0..n-1 has n entries. */
  lemma {:induction false} SizeOfBijection(m: map<nat, nat>, n: nat)
    requires forall u :: u in m ==> m[u] < n
    requires forall u, v :: u in m && v in m && m[u] == m[v] ==> u == v
    requires forall k :: 0 <= k < n ==> Hit(m, k)
    ensures |m| == n
  {
    if n == 0 {
      assert m.Keys == {};
    } else {
      assert Hit(m, n - 1);
      var u :| u in m && m[u] == n - 1;
      var rest := m - {u};
      assert rest.Keys == m.Keys - {u};
      assert |rest| == |rest.Keys| == |m.Keys| - 1;
      forall k | 0 <= k < n - 1
        ensures Hit(rest, k)
      {
        assert Hit(m, k);
        var w :| w in m && m[w] == k;
        assert w in rest && rest[w] == k;
      }
      SizeOfBijection(rest, n - 1);
    }
  }

  lemma SlotsHit(x: G.GoLinks, order: seq<Id>, k: nat)
    requires G.Dense(x) && (forall y :: y in x.idx ==> y in order) && k < |x.idx|
    ensures Hit(SlotNumbers(x, order), k)
  {
    assert G.HasSlot(x, k);
    var id :| id in x.idx && x.idx[id] == k;
    var u := L.IndexOf(order, id);
    assert u in SlotNumbers(x, order) && SlotNumbers(x, order)[u] == k;
  }

  lemma NumberedIsDense(x: G.GoLinks, order: seq<Id>)
    requires G.Dense(x) && (forall y :: y in x.idx ==> y in order)
    requires forall i, j :: 0 <= i < j < |order| ==> order[i] != order[j]
    ensures L.Dense(NumberedVertex(x, order))
  {
    var y := NumberedVertex(x, order);
    forall k: nat | k < |x.idx|
      ensures Hit(y.idx, k)
    {
      SlotsHit(x, order, k);
    }
    SizeOfBijection(y.idx, |x.idx|);
    forall k: nat | k < |y.idx|
      ensures L.HasSlot(y, k)
    {
      assert Hit(y.idx, k);
    }
  }

  lemma NumberedSuccessor(x: G.GoLinks, order: seq<Id>, q: nat)
    requires q < |order|
    ensures q in NumberedVertex(x, order).succ <==> order[q] in x.succ
  {
    assert q in SuccessorNumbers(x, order) <==> order[q] in x.succ;
  }

  lemma NumberedSlot(x: G.GoLinks, order: seq<Id>, p: nat)
    requires p < |order|
    ensures p in NumberedVertex(x, order).idx <==> order[p] in x.idx
  {
    assert p in SlotNumbers(x, order) <==> order[p] in x.idx;
  }

  lemma BothEndsKnow(t: G.Table, u: Id, v: Id)
    requires Sound(t) && u in t && v in t
    ensures v in t[u].succ <==> u in t[v].idx
  {
  }

  /** Both ends of an edge, by number and by id. */
  lemma NumberedEnds(t: G.Table, order: seq<Id>, p: nat, q: nat)
    requires Sound(t) && Numbering(order, t.Keys) && p < |order| && q < |order|
    ensures order[p] in t && order[q] in t
    ensures q in Numbered(t, order)[p].succ <==> order[q] in t[order[p]].succ
    ensures p in Numbered(t, order)[q].idx <==> order[p] in t[order[q]].idx
    ensures L.Mirror(Numbered(t, order), p, q)
  {
    assert order[p] in order && order[q] in order;
    BothEndsKnow(t, order[p], order[q]);
    NumberedSuccessor(t[order[p]], order, q);
    NumberedSlot(t[order[q]], order, p);
  }

  lemma NumberedIsConsistent(t: G.Table, order: seq<Id>)
    requires Sound(t) && Numbering(order, t.Keys)
    ensures L.Consistent(Numbered(t, order))
  {
    var n := Numbered(t, order);
    forall p | 0 <= p < |n|
      ensures L.Dense(n[p]) && L.Ranged(n[p], |n|)
    {
      assert order[p] in order;
      NumberedIsDense(t[order[p]], order);
    }
    forall p, q | 0 <= p < |n| && 0 <= q < |n|
      ensures L.Mirror(n, p, q)
    {
      NumberedEnds(t, order, p, q);
    }
  }

  /** The ranks of the ids are ranks of their numbers. */
  lemma NumberedIsAcyclic(t: G.Table, order: seq<Id>)
    requires Sound(t) && Numbering(order, t.Keys) && Acyclic(S.EdgesOf(B.SuccessorsOf(t)))
    ensures Acyclic(L.TableEdges(Numbered(t, order)))
  {
    var ids, n := S.EdgesOf(B.SuccessorsOf(t)), Numbered(t, order);
    forall e | e in L.TableEdges(n)
      ensures NumberRank(ids, order, e.0) < NumberRank(ids, order, e.1)
    {
      NumberedEnds(t, order, e.0, e.1);
      RankClimbs(ids, order[e.0], order[e.1]);
    }
    ClimbingIsAcyclic(L.TableEdges(n), (p: nat) => NumberRank(ids, order, p));
  }

  ghost function NumberRank(edges: set<(Id, Id)>, order: seq<Id>, p: nat): nat {
    if p < |order| then Rank(edges, order[p]) else 0
  }

  /** The settings of the Go executor. */
  function GoSettings(n: nat): Settings {
    Settings(seq(n, _ => VertexOptions(false, false, false)), true, false, None, true)
  }

  lemma SoundGraphRuns(t: G.Table, order: seq<Id>)
    requires Sound(t) && Numbering(order, t.Keys) && Acyclic(S.EdgesOf(B.SuccessorsOf(t)))
    requires 0 < |order| < 0x1_0000_0000
    ensures L.Consistent(Numbered(t, order))
    ensures var g := RunGraph(Numbered(t, order), Whole(|order|), GoSettings(|order|));
            X.IsGoGraph(g) && Acyclic(Edges(g)) && g.N() == |order|
  {
    NumberedIsConsistent(t, order);
    NumberedIsAcyclic(t, order);
    WholeGraphRuns(Numbered(t, order), GoSettings(|order|));
  }

  /** An accepted Go graph, linked in whatever build order and numbered in whatever way, runs as a well-formed
      acyclic graph of the Go executor: all theorems about runs hold for it. */
  lemma AcceptedGoGraphRuns(vertices: map<Id, B.Vertex>, data: map<B.DataKey, Id>, build: seq<Id>, order: seq<Id>, t: G.Table)
    requires B.Entered(vertices, data) && 0 < |order| < 0x1_0000_0000
    requires G.IsOrder(B.AsksOf(vertices, data), build) && Numbering(order, vertices.Keys)
    requires G.AllKnown(G.Empty(vertices.Keys), G.Calls(B.AsksOf(vertices, data), build))
    requires t == G.DependAll(G.Empty(vertices.Keys), G.Calls(B.AsksOf(vertices, data), build))
    requires Acyclic(S.EdgesOf(B.SuccessorsOf(t)))
    ensures Numbering(order, t.Keys) && L.Consistent(Numbered(t, order))
    ensures var g := RunGraph(Numbered(t, order), Whole(|order|), GoSettings(|order|));
            X.IsGoGraph(g) && Acyclic(Edges(g)) && g.N() == |vertices|
  {
    BuildIsSound(vertices, data, build);
    CountOrder(order, vertices.Keys);
    assert t.Keys == vertices.Keys;
    SoundGraphRuns(t, order);
  }

  lemma {:induction false} CountOrder(order: seq<Id>, ids: set<Id>)
    requires Numbering(order, ids)
    ensures |order| == |ids|
  {
    if order == [] {
      assert ids == {};
    } else {
      var x := order[|order| - 1];
      var before := order[..|order| - 1];
      assert order == before + [x];
      assert x in order;
      CountOrder(before, ids - {x});
    }
  }
}
