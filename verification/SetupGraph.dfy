/** The graph that `GraphContext::Setup` puts together from the links of the vertices that get a context. */
module SetupGraph {
  import opened Options
  import opened Digraph
  import opened Links
  import opened CycleSearch
  import opened Protocol

  /** What the run needs besides the links; `eager` tells the Go executor. */
  datatype Settings = Settings(
    options: seq<VertexOptions>, skipAsError: bool, earlyExit: bool, whileVertex: Option<nat>, eager: bool)

  predicate Suits(settings: Settings, n: nat) {
    |settings.options| == n && (settings.whileVertex.Some? ==> settings.whileVertex.value < n)
  }

  lemma SuccessorHasSlot(t: Table, u: nat, i: nat)
    requires Consistent(t) && u < |t| && i < |t[u].succ|
    ensures var w := t[u].succ[i];
            w < |t| && Dense(t[w]) && u in t[w].idx && t[w].idx[u] < |t[w].idx| == |t[w].expected|
  {
    assert Ranged(t[u], |t|);
    assert t[u].succ[i] in t[u].succ;
    assert Mirror(t, u, t[u].succ[i]);
    assert Dense(t[t[u].succ[i]]);
  }

  /** `SetupSuccessors`: the successors of v and the slot of v in each, -1 for a missing slot; the process is
      aborted at a successor that has no context because the id table does not list it. */
  method SetupSuccessors(t: Table, listed: set<nat>, v: nat)
    returns (aborted: bool, successors: seq<nat>, depIdxs: seq<int>)
    requires Consistent(t) && v < |t|
    ensures aborted <==> exists i :: 0 <= i < |t[v].succ| && t[v].succ[i] !in listed
    ensures !aborted ==> successors == t[v].succ && |depIdxs| == |successors|
    ensures forall i :: 0 <= i < |depIdxs| && i < |successors| ==>
              successors[i] < |t| && v in t[successors[i]].idx && depIdxs[i] == t[successors[i]].idx[v]
    ensures forall i :: 0 <= i < |depIdxs| && i < |successors| ==> 0 <= depIdxs[i] < |t[successors[i]].expected|
  {
    successors, depIdxs := [], [];
    for i := 0 to |t[v].succ|
      invariant successors == t[v].succ[..i] && |depIdxs| == i
      invariant forall j :: 0 <= j < i ==> t[v].succ[j] in listed
      invariant forall j :: 0 <= j < i ==> successors[j] < |t| && v in t[successors[j]].idx
      invariant forall j :: 0 <= j < i ==> depIdxs[j] == t[successors[j]].idx[v] < |t[successors[j]].expected|
    {
      var w := t[v].succ[i];
      if w !in listed {
        return true, successors, depIdxs;
      }
      SuccessorHasSlot(t, v, i);
      successors := successors + [w];
      depIdxs := depIdxs + [if v in t[w].idx then t[w].idx[v] else -1];
    }
    aborted := false;
  }

  // ---------------------------------------------------------------- the run-time graph

  /** The dependency that owns slot k. */
  ghost function DepAt(x: VertexLinks, k: nat): (u: nat)
    requires Dense(x) && k < |x.idx|
    ensures u in x.idx && x.idx[u] == k
  {
    assert HasSlot(x, k);
    var u: nat :| u in x.idx && x.idx[u] == k;
    u
  }

  /** The vertices that get a context, by position. */
  ghost predicate Numbers(order: seq<nat>, n: nat) {
    && InTable(order, n)
    && (forall i, j :: 0 <= i < j < |order| ==> order[i] != order[j])
  }

  ghost function DepsOf(x: VertexLinks, order: seq<nat>): seq<nat>
    requires Dense(x)
  {
    seq(|x.idx|, k requires 0 <= k < |x.idx| => IndexOf(order, DepAt(x, k)))
  }

  function SuccessorsOf(x: VertexLinks, order: seq<nat>): seq<nat> {
    seq(|x.succ|, i requires 0 <= i < |x.succ| => IndexOf(order, x.succ[i]))
  }

  function SlotsOf(t: Table, u: nat): seq<nat>
    requires u < |t|
  {
    seq(|t[u].succ|, i requires 0 <= i < |t[u].succ| => SlotIn(t, u, t[u].succ[i]))
  }

  function SlotIn(t: Table, u: nat, w: nat): nat {
    if w < |t| && u in t[w].idx then t[w].idx[u] else 0
  }

  /** What `Setup` makes of the vertices in `order`, which are renamed to their place in it.  A dependency that
      got no context is named by the place after the last: no vertex fills its slot. */
  ghost function RunGraph(t: Table, order: seq<nat>, settings: Settings): Protocol.Graph
    requires Consistent(t) && Numbers(order, |t|)
  {
    Protocol.Graph(seq(|order|, v requires 0 <= v < |order| => (assert Dense(t[order[v]]); DepsOf(t[order[v]], order))),
          seq(|order|, v requires 0 <= v < |order| => t[order[v]].expected),
          seq(|order|, v requires 0 <= v < |order| => SuccessorsOf(t[order[v]], order)),
          seq(|order|, v requires 0 <= v < |order| => SlotsOf(t, order[v])),
          settings.options, settings.skipAsError, settings.earlyExit, settings.whileVertex, settings.eager)
  }

  lemma DepsBound(t: Table, v: nat)
    requires Consistent(t) && v < |t|
    ensures |t[v].idx| <= |t|
  {
    assert Ranged(t[v], |t|);
    BoundedSet(t[v].idx.Keys, |t|);
    assert |t[v].idx.Keys| == |t[v].idx|;
  }

  /** No vertex with a context has a successor without one. */
  ghost predicate SuccessorsKept(t: Table, order: seq<nat>) {
    forall u, i :: 0 <= u < |t| && u in order && 0 <= i < |t[u].succ| ==> t[u].succ[i] in order
  }

  /** No vertex with a context has a dependency without one. */
  ghost predicate DependenciesKept(t: Table, order: seq<nat>) {
    forall u, v :: 0 <= v < |t| && v in order && u in t[v].idx ==> u in order
  }

  lemma OrderedAt(order: seq<nat>, n: nat, v: nat)
    requires Numbers(order, n) && v < |order|
    ensures order[v] < n && order[v] in order && IndexOf(order, order[v]) == v
  {
    assert order[v] in order;
  }

  lemma SlotOfSuccessor(t: Table, order: seq<nat>, settings: Settings, u: nat, i: nat)
    requires Consistent(t) && Numbers(order, |t|) && SuccessorsKept(t, order)
    requires u < |order| && i < |t[order[u]].succ|
    ensures IsSuccessor(RunGraph(t, order, settings), u, i)
  {
    var p := order[u];
    OrderedAt(order, |t|, u);
    SuccessorHasSlot(t, p, i);
    var q := t[p].succ[i];
    assert DepAt(t[q], t[q].idx[p]) == p;
  }

  lemma SlotHasOwner(t: Table, order: seq<nat>, settings: Settings, v: nat, k: nat)
    requires Consistent(t) && Numbers(order, |t|) && v < |order| && k < |t[order[v]].idx|
    ensures Dense(t[order[v]])
    ensures IsSlot(RunGraph(t, order, settings), v, k) <==> DepAt(t[order[v]], k) in order
  {
    var q := order[v];
    OrderedAt(order, |t|, v);
    assert Dense(t[q]) && Ranged(t[q], |t|);
    var p := DepAt(t[q], k);
    if p in order {
      assert Mirror(t, p, q);
      var i :| 0 <= i < |t[p].succ| && t[p].succ[i] == q;
      assert SlotAt(RunGraph(t, order, settings), v, k, i);
    }
  }

  lemma RunGraphIsAssembled(t: Table, order: seq<nat>, settings: Settings)
    requires Consistent(t) && Numbers(order, |t|) && 0 < |order| && |t| < 0x1_0000_0000 && Suits(settings, |order|)
    requires |order| <= |t| && SuccessorsKept(t, order)
    ensures Assembled(RunGraph(t, order, settings))
  {
    var g := RunGraph(t, order, settings);
    forall v | 0 <= v < g.N()
      ensures |g.expected[v]| == |g.deps[v]| < 0x1_0000_0000
    {
      assert Dense(t[order[v]]);
      DepsBound(t, order[v]);
    }
    forall u, i | 0 <= u < g.N() && 0 <= i < |g.succs[u]|
      ensures IsSuccessor(g, u, i)
    {
      SlotOfSuccessor(t, order, settings, u, i);
    }
    forall u, i, j | 0 <= u < g.N() && 0 <= i < j < |g.succs[u]|
      ensures g.succs[u][i] != g.succs[u][j]
    {
      OrderedAt(order, |t|, u);
      assert Ranged(t[order[u]], |t|);
      assert t[order[u]].succ[i] in order && t[order[u]].succ[j] in order;
    }
  }

  /** Every slot has a vertex that fills it exactly if every dependency of a vertex with a context has one. */
  lemma RunGraphIsWellFormed(t: Table, order: seq<nat>, settings: Settings)
    requires Consistent(t) && Numbers(order, |t|) && Assembled(RunGraph(t, order, settings))
    ensures WellFormed(RunGraph(t, order, settings)) <==> DependenciesKept(t, order)
  {
    var g := RunGraph(t, order, settings);
    forall v, k | 0 <= v < g.N() && 0 <= k < |g.deps[v]|
      ensures Dense(t[order[v]]) && (IsSlot(g, v, k) <==> DepAt(t[order[v]], k) in order)
    {
      SlotHasOwner(t, order, settings, v, k);
    }
    if WellFormed(g) {
      forall u, q | 0 <= q < |t| && q in order && u in t[q].idx
        ensures u in order
      {
        var v := IndexOf(order, q);
        assert Dense(t[q]);
        assert IsSlot(g, v, t[q].idx[u]);
        assert DepAt(t[q], t[q].idx[u]) == u;
      }
    } else if DependenciesKept(t, order) {
      forall v, k | 0 <= v < g.N() && 0 <= k < |g.deps[v]|
        ensures IsSlot(g, v, k)
      {
        OrderedAt(order, |t|, v);
        assert DepAt(t[order[v]], k) in t[order[v]].idx;
      }
    }
  }

  /** The edges of the run are the links between vertices with a context; the slots that nobody fills hang on
      the place after the last. */
  lemma RunGraphEdges(t: Table, order: seq<nat>, settings: Settings, u: nat, v: nat)
    requires Consistent(t) && Numbers(order, |t|)
    ensures u < |order| && v < |order| ==>
              ((u, v) in Edges(RunGraph(t, order, settings)) <==> (order[u], order[v]) in TableEdges(t))
    ensures (u, v) in Edges(RunGraph(t, order, settings)) ==> u <= |order| && v < |order|
  {
    var g := RunGraph(t, order, settings);
    if v < |order| {
      var q := order[v];
      OrderedAt(order, |t|, v);
      assert Dense(t[q]);
      if u < |order| {
        OrderedAt(order, |t|, u);
        if (order[u], q) in TableEdges(t) {
          var k := t[q].idx[order[u]];
          assert DepAt(t[q], k) == order[u];
          assert g.deps[v][k] == u;
        }
      }
    }
  }

  /** The links between vertices with a context. */
  ghost function KeptEdges(t: Table, order: seq<nat>): set<(nat, nat)> {
    set e | e in TableEdges(t) && e.0 in order && e.1 in order
  }

  ghost function RunRank(t: Table, order: seq<nat>, v: nat): nat {
    if v < |order| then 1 + Rank(KeptEdges(t, order), order[v]) else 0
  }

  /** The run has no cycle when no vertex with a context lies on one. */
  lemma RunGraphIsAcyclic(t: Table, order: seq<nat>, settings: Settings)
    requires Consistent(t) && Numbers(order, |t|)
    requires forall p :: p in order ==> !Reaches(TableEdges(t), p, p)
    ensures Acyclic(Edges(RunGraph(t, order, settings)))
  {
    var g, kept := RunGraph(t, order, settings), KeptEdges(t, order);
    forall p
      ensures !Reaches(kept, p, p)
    {
      if Reaches(kept, p, p) {
        var x := FirstEdge(kept, p, p);
        ReachesMore(kept, TableEdges(t), p, p);
      }
    }
    forall e | e in Edges(g)
      ensures RunRank(t, order, e.0) < RunRank(t, order, e.1)
    {
      RunGraphEdges(t, order, settings, e.0, e.1);
      OrderedAt(order, |t|, e.1);
      if e.0 < |order| {
        OrderedAt(order, |t|, e.0);
        RankClimbs(kept, order[e.0], order[e.1]);
      }
    }
    ClimbingIsAcyclic(Edges(g), (v: nat) => RunRank(t, order, v));
  }

  /** All positions. */
  function Whole(n: nat): (order: seq<nat>)
    ensures |order| == n && Numbers(order, n)
  {
    seq(n, v => v)
  }

  lemma WholeAt(n: nat, v: nat)
    requires v < n
    ensures Whole(n)[v] == v && v in Whole(n) && IndexOf(Whole(n), v) == v
  {
    assert Whole(n)[v] == v;
  }

  /** When every vertex has a context the run-time graph is the compiled graph. */
  lemma WholeGraphRuns(t: Table, settings: Settings)
    requires Consistent(t) && 0 < |t| < 0x1_0000_0000 && Suits(settings, |t|)
    ensures WellFormed(RunGraph(t, Whole(|t|), settings))
    ensures Edges(RunGraph(t, Whole(|t|), settings)) == TableEdges(t)
  {
    var order := Whole(|t|);
    forall u, i | 0 <= u < |t| && 0 <= i < |t[u].succ|
      ensures t[u].succ[i] in order
    {
      SuccessorHasSlot(t, u, i);
      WholeAt(|t|, t[u].succ[i]);
    }
    forall v, u | 0 <= v < |t| && u in t[v].idx
      ensures u in order
    {
      assert Ranged(t[v], |t|);
      WholeAt(|t|, u);
    }
    RunGraphIsAssembled(t, order, settings);
    RunGraphIsWellFormed(t, order, settings);
    forall u: nat, v: nat
      ensures (u, v) in Edges(RunGraph(t, order, settings)) <==> (u, v) in TableEdges(t)
    {
      RunGraphEdges(t, order, settings, u, v);
    }
  }
}
