/** From the compiler to the executor: exactly which accepted declarations run to the end, and why every theorem
    about runs applies to them. */
module RuntimeGraph {
  import opened Options
  import opened Digraph
  import opened Links
  import opened GraphDecl
  import opened GraphEdges
  import opened GraphListing
  import opened CycleSearch
  import opened GraphBuild
  import opened CompiledGraph
  import opened Acceptance
  import opened Protocol
  import opened RunTheorems
  import opened SetupGraph
  import opened Determinism

  // ---------------------------------------------------------------- accepted graphs

  /** A build that returns 0. */
  ghost predicate Accepted(env: Env, decls: seq<Decl>) {
    && BuildLinks(env, decls).Some?
    && (exists fuel: nat :: BuildCode(env, decls, fuel) == Some(0))
    && |BuildLinks(env, decls).value.links| < 0x1_0000_0000
  }

  /** The vertices that the id table lists. */
  ghost function OrderOf(env: Env, decls: seq<Decl>): (order: seq<nat>)
    requires Accepted(env, decls)
    ensures Numbers(order, |BuildLinks(env, decls).value.links|)
  {
    ListedOrder(BuildLinks(env, decls).value)
  }

  /** The graph that an accepted declaration runs as. */
  ghost function GraphOf(env: Env, decls: seq<Decl>, settings: Settings): Protocol.Graph
    requires Accepted(env, decls)
  {
    BuiltRanged(env, decls);
    RunGraph(BuildLinks(env, decls).value.links, OrderOf(env, decls), settings)
  }

  /** `SetupSuccessors` aborts at a link from a listed to an unlisted vertex. */
  ghost predicate SetupAborts(b: Built) {
    exists u, v :: Listed(b, u) && !Listed(b, v) && LinkedTo(b.links, u, v)
  }

  /** No link between a listed and an unlisted vertex. */
  ghost predicate Apart(b: Built) {
    forall u, v :: LinkedTo(b.links, u, v) ==> (Listed(b, u) <==> Listed(b, v))
  }

  lemma OrderLists(env: Env, decls: seq<Decl>)
    requires Accepted(env, decls)
    ensures var b, order := BuildLinks(env, decls).value, OrderOf(env, decls);
            && (forall p :: p in order <==> Listed(b, p)) && 0 < |order| <= |b.links| && Consistent(b.links)
  {
    var b, order := BuildLinks(env, decls).value, OrderOf(env, decls);
    BuiltRanged(env, decls);
    BuildStages(env, decls);
    AcceptedIff(env, decls);
    forall p
      ensures p in order <==> Listed(b, p)
    {
      ListedOrderIs(env, decls, p);
    }
    ListedIff(env, decls, |b.links| - 1);
    NoReplacedLast(env, decls, |b.links| - 1);
    DistinctBelow(order, |b.links|);
  }

  /** A vertex without later ones is not replaced. */
  lemma NoReplacedLast(env: Env, decls: seq<Decl>, p: nat)
    ensures p + 1 == |decls| ==> !Replaced(env, decls, p)
  {
  }

  lemma {:induction false} DistinctBelow(order: seq<nat>, n: nat)
    requires forall i, j :: 0 <= i < j < |order| ==> order[i] < order[j]
    requires InTable(order, n)
    ensures |order| <= n
  {
    if order != [] {
      DistinctBelow(order[..|order| - 1], order[|order| - 1]);
    }
  }

  lemma SuccessorsKeptIff(t: Table, order: seq<nat>)
    requires Consistent(t)
    ensures SuccessorsKept(t, order) <==> forall u, v :: LinkedTo(t, u, v) && u in order ==> v in order
  {
    forall u, v | 0 <= u < |t|
      ensures v in t[u].succ <==> LinkedTo(t, u, v)
    {
      LinkedIs(t, u, v);
    }
    if SuccessorsKept(t, order) {
      forall u: nat, v: nat | LinkedTo(t, u, v) && u in order
        ensures v in order
      {
        var i :| 0 <= i < |t[u].succ| && t[u].succ[i] == v;
      }
    } else {
      var u, i :| 0 <= u < |t| && u in order && 0 <= i < |t[u].succ| && t[u].succ[i] !in order;
      assert LinkedTo(t, u, t[u].succ[i]);
    }
  }

  lemma DependenciesKeptIff(t: Table, order: seq<nat>)
    requires Consistent(t)
    ensures DependenciesKept(t, order) <==> forall u, v :: LinkedTo(t, u, v) && v in order ==> u in order
  {
    forall u, v | 0 <= v < |t|
      ensures u in t[v].idx <==> LinkedTo(t, u, v)
    {
      LinkedIs(t, u, v);
    }
  }

  lemma KeptIff(env: Env, decls: seq<Decl>)
    requires Accepted(env, decls)
    ensures var b, order := BuildLinks(env, decls).value, OrderOf(env, decls);
            && (SuccessorsKept(b.links, order) <==> !SetupAborts(b))
            && (Apart(b) <==> SuccessorsKept(b.links, order) && DependenciesKept(b.links, order))
  {
    OrderLists(env, decls);
    SuccessorsKeptIff(BuildLinks(env, decls).value.links, OrderOf(env, decls));
    DependenciesKeptIff(BuildLinks(env, decls).value.links, OrderOf(env, decls));
  }

  /** An accepted declaration that can be set up runs as an acyclic graph. */
  lemma AcceptedIsRunnable(env: Env, decls: seq<Decl>, settings: Settings)
    requires Accepted(env, decls) && !SetupAborts(BuildLinks(env, decls).value)
    requires Suits(settings, |OrderOf(env, decls)|)
    ensures var g := GraphOf(env, decls, settings);
            && Assembled(g) && Acyclic(Edges(g)) && g.N() == |OrderOf(env, decls)|
            && (WellFormed(g) <==> Apart(BuildLinks(env, decls).value))
  {
    var b, order := BuildLinks(env, decls).value, OrderOf(env, decls);
    OrderLists(env, decls);
    KeptIff(env, decls);
    RunGraphIsAssembled(b.links, order, settings);
    RunGraphIsWellFormed(b.links, order, settings);
    AcceptedIff(env, decls);
    forall p | p in order
      ensures !Reaches(TableEdges(b.links), p, p)
    {
      assert !MeetsCycle(TableEdges(b.links), p);
    }
    RunGraphIsAcyclic(b.links, order, settings);
  }

  /** The declaration can be set up, and every maximal run calls done once. */
  ghost predicate RunsToTheEnd(env: Env, decls: seq<Decl>, settings: Settings)
    requires Accepted(env, decls) && Suits(settings, |OrderOf(env, decls)|)
  {
    && !SetupAborts(BuildLinks(env, decls).value)
    && (AcceptedIsRunnable(env, decls, settings); Finishes(GraphOf(env, decls, settings)))
  }

  /** An accepted declaration runs to the end exactly if no link joins a listed and an unlisted vertex, that is,
      one whose id a later vertex generates for its condition. */
  lemma AcceptedCompletesIff(env: Env, decls: seq<Decl>, settings: Settings)
    requires Accepted(env, decls) && Suits(settings, |OrderOf(env, decls)|)
    ensures RunsToTheEnd(env, decls, settings) <==> Apart(BuildLinks(env, decls).value)
  {
    KeptIff(env, decls);
    if !SetupAborts(BuildLinks(env, decls).value) {
      AcceptedIsRunnable(env, decls, settings);
      FinishesIff(GraphOf(env, decls, settings));
    }
  }

  /** The vertex keeps its place in the id table, by what the declaration says. */
  ghost predicate Stays(env: Env, decls: seq<Decl>, p: nat) {
    p >= |decls| || !Replaced(env, decls, p)
  }

  /** The condition, on the declaration: no edge that it asks for joins a vertex that stays and one that is
      replaced. */
  lemma ApartIff(env: Env, decls: seq<Decl>)
    requires BuildLinks(env, decls).Some?
    ensures var b := BuildLinks(env, decls).value;
            && |b.sym.decls| == b.sym.m == |decls|
            && (Apart(b) <==> forall u: nat, v: nat :: u < b.sym.Total() && v < b.sym.Total() && Declared(b.sym, decls, u, v) ==>
                                (Stays(env, decls, u) <==> Stays(env, decls, v)))
  {
    BuildStages(env, decls);
    BuiltRanged(env, decls);
    var b := BuildLinks(env, decls).value;
    forall u: nat, v: nat | u < b.sym.Total() && v < b.sym.Total()
      ensures LinkedTo(b.links, u, v) <==> Declared(b.sym, decls, u, v)
    {
      EdgeIffDeclared(env, decls, u, v);
    }
    forall p: nat | p < b.sym.Total()
      ensures Listed(b, p) <==> Stays(env, decls, p)
    {
      ListedIff(env, decls, p);
    }
  }

  /** Without a clash of ids the run is that of the whole compiled graph. */
  lemma NoClashRunsWhole(env: Env, decls: seq<Decl>)
    requires Accepted(env, decls) && NoClash(env, decls)
    ensures var b := BuildLinks(env, decls).value;
            && OrderOf(env, decls) == Whole(|b.links|) && Apart(b) && !SetupAborts(b)
            && Consistent(b.links) && |b.links| > 0 && Acyclic(TableEdges(b.links))
  {
    var b := BuildLinks(env, decls).value;
    OrderLists(env, decls);
    BuiltRanged(env, decls);
    BuildStages(env, decls);
    AcceptedIffAcyclic(env, decls);
    forall p: nat | p < |b.links|
      ensures Listed(b, p)
    {
      ListedIff(env, decls, p);
    }
    ListingIsWhole(b.sym.nodes.Values, |b.links|);
  }

  lemma {:induction false} ListingIsWhole(listed: set<nat>, n: nat)
    requires forall p: nat :: p < n ==> p in listed
    ensures Listing(listed, n) == Whole(n)
  {
    if n > 0 {
      ListingIsWhole(listed, n - 1);
      assert Whole(n) == Whole(n - 1) + [n - 1];
    }
  }

  /** An accepted graph whose listed vertices are linked with no others always runs to the end: wherever a run
      stands, an action is possible or done has been called; a complete run has entered every listed vertex
      once, told every successor once and called done once. */
  lemma AcceptedGraphCompletes(env: Env, decls: seq<Decl>, settings: Settings, r: Run, v: nat)
    requires Accepted(env, decls) && Apart(BuildLinks(env, decls).value) && Suits(settings, |OrderOf(env, decls)|)
    requires Assembled(GraphOf(env, decls, settings)) && Schedule(GraphOf(env, decls, settings), r)
    requires v < GraphOf(env, decls, settings).N()
    ensures var g := GraphOf(env, decls, settings);
            && (Complete(g, r) <==> |After(g, r).calls| == 1)
            && (Complete(g, r) ==> Entries(g, r, v) == 1 && Tellings(g, r, v) == |g.succs[v]|)
            && (g.whileVertex.None? ==> Length(r) <= RoundLength(g))
  {
    KeptIff(env, decls);
    AcceptedIsRunnable(env, decls, settings);
    var g := GraphOf(env, decls, settings);
    DoneAtMostOnce(g, r);
    ExactlyOnce(g, r, v);
    if Complete(g, r) {
      var c := CompleteRunIsDone(g, r);
    }
    if g.whileVertex.None? {
      BoundedRun(g, r);
    }
  }

  /** Otherwise a vertex that depends on an unlisted one waits forever, and done is never called. */
  lemma ClashNeverDone(env: Env, decls: seq<Decl>, settings: Settings, r: Run, u: nat, v: nat)
    requires Accepted(env, decls) && !SetupAborts(BuildLinks(env, decls).value) && Suits(settings, |OrderOf(env, decls)|)
    requires var b := BuildLinks(env, decls).value; LinkedTo(b.links, u, v) && !Listed(b, u) && Listed(b, v)
    requires Assembled(GraphOf(env, decls, settings)) && Schedule(GraphOf(env, decls, settings), r)
    ensures var g := GraphOf(env, decls, settings);
            var i := IndexOf(OrderOf(env, decls), v);
            After(g, r).calls == [] && i < g.N() && After(g, r).vs[i].phase.Waiting?
  {
    var b, order, g := BuildLinks(env, decls).value, OrderOf(env, decls), GraphOf(env, decls, settings);
    OrderLists(env, decls);
    assert Dense(b.links[v]);
    var k := b.links[v].idx[u];
    SlotHasOwner(b.links, order, settings, IndexOf(order, v), k);
    assert DepAt(b.links[v], k) == u;
    OrphanWaits(g, r, IndexOf(order, v), k);
  }

  // ---------------------------------------------------------------- data

  ghost function Published(n: Decl): set<string> {
    set o | o in n.output :: o.id
  }

  function Injected(input: seq<Datum>): seq<string> {
    if input == [] then [] else Injected(input[..|input| - 1]) + Ids(input[|input| - 1])
  }

  /** A declaration in which no vertex moves a datum through itself. */
  ghost predicate NoInOut(s: Symbols) {
    forall v, d :: 0 <= v < |s.decls| && d in s.decls[v].input ==> !d.isInOut
  }

  function InputsAt(s: Symbols, p: nat): seq<string> {
    if p < |s.decls| then Injected(s.decls[p].input) else []
  }

  ghost function OutputsAt(s: Symbols, p: nat): set<string> {
    if p < |s.decls| then Published(s.decls[p]) else {}
  }

  /** The behaviour reads and publishes what the running vertices declare; generated vertices touch no data. */
  ghost predicate Follows(s: Symbols, order: seq<nat>, b: Behaviour) {
    && |b.gate| == |b.consumes| == |b.produces| == |order|
    && (forall v :: 0 <= v < |order| ==> b.consumes[v] == InputsAt(s, order[v]) && b.produces[v] == OutputsAt(s, order[v]))
    && (forall v: nat, ins :: v < |order| ==> b.run(v, ins).1.Keys <= b.produces[v])
  }

  lemma {:induction false} InjectedHasSource(input: seq<Datum>, id: string) returns (d: Datum)
    requires id in Injected(input)
    ensures d in input && id in Ids(d)
  {
    d := input[|input| - 1];
    if id !in Ids(d) {
      d := InjectedHasSource(input[..|input| - 1], id);
    }
  }

  lemma PublishedIs(n: Decl, id: string)
    ensures id in Published(n) <==> Produces(n, id)
  {
    if id in Published(n) {
      var o :| o in n.output && o.id == id;
      var i :| 0 <= i < |n.output| && n.output[i] == o;
    }
    if Produces(n, id) {
      var i :| 0 <= i < |n.output| && n.output[i].id == id;
      assert n.output[i] in n.output;
    }
  }

  lemma ReaderDependsOnProducer(env: Env, decls: seq<Decl>, u: nat, v: nat, id: string)
    requires BuildLinks(env, decls).Some?
    requires var s := BuildLinks(env, decls).value.sym;
             NoInOut(s) && u < |s.decls| && v < |s.decls| && id in Injected(s.decls[v].input) && Produces(s.decls[u], id)
    ensures v < |BuildLinks(env, decls).value.links| && u in BuildLinks(env, decls).value.links[v].idx
  {
    EdgeIffDeclared(env, decls, u, v);
    var s := BuildLinks(env, decls).value.sym;
    var d := InjectedHasSource(s.decls[v].input, id);
    assert ReadsDatum(s, v, u, d, id);
    assert Declared(s, decls, u, v);
  }

  lemma OneProducer(s: Symbols, u: nat, v: nat, d: string)
    requires DataInv(s.decls, s.data) && d in OutputsAt(s, u) && d in OutputsAt(s, v)
    ensures u == v
  {
    PublishedIs(s.decls[u], d);
    PublishedIs(s.decls[v], d);
    ProducerIs(s.decls, s.data, d, u);
    ProducerIs(s.decls, s.data, d, v);
  }

  lemma DependencyHasSlot(t: Table, order: seq<nat>, settings: Settings, u: nat, v: nat)
    requires Consistent(t) && Numbers(order, |t|) && u < |order| && v < |order| && order[u] in t[order[v]].idx
    ensures u in RunGraph(t, order, settings).deps[v]
  {
    RunGraphEdges(t, order, settings, u, v);
    OrderedAt(order, |t|, v);
    assert (order[u], order[v]) in TableEdges(t);
  }

  lemma ReaderWaits(env: Env, decls: seq<Decl>, u: nat, v: nat, d: string)
    requires BuildLinks(env, decls).Some?
    requires var s := BuildLinks(env, decls).value.sym; NoInOut(s) && d in OutputsAt(s, u) && d in InputsAt(s, v)
    ensures v < |BuildLinks(env, decls).value.links| && u in BuildLinks(env, decls).value.links[v].idx
  {
    PublishedIs(BuildLinks(env, decls).value.sym.decls[u], d);
    ReaderDependsOnProducer(env, decls, u, v, d);
  }

  /** The compiler gives the executor what data flow needs: one producer per datum, and a dependency of every
      reader on it. */
  lemma AcceptedGraphFits(env: Env, decls: seq<Decl>, settings: Settings, b: Behaviour)
    requires Accepted(env, decls)
    requires var s := BuildLinks(env, decls).value.sym; NoInOut(s) && Follows(s, OrderOf(env, decls), b)
    ensures Fits(GraphOf(env, decls, settings), b)
  {
    BuildStages(env, decls);
    OrderLists(env, decls);
    var s, t, order := BuildLinks(env, decls).value.sym, BuildLinks(env, decls).value.links, OrderOf(env, decls);
    var g := GraphOf(env, decls, settings);
    forall u, v, d | 0 <= u < g.N() && 0 <= v < g.N() && d in b.produces[u] && d in b.produces[v]
      ensures u == v
    {
      OneProducer(s, order[u], order[v], d);
    }
    forall u, v, d | 0 <= u < g.N() && 0 <= v < g.N() && d in b.produces[u] && d in b.consumes[v]
      ensures u in g.deps[v]
    {
      ReaderWaits(env, decls, order[u], order[v], d);
      DependencyHasSlot(t, order, settings, u, v);
    }
  }

  /** Data-flow determinism of an accepted declaration: all complete runs over the same outside data end with
      the same data, results and codes, those of the sequential evaluator; and a vertex that injects its
      inputs finds every producer finished. */
  lemma AcceptedGraphIsDeterministic(env: Env, decls: seq<Decl>, settings: Settings, b: Behaviour, r: Run)
    requires Accepted(env, decls) && Apart(BuildLinks(env, decls).value) && Suits(settings, |OrderOf(env, decls)|)
    requires var s := BuildLinks(env, decls).value.sym; NoInOut(s) && Follows(s, OrderOf(env, decls), b)
    requires SingleRound(GraphOf(env, decls, settings))
    ensures var g := GraphOf(env, decls, settings);
            && Runnable(g, b)
            && (Complete(g, r) && FaithfulSchedule(g, b, r) ==>
                  && After(g, r).table == FinalTable(g, b) && After(g, r).calls == [0]
                  && forall v :: 0 <= v < g.N() ==>
                       After(g, r).vs[v].result == Eval(g, b, v).result && After(g, r).vs[v].code == Eval(g, b, v).code)
  {
    KeptIff(env, decls);
    AcceptedIsRunnable(env, decls, settings);
    AcceptedGraphFits(env, decls, settings, b);
    var g := GraphOf(env, decls, settings);
    if Complete(g, r) && FaithfulSchedule(g, b, r) {
      ScheduleIndependence(g, b, r);
    }
  }
}
