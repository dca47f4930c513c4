/** How `GraphCluster::Build` turns a vertex with a while condition into a graph of its own, and why every such
    graph that compiles is the loop of module WhileLoop. */
module WhileGeneration {
  import opened Options
  import opened VertexResults
  import opened Digraph
  import opened Links
  import opened GraphDecl
  import opened GraphEdges
  import opened GraphListing
  import opened GraphBuild
  import opened CompiledGraph
  import opened Expectations
  import opened SetupGraph
  import opened RuntimeGraph
  import opened WhileLoop

  /** A vertex with its while condition and its flags, and a graph; `isWhile`: generated for a while vertex. */
  datatype WhileVertex = WhileVertex(decl: Decl, whileCond: string, ignoreError: bool, earlyExit: bool)

  datatype GraphDef = GraphDef(name: string, genWhile: bool, isWhile: bool, earlyExit: bool, vertices: seq<WhileVertex>)

  /** The condition vertex "0", evaluating an expression or running a processor, and the body "1". */
  function WhileDecls(defaultExpr: string, cond: string, isExpr: bool, n: Decl): seq<Decl> {
    var condition := NO_DECL.(id := "0", consequent := ["1"]);
    [if isExpr then condition.(processor := defaultExpr, cond := cond) else condition.(processor := cond),
     NO_DECL.(id := "1", processor := n.processor, cluster := n.cluster, graph := n.graph)]
  }

  function Generated(f: GraphDef, k: nat, defaultExpr: string, isExpr: string -> bool, v: WhileVertex): GraphDef {
    var ds := WhileDecls(defaultExpr, v.whileCond, isExpr(v.whileCond), v.decl);
    GraphDef(f.name + "_while_" + Digits(k), false, true, false,
             [WhileVertex(ds[0], "", true, false), WhileVertex(ds[1], "", true, false)])
  }

  /** The vertex as it stays behind: it runs the generated graph. */
  function Calls(cluster: string, name: string, v: WhileVertex): WhileVertex {
    v.(decl := v.decl.(processor := "", cluster := cluster, graph := name), whileCond := "")
  }

  /** How many of the first i vertices have a while condition. */
  function WhileCount(vertices: seq<WhileVertex>, i: nat): nat
    requires i <= |vertices|
  {
    if i == 0 then 0 else WhileCount(vertices, i - 1) + if vertices[i - 1].whileCond == "" then 0 else 1
  }

  lemma {:induction false} WhileCountGrows(vertices: seq<WhileVertex>, i: nat, j: nat)
    requires i <= j <= |vertices|
    ensures WhileCount(vertices, i) <= WhileCount(vertices, j)
    decreases j
  {
    if i < j {
      WhileCountGrows(vertices, i, j - 1);
    }
  }

  /** Vertex "0", which goes on to "1" when it succeeds: the while condition itself if that is an expression, or else
      the processor of that name. */
  predicate IsCondition(c: Decl, defaultExpr: string, isExpr: bool, cond: string) {
    && c == NO_DECL.(id := "0", consequent := ["1"], processor := c.processor, cond := c.cond)
    && (isExpr ==> c.processor == defaultExpr && c.cond == cond)
    && (!isExpr ==> c.processor == cond && c.cond == "")
  }

  /** Vertex "1", which runs what n ran. */
  predicate IsBody(c: Decl, n: Decl) {
    c == NO_DECL.(id := "1", processor := n.processor, cluster := n.cluster, graph := n.graph)
  }

  /** gen loops over what v ran while v's condition succeeds; `left` is v as it stays behind, to run gen. */
  predicate LoopsOver(cluster: string, defaultExpr: string, isExpr: string -> bool,
                      v: WhileVertex, gen: GraphDef, left: WhileVertex)
  {
    && gen.isWhile && !gen.genWhile && !gen.earlyExit && |gen.vertices| == 2
    && IsCondition(gen.vertices[0].decl, defaultExpr, isExpr(v.whileCond), v.whileCond)
    && IsBody(gen.vertices[1].decl, v.decl)
    && (forall x :: x in gen.vertices ==> x.whileCond == "" && x.ignoreError && !x.earlyExit)
    && left == v.(decl := v.decl.(processor := "", cluster := cluster, graph := gen.name), whileCond := "")
  }

  lemma GeneratedLoops(cluster: string, defaultExpr: string, isExpr: string -> bool, f: GraphDef, k: nat, v: WhileVertex)
    ensures var gen := Generated(f, k, defaultExpr, isExpr, v);
            && LoopsOver(cluster, defaultExpr, isExpr, v, gen, Calls(cluster, gen.name, v))
            && gen.name == f.name + "_while_" + Digits(k)
  {
  }

  /** Vertex i of f calls its own generated graph, or is untouched when it has no while condition. */
  ghost predicate Expanded(cluster: string, defaultExpr: string, isExpr: string -> bool,
                           f: GraphDef, done: seq<WhileVertex>, gens: seq<GraphDef>, i: nat)
    requires i < |f.vertices| && i < |done|
  {
    var v, k := f.vertices[i], WhileCount(f.vertices, i);
    if v.whileCond == "" then done[i] == v
    else
      && k < |gens| && gens[k].name == f.name + "_while_" + Digits(k)
      && LoopsOver(cluster, defaultExpr, isExpr, v, gens[k], done[i])
  }

  class GraphCluster {
    const name: string
    const defaultExpr: string
    var graph: seq<GraphDef>

    constructor (name: string, defaultExpr: string, graph: seq<GraphDef>)
      ensures this.name == name && this.defaultExpr == defaultExpr && this.graph == graph
    {
      this.name, this.defaultExpr, this.graph := name, defaultExpr, graph;
    }

    /** The inner loop: each while vertex gets a graph of its own, numbered in order. */
    method ExpandGraph(f: GraphDef, isExpr: string -> bool) returns (r: GraphDef, gens: seq<GraphDef>)
      ensures r == f.(vertices := r.vertices) && |r.vertices| == |f.vertices|
      ensures |gens| == WhileCount(f.vertices, |f.vertices|)
      ensures forall i :: 0 <= i < |f.vertices| ==> Expanded(name, defaultExpr, isExpr, f, r.vertices, gens, i)
    {
      var done: seq<WhileVertex> := [];
      gens := [];
      for i := 0 to |f.vertices|
        invariant |done| == i && |gens| == WhileCount(f.vertices, i)
        invariant forall j :: 0 <= j < i ==> Expanded(name, defaultExpr, isExpr, f, done, gens, j)
      {
        var v := f.vertices[i];
        ghost var before, sofar := done, gens;
        if v.whileCond == "" {
          done := done + [v];
        } else {
          var g := Generated(f, |gens|, defaultExpr, isExpr, v);
          gens := gens + [g];
          done := done + [Calls(name, g.name, v)];
          GeneratedLoops(name, defaultExpr, isExpr, f, |gens| - 1, v);
        }
        forall j | 0 <= j < i + 1
          ensures Expanded(name, defaultExpr, isExpr, f, done, gens, j)
        {
          if j < i {
            assert Expanded(name, defaultExpr, isExpr, f, before, sofar, j);
          }
        }
      }
      r := f.(vertices := done);
    }

    /** The generation loop of `Build`, over the graphs present at entry; generated graphs come after them. */
    method GenerateWhileGraphs(isExpr: string -> bool) returns (ghost gens: seq<seq<GraphDef>>)
      modifies this
      ensures |gens| == |old(graph)| <= |graph|
      ensures graph[|old(graph)|..] == Flatten(gens)
      ensures forall i :: 0 <= i < |old(graph)| ==> Replaced(old(graph)[i], graph[i], gens[i], isExpr)
    {
      var n := |graph|;
      gens := [];
      var i := 0;
      while i < n
        invariant i <= n == |old(graph)| <= |graph| && |gens| == i
        invariant graph[n..] == Flatten(gens)
        invariant forall j :: i <= j < n ==> graph[j] == old(graph)[j]
        invariant forall j :: 0 <= j < i ==> Replaced(old(graph)[j], graph[j], gens[j], isExpr)
      {
        var more: seq<GraphDef> := [];
        if graph[i].genWhile {
          var r;
          r, more := ExpandGraph(graph[i], isExpr);
          graph := graph[i := r] + more;
        }
        assert (gens + [more])[..i] == gens;
        gens := gens + [more];
        i := i + 1;
      }
    }

    ghost predicate Replaced(f: GraphDef, r: GraphDef, gens: seq<GraphDef>, isExpr: string -> bool) {
      if !f.genWhile then r == f && gens == []
      else
        && r == f.(vertices := r.vertices) && |r.vertices| == |f.vertices|
        && |gens| == WhileCount(f.vertices, |f.vertices|)
        && forall i :: 0 <= i < |f.vertices| ==> Expanded(name, defaultExpr, isExpr, f, r.vertices, gens, i)
    }
  }

  ghost function Flatten<T>(s: seq<seq<T>>): seq<T> {
    if s == [] then [] else Flatten(s[..|s| - 1]) + s[|s| - 1]
  }

  /** No two vertices of a graph share a generated graph. */
  lemma GeneratedNamesDiffer(cluster: string, defaultExpr: string, isExpr: string -> bool,
                             f: GraphDef, done: seq<WhileVertex>, gens: seq<GraphDef>, i: nat, j: nat)
    requires i < j < |f.vertices| == |done|
    requires Expanded(cluster, defaultExpr, isExpr, f, done, gens, i) && Expanded(cluster, defaultExpr, isExpr, f, done, gens, j)
    requires f.vertices[i].whileCond != "" && f.vertices[j].whileCond != ""
    ensures done[i].decl.graph != done[j].decl.graph
  {
    var m, n := WhileCount(f.vertices, i), WhileCount(f.vertices, j);
    WhileCountGrows(f.vertices, i + 1, j);
    var p := f.name + "_while_";
    if p + Digits(m) == p + Digits(n) {
      assert Digits(m) == (p + Digits(m))[|p|..] == (p + Digits(n))[|p|..] == Digits(n);
      DigitsInjective(m, n);
    }
  }

  // ---------------------------------------------------------------- the generated graph is the loop

  lemma NoExpectNoGenerated(s: Symbols, decls: seq<Decl>)
    requires CondInv(s, decls) && forall j :: 0 <= j < |decls| ==> decls[j].expectation == ""
    ensures s.gens == []
  {
    assert |s.gens| > 0 ==> IsCond(s, decls, 0);
  }

  /** Without an `expect` no id is generated for a condition. */
  lemma NoExpectNoClash(env: Env, decls: seq<Decl>)
    requires forall j :: 0 <= j < |decls| ==> decls[j].expectation == ""
    ensures NoClash(env, decls)
  {
  }

  /** Two vertices "0" and "1" without an `expect`; "1" is the only successor that "0" names. */
  predicate ConditionAndBody(decls: seq<Decl>) {
    && |decls| == 2 && decls[0].id == "0" && decls[1].id == "1"
    && (forall j :: 0 <= j < |decls| ==> decls[j].expectation == "")
    && decls[0].consequent == ["1"] && decls[0].successor == [] && decls[0].successorOnOk == []
  }

  /** The symbols of a compiled pair with ids "0" and "1", whatever fields their processors add. */
  lemma PairSymbols(env: Env, decls: seq<Decl>)
    requires BuildLinks(env, decls).Some? && ConditionAndBody(decls)
    ensures var b := BuildLinks(env, decls).value;
            && b.sym.gens == [] && b.sym.m == |b.sym.decls| == |b.links| == 2 && Consistent(b.links)
            && 0 in b.links[1].idx && HasExpectation(b.links[1], 0, V_RESULT_OK)
  {
    BuildIsCompiled(env, decls);
    BuiltRanged(env, decls);
    var s := BuildLinks(env, decls).value.sym;
    NoExpectNoGenerated(s, decls);
    assert Normalised(s, decls[0], s.decls[0]) && Normalised(s, decls[1], s.decls[1]);
    DenotesIff(env, decls, s, "1", 1);
    assert Denotes(s, "1", 1);
    SuccessorIsOne(s);
    EdgeExpectsFirstAsked(env, decls, 0, 1);
  }

  lemma SuccessorIsOne(s: Symbols)
    requires |s.decls| == s.m == 2 && s.gens == []
    requires s.decls[0].successor == [] && s.decls[0].successorOnOk == ["1"]
    requires "1" in s.nodes && s.nodes["1"] == 1
    ensures Asked(s, 0, 1) == Some(V_RESULT_OK)
  {
    assert "1" in s.decls[0].successorOnOk;
    assert Refers(s.nodes, s.decls[0].successorOnOk, 1);
  }

  /** Two vertices with the edge 0 → 1 and no cycle have no other edge. */
  lemma OnlyEdge(t: Table)
    requires Consistent(t) && |t| == 2 && Acyclic(TableEdges(t)) && 0 in t[1].idx
    ensures t[0].idx == map[] && t[1].idx == map[0 := 0] && t[0].succ == [1] && t[1].succ == []
  {
    var edges := TableEdges(t);
    assert (0, 1) in edges;
    EdgeReaches(edges, 0, 1);
    forall v, u | 0 <= v < 2 && u in t[v].idx
      ensures u == 0 && v == 1
    {
      assert Ranged(t[v], 2);
      assert (u, v) in edges;
      EdgeReaches(edges, u, v);
      if u == 1 && v == 0 {
        ReachesTransitive(edges, 0, 1, 0);
      }
    }
    forall u, i | 0 <= u < 2 && 0 <= i < |t[u].succ|
      ensures u == 0 && t[u].succ[i] == 1
    {
      SuccessorHasSlot(t, u, i);
    }
    OnlySlot(t[1]);
    assert Mirror(t, 0, 1);
    DistinctBound(t[0].succ, {1});
    assert t[0].succ == [1];
    DistinctBound(t[1].succ, {});
    assert t[0].idx.Keys == {};
  }

  lemma OnlySlot(x: VertexLinks)
    requires Dense(x) && 0 in x.idx && forall u :: u in x.idx ==> u == 0
    ensures x.idx == map[0 := 0]
  {
    assert x.idx.Keys == {0};
    assert |x.idx| == |x.idx.Keys| == 1;
  }

  lemma {:induction false} DistinctBound<T>(s: seq<T>, bound: set<T>)
    requires forall i :: 0 <= i < |s| ==> s[i] in bound
    requires forall i, j :: 0 <= i < j < |s| ==> s[i] != s[j]
    ensures |s| <= |bound|
  {
    if s != [] {
      DistinctBound(s[..|s| - 1], bound - {s[|s| - 1]});
    }
  }

  function DeclsOf(f: GraphDef): seq<Decl> {
    seq(|f.vertices|, i requires 0 <= i < |f.vertices| => f.vertices[i].decl)
  }

  /** The flags that the executor looks at; those of the conditions that the build generates are the defaults. */
  function OptionsAt(f: GraphDef, p: nat): Protocol.VertexOptions {
    if p < |f.vertices| then
      var v := f.vertices[p];
      Protocol.VertexOptions(v.ignoreError, IsCondVertex(v.decl), v.earlyExit)
    else Protocol.VertexOptions(true, true, false)
  }

  /** The vertices without dependencies, in any order. */
  ghost predicate IsStartList(g: Protocol.Graph, starts: seq<nat>) {
    forall v: nat :: v in starts <==> v < g.N() && g.deps[v] == []
  }

  /** What `Setup` takes from the definition: the flags, and the first start vertex to repeat a generated graph. */
  ghost predicate SetUpFrom(env: Env, f: GraphDef, settings: Settings, starts: seq<nat>)
    requires Accepted(env, DeclsOf(f))
  {
    var order := OrderOf(env, DeclsOf(f));
    && settings.options == seq(|order|, v requires 0 <= v < |order| => OptionsAt(f, order[v]))
    && settings.earlyExit == f.earlyExit
    && IsStartList(GraphOf(env, DeclsOf(f), settings), starts)
    && settings.whileVertex == if f.isWhile && starts != [] then Some(starts[0]) else None
  }

  /** Every generated while graph that compiles is set up as the loop of module WhileLoop: its condition is the only
      start vertex and has a consequent, and the generator sets no early-exit flag. */
  lemma GeneratedGraphIsLoop(env: Env, isExpr: string -> bool, v: WhileVertex, gen: GraphDef, left: WhileVertex,
                             settings: Settings, starts: seq<nat>)
    requires LoopsOver(env.cluster, env.defaultExpr, isExpr, v, gen, left)
    requires Accepted(env, DeclsOf(gen)) && SetUpFrom(env, gen, settings, starts)
    ensures IsWhileGraph(GraphOf(env, DeclsOf(gen), settings))
  {
    LoopIsPair(env, isExpr, v, gen, left);
    PairIsSetUp(env, gen, settings, starts);
  }

  /** A generated graph of two vertices without early exits. */
  predicate IsPair(f: GraphDef) {
    && f.isWhile && !f.earlyExit && ConditionAndBody(DeclsOf(f))
    && OptionsAt(f, 0).isCond && !OptionsAt(f, 0).earlyExit && !OptionsAt(f, 1).earlyExit
  }

  lemma LoopIsPair(env: Env, isExpr: string -> bool, v: WhileVertex, gen: GraphDef, left: WhileVertex)
    requires LoopsOver(env.cluster, env.defaultExpr, isExpr, v, gen, left)
    ensures IsPair(gen)
  {
    assert gen.vertices[0] in gen.vertices && gen.vertices[1] in gen.vertices;
    var decls := DeclsOf(gen);
    assert decls[0] == gen.vertices[0].decl && decls[1] == gen.vertices[1].decl;
  }

  lemma PairIsSetUp(env: Env, f: GraphDef, settings: Settings, starts: seq<nat>)
    requires IsPair(f) && Accepted(env, DeclsOf(f)) && SetUpFrom(env, f, settings, starts)
    ensures IsWhileGraph(GraphOf(env, DeclsOf(f), settings))
  {
    PairRunsWhole(env, DeclsOf(f), settings, starts);
    assert Whole(2)[0] == 0 && Whole(2)[1] == 1;
    PairIsLoop(env, DeclsOf(f), settings);
  }

  lemma PairRunsWhole(env: Env, decls: seq<Decl>, settings: Settings, starts: seq<nat>)
    requires Accepted(env, decls) && ConditionAndBody(decls) && IsStartList(GraphOf(env, decls, settings), starts)
    ensures OrderOf(env, decls) == Whole(2) && starts != [] && starts[0] == 0
  {
    PairSymbols(env, decls);
    NoExpectNoClash(env, decls);
    NoClashRunsWhole(env, decls);
    PairStarts(BuildLinks(env, decls).value.links, settings, starts);
  }

  lemma PairStarts(t: Table, settings: Settings, starts: seq<nat>)
    requires Consistent(t) && |t| == 2 && Acyclic(TableEdges(t)) && HasExpectation(t[1], 0, V_RESULT_OK)
    requires IsStartList(RunGraph(t, Whole(2), settings), starts)
    ensures starts != [] && starts[0] == 0
  {
    OnlyEdge(t);
    WholeAt(2, 0);
    WholeAt(2, 1);
    assert Dense(t[0]) && Dense(t[1]);
    assert |t[0].idx| == 0 && |t[1].idx| == 1;
    assert 0 in starts;
    assert starts[0] in starts;
  }

  lemma PairIsLoop(env: Env, decls: seq<Decl>, settings: Settings)
    requires Accepted(env, decls) && ConditionAndBody(decls)
    requires settings.whileVertex == Some(0) && |settings.options| == 2 && settings.options[0].isCond
    requires !settings.earlyExit && !settings.options[0].earlyExit && !settings.options[1].earlyExit
    ensures IsWhileGraph(GraphOf(env, decls, settings))
  {
    PairSymbols(env, decls);
    NoExpectNoClash(env, decls);
    NoClashRunsWhole(env, decls);
    LoopLinks(BuildLinks(env, decls).value.links, settings);
  }

  lemma LoopLinks(t: Table, settings: Settings)
    requires Consistent(t) && |t| == 2 && Acyclic(TableEdges(t)) && HasExpectation(t[1], 0, V_RESULT_OK)
    requires settings.whileVertex == Some(0) && |settings.options| == 2 && settings.options[0].isCond
    requires !settings.earlyExit && !settings.options[0].earlyExit && !settings.options[1].earlyExit
    ensures IsWhileGraph(RunGraph(t, Whole(2), settings))
  {
    OnlyEdge(t);
    WholeGraphRuns(t, settings);
    WholeAt(2, 0);
    WholeAt(2, 1);
    assert Dense(t[0]) && Dense(t[1]);
    assert |t[0].idx| == 0 && |t[1].idx| == 1;
  }
}
