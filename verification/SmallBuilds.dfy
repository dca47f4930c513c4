/** Small declarations and what the compiler makes of them, for module Counterexamples. */
module SmallBuilds {
  import opened Options
  import opened VertexResults
  import opened Digraph
  import opened Links
  import opened GraphDecl
  import opened CycleSearch
  import opened GraphBuild

  /** A cluster without settings, whose processors declare no fields. */
  const ENV := Env("c", "g", "P", false, {}, map[])

  const VERTEX := NO_DECL.(processor := "P")

  // ---------------------------------------------------------------- building small declarations

  /** The vertex needs no default, names its data and has no `expect`. */
  predicate Plain(d: Decl) {
    && d.id != "" && d.processor != "" && d.graph == "" && d.expectation == "" && d.expectConfig == ""
    && NameInputs(d.input) == Some(d.input) && NameOutputs(d.output) == Some(d.output)
  }

  /** Such a vertex is entered as it is declared. */
  lemma DeclarePlain(decls: seq<Decl>, i: nat, s: Symbols)
    requires i < |decls| && DeclareAll(ENV, decls, i) == Some(s) && Plain(decls[i]) && decls[i].id !in s.nodes
    requires RegisterOutputs(s.data, decls[i].output, |s.decls|).Some?
    ensures DeclareAll(ENV, decls, i + 1) ==
            Some(s.(nodes := s.nodes[decls[i].id := |s.decls|], decls := s.decls + [MergeSuccessor(decls[i])],
                    data := RegisterOutputs(s.data, decls[i].output, |s.decls|).value))
  {
    assert Prepared(ENV, decls, i) == Some((s, decls[i]));
  }

  ghost predicate Mentioned(rs: seq<Request>, p: nat) {
    exists q: nat :: Has(rs, p, q) || Has(rs, q, p)
  }

  lemma MentionedIsVerified(s: Symbols, rs: seq<Request>, p: nat)
    requires InRange(rs, s.Total()) && |s.decls| == s.m && p < s.Total() && !s.At(p).isStart && Mentioned(rs, p)
    ensures Verified(s.At(p), DependAll(Empty(s.Total()), rs)[p])
  {
    var t := DependAll(Empty(s.Total()), rs);
    LinksAre(s.Total(), rs);
    var q: nat :| Has(rs, p, q) || Has(rs, q, p);
    LinkedIs(t, p, q);
    LinkedIs(t, q, p);
  }

  /** A build whose vertices are all linked and none marked as start goes through. */
  lemma BuildIs(decls: seq<Decl>, s: Symbols, rs: seq<Request>)
    requires |decls| > 1 && DeclareAll(ENV, decls, |decls|) == Some(s)
    requires |s.decls| == s.m == |decls| && AllRequests(ENV, s, s.Total()) == Some(rs)
    requires forall p: nat :: p < s.Total() ==> !s.At(p).isStart && Mentioned(rs, p)
    ensures InRange(rs, s.Total()) && BuildLinks(ENV, decls) == Some(Built(s, DependAll(Empty(s.Total()), rs)))
  {
    assert MarkSingle(s) == s;
    RequestsInRange(ENV, decls, s, s.Total());
    forall p: nat | p < s.Total()
      ensures Verified(s.At(p), DependAll(Empty(s.Total()), rs)[p])
    {
      MentionedIsVerified(s, rs, p);
    }
  }

  lemma LinksAre(n: nat, rs: seq<Request>)
    requires InRange(rs, n)
    ensures var t := DependAll(Empty(n), rs);
            Consistent(t) && (forall u: nat, v: nat :: LinkedTo(t, u, v) <==> Has(rs, u, v))
    ensures forall u: nat, v: nat :: (u, v) in TableEdges(DependAll(Empty(n), rs)) <==> Has(rs, u, v)
  {
    var t := DependAll(Empty(n), rs);
    BuiltConsistent(n, rs);
    forall u: nat, v: nat
      ensures LinkedTo(t, u, v) <==> Has(rs, u, v)
      ensures (u, v) in TableEdges(t) <==> Has(rs, u, v)
    {
      LinkedIs(t, u, v);
      if u < n && v < n {
        PairIffHas(n, rs, u, v);
      }
    }
  }

  lemma DepOf(nodes: map<string, nat>, x: string, p: nat, e: VertexResult)
    requires x in nodes
    ensures DepRequests(nodes, [x], p, e) == Some([Request(nodes[x], p, e)])
  {
    assert [x][..0] == [] && DepRequests(nodes, [], p, e) == Some([]);
    assert [] + [Request(nodes[x], p, e)] == [Request(nodes[x], p, e)];
  }

  lemma SuccOf(nodes: map<string, nat>, x: string, p: nat, e: VertexResult)
    requires x in nodes
    ensures SuccRequests(nodes, [x], p, e) == Some([Request(p, nodes[x], e)])
  {
    assert [x][..0] == [] && SuccRequests(nodes, [], p, e) == Some([]);
    assert [] + [Request(p, nodes[x], e)] == [Request(p, nodes[x], e)];
  }

  // ---------------------------------------------------------------- a cycle behind the start vertex

  /** a → b, b → c and c → b. */
  function CycleBehind(): seq<Decl> {
    [VERTEX.(id := "a", successor := ["b"]), VERTEX.(id := "b", successor := ["c"]), VERTEX.(id := "c", successor := ["b"])]
  }

  function CycleSymbols(): Symbols {
    Symbols(3, CycleBehind(), [], map["a" := 0, "b" := 1, "c" := 2], map[], map[], 0)
  }

  function CycleRequests(): seq<Request> {
    [Request(0, 1, V_RESULT_ALL), Request(1, 2, V_RESULT_ALL), Request(2, 1, V_RESULT_ALL)]
  }

  /** The vertices entered so far. */
  function Entered(decls: seq<Decl>, i: nat, nodes: map<string, nat>, data: map<string, nat>): Symbols
    requires i <= |decls|
  {
    Symbols(|decls|, decls[..i], [], nodes, data, map[], 0)
  }

  lemma EnterNext(decls: seq<Decl>, i: nat, nodes: map<string, nat>, data: map<string, nat>)
    requires i < |decls| && DeclareAll(ENV, decls, i) == Some(Entered(decls, i, nodes, data))
    requires Plain(decls[i]) && MergeSuccessor(decls[i]) == decls[i] && decls[i].id !in nodes
    requires RegisterOutputs(data, decls[i].output, i).Some?
    ensures DeclareAll(ENV, decls, i + 1) ==
            Some(Entered(decls, i + 1, nodes[decls[i].id := i], RegisterOutputs(data, decls[i].output, i).value))
  {
    DeclarePlain(decls, i, Entered(decls, i, nodes, data));
    assert decls[..i + 1] == decls[..i] + [decls[i]];
  }

  /** Two such vertices. */
  lemma PairDeclares(decls: seq<Decl>, data: map<string, nat>, more: map<string, nat>)
    requires |decls| == 2 && Plain(decls[0]) && Plain(decls[1]) && decls[0].id != decls[1].id
    requires MergeSuccessor(decls[0]) == decls[0]
    requires RegisterOutputs(map[], decls[0].output, 0) == Some(data)
    requires RegisterOutputs(data, decls[1].output, 1) == Some(more)
    ensures DeclareAll(ENV, decls, 2) ==
            Some(Symbols(2, [decls[0], MergeSuccessor(decls[1])], [], map[decls[0].id := 0, decls[1].id := 1], more, map[], 0))
  {
    assert Entered(decls, 0, map[], map[]) == GraphDecl.Start(2);
    EnterNext(decls, 0, map[], map[]);
    DeclarePlain(decls, 1, Entered(decls, 1, map[decls[0].id := 0], data));
    assert decls[..1] + [MergeSuccessor(decls[1])] == [decls[0], MergeSuccessor(decls[1])];
  }

  lemma CycleDeclares()
    ensures DeclareAll(ENV, CycleBehind(), 3) == Some(CycleSymbols())
  {
    var decls := CycleBehind();
    CyclePlain();
    assert Entered(decls, 0, map[], map[]) == GraphDecl.Start(3);
    EnterNext(decls, 0, map[], map[]);
    EnterNext(decls, 1, map["a" := 0], map[]);
    EnterNext(decls, 2, map["a" := 0, "b" := 1], map[]);
    assert decls[..3] == decls;
  }

  lemma CyclePlain()
    ensures var decls := CycleBehind();
            forall i :: 0 <= i < 3 ==> Plain(decls[i]) && MergeSuccessor(decls[i]) == decls[i] && decls[i].output == []
  {
  }

  lemma NoDeps(nodes: map<string, nat>, n: Decl, p: nat)
    requires n.deps == n.depsOnOk == n.depsOnErr == []
    ensures NamedDeps(nodes, n, p) == Some([])
  {
    var none: seq<Request> := [];
    assert none + (none + none) == none;
  }

  lemma NoSuccs(nodes: map<string, nat>, n: Decl, p: nat)
    requires n.successor == n.successorOnOk == n.successorOnErr == []
    ensures NamedSuccs(nodes, n, p) == Some([])
  {
    var none: seq<Request> := [];
    assert none + (none + none) == none;
  }

  /** The calls of a vertex, part by part. */
  lemma AsksAre(nodes: map<string, nat>, data: map<string, nat>, n: Decl, p: nat,
                deps: seq<Request>, succs: seq<Request>, ins: seq<Request>)
    requires n.processor != "" && n.select == [] && NamedDeps(nodes, n, p) == Some(deps)
    requires NamedSuccs(nodes, n, p) == Some(succs) && InputRequests(data, n.input, p) == Some(ins)
    ensures VertexRequests(ENV, nodes, data, n, p) == Some(deps + succs + ins)
  {
    assert deps + (succs + ins) == deps + succs + ins;
  }

  lemma SuccessorAsks(nodes: map<string, nat>, data: map<string, nat>, n: Decl, x: string, p: nat)
    requires x in nodes && n == VERTEX.(id := n.id, successor := [x])
    ensures VertexRequests(ENV, nodes, data, n, p) == Some([Request(p, nodes[x], V_RESULT_ALL)])
  {
    var r, none := [Request(p, nodes[x], V_RESULT_ALL)], [];
    SuccOf(nodes, x, p, V_RESULT_ALL);
    NoDeps(nodes, n, p);
    assert r + (none + none) == r;
    AsksAre(nodes, data, n, p, none, r, none);
    assert none + r + none == r;
  }

  lemma DependencyAsks(nodes: map<string, nat>, data: map<string, nat>, n: Decl, x: string, p: nat)
    requires x in nodes && n == VERTEX.(id := n.id, deps := [x])
    ensures VertexRequests(ENV, nodes, data, n, p) == Some([Request(nodes[x], p, V_RESULT_ALL)])
  {
    var r, none := [Request(nodes[x], p, V_RESULT_ALL)], [];
    DepOf(nodes, x, p, V_RESULT_ALL);
    NoSuccs(nodes, n, p);
    assert none + none == none && r + none == r;
    AsksAre(nodes, data, n, p, r, none, none);
  }

  lemma AllRequestsNext(s: Symbols, i: nat, before: seq<Request>, more: seq<Request>)
    requires |s.decls| == s.m && i < s.Total() && AllRequests(ENV, s, i) == Some(before)
    requires VertexRequests(ENV, s.nodes, s.data, s.At(i), i) == Some(more)
    ensures AllRequests(ENV, s, i + 1) == Some(before + more)
  {
  }

  lemma ThreeAsk(s: Symbols, x: seq<Request>, y: seq<Request>, z: seq<Request>)
    requires |s.decls| == s.m && s.Total() == 3
    requires VertexRequests(ENV, s.nodes, s.data, s.At(0), 0) == Some(x)
    requires VertexRequests(ENV, s.nodes, s.data, s.At(1), 1) == Some(y)
    requires VertexRequests(ENV, s.nodes, s.data, s.At(2), 2) == Some(z)
    ensures AllRequests(ENV, s, 3) == Some(x + y + z)
  {
    AllRequestsNext(s, 0, [], x);
    AllRequestsNext(s, 1, [] + x, y);
    AllRequestsNext(s, 2, [] + x + y, z);
    assert [] + x + y + z == x + y + z;
  }

  ghost predicate CycleEdge(u: nat, v: nat) {
    (u == 0 && v == 1) || (u == 1 && v == 2) || (u == 2 && v == 1)
  }

  lemma CycleHas(rs: seq<Request>, u: nat, v: nat)
    requires rs == CycleRequests()
    ensures Has(rs, u, v) <==> CycleEdge(u, v)
  {
    assert rs[0] in rs && rs[1] in rs && rs[2] in rs;
    if Has(rs, u, v) {
      var e :| Request(u, v, e) in rs;
    }
  }

  lemma CycleAsks()
    ensures AllRequests(ENV, CycleSymbols(), 3) == Some(CycleRequests())
  {
    var s := CycleSymbols();
    SuccessorAsks(s.nodes, s.data, s.decls[0], "b", 0);
    SuccessorAsks(s.nodes, s.data, s.decls[1], "c", 1);
    SuccessorAsks(s.nodes, s.data, s.decls[2], "b", 2);
    ThreeAsk(s, [Request(0, 1, V_RESULT_ALL)], [Request(1, 2, V_RESULT_ALL)], [Request(2, 1, V_RESULT_ALL)]);
    assert [Request(0, 1, V_RESULT_ALL)] + [Request(1, 2, V_RESULT_ALL)] + [Request(2, 1, V_RESULT_ALL)] == CycleRequests();
  }

  lemma CycleMentions(s: Symbols, rs: seq<Request>, p: nat)
    requires s == CycleSymbols() && rs == CycleRequests() && p < s.Total()
    ensures !s.At(p).isStart && Mentioned(rs, p)
  {
    var q := if p == 2 then 1 else p + 1;
    CycleHas(rs, p, q);
  }

  lemma CycleLinks(decls: seq<Decl>, s: Symbols, rs: seq<Request>)
    requires decls == CycleBehind() && s == CycleSymbols() && rs == CycleRequests()
    ensures InRange(rs, 3) && BuildLinks(ENV, decls) == Some(Built(s, DependAll(Empty(3), rs)))
  {
    CycleDeclares();
    CycleAsks();
    forall p: nat | p < s.Total()
      ensures !s.At(p).isStart && Mentioned(rs, p)
    {
      CycleMentions(s, rs, p);
    }
    BuildIs(decls, s, rs);
  }

  /** A table with exactly the links 0 → 1, 1 → 2 and 2 → 1. */
  ghost predicate CycleTable(t: Table) {
    && |t| == 3 && WellRanged(t)
    && forall u: nat, v: nat :: (u, v) in SuccEdges(t) <==> CycleEdge(u, v)
  }

  lemma CycleTableIs(rs: seq<Request>)
    requires rs == CycleRequests() && InRange(rs, 3)
    ensures CycleTable(DependAll(Empty(3), rs))
  {
    LinkedIsRanged(3, rs);
    LinksAre(3, rs);
    SuccessorEdgesAreEdges(DependAll(Empty(3), rs));
    forall u: nat, v: nat
      ensures Has(rs, u, v) <==> CycleEdge(u, v)
    {
      CycleHas(rs, u, v);
    }
  }

  /** The search for 0 below 0 never returns; those for 1 and 2 find their vertex two steps down. */
  lemma CycleSearches(t: Table, fuel: nat)
    requires CycleTable(t)
    ensures Search(t, 0, 0, fuel).None?
    ensures fuel > 0 ==> Search(t, 1, 1, fuel) == Some(true) && Search(t, 2, 2, fuel) == Some(true)
  {
    var edges := SuccEdges(t);
    EdgeReaches(edges, 0, 1);
    EdgeReaches(edges, 1, 2);
    EdgeReaches(edges, 2, 1);
    ReachesTransitive(edges, 1, 2, 1);
    forall p | IsPath(edges, p)
      ensures p[|p| - 1] != 0
    {
      assert (p[|p| - 2], p[|p| - 1]) in edges;
    }
    SearchDiverges(t, 0, 0, fuel);
    if fuel > 0 {
      ThereAndBack(t, 1, 2, fuel);
      ThereAndBack(t, 2, 1, fuel);
    }
  }

  lemma ThereAndBack(t: Table, p: nat, q: nat, fuel: nat)
    requires CycleTable(t) && CycleEdge(p, q) && CycleEdge(q, p) && fuel > 0
    ensures Search(t, p, p, fuel) == Some(true)
  {
    var succ := t[p].succ;
    assert (p, q) in SuccEdges(t) && (q, p) in SuccEdges(t) && (p, p) !in SuccEdges(t);
    assert succ[0] in succ && (p, succ[0]) in SuccEdges(t);
    assert Search(t, q, p, fuel - 1) == Some(true);
    assert SearchAny(t, succ, p, fuel - 1) == Some(true);
  }

  lemma CycleListed(nodes: map<string, nat>)
    requires nodes == CycleSymbols().nodes
    ensures nodes.Values == {0, 1, 2}
  {
    assert nodes["a"] == 0 && nodes["b"] == 1 && nodes["c"] == 2;
  }

  lemma CycleTests(t: Table, order: seq<nat>, fuel: nat)
    requires CycleTable(t) && Enumerates(order, {0, 1, 2})
    ensures InTable(order, |t|) && order != []
    ensures order[0] == 0 ==> TestCircle(t, order, fuel) == None
    ensures order[0] != 0 && fuel > 0 ==> TestCircle(t, order, fuel) == Some(true)
  {
    CycleSearches(t, fuel);
    forall i | 0 <= i < |order|
      ensures order[i] < 3
    {
      assert order[i] in order;
    }
    assert 0 in order;
  }

  lemma CycleBuilds(decls: seq<Decl>)
    requires decls == CycleBehind()
    ensures BuildLinks(ENV, decls).Some? && CycleTable(BuildLinks(ENV, decls).value.links)
    ensures BuildLinks(ENV, decls).value.sym.nodes.Values == {0, 1, 2}
  {
    CycleLinks(decls, CycleSymbols(), CycleRequests());
    CycleTableIs(CycleRequests());
    CycleListed(CycleSymbols().nodes);
  }

  // ---------------------------------------------------------------- an id that a condition takes over

  /** The vertex b expects e, for which the first id generated in graph g is "g_0".  A vertex of that name comes
      before it and is linked to b: forwards, or back. */
  function Clash(back: bool): seq<Decl> {
    [if back then VERTEX.(id := "g_0", deps := ["b"]) else VERTEX.(id := "g_0", successor := ["b"]),
     VERTEX.(id := "b", expectation := "e")]
  }

  function ClashSymbols(back: bool): Symbols {
    Symbols(2, [Clash(back)[0], Clash(back)[1].(depsOnOk := ["g_0"])], [VERTEX.(id := "g_0", cond := "e")],
            map["g_0" := 2, "b" := 1], map[], map["e" := 0], 1)
  }

  function ClashRequests(back: bool): seq<Request> {
    [if back then Request(1, 0, V_RESULT_ALL) else Request(0, 1, V_RESULT_ALL), Request(2, 1, V_RESULT_OK)]
  }

  lemma FirstGeneratedId()
    ensures GenerateNodeId(ENV, 0) == "g_0"
  {
    assert Digits(0) == "0";
    assert "g" + "_" + "0" == "g_0";
  }

  lemma ClashPrepares(back: bool, decls: seq<Decl>, s: Symbols)
    requires decls == Clash(back) && s == Entered(decls, 1, map["g_0" := 0], map[])
    ensures Prepare(ENV, s, decls[1]) ==
            (s.(gens := ClashSymbols(back).gens, nodes := map["g_0" := 2], conds := map["e" := 0], next := 1),
             decls[1].(depsOnOk := ["g_0"]))
  {
    FirstGeneratedId();
    var empty: seq<string>, none: seq<Decl> := [], [];
    assert empty + ["g_0"] == ["g_0"];
    assert Defaults(ENV, 0, decls[1]) == (decls[1], 0);
    var c := VERTEX.(id := "g_0", cond := "e");
    assert CondVertex(ENV, "g_0", decls[1]) == c;
    assert none + [c] == [c];
    assert map["g_0" := 0]["g_0" := 2] == map["g_0" := 2];
    assert s.gens == none && s.conds == map[] && s.Total() == 2;
  }

  lemma ClashDeclares(back: bool, decls: seq<Decl>)
    requires decls == Clash(back)
    ensures DeclareAll(ENV, decls, 2) == Some(ClashSymbols(back))
  {
    var s := Entered(decls, 1, map["g_0" := 0], map[]);
    assert Plain(decls[0]) && MergeSuccessor(decls[0]) == decls[0];
    assert Entered(decls, 0, map[], map[]) == GraphDecl.Start(2);
    EnterNext(decls, 0, map[], map[]);
    ClashPrepares(back, decls, s);
    assert Prepared(ENV, decls, 1) == Some(Prepare(ENV, s, decls[1]));
    var p := Prepare(ENV, s, decls[1]);
    assert MergeSuccessor(p.1) == p.1;
    assert p.0.nodes["b" := 1] == ClashSymbols(back).nodes && p.0.decls + [p.1] == ClashSymbols(back).decls;
    assert EnterVertex(ENV, p.0, p.1) == Some(p.0.(nodes := p.0.nodes["b" := 1], decls := p.0.decls + [p.1]));
  }

  lemma ClashFirstAsks(back: bool, s: Symbols)
    requires s == ClashSymbols(back)
    ensures VertexRequests(ENV, s.nodes, s.data, s.At(0), 0) == Some([ClashRequests(back)[0]])
  {
    if back {
      DependencyAsks(s.nodes, s.data, s.decls[0], "b", 0);
    } else {
      SuccessorAsks(s.nodes, s.data, s.decls[0], "b", 0);
    }
  }

  lemma ClashReaderAsks(back: bool, s: Symbols)
    requires s == ClashSymbols(back)
    ensures VertexRequests(ENV, s.nodes, s.data, s.At(1), 1) == Some([Request(2, 1, V_RESULT_OK)])
  {
    var none, y := [], [Request(2, 1, V_RESULT_OK)];
    DepOf(s.nodes, "g_0", 1, V_RESULT_OK);
    assert none + (y + none) == y;
    NoSuccs(s.nodes, s.decls[1], 1);
    AsksAre(s.nodes, s.data, s.decls[1], 1, y, none, none);
    assert y + none + none == y;
  }

  lemma ClashConditionAsks(back: bool, s: Symbols)
    requires s == ClashSymbols(back)
    ensures VertexRequests(ENV, s.nodes, s.data, s.At(2), 2) == Some([])
  {
    var none: seq<Request> := [];
    NoDeps(s.nodes, s.gens[0], 2);
    NoSuccs(s.nodes, s.gens[0], 2);
    AsksAre(s.nodes, s.data, s.gens[0], 2, none, none, none);
    assert none + none + none == none;
  }

  lemma ClashAsks(back: bool, s: Symbols)
    requires s == ClashSymbols(back)
    ensures AllRequests(ENV, s, 3) == Some(ClashRequests(back))
  {
    ClashFirstAsks(back, s);
    ClashReaderAsks(back, s);
    ClashConditionAsks(back, s);
    var first, second := ClashRequests(back)[0], Request(2, 1, V_RESULT_OK);
    ThreeAsk(s, [first], [second], []);
    assert [first] + [second] + [] == ClashRequests(back);
  }

  /** The first vertex and b are linked, and the condition vertex to b. */
  ghost predicate ClashEdge(back: bool, u: nat, v: nat) {
    (u == 2 && v == 1) || (if back then u == 1 && v == 0 else u == 0 && v == 1)
  }

  lemma ClashHas(back: bool, rs: seq<Request>, u: nat, v: nat)
    requires rs == ClashRequests(back)
    ensures Has(rs, u, v) <==> ClashEdge(back, u, v)
  {
    assert rs[0] in rs && rs[1] in rs;
    if Has(rs, u, v) {
      var e :| Request(u, v, e) in rs;
    }
  }

  lemma ClashMentions(back: bool, s: Symbols, rs: seq<Request>, p: nat)
    requires s == ClashSymbols(back) && rs == ClashRequests(back) && p < s.Total()
    ensures !s.At(p).isStart && Mentioned(rs, p)
  {
    ClashHas(back, rs, 0, 1);
    ClashHas(back, rs, 1, 0);
    ClashHas(back, rs, 2, 1);
  }

  lemma ClashLinks(back: bool, decls: seq<Decl>, s: Symbols, rs: seq<Request>)
    requires decls == Clash(back) && s == ClashSymbols(back) && rs == ClashRequests(back)
    ensures InRange(rs, 3) && BuildLinks(ENV, decls) == Some(Built(s, DependAll(Empty(3), rs)))
  {
    ClashDeclares(back, decls);
    ClashAsks(back, s);
    forall p: nat | p < s.Total()
      ensures !s.At(p).isStart && Mentioned(rs, p)
    {
      ClashMentions(back, s, rs, p);
    }
    BuildIs(decls, s, rs);
  }

  /** The id table lists b and the condition vertex. */
  ghost predicate ClashBuilt(back: bool, b: Built) {
    && |b.links| == 3 && Consistent(b.links) && b.sym.nodes.Values == {1, 2}
    && forall u: nat, v: nat :: LinkedTo(b.links, u, v) <==> ClashEdge(back, u, v)
  }

  lemma ClashBuilds(back: bool, decls: seq<Decl>)
    requires decls == Clash(back)
    ensures BuildLinks(ENV, decls).Some? && ClashBuilt(back, BuildLinks(ENV, decls).value)
  {
    var rs, nodes := ClashRequests(back), ClashSymbols(back).nodes;
    ClashLinks(back, decls, ClashSymbols(back), rs);
    LinksAre(3, rs);
    forall u: nat, v: nat
      ensures Has(rs, u, v) <==> ClashEdge(back, u, v)
    {
      ClashHas(back, rs, u, v);
    }
    assert nodes["g_0"] == 2 && nodes["b"] == 1;
  }

  // ---------------------------------------------------------------- a condition that is heard second

  /** All that two vertices ask: the first any result of the second, the second that it run on success only. */
  function ConflictingRequests(): seq<Request> {
    [Request(1, 0, V_RESULT_ALL), Request(1, 0, V_RESULT_OK)]
  }

  /** The first vertex asks for any result of the second, the second asks it to run on success only. */
  ghost predicate Conflict(s: Symbols) {
    && |s.decls| == s.m == 2 && s.gens == [] && !s.decls[0].isStart && !s.decls[1].isStart
    && VertexRequests(ENV, s.nodes, s.data, s.decls[0], 0) == Some([Request(1, 0, V_RESULT_ALL)])
    && VertexRequests(ENV, s.nodes, s.data, s.decls[1], 1) == Some([Request(1, 0, V_RESULT_OK)])
  }

  lemma ConflictAsks(s: Symbols, rs: seq<Request>)
    requires Conflict(s) && rs == ConflictingRequests()
    ensures AllRequests(ENV, s, 2) == Some(rs)
  {
    var x, y := [Request(1, 0, V_RESULT_ALL)], [Request(1, 0, V_RESULT_OK)];
    AllRequestsNext(s, 0, [], x);
    AllRequestsNext(s, 1, [] + x, y);
    assert [] + x + y == rs;
  }

  lemma ConflictMentions(rs: seq<Request>)
    requires rs == ConflictingRequests()
    ensures Mentioned(rs, 0) && Mentioned(rs, 1) && First(rs, 1, 0) == Some(V_RESULT_ALL)
    ensures forall u: nat, v: nat :: Has(rs, u, v) ==> u == 1 && v == 0
  {
    assert rs[0] in rs;
    assert Has(rs, 1, 0);
    assert rs[..1] == [rs[0]] && rs[..1][..0] == [];
    assert First(rs[..1], 1, 0) == Some(V_RESULT_ALL);
  }

  /** The only edge keeps what was asked first. */
  ghost predicate AnyResultKept(b: Built) {
    && |b.links| == 2 && Consistent(b.links) && (forall e :: e in TableEdges(b.links) ==> e == (1, 0))
    && HasExpectation(b.links[0], 1, V_RESULT_ALL) && !HasExpectation(b.links[0], 1, V_RESULT_OK)
  }

  lemma ConflictExpects(rs: seq<Request>)
    requires InRange(rs, 2) && First(rs, 1, 0) == Some(V_RESULT_ALL)
    ensures var x := DependAll(Empty(2), rs)[0];
            HasExpectation(x, 1, V_RESULT_ALL) && !HasExpectation(x, 1, V_RESULT_OK)
  {
    EdgeIffRequested(2, rs, 1, 0);
  }

  lemma ConflictMentioned(rs: seq<Request>, p: nat)
    requires rs == ConflictingRequests() && p < 2
    ensures Mentioned(rs, p)
  {
    ConflictMentions(rs);
  }

  lemma {:induction false} ConflictIsHeard(s: Symbols, rs: seq<Request>)
    requires Conflict(s) && rs == ConflictingRequests()
    ensures |s.decls| == s.m && s.Total() == 2 && AllRequests(ENV, s, s.Total()) == Some(rs)
    ensures forall p: nat :: p < s.Total() ==> !s.At(p).isStart && Mentioned(rs, p)
    ensures First(rs, 1, 0) == Some(V_RESULT_ALL) && forall u: nat, v: nat :: Has(rs, u, v) ==> u == 1 && v == 0
  {
    ConflictAsks(s, rs);
    ConflictMentions(rs);
    forall p: nat | p < s.Total()
      ensures !s.At(p).isStart && Mentioned(rs, p)
    {
      ConflictMentioned(rs, p);
    }
  }

  lemma ConflictBuilds(decls: seq<Decl>, s: Symbols, rs: seq<Request>)
    requires |decls| > 1 && DeclareAll(ENV, decls, |decls|) == Some(s)
    requires |s.decls| == s.m == |decls| && s.Total() == 2 && AllRequests(ENV, s, s.Total()) == Some(rs)
    requires forall p: nat :: p < s.Total() ==> !s.At(p).isStart && Mentioned(rs, p)
    requires First(rs, 1, 0) == Some(V_RESULT_ALL) && forall u: nat, v: nat :: Has(rs, u, v) ==> u == 1 && v == 0
    ensures BuildLinks(ENV, decls).Some? && BuildLinks(ENV, decls).value.sym == s
    ensures AnyResultKept(BuildLinks(ENV, decls).value)
  {
    BuildIs(decls, s, rs);
    LinksAre(2, rs);
    ConflictExpects(rs);
  }

  /** v reads d, which the later u produces; u names v as its successor on success. */
  function ReaderFirst(): seq<Decl> {
    [VERTEX.(id := "v", input := [Datum("d", "d", [], false, false, false)]),
     VERTEX.(id := "u", output := [Output("d", "d")], successorOnOk := ["v"])]
  }

  function ReaderSymbols(): Symbols {
    Symbols(2, ReaderFirst(), [], map["v" := 0, "u" := 1], map["d" := 1], map[], 0)
  }

  lemma ReaderPlain(decls: seq<Decl>)
    requires decls == ReaderFirst()
    ensures forall i :: 0 <= i < 2 ==> Plain(decls[i]) && MergeSuccessor(decls[i]) == decls[i]
    ensures RegisterOutputs(map[], decls[0].output, 0) == Some(map[])
    ensures RegisterOutputs(map[], decls[1].output, 1) == Some(map["d" := 1])
  {
    var v, u := decls[0], decls[1];
    assert v.input[..0] == [] && [] + [v.input[0]] == v.input;
    assert u.output[..0] == [] && [] + [u.output[0]] == u.output && u.output[1..] == [];
  }

  lemma ReaderDeclares(decls: seq<Decl>)
    requires decls == ReaderFirst()
    ensures DeclareAll(ENV, decls, 2) == Some(ReaderSymbols())
  {
    ReaderPlain(decls);
    PairDeclares(decls, map[], map["d" := 1]);
  }

  lemma ReaderAsks(s: Symbols)
    requires s == ReaderSymbols()
    ensures Conflict(s)
  {
    var none, x, y := [], [Request(1, 0, V_RESULT_ALL)], [Request(1, 0, V_RESULT_OK)];
    var v, u := s.decls[0], s.decls[1];
    NoDeps(s.nodes, v, 0);
    NoSuccs(s.nodes, v, 0);
    assert InputRequest(s.data, v.input[0], 0) == Some(x);
    assert v.input[..0] == [] && InputRequests(s.data, [], 0) == Some(none) && none + x == x;
    AsksAre(s.nodes, s.data, v, 0, none, none, x);
    assert none + none + x == x;
    NoDeps(s.nodes, u, 1);
    SuccOf(s.nodes, "v", 1, V_RESULT_OK);
    assert none + (y + none) == y;
    AsksAre(s.nodes, s.data, u, 1, none, y, none);
    assert none + y + none == y;
  }

  /** A branch b, added to its task group before the condition c that calls `Consequent(b)`. */
  function BranchFirst(): seq<Decl> {
    [VERTEX.(id := "b", deps := ["c"]), VERTEX.(id := "c", consequent := ["b"])]
  }

  function BranchSymbols(): Symbols {
    Symbols(2, [BranchFirst()[0], BranchFirst()[1].(successorOnOk := ["b"])], [], map["b" := 0, "c" := 1], map[], map[], 0)
  }

  lemma BranchDeclares(decls: seq<Decl>)
    requires decls == BranchFirst()
    ensures DeclareAll(ENV, decls, 2) == Some(BranchSymbols())
  {
    var none: seq<string> := [];
    assert none + ["b"] == ["b"];
    PairDeclares(decls, map[], map[]);
  }

  lemma BranchAsks(s: Symbols)
    requires s == BranchSymbols()
    ensures Conflict(s)
  {
    var none, y := [], [Request(1, 0, V_RESULT_OK)];
    DependencyAsks(s.nodes, s.data, s.decls[0], "c", 0);
    NoDeps(s.nodes, s.decls[1], 1);
    SuccOf(s.nodes, "b", 1, V_RESULT_OK);
    assert none + (y + none) == y;
    AsksAre(s.nodes, s.data, s.decls[1], 1, none, y, none);
    assert none + y + none == y;
  }
}
