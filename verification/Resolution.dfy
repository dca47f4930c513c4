/** When the links of a declared graph can be made and verified, and what an edge made by data expects, in terms of the
    declaration. */
module Resolution {
  import opened Options
  import opened VertexResults
  import opened Links
  import opened GraphDecl
  import opened GraphEdges
  import opened GraphListing
  import opened GraphBuild
  import opened CompiledGraph
  import opened Completion
  import opened Expectations

  // ---------------------------------------------------------------- names and data

  /** A vertex has this id, or it is generated for a condition. */
  ghost predicate IsId(env: Env, decls: seq<Decl>, x: string) {
    || (exists j :: 0 <= j < |decls| && IdOf(env, decls, j) == x)
    || (exists l :: 0 <= l < |decls| && Generates(env, decls, l, x))
  }

  ghost predicate IsDatum(env: Env, decls: seq<Decl>, x: string) {
    exists j :: 0 <= j < |decls| && Publishes(env, decls[j], x)
  }

  lemma IdIff(env: Env, decls: seq<Decl>, s: Symbols, x: string)
    requires Compiled(env, decls, s)
    ensures x in s.nodes <==> IsId(env, decls, x)
  {
    if x in s.nodes {
      assert Names(s, x, s.nodes[x]);
      if s.nodes[x] < s.m {
        assert EnteredAs(env, decls, s.nodes[x], x);
      } else {
        assert GeneratedFor(env, decls, |decls|, s.gens[s.nodes[x] - s.m]);
      }
    }
    if j :| 0 <= j < |decls| && IdOf(env, decls, j) == x {
      assert EnteredAs(env, decls, j, s.decls[j].id);
    }
    if l :| 0 <= l < |decls| && Generates(env, decls, l, x) {
      assert Made(env, s, decls, l);
      assert IsCondId(s, x);
    }
  }

  /** What the declaration loop leaves behind. */
  ghost predicate Loop(env: Env, decls: seq<Decl>, s: Symbols) {
    && DeclareAll(env, decls, |decls|).Some? && s == MarkSingle(DeclareAll(env, decls, |decls|).value)
    && |s.decls| == s.m == |decls|
  }

  /** A compiled vertex, completed field by field; a vertex alone in its graph starts it. */
  lemma CompiledIsCompleted(env: Env, decls: seq<Decl>, s: Symbols, j: nat)
    requires Loop(env, decls, s) && j < |decls|
    ensures |s.decls| == |decls| && Completed(env, decls[j], s.decls[j])
    ensures s.decls[j].isStart <==> decls[j].isStart || (|decls| == 1 && s.gens == [])
  {
    LoopHolds(env, decls, |decls|);
  }

  lemma GeneratedEvaluates(env: Env, decls: seq<Decl>, s: Symbols, k: nat)
    requires Loop(env, decls, s) && k < |s.gens|
    ensures Evaluates(env, s.gens[k])
  {
    LoopHolds(env, decls, |decls|);
    assert s.gens[k] in s.gens;
  }

  lemma DataAre(env: Env, decls: seq<Decl>, s: Symbols)
    requires Loop(env, decls, s)
    ensures forall x :: x in s.data <==> IsDatum(env, decls, x)
  {
    LoopHolds(env, decls, |decls|);
    forall x
      ensures x in s.data <==> IsDatum(env, decls, x)
    {
      ProducedIff(env, DeclareAll(env, decls, |decls|).value, decls, |decls|, x);
    }
  }

  // ---------------------------------------------------------------- the requests

  lemma {:induction false} DepsResolve(nodes: map<string, nat>, names: seq<string>, p: nat, e: VertexResult)
    ensures DepRequests(nodes, names, p, e).Some? <==> forall x :: x in names ==> x in nodes
  {
    if names != [] {
      DepsResolve(nodes, names[..|names| - 1], p, e);
      assert names == names[..|names| - 1] + [names[|names| - 1]];
    }
  }

  lemma {:induction false} SuccsResolve(nodes: map<string, nat>, names: seq<string>, p: nat, e: VertexResult)
    ensures SuccRequests(nodes, names, p, e).Some? <==> forall x :: x in names ==> x in nodes
  {
    if names != [] {
      SuccsResolve(nodes, names[..|names| - 1], p, e);
      assert names == names[..|names| - 1] + [names[|names| - 1]];
    }
  }

  lemma {:induction false} AggregateResolves(data: map<string, nat>, d: Datum, ids: seq<string>, p: nat)
    ensures AggregateRequests(data, d, ids, p).Some? <==> d.isExtern || forall x :: x in ids ==> x in data
  {
    if ids != [] {
      AggregateResolves(data, d, ids[..|ids| - 1], p);
      assert ids == ids[..|ids| - 1] + [ids[|ids| - 1]];
    }
  }

  lemma {:induction false} InputsResolve(data: map<string, nat>, input: seq<Datum>, p: nat)
    ensures InputRequests(data, input, p).Some? <==>
            forall d :: d in input ==> d.isExtern || forall x :: x in Ids(d) ==> x in data
  {
    if input != [] {
      var before, d := input[..|input| - 1], input[|input| - 1];
      InputsResolve(data, before, p);
      AggregateResolves(data, d, d.aggregate, p);
      assert input == before + [d];
    }
  }

  /** All names that n uses denote something. */
  predicate NamesKnown(nodes: map<string, nat>, n: Decl) {
    && (forall x :: x in n.deps ==> x in nodes) && (forall x :: x in n.depsOnOk ==> x in nodes)
    && (forall x :: x in n.depsOnErr ==> x in nodes) && (forall x :: x in n.successor ==> x in nodes)
    && (forall x :: x in n.successorOnOk ==> x in nodes) && (forall x :: x in n.successorOnErr ==> x in nodes)
  }

  lemma RequestsIff(env: Env, nodes: map<string, nat>, data: map<string, nat>, n: Decl, p: nat)
    ensures VertexRequests(env, nodes, data, n, p).Some? <==>
            && (n.processor != "" || n.graph != "") && (forall x :: x in n.select ==> IsSetting(env, x)) && NamesKnown(nodes, n)
            && forall d :: d in n.input ==> d.isExtern || forall x :: x in Ids(d) ==> x in data
  {
    DepsResolve(nodes, n.deps, p, V_RESULT_ALL);
    DepsResolve(nodes, n.depsOnOk, p, V_RESULT_OK);
    DepsResolve(nodes, n.depsOnErr, p, V_RESULT_ERR);
    SuccsResolve(nodes, n.successor, p, V_RESULT_ALL);
    SuccsResolve(nodes, n.successorOnOk, p, V_RESULT_OK);
    SuccsResolve(nodes, n.successorOnErr, p, V_RESULT_ERR);
    InputsResolve(data, n.input, p);
    forall x
      ensures ContainsConfigSetting(env, x) <==> IsSetting(env, x)
    {
      SettingIff(env, x);
    }
  }

  /** Vertex p can make all its calls. */
  ghost predicate CanLink(env: Env, s: Symbols, p: nat)
    requires |s.decls| == s.m && p < s.Total()
  {
    VertexRequests(env, s.nodes, s.data, s.At(p), p).Some?
  }

  lemma JoinSome(a: Option<seq<Request>>, b: Option<seq<Request>>)
    ensures Join(a, b).Some? <==> a.Some? && b.Some?
  {
  }

  lemma NextLinks(env: Env, s: Symbols, i: nat)
    requires |s.decls| == s.m && i < s.Total()
    ensures AllRequests(env, s, i + 1).Some? <==> AllRequests(env, s, i).Some? && CanLink(env, s, i)
  {
    JoinSome(AllRequests(env, s, i), VertexRequests(env, s.nodes, s.data, s.At(i), i));
  }

  /** The first i vertices can make all their calls. */
  ghost predicate AllCanLink(env: Env, s: Symbols, i: nat)
    requires |s.decls| == s.m && i <= s.Total()
  {
    i == 0 || (AllCanLink(env, s, i - 1) && CanLink(env, s, i - 1))
  }

  lemma {:induction false} AllCanLinkIff(env: Env, s: Symbols, i: nat)
    requires |s.decls| == s.m && i <= s.Total()
    ensures AllCanLink(env, s, i) <==> forall p :: 0 <= p < i ==> CanLink(env, s, p)
  {
    if i > 0 {
      AllCanLinkIff(env, s, i - 1);
    }
  }

  lemma {:induction false} AllRequestsIff(env: Env, s: Symbols, i: nat)
    requires |s.decls| == s.m && i <= s.Total()
    ensures AllRequests(env, s, i).Some? <==> AllCanLink(env, s, i)
  {
    if i > 0 {
      AllRequestsIff(env, s, i - 1);
      NextLinks(env, s, i - 1);
    }
  }

  // ---------------------------------------------------------------- when the links can be made

  /** d names x, as a dependency or a successor of some kind. */
  predicate Mentions(d: Decl, x: string) {
    || x in d.deps || x in d.depsOnOk || x in d.depsOnErr
    || x in d.successor || x in d.successorOnOk || x in d.successorOnErr || x in d.consequent || x in d.alternative
  }

  /** Vertex i, whose completed inputs are given, has something to run, and whatever it refers to exists: config
      settings, ids and data, those that are extern excepted; and so for its condition, if it is the first to declare
      that. */
  ghost predicate Resolvable(env: Env, decls: seq<Decl>, i: nat, input: seq<Datum>)
    requires i < |decls|
  {
    var d := decls[i];
    && (ProcessorOf(env, d) != "" || d.graph != "") && (forall x :: x in d.select ==> IsSetting(env, x))
    && (forall x :: Mentions(d, x) ==> IsId(env, decls, x))
    && (FirstWith(decls, i, d.expectation) ==> env.defaultExpr != "" && forall x :: x in d.expectDeps ==> IsId(env, decls, x))
    && forall c :: c in input ==> c.isExtern || forall x :: x in Ids(c) ==> IsDatum(env, decls, x)
  }

  lemma LoopConds(env: Env, decls: seq<Decl>, s: Symbols)
    requires Loop(env, decls, s)
    ensures CondInv(s, decls)
  {
    DeclaredIsCompiled(env, decls);
  }

  lemma LoopNormalised(env: Env, decls: seq<Decl>, s: Symbols, i: nat)
    requires Loop(env, decls, s) && i < |decls|
    ensures Normalised(s, decls[i], s.decls[i])
    ensures decls[i].expectation != "" ==> CondName(s, decls[i].expectation) in s.nodes
  {
    DeclaredIsCompiled(env, decls);
    assert Normalised(s, decls[i], s.decls[i]);
    if decls[i].expectation != "" {
      assert s.gens[s.conds[decls[i].expectation]].id in s.nodes;
    }
  }

  /** The id table has exactly the ids. */
  ghost predicate HasIds(env: Env, decls: seq<Decl>, nodes: map<string, nat>) {
    forall x :: x in nodes <==> IsId(env, decls, x)
  }

  lemma LoopIds(env: Env, decls: seq<Decl>, s: Symbols)
    requires Loop(env, decls, s)
    ensures HasIds(env, decls, s.nodes)
  {
    DeclaredIsCompiled(env, decls);
    forall x
      ensures x in s.nodes <==> IsId(env, decls, x)
    {
      IdIff(env, decls, s, x);
    }
  }

  lemma NamesIff(env: Env, decls: seq<Decl>, s: Symbols, d: Decl, n: Decl)
    requires HasIds(env, decls, s.nodes) && Normalised(s, d, n)
    requires d.expectation != "" ==> CondName(s, d.expectation) in s.nodes
    ensures NamesKnown(s.nodes, n) <==> forall x :: Mentions(d, x) ==> IsId(env, decls, x)
  {
    assert forall x :: x in n.successorOnOk <==> x in d.successorOnOk || x in d.consequent;
    assert forall x :: x in n.successorOnErr <==> x in d.successorOnErr || x in d.alternative;
  }

  lemma CondNamesIff(env: Env, decls: seq<Decl>, nodes: map<string, nat>, d: Decl, c: Decl)
    requires HasIds(env, decls, nodes) && CondDeps(d, c)
    ensures NamesKnown(nodes, c) <==> forall x :: x in CondNames(d) ==> IsId(env, decls, x)
  {
    assert forall x :: x in d.deps + (d.depsOnOk + d.depsOnErr) <==> x in d.deps || x in d.depsOnOk || x in d.depsOnErr;
  }

  /** The vertex that a condition vertex was generated for. */
  lemma CondFor(env: Env, decls: seq<Decl>, s: Symbols, p: nat) returns (j: nat)
    requires Loop(env, decls, s) && s.m <= p < s.Total()
    ensures j < |decls| && FirstWith(decls, j, s.gens[p - s.m].cond) && CondDeps(decls[j], s.gens[p - s.m])
  {
    LoopConds(env, decls, s);
    j := CondSource(s, decls, p);
  }

  /** The condition vertex of the first vertex that declares its text. */
  lemma CondOf(env: Env, decls: seq<Decl>, s: Symbols, i: nat) returns (k: nat)
    requires Loop(env, decls, s) && i < |decls| && FirstWith(decls, i, decls[i].expectation)
    ensures k < |s.gens| && s.gens[k].cond == decls[i].expectation && CondDeps(decls[i], s.gens[k])
  {
    LoopNormalised(env, decls, s, i);
    k := s.conds[decls[i].expectation];
    var j := CondFor(env, decls, s, s.m + k);
    FirstIsUnique(decls, i, j, decls[i].expectation);
  }

  lemma DeclaredRequests(env: Env, decls: seq<Decl>, s: Symbols, i: nat)
    requires Loop(env, decls, s) && i < |decls|
    ensures CanLink(env, s, i) <==>
            && (ProcessorOf(env, decls[i]) != "" || decls[i].graph != "")
            && (forall x :: x in decls[i].select ==> IsSetting(env, x))
            && (forall x :: Mentions(decls[i], x) ==> IsId(env, decls, x))
            && forall c :: c in s.decls[i].input ==> c.isExtern || forall x :: x in Ids(c) ==> IsDatum(env, decls, x)
  {
    LoopIds(env, decls, s);
    LoopNormalised(env, decls, s, i);
    CompiledIsCompleted(env, decls, s, i);
    DataAre(env, decls, s);
    RequestsIff(env, s.nodes, s.data, s.decls[i], i);
    NamesIff(env, decls, s, decls[i], s.decls[i]);
  }

  lemma EvaluatesRequests(env: Env, nodes: map<string, nat>, data: map<string, nat>, c: Decl, p: nat)
    requires Evaluates(env, c)
    ensures VertexRequests(env, nodes, data, c, p).Some? <==> env.defaultExpr != "" && NamesKnown(nodes, c)
  {
    RequestsIff(env, nodes, data, c, p);
  }

  lemma CondRequests(env: Env, decls: seq<Decl>, s: Symbols, i: nat, k: nat)
    requires Loop(env, decls, s) && i < |decls| && k < |s.gens| && CondDeps(decls[i], s.gens[k])
    ensures CanLink(env, s, s.m + k) <==>
            env.defaultExpr != "" && forall x :: x in CondNames(decls[i]) ==> IsId(env, decls, x)
  {
    LoopIds(env, decls, s);
    GeneratedEvaluates(env, decls, s, k);
    EvaluatesRequests(env, s.nodes, s.data, s.gens[k], s.m + k);
    CondNamesIff(env, decls, s.nodes, decls[i], s.gens[k]);
  }

  /** All links can be made exactly if every vertex is resolvable. */
  lemma LinksIff(env: Env, decls: seq<Decl>, s: Symbols)
    requires Loop(env, decls, s)
    ensures AllRequests(env, s, s.Total()).Some? <==> forall i :: 0 <= i < |decls| ==> Resolvable(env, decls, i, s.decls[i].input)
  {
    AllRequestsIff(env, s, s.Total());
    AllCanLinkIff(env, s, s.Total());
    if AllRequests(env, s, s.Total()).Some? {
      forall i | 0 <= i < |decls|
        ensures Resolvable(env, decls, i, s.decls[i].input)
      {
        LinkedIsResolvable(env, decls, s, i);
      }
    }
    if forall i :: 0 <= i < |decls| ==> Resolvable(env, decls, i, s.decls[i].input) {
      forall p | 0 <= p < s.Total()
        ensures CanLink(env, s, p)
      {
        ResolvableIsLinked(env, decls, s, p);
      }
    }
  }

  lemma CondIsResolvable(env: Env, decls: seq<Decl>, s: Symbols, i: nat)
    requires Loop(env, decls, s) && i < |decls| && FirstWith(decls, i, decls[i].expectation)
    requires forall p :: 0 <= p < s.Total() ==> CanLink(env, s, p)
    ensures env.defaultExpr != "" && forall x :: x in CondNames(decls[i]) ==> IsId(env, decls, x)
  {
    var k := CondOf(env, decls, s, i);
    assert CanLink(env, s, s.m + k);
    CondRequests(env, decls, s, i, k);
  }

  lemma LinkedIsResolvable(env: Env, decls: seq<Decl>, s: Symbols, i: nat)
    requires Loop(env, decls, s) && i < |decls|
    requires forall p :: 0 <= p < s.Total() ==> CanLink(env, s, p)
    ensures Resolvable(env, decls, i, s.decls[i].input)
  {
    DeclaredRequests(env, decls, s, i);
    if FirstWith(decls, i, decls[i].expectation) {
      CondIsResolvable(env, decls, s, i);
    }
  }

  lemma CondResolves(env: Env, decls: seq<Decl>, s: Symbols, p: nat)
    requires Loop(env, decls, s) && s.m <= p < s.Total()
    requires forall i :: 0 <= i < |decls| ==> Resolvable(env, decls, i, s.decls[i].input)
    ensures CanLink(env, s, p)
  {
    var j := CondFor(env, decls, s, p);
    CondRequests(env, decls, s, j, p - s.m);
    CondNamesResolve(env, decls, j, s.decls[j].input);
  }

  lemma CondNamesResolve(env: Env, decls: seq<Decl>, j: nat, input: seq<Datum>)
    requires j < |decls| && Resolvable(env, decls, j, input) && FirstWith(decls, j, decls[j].expectation)
    ensures env.defaultExpr != "" && forall x :: x in CondNames(decls[j]) ==> IsId(env, decls, x)
  {
    forall x | x in CondNames(decls[j])
      ensures IsId(env, decls, x)
    {
      assert decls[j].expectDeps == [] ==> Mentions(decls[j], x);
    }
  }

  lemma ResolvableIsLinked(env: Env, decls: seq<Decl>, s: Symbols, p: nat)
    requires Loop(env, decls, s) && p < s.Total()
    requires forall i :: 0 <= i < |decls| ==> Resolvable(env, decls, i, s.decls[i].input)
    ensures CanLink(env, s, p)
  {
    if p < s.m {
      DeclaredRequests(env, decls, s, p);
      assert Resolvable(env, decls, p, s.decls[p].input);
    } else {
      CondResolves(env, decls, s, p);
    }
  }

  // ---------------------------------------------------------------- verification

  /** A vertex marked as start, or alone in its graph, names no dependency and expects nothing; any other is linked. */
  ghost predicate Placed(s: Symbols, decls: seq<Decl>, p: nat)
    requires |s.decls| == s.m == |decls| && p < |decls|
  {
    if decls[p].isStart || (|decls| == 1 && s.gens == []) then
      decls[p].deps == decls[p].depsOnOk == decls[p].depsOnErr == [] && decls[p].expectation == ""
    else exists u :: 0 <= u < s.Total() && (Declared(s, decls, u, p) || Declared(s, decls, p, u))
  }

  lemma PairDeclared(env: Env, decls: seq<Decl>, s: Symbols, rs: seq<Request>, u: nat, v: nat)
    requires Compiled(env, decls, s) && AllRequests(env, s, s.Total()) == Some(rs) && InRange(rs, s.Total())
    requires u < s.Total() && v < s.Total()
    ensures u in DependAll(Empty(s.Total()), rs)[v].idx <==> Declared(s, decls, u, v)
    ensures v in DependAll(Empty(s.Total()), rs)[u].succ <==> Declared(s, decls, u, v)
  {
    PairIffHas(s.Total(), rs, u, v);
    AllRequestsAre(env, s, s.Total(), u, v);
    LinkedIff(env, decls, s, u, v);
    LinkedIsRanged(s.Total(), rs);
    assert Mirror(DependAll(Empty(s.Total()), rs), u, v);
  }

  lemma HasLinkIff(env: Env, decls: seq<Decl>, s: Symbols, rs: seq<Request>, p: nat)
    requires Compiled(env, decls, s) && AllRequests(env, s, s.Total()) == Some(rs) && InRange(rs, s.Total()) && p < s.Total()
    ensures var x := DependAll(Empty(s.Total()), rs)[p];
            !(x.succ == [] && x.idx == map[]) <==>
            exists u :: 0 <= u < s.Total() && (Declared(s, decls, u, p) || Declared(s, decls, p, u))
  {
    var t := DependAll(Empty(s.Total()), rs);
    LinkedIsRanged(s.Total(), rs);
    assert Ranged(t[p], |t|);
    forall u: nat | u < s.Total()
      ensures u in t[p].idx <==> Declared(s, decls, u, p)
      ensures u in t[p].succ <==> Declared(s, decls, p, u)
    {
      PairDeclared(env, decls, s, rs, u, p);
      PairDeclared(env, decls, s, rs, p, u);
    }
    if t[p].idx != map[] {
      var u :| u in t[p].idx;
      assert Declared(s, decls, u, p);
    }
    if t[p].succ != [] {
      assert t[p].succ[0] in t[p].succ;
      assert Declared(s, decls, p, t[p].succ[0]);
    }
  }

  lemma VerifiedIff(env: Env, decls: seq<Decl>, s: Symbols, rs: seq<Request>, p: nat)
    requires Loop(env, decls, s) && p < |decls|
    requires AllRequests(env, s, s.Total()) == Some(rs) && InRange(rs, s.Total())
    ensures Verified(s.decls[p], DependAll(Empty(s.Total()), rs)[p]) <==> Placed(s, decls, p)
  {
    DeclaredIsCompiled(env, decls);
    CompiledIsCompleted(env, decls, s, p);
    HasLinkIff(env, decls, s, rs, p);
    assert Normalised(s, decls[p], s.decls[p]);
    assert s.decls[p].depsOnOk == [] <==> decls[p].depsOnOk == [] && decls[p].expectation == "";
  }

  lemma CondDeclared(s: Symbols, decls: seq<Decl>, p: nat, j: nat)
    requires |s.decls| == s.m == |decls| && s.m <= p < s.Total() && j < |decls|
    requires decls[j].expectation != "" && s.gens[p - s.m].cond == decls[j].expectation
    ensures Declared(s, decls, p, j)
  {
    assert Expects(s, decls[j], p);
  }

  lemma HasSuccessor(env: Env, decls: seq<Decl>, s: Symbols, rs: seq<Request>, p: nat, j: nat)
    requires Loop(env, decls, s) && AllRequests(env, s, s.Total()) == Some(rs) && InRange(rs, s.Total())
    requires p < s.Total() && j < s.Total() && Declared(s, decls, p, j)
    ensures DependAll(Empty(s.Total()), rs)[p].succ != []
  {
    DeclaredIsCompiled(env, decls);
    PairDeclared(env, decls, s, rs, p, j);
  }

  /** A generated vertex is linked to the vertex that it was generated for. */
  lemma CondIsLinked(env: Env, decls: seq<Decl>, s: Symbols, rs: seq<Request>, p: nat)
    requires Loop(env, decls, s) && s.m <= p < s.Total()
    requires AllRequests(env, s, s.Total()) == Some(rs) && InRange(rs, s.Total())
    ensures Verified(s.At(p), DependAll(Empty(s.Total()), rs)[p])
  {
    GeneratedEvaluates(env, decls, s, p - s.m);
    var j := CondFor(env, decls, s, p);
    CondDeclared(s, decls, p, j);
    HasSuccessor(env, decls, s, rs, p, j);
  }

  lemma AllVerifiedIff(env: Env, decls: seq<Decl>, s: Symbols, rs: seq<Request>)
    requires Loop(env, decls, s)
    requires AllRequests(env, s, s.Total()) == Some(rs) && InRange(rs, s.Total())
    ensures (forall p :: 0 <= p < s.Total() ==> Verified(s.At(p), DependAll(Empty(s.Total()), rs)[p])) <==>
            forall p :: 0 <= p < |decls| ==> Placed(s, decls, p)
  {
    forall p | 0 <= p < |decls|
      ensures Verified(s.At(p), DependAll(Empty(s.Total()), rs)[p]) <==> Placed(s, decls, p)
    {
      VerifiedIff(env, decls, s, rs, p);
    }
    forall p | s.m <= p < s.Total()
      ensures Verified(s.At(p), DependAll(Empty(s.Total()), rs)[p])
    {
      CondIsLinked(env, decls, s, rs, p);
    }
  }

  /** The stage after the declaration loop. */
  ghost predicate LinksHold(env: Env, decls: seq<Decl>)
    requires DeclareAll(env, decls, |decls|).Some?
  {
    var s := MarkSingle(DeclareAll(env, decls, |decls|).value);
    && |s.decls| == s.m == |decls|
    && (forall i :: 0 <= i < |decls| ==> Resolvable(env, decls, i, s.decls[i].input))
    && (forall p :: 0 <= p < |decls| ==> Placed(s, decls, p))
  }

  /** The links of a declaration can be made and verified exactly if every vertex can be declared after those before
      it, whatever it refers to exists, and it is a start without dependencies or is linked to something. */
  lemma BuildsIff(env: Env, decls: seq<Decl>)
    ensures BuildLinks(env, decls).Some? <==>
            AllDeclarable(env, decls, |decls|) && DeclareAll(env, decls, |decls|).Some? && LinksHold(env, decls)
  {
    DeclaredIff(env, decls, |decls|);
    if DeclareAll(env, decls, |decls|).Some? {
      LinkedStage(env, decls);
    }
  }

  lemma LoopLengths(env: Env, decls: seq<Decl>)
    requires DeclareAll(env, decls, |decls|).Some?
    ensures Loop(env, decls, MarkSingle(DeclareAll(env, decls, |decls|).value))
  {
    DeclaredIsCompiled(env, decls);
  }

  lemma LinkedStage(env: Env, decls: seq<Decl>)
    requires DeclareAll(env, decls, |decls|).Some?
    ensures BuildLinks(env, decls).Some? <==> LinksHold(env, decls)
  {
    LoopLengths(env, decls);
    var s := MarkSingle(DeclareAll(env, decls, |decls|).value);
    LinksIff(env, decls, s);
    if AllRequests(env, s, s.Total()).Some? {
      RequestsInRange(env, decls, s, s.Total());
      AllVerifiedIff(env, decls, s, AllRequests(env, s, s.Total()).value);
    }
  }

  // ---------------------------------------------------------------- what data expect

  /** The first input of v that reads a datum of u. */
  ghost predicate FirstReader(s: Symbols, v: nat, u: nat, i: int)
    requires v < |s.decls|
  {
    && 0 <= i < |s.decls[v].input| && ReadsAt(s, v, u, i)
    && forall j :: 0 <= j < i ==> !ReadsAt(s, v, u, j)
  }

  ghost predicate ReadsAt(s: Symbols, v: nat, u: nat, i: int)
    requires v < |s.decls| && 0 <= i < |s.decls[v].input|
  {
    u < |s.decls| && exists id :: ReadsDatum(s, v, u, s.decls[v].input[i], id)
  }

  lemma {:induction false} FirstMask(data: map<string, nat>, input: seq<Datum>, p: nat, u: nat, i: nat)
    requires i < |input| && Consumes(data, input[i], p, u) && forall j :: 0 <= j < i ==> !Consumes(data, input[j], p, u)
    ensures DataMask(data, input, p, u) == Some(if input[i].required then V_RESULT_OK else V_RESULT_ALL)
  {
    var before := input[..|input| - 1];
    if i < |before| {
      FirstMask(data, before, p, u, i);
    } else {
      NoMask(data, before, p, u);
    }
  }

  lemma {:induction false} NoMask(data: map<string, nat>, input: seq<Datum>, p: nat, u: nat)
    requires forall j :: 0 <= j < |input| ==> !Consumes(data, input[j], p, u)
    ensures DataMask(data, input, p, u).None?
  {
    if input != [] {
      NoMask(data, input[..|input| - 1], p, u);
    }
  }

  lemma MaskIs(s: Symbols, v: nat, u: nat, i: nat)
    requires DataInv(s.decls, s.data) && v < |s.decls| && FirstReader(s, v, u, i)
    ensures DataMask(s.data, s.decls[v].input, v, u) == Some(if s.decls[v].input[i].required then V_RESULT_OK else V_RESULT_ALL)
  {
    forall j | 0 <= j < |s.decls[v].input|
      ensures Consumes(s.data, s.decls[v].input[j], v, u) <==> ReadsAt(s, v, u, j)
    {
      ConsumesIs(s, v, u, s.decls[v].input[j]);
    }
    FirstMask(s.data, s.decls[v].input, v, u, i);
  }

  lemma NotNamed(env: Env, decls: seq<Decl>, s: Symbols, u: nat, v: nat)
    requires Compiled(env, decls, s) && u < s.m && v < s.m
    requires !NamedAsDep(s, decls[v], u) && !NamedAsSuccessor(s, decls[u], v)
    ensures DepMask(s.nodes, s.decls[v], u).None? && SuccMask(s.nodes, s.decls[u], v).None?
  {
    CondNameIs(env, decls, s, v, u);
    SuccessorNamesAre(env, decls, s, u, v);
  }

  /** An edge between declared vertices that neither end names expects success if the first input that reads a datum of u
      is declared as required, and any result if it is not, or is not declared at all. */
  lemma DataEdgeExpects(env: Env, decls: seq<Decl>, u: nat, v: nat, i: nat)
    requires BuildLinks(env, decls).Some? && u < |decls| && v < |decls| && u != v
    requires |BuildLinks(env, decls).value.sym.decls| == BuildLinks(env, decls).value.sym.m == |decls|
    requires !NamedAsDep(BuildLinks(env, decls).value.sym, decls[v], u)
    requires !NamedAsSuccessor(BuildLinks(env, decls).value.sym, decls[u], v)
    requires FirstReader(BuildLinks(env, decls).value.sym, v, u, i)
    ensures |BuildLinks(env, decls).value.links| > v
    ensures HasExpectation(BuildLinks(env, decls).value.links[v], u,
              if i < |decls[v].input| && decls[v].input[i].required then V_RESULT_OK else V_RESULT_ALL)
  {
    BuildIsCompiled(env, decls);
    var s := BuildLinks(env, decls).value.sym;
    CompiledIsCompleted(env, decls, s, v);
    NotNamed(env, decls, s, u, v);
    MaskIs(s, v, u, i);
    EdgeExpectsFirstAsked(env, decls, u, v);
    RequiredIs(env, decls[v], s.decls[v], i);
  }

  lemma RequiredIs(env: Env, d: Decl, n: Decl, i: nat)
    requires Completed(env, d, n) && i < |n.input|
    ensures n.input[i].required <==> i < |d.input| && d.input[i].required
  {
    var fields := FieldsOf(env, ProcessorOf(env, d)).inputs;
    if i < |d.input| {
      assert InputKept(fields, d.input, i, n.input[i]);
    } else {
      assert InputAdded(fields, n.input[i]);
    }
  }
}
