/** Which result each edge of a compiled graph expects: the first `Depend` call for the pair decides. */
module Expectations {
  import opened Options
  import opened VertexResults
  import opened Links
  import opened GraphDecl
  import opened GraphEdges
  import opened GraphBuild

  /** What n's dependency lists ask of u: a plain dependency before OK, OK before ERR. */
  ghost function DepMask(nodes: map<string, nat>, n: Decl, u: nat): Option<VertexResult> {
    if Refers(nodes, n.deps, u) then Some(V_RESULT_ALL)
    else if Refers(nodes, n.depsOnOk, u) then Some(V_RESULT_OK)
    else if Refers(nodes, n.depsOnErr, u) then Some(V_RESULT_ERR) else None
  }

  ghost function SuccMask(nodes: map<string, nat>, n: Decl, v: nat): Option<VertexResult> {
    if Refers(nodes, n.successor, v) then Some(V_RESULT_ALL)
    else if Refers(nodes, n.successorOnOk, v) then Some(V_RESULT_OK)
    else if Refers(nodes, n.successorOnErr, v) then Some(V_RESULT_ERR) else None
  }

  /** The mask of the first input of p that reads a datum of u. */
  ghost function DataMask(data: map<string, nat>, input: seq<Datum>, p: nat, u: nat): Option<VertexResult> {
    if input == [] then None
    else
      var d := input[|input| - 1];
      OrElse(DataMask(data, input[..|input| - 1], p, u), if Consumes(data, d, p, u) then Some(InputMask(d)) else None)
  }

  /** What vertex p, declared as n, asks of the edge u → v. */
  ghost function Ask(s: Symbols, n: Decl, p: nat, u: nat, v: nat): Option<VertexResult> {
    OrElse(if v == p then DepMask(s.nodes, n, u) else None,
           OrElse(if u == p then SuccMask(s.nodes, n, v) else None,
                  if v == p then DataMask(s.data, n.input, p, u) else None))
  }

  // ---------------------------------------------------------------- first requests, source by source

  lemma {:induction false} FirstIsRequest(reqs: seq<Request>, u: nat, v: nat)
    requires First(reqs, u, v).Some?
    ensures Request(u, v, First(reqs, u, v).value) in reqs
  {
    var before, r := reqs[..|reqs| - 1], reqs[|reqs| - 1];
    if First(before, u, v).Some? {
      FirstIsRequest(before, u, v);
    } else {
      assert r in reqs && r == Request(u, v, r.expected);
    }
  }

  /** When all requests for the pair ask the same, so does the first. */
  lemma FirstOfUniform(reqs: seq<Request>, u: nat, v: nat, e: VertexResult)
    requires forall r :: r in reqs && r.from == u && r.to == v ==> r.expected == e
    ensures First(reqs, u, v) == if Has(reqs, u, v) then Some(e) else None
  {
    FirstIffHas(reqs, u, v);
    if Has(reqs, u, v) {
      FirstIsRequest(reqs, u, v);
    }
  }

  lemma DepFirst(nodes: map<string, nat>, names: seq<string>, p: nat, e: VertexResult, u: nat, v: nat)
    requires DepRequests(nodes, names, p, e).Some?
    ensures First(DepRequests(nodes, names, p, e).value, u, v) == if v == p && Refers(nodes, names, u) then Some(e) else None
  {
    DepRequestsAre(nodes, names, p, e);
    DepPart(nodes, names, p, e, u, v);
    FirstOfUniform(DepRequests(nodes, names, p, e).value, u, v, e);
  }

  lemma SuccFirst(nodes: map<string, nat>, names: seq<string>, p: nat, e: VertexResult, u: nat, v: nat)
    requires SuccRequests(nodes, names, p, e).Some?
    ensures First(SuccRequests(nodes, names, p, e).value, u, v) == if u == p && Refers(nodes, names, v) then Some(e) else None
  {
    SuccRequestsAre(nodes, names, p, e);
    SuccPart(nodes, names, p, e, u, v);
    FirstOfUniform(SuccRequests(nodes, names, p, e).value, u, v, e);
  }

  lemma JoinFirst(a: Option<seq<Request>>, b: Option<seq<Request>>, u: nat, v: nat)
    requires Join(a, b).Some?
    ensures a.Some? && b.Some? && First(Join(a, b).value, u, v) == OrElse(First(a.value, u, v), First(b.value, u, v))
  {
    FirstOfAppend(a.value, b.value, u, v);
  }

  lemma NamedDepsFirst(nodes: map<string, nat>, n: Decl, p: nat, u: nat, v: nat)
    requires NamedDeps(nodes, n, p).Some?
    ensures First(NamedDeps(nodes, n, p).value, u, v) == if v == p then DepMask(nodes, n, u) else None
  {
    var a, b, c := DepRequests(nodes, n.deps, p, V_RESULT_ALL), DepRequests(nodes, n.depsOnOk, p, V_RESULT_OK),
                   DepRequests(nodes, n.depsOnErr, p, V_RESULT_ERR);
    JoinFirst(a, Join(b, c), u, v);
    JoinFirst(b, c, u, v);
    DepFirst(nodes, n.deps, p, V_RESULT_ALL, u, v);
    DepFirst(nodes, n.depsOnOk, p, V_RESULT_OK, u, v);
    DepFirst(nodes, n.depsOnErr, p, V_RESULT_ERR, u, v);
  }

  lemma NamedSuccsFirst(nodes: map<string, nat>, n: Decl, p: nat, u: nat, v: nat)
    requires NamedSuccs(nodes, n, p).Some?
    ensures First(NamedSuccs(nodes, n, p).value, u, v) == if u == p then SuccMask(nodes, n, v) else None
  {
    var a, b, c := SuccRequests(nodes, n.successor, p, V_RESULT_ALL), SuccRequests(nodes, n.successorOnOk, p, V_RESULT_OK),
                   SuccRequests(nodes, n.successorOnErr, p, V_RESULT_ERR);
    JoinFirst(a, Join(b, c), u, v);
    JoinFirst(b, c, u, v);
    SuccFirst(nodes, n.successor, p, V_RESULT_ALL, u, v);
    SuccFirst(nodes, n.successorOnOk, p, V_RESULT_OK, u, v);
    SuccFirst(nodes, n.successorOnErr, p, V_RESULT_ERR, u, v);
  }

  lemma InputFirst(data: map<string, nat>, d: Datum, p: nat, u: nat, v: nat)
    requires InputRequest(data, d, p).Some?
    ensures First(InputRequest(data, d, p).value, u, v)
            == if v == p && Consumes(data, d, p, u) then Some(InputMask(d)) else None
  {
    var qs := InputRequest(data, d, p).value;
    if d.aggregate != [] {
      AggregateRequestsAre(data, d, d.aggregate, p);
    }
    FirstOfUniform(qs, u, v, InputMask(d));
    if v == p {
      OneInput(data, d, p, u);
    }
  }

  lemma {:induction false} InputsFirst(data: map<string, nat>, input: seq<Datum>, p: nat, u: nat, v: nat)
    requires InputRequests(data, input, p).Some?
    ensures First(InputRequests(data, input, p).value, u, v) == if v == p then DataMask(data, input, p, u) else None
  {
    if input != [] {
      var before, d := input[..|input| - 1], input[|input| - 1];
      InputsFirst(data, before, p, u, v);
      InputFirst(data, d, p, u, v);
      FirstOfAppend(InputRequests(data, before, p).value, InputRequest(data, d, p).value, u, v);
    }
  }

  lemma VertexFirst(env: Env, s: Symbols, n: Decl, p: nat, u: nat, v: nat)
    requires VertexRequests(env, s.nodes, s.data, n, p).Some?
    ensures First(VertexRequests(env, s.nodes, s.data, n, p).value, u, v) == Ask(s, n, p, u, v)
  {
    var deps, succs, ins := NamedDeps(s.nodes, n, p), NamedSuccs(s.nodes, n, p), InputRequests(s.data, n.input, p);
    JoinFirst(deps, Join(succs, ins), u, v);
    JoinFirst(succs, ins, u, v);
    NamedDepsFirst(s.nodes, n, p, u, v);
    NamedSuccsFirst(s.nodes, n, p, u, v);
    InputsFirst(s.data, n.input, p, u, v);
  }

  // ---------------------------------------------------------------- the expectation of an edge

  /** What the first i vertices ask of u → v, the first to ask being heard. */
  ghost function AskedBy(s: Symbols, u: nat, v: nat, i: nat): Option<VertexResult>
    requires |s.decls| == s.m && i <= s.Total()
  {
    if i == 0 then None else OrElse(AskedBy(s, u, v, i - 1), Ask(s, s.At(i - 1), i - 1, u, v))
  }

  lemma FirstOfStep(env: Env, s: Symbols, a: Option<seq<Request>>, b: Option<seq<Request>>, i: nat, u: nat, v: nat)
    requires |s.decls| == s.m && 0 < i <= s.Total() && a.Some? && b.Some?
    requires b == Join(a, VertexRequests(env, s.nodes, s.data, s.At(i - 1), i - 1))
    requires First(a.value, u, v) == AskedBy(s, u, v, i - 1)
    ensures First(b.value, u, v) == AskedBy(s, u, v, i)
  {
    JoinFirst(a, VertexRequests(env, s.nodes, s.data, s.At(i - 1), i - 1), u, v);
    VertexFirst(env, s, s.At(i - 1), i - 1, u, v);
  }

  lemma {:induction false} FirstOfAll(env: Env, s: Symbols, i: nat, u: nat, v: nat)
    requires |s.decls| == s.m && i <= s.Total() && AllRequests(env, s, i).Some?
    ensures First(AllRequests(env, s, i).value, u, v) == AskedBy(s, u, v, i)
  {
    if i > 0 {
      FirstOfAll(env, s, i - 1, u, v);
      FirstOfStep(env, s, AllRequests(env, s, i - 1), AllRequests(env, s, i), i, u, v);
    }
  }

  /** Only the two ends ask; the one declared first is heard first. */
  ghost function Asked(s: Symbols, u: nat, v: nat): Option<VertexResult>
    requires |s.decls| == s.m && u < s.Total() && v < s.Total()
  {
    if u <= v then OrElse(Ask(s, s.At(u), u, u, v), Ask(s, s.At(v), v, u, v))
    else OrElse(Ask(s, s.At(v), v, u, v), Ask(s, s.At(u), u, u, v))
  }

  lemma {:induction false} AskedByEnds(s: Symbols, u: nat, v: nat, i: nat)
    requires |s.decls| == s.m && u < s.Total() && v < s.Total() && i <= s.Total()
    ensures AskedBy(s, u, v, i) ==
            OrElse(if (if u <= v then u else v) < i then Ask(s, s.At(if u <= v then u else v), if u <= v then u else v, u, v) else None,
                   if (if u <= v then v else u) < i then Ask(s, s.At(if u <= v then v else u), if u <= v then v else u, u, v) else None)
  {
    if i > 0 {
      AskedByEnds(s, u, v, i - 1);
    }
  }

  /** After a successful build u → v is an edge exactly if one of its ends asks for it, and then it expects
      what was asked first. */
  lemma EdgeExpectsFirstAsked(env: Env, decls: seq<Decl>, u: nat, v: nat)
    requires BuildLinks(env, decls).Some?
    ensures var b := BuildLinks(env, decls).value;
            && |b.sym.decls| == b.sym.m && |b.links| == b.sym.Total()
            && (u < |b.links| && v < |b.links| ==> PairBuilt(b.links, Asked(b.sym, u, v), u, v))
  {
    BuildStages(env, decls);
    var b := BuildLinks(env, decls).value;
    if u < b.sym.Total() && v < b.sym.Total() {
      FirstOfAll(env, b.sym, b.sym.Total(), u, v);
      AskedByEnds(b.sym, u, v, b.sym.Total());
      EdgeIffRequested(b.sym.Total(), AllRequests(env, b.sym, b.sym.Total()).value, u, v);
    }
  }

  // ---------------------------------------------------------------- explicit against implicit

  /** What the two ends ask of u → v by name, the end declared first being heard first. */
  ghost function Named(s: Symbols, u: nat, v: nat): Option<VertexResult>
    requires |s.decls| == s.m && u < s.Total() && v < s.Total()
  {
    if u < v then OrElse(SuccMask(s.nodes, s.At(u), v), DepMask(s.nodes, s.At(v), u))
    else OrElse(DepMask(s.nodes, s.At(v), u), SuccMask(s.nodes, s.At(u), v))
  }

  /** A named expectation overrides the one implied by data exactly unless the reader is declared before the
      vertex that names it as successor, does not name that vertex itself, and its data asks otherwise. */
  lemma NamedBeatsDataIff(env: Env, decls: seq<Decl>, u: nat, v: nat)
    requires BuildLinks(env, decls).Some?
    requires u != v && u < BuildLinks(env, decls).value.sym.Total() && v < BuildLinks(env, decls).value.sym.Total()
    requires |BuildLinks(env, decls).value.sym.decls| == BuildLinks(env, decls).value.sym.m
    requires Named(BuildLinks(env, decls).value.sym, u, v).Some?
    ensures var b := BuildLinks(env, decls).value;
            && |b.links| == b.sym.Total()
            && (HasExpectation(b.links[v], u, Named(b.sym, u, v).value) <==>
                var implied := DataMask(b.sym.data, b.sym.At(v).input, v, u);
                || u < v || DepMask(b.sym.nodes, b.sym.At(v), u).Some?
                || implied.None? || implied == Named(b.sym, u, v))
  {
    EdgeExpectsFirstAsked(env, decls, u, v);
  }
}
