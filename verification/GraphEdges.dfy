/** What the edges of a compiled graph are, in terms of its declaration. */
module GraphEdges {
  import opened Options
  import opened VertexResults
  import opened Links
  import opened GraphDecl

  // ---------------------------------------------------------------- the declaration loop

  /** How a processed vertex relates to the declared one: names only gain the `if`/`else` successors and the
      condition vertex of its `expect`. */
  ghost predicate Normalised(s: Symbols, d: Decl, n: Decl) {
    && (d.id != "" ==> n.id == d.id)
    && n.deps == d.deps && n.depsOnErr == d.depsOnErr
    && n.successor == d.successor
    && n.successorOnOk == d.successorOnOk + d.consequent
    && n.successorOnErr == d.successorOnErr + d.alternative
    && n.depsOnOk == d.depsOnOk + (if d.expectation == "" then [] else [CondName(s, d.expectation)])
    && (d.expectation != "" ==> HasCond(s, d.expectation))
  }

  ghost predicate HasCond(s: Symbols, text: string) {
    text in s.conds && s.conds[text] < |s.gens| && s.gens[s.conds[text]].cond == text
  }

  ghost function CondName(s: Symbols, text: string): string {
    if text in s.conds then CondId(s, text) else ""
  }

  /** The position was handed out, and carries this id. */
  ghost predicate Names(s: Symbols, id: string, p: nat) {
    if p < |s.decls| then s.decls[p].id == id
    else s.m <= p < s.Total() && s.gens[p - s.m].id == id
  }

  ghost predicate NameInv(s: Symbols, decls: seq<Decl>, i: nat) {
    && s.m == |decls| && |s.decls| == i <= s.m
    && (forall j {:trigger Normalised(s, decls[j], s.decls[j])} :: 0 <= j < i ==> Normalised(s, decls[j], s.decls[j]))
    && (forall t {:trigger HasCond(s, t)} :: t in s.conds ==> HasCond(s, t))
    && (forall id {:trigger Names(s, id, s.nodes[id])} :: id in s.nodes ==> Names(s, id, s.nodes[id]))
    && (forall k :: 0 <= k < |s.gens| ==> s.gens[k].input == [])
  }

  /** The data table is exactly the producers of the processed vertices. */
  ghost predicate DataInv(decls: seq<Decl>, data: map<string, nat>) {
    && (forall d :: d in data ==> data[d] < |decls| && Produces(decls[data[d]], d))
    && (forall j, d :: 0 <= j < |decls| && Produces(decls[j], d) ==> d in data && data[d] == j)
  }

  predicate Produces(n: Decl, d: string) {
    exists o :: 0 <= o < |n.output| && n.output[o].id == d
  }

  lemma {:induction false} RegisterOutputsEffect(data: map<string, nat>, output: seq<Output>, p: nat)
    requires RegisterOutputs(data, output, p).Some?
    ensures var data' := RegisterOutputs(data, output, p).value;
            && (forall d :: d in data ==> d in data' && data'[d] == data[d])
            && (forall d :: d in data' ==> d in data || (data'[d] == p && exists o :: 0 <= o < |output| && output[o].id == d))
            && (forall o :: 0 <= o < |output| ==> output[o].id !in data && output[o].id in data' && data'[output[o].id] == p)
    decreases |output|
  {
    if output != [] {
      var rest := output[1..];
      RegisterOutputsEffect(data[output[0].id := p], rest, p);
      forall o | 0 <= o < |output|
        ensures output[o].id !in data && output[o].id in RegisterOutputs(data, output, p).value
        ensures RegisterOutputs(data, output, p).value[output[o].id] == p
      {
        if o > 0 {
          assert output[o] == rest[o - 1];
        }
      }
      forall d | d in RegisterOutputs(data, output, p).value && d !in data
        ensures exists o :: 0 <= o < |output| && output[o].id == d
      {
        if d != output[0].id {
          var o :| 0 <= o < |rest| && rest[o].id == d;
          assert output[o + 1].id == d;
        }
      }
    }
  }

  /** Adding a generated vertex under a new text keeps what is known. */
  lemma NewCondKeeps(s: Symbols, t: Symbols, decls: seq<Decl>, i: nat, c: Decl)
    requires NameInv(s, decls, i) && c.cond !in s.conds && c.input == []
    requires t == s.(gens := s.gens + [c], nodes := s.nodes[c.id := s.Total()], conds := s.conds[c.cond := |s.gens|], next := t.next)
    ensures NameInv(t, decls, i) && HasCond(t, c.cond)
  {
    assert forall k :: 0 <= k < |s.gens| ==> t.gens[k] == s.gens[k];
    forall x | x in t.conds
      ensures HasCond(t, x)
    {
      if x != c.cond {
        assert HasCond(s, x);
      }
    }
    forall j | 0 <= j < i
      ensures Normalised(t, decls[j], t.decls[j])
    {
      assert Normalised(s, decls[j], s.decls[j]);
    }
    forall id | id in t.nodes
      ensures Names(t, id, t.nodes[id])
    {
      if id != c.id {
        assert Names(s, id, s.nodes[id]);
      }
    }
  }

  lemma WithCondKeeps(env: Env, s: Symbols, decls: seq<Decl>, i: nat, n: Decl)
    requires NameInv(s, decls, i)
    ensures NameInv(WithCond(env, s, n).0, decls, i)
    ensures var (t, d) := WithCond(env, s, n);
            && d == n.(depsOnOk := d.depsOnOk)
            && d.depsOnOk == n.depsOnOk + (if n.expectation == "" then [] else [CondName(t, n.expectation)])
            && (n.expectation != "" ==> HasCond(t, n.expectation))
            && t.data == s.data && t.decls == s.decls && t.m == s.m
  {
    if n.expectation != "" {
      if n.expectation in s.conds {
        assert HasCond(s, n.expectation);
      } else {
        NewCondKeeps(s, WithCond(env, s, n).0, decls, i, CondVertex(env, GenerateNodeId(env, s.next), n));
      }
    }
  }

  lemma EnterName(s: Symbols, t: Symbols, decls: seq<Decl>, i: nat, id: string, n: Decl)
    requires NameInv(s, decls, i) && i < s.m && n.id == id && Normalised(s, decls[i], n)
    requires t == s.(nodes := s.nodes[id := i], decls := s.decls + [n], data := t.data)
    ensures NameInv(t, decls, i + 1)
  {
    forall j | 0 <= j < i + 1
      ensures Normalised(t, decls[j], t.decls[j])
    {
      if j < i {
        assert Normalised(s, decls[j], s.decls[j]);
      }
    }
    forall x | x in t.nodes
      ensures Names(t, x, t.nodes[x])
    {
      if x != id {
        assert Names(s, x, s.nodes[x]);
      }
    }
    assert forall x :: x in t.conds ==> HasCond(s, x);
  }

  lemma EnterData(decls: seq<Decl>, data: map<string, nat>, n: Decl)
    requires DataInv(decls, data) && RegisterOutputs(data, n.output, |decls|).Some?
    ensures DataInv(decls + [n], RegisterOutputs(data, n.output, |decls|).value)
  {
    var data', all := RegisterOutputs(data, n.output, |decls|).value, decls + [n];
    RegisterOutputsEffect(data, n.output, |decls|);
    forall d | d in data'
      ensures data'[d] < |all| && Produces(all[data'[d]], d)
    {
      if d in data {
        assert Produces(decls[data[d]], d);
      }
    }
    forall j, d | 0 <= j < |all| && Produces(all[j], d)
      ensures d in data' && data'[d] == j
    {
      if j < |decls| {
        assert Produces(decls[j], d);
      }
    }
  }

  /** The pieces of a successful entry. */
  lemma EnterParts(env: Env, s: Symbols, d: Decl) returns (done: Decl)
    requires EnterVertex(env, s, d).Some?
    ensures && done == MergeSuccessor(d).(input := done.input, output := done.output)
            && d.id !in s.nodes && RegisterOutputs(s.data, done.output, |s.decls|).Some?
            && EnterVertex(env, s, d).value ==
               s.(nodes := s.nodes[d.id := |s.decls|], decls := s.decls + [done],
                  data := RegisterOutputs(s.data, done.output, |s.decls|).value)
  {
    var d2 := FillInputOutput(env, MergeSuccessor(d)).value;
    done := d2.(input := NameInputs(d2.input).value, output := NameOutputs(d2.output).value);
  }

  lemma NextIsImmaterial(s: Symbols, decls: seq<Decl>, i: nat, next: nat)
    requires NameInv(s, decls, i)
    ensures NameInv(s.(next := next), decls, i)
  {
    var t := s.(next := next);
    forall j | 0 <= j < i
      ensures Normalised(t, decls[j], t.decls[j])
    {
      assert Normalised(s, decls[j], s.decls[j]);
    }
    assert forall id :: id in s.nodes ==> Names(s, id, s.nodes[id]);
    assert forall x :: x in s.conds ==> HasCond(s, x);
  }

  /** Vertex i is ready to be entered. */
  ghost predicate ReadyInv(s: Symbols, d: Decl, decls: seq<Decl>, i: nat) {
    SymbolsInv(s, decls, i) && i < |decls| && Normalised(s, decls[i], MergeSuccessor(d))
  }

  lemma PrepareKeeps(env: Env, s: Symbols, decls: seq<Decl>, i: nat)
    requires SymbolsInv(s, decls, i) && i < |decls|
    ensures ReadyInv(Prepare(env, s, decls[i]).0, Prepare(env, s, decls[i]).1, decls, i)
  {
    var (d, next) := Defaults(env, s.next, decls[i]);
    NextIsImmaterial(s, decls, i, next);
    WithCondKeeps(env, s.(next := next), decls, i, d);
  }

  lemma EnterKeeps(env: Env, s: Symbols, d: Decl, decls: seq<Decl>, i: nat)
    requires ReadyInv(s, d, decls, i) && EnterVertex(env, s, d).Some?
    ensures SymbolsInv(EnterVertex(env, s, d).value, decls, i + 1)
  {
    var done := EnterParts(env, s, d);
    EnterName(s, EnterVertex(env, s, d).value, decls, i, d.id, done);
    EnterData(s.decls, s.data, done);
  }

  lemma {:induction false} DeclareAllKeeps(env: Env, decls: seq<Decl>, i: nat)
    requires i <= |decls| && DeclareAll(env, decls, i).Some?
    ensures SymbolsInv(DeclareAll(env, decls, i).value, decls, i)
    decreases i, 0
  {
    if i == 0 {
      StartInv(decls);
    } else {
      PreparedKeeps(env, decls, i - 1);
      var p := Prepared(env, decls, i - 1).value;
      EnterKeeps(env, p.0, p.1, decls, i - 1);
    }
  }

  lemma {:induction false} PreparedKeeps(env: Env, decls: seq<Decl>, i: nat)
    requires i < |decls| && Prepared(env, decls, i).Some?
    ensures ReadyInv(Prepared(env, decls, i).value.0, Prepared(env, decls, i).value.1, decls, i)
    decreases i, 1
  {
    DeclareAllKeeps(env, decls, i);
    PrepareKeeps(env, DeclareAll(env, decls, i).value, decls, i);
  }

  lemma StartInv(decls: seq<Decl>)
    ensures SymbolsInv(Start(|decls|), decls, 0)
  {
  }

  ghost predicate SymbolsInv(s: Symbols, decls: seq<Decl>, i: nat) {
    NameInv(s, decls, i) && DataInv(s.decls, s.data)
  }

  // ---------------------------------------------------------------- requests, source by source

  /** One of the names denotes u. */
  ghost predicate Refers(nodes: map<string, nat>, names: seq<string>, u: nat) {
    exists x :: x in names && x in nodes && nodes[x] == u
  }

  lemma {:induction false} DepRequestsAre(nodes: map<string, nat>, names: seq<string>, p: nat, e: VertexResult)
    requires DepRequests(nodes, names, p, e).Some?
    ensures var rs := DepRequests(nodes, names, p, e).value;
            forall r :: r in rs <==> r.to == p && r.expected == e && Refers(nodes, names, r.from)
    ensures forall x :: x in names ==> x in nodes
  {
    if names != [] {
      var before, x := names[..|names| - 1], names[|names| - 1];
      DepRequestsAre(nodes, before, p, e);
      assert names == before + [x];
      forall u
        ensures Refers(nodes, names, u) <==> Refers(nodes, before, u) || nodes[x] == u
      {
        ReferSplit(nodes, before, x, u);
      }
    }
  }

  lemma ReferSplit(nodes: map<string, nat>, before: seq<string>, x: string, u: nat)
    requires x in nodes
    ensures Refers(nodes, before + [x], u) <==> Refers(nodes, before, u) || nodes[x] == u
  {
    if Refers(nodes, before, u) {
      var y :| y in before && y in nodes && nodes[y] == u;
      assert y in before + [x];
    }
    if nodes[x] == u {
      assert x in before + [x];
    }
  }

  lemma {:induction false} SuccRequestsAre(nodes: map<string, nat>, names: seq<string>, p: nat, e: VertexResult)
    requires SuccRequests(nodes, names, p, e).Some?
    ensures var rs := SuccRequests(nodes, names, p, e).value;
            forall r :: r in rs <==> r.from == p && r.expected == e && Refers(nodes, names, r.to)
    ensures forall x :: x in names ==> x in nodes
  {
    if names != [] {
      var before, x := names[..|names| - 1], names[|names| - 1];
      SuccRequestsAre(nodes, before, p, e);
      assert names == before + [x];
      forall u
        ensures Refers(nodes, names, u) <==> Refers(nodes, before, u) || nodes[x] == u
      {
        ReferSplit(nodes, before, x, u);
      }
    }
  }

  /** Input d of vertex p reads a datum that u produces. */
  ghost predicate Consumes(data: map<string, nat>, d: Datum, p: nat, u: nat) {
    if d.aggregate != [] then Refers(data, d.aggregate, u)
    else d.id in data && data[d.id] == u && !(d.isInOut && u == p)
  }

  ghost predicate ConsumesAny(data: map<string, nat>, input: seq<Datum>, p: nat, u: nat) {
    exists d :: d in input && Consumes(data, d, p, u)
  }

  lemma {:induction false} AggregateRequestsAre(data: map<string, nat>, d: Datum, ids: seq<string>, p: nat)
    requires AggregateRequests(data, d, ids, p).Some?
    ensures var rs := AggregateRequests(data, d, ids, p).value;
            forall r :: r in rs <==> r.to == p && r.expected == InputMask(d) && Refers(data, ids, r.from)
  {
    if ids != [] {
      var before, x := ids[..|ids| - 1], ids[|ids| - 1];
      AggregateRequestsAre(data, d, before, p);
      assert ids == before + [x];
      forall u
        ensures Refers(data, ids, u) <==> Refers(data, before, u) || (x in data && data[x] == u)
      {
        if x in data {
          ReferSplit(data, before, x, u);
        }
      }
    }
  }

  lemma {:induction false} InputRequestsAre(data: map<string, nat>, input: seq<Datum>, p: nat)
    requires InputRequests(data, input, p).Some?
    ensures var rs := InputRequests(data, input, p).value;
            (forall r :: r in rs ==> r.to == p) && forall u :: Has(rs, u, p) <==> ConsumesAny(data, input, p, u)
  {
    if input != [] {
      var before, d := input[..|input| - 1], input[|input| - 1];
      InputRequestsAre(data, before, p);
      assert input == before + [d];
      if d.aggregate != [] {
        AggregateRequestsAre(data, d, d.aggregate, p);
      }
      var rs, qs := InputRequests(data, before, p).value, InputRequest(data, d, p).value;
      forall u
        ensures Has(rs + qs, u, p) <==> ConsumesAny(data, input, p, u)
      {
        OneInput(data, d, p, u);
        ConsumesSplit(data, before, d, p, u);
        HasSplit(rs, qs, u, p);
      }
    }
  }

  lemma OneInput(data: map<string, nat>, d: Datum, p: nat, u: nat)
    requires InputRequest(data, d, p).Some?
    ensures Has(InputRequest(data, d, p).value, u, p) <==> Consumes(data, d, p, u)
  {
    var qs := InputRequest(data, d, p).value;
    if d.aggregate != [] {
      AggregateRequestsAre(data, d, d.aggregate, p);
      assert Request(u, p, InputMask(d)) in qs <==> Refers(data, d.aggregate, u);
    } else if Consumes(data, d, p, u) {
      assert Request(u, p, InputMask(d)) in qs;
    }
  }

  lemma ConsumesSplit(data: map<string, nat>, before: seq<Datum>, d: Datum, p: nat, u: nat)
    ensures ConsumesAny(data, before + [d], p, u) <==> ConsumesAny(data, before, p, u) || Consumes(data, d, p, u)
  {
    if ConsumesAny(data, before, p, u) {
      var x :| x in before && Consumes(data, x, p, u);
      assert x in before + [d];
    }
    if Consumes(data, d, p, u) {
      assert d in before + [d];
    }
  }

  lemma HasSplit(rs: seq<Request>, qs: seq<Request>, u: nat, v: nat)
    ensures Has(rs + qs, u, v) <==> Has(rs, u, v) || Has(qs, u, v)
  {
    if Has(rs, u, v) {
      var e :| Request(u, v, e) in rs;
      assert Request(u, v, e) in rs + qs;
    }
    if Has(qs, u, v) {
      var e :| Request(u, v, e) in qs;
      assert Request(u, v, e) in rs + qs;
    }
  }

  /** Vertex n names u among its dependencies, or v among its successors (`if` and `else` included). */
  ghost predicate NamesDep(nodes: map<string, nat>, n: Decl, u: nat) {
    Refers(nodes, n.deps, u) || Refers(nodes, n.depsOnOk, u) || Refers(nodes, n.depsOnErr, u)
  }

  ghost predicate NamesSucc(nodes: map<string, nat>, n: Decl, v: nat) {
    Refers(nodes, n.successor, v) || Refers(nodes, n.successorOnOk, v) || Refers(nodes, n.successorOnErr, v)
  }

  lemma DepPart(nodes: map<string, nat>, names: seq<string>, p: nat, e: VertexResult, u: nat, v: nat)
    requires DepRequests(nodes, names, p, e).Some?
    ensures Has(DepRequests(nodes, names, p, e).value, u, v) <==> v == p && Refers(nodes, names, u)
  {
    DepRequestsAre(nodes, names, p, e);
    if v == p && Refers(nodes, names, u) {
      assert Request(u, v, e) in DepRequests(nodes, names, p, e).value;
    }
  }

  lemma SuccPart(nodes: map<string, nat>, names: seq<string>, p: nat, e: VertexResult, u: nat, v: nat)
    requires SuccRequests(nodes, names, p, e).Some?
    ensures Has(SuccRequests(nodes, names, p, e).value, u, v) <==> u == p && Refers(nodes, names, v)
  {
    SuccRequestsAre(nodes, names, p, e);
    if u == p && Refers(nodes, names, v) {
      assert Request(u, v, e) in SuccRequests(nodes, names, p, e).value;
    }
  }

  lemma InputPart(data: map<string, nat>, input: seq<Datum>, p: nat, u: nat, v: nat)
    requires InputRequests(data, input, p).Some?
    ensures Has(InputRequests(data, input, p).value, u, v) <==> v == p && ConsumesAny(data, input, p, u)
  {
    InputRequestsAre(data, input, p);
  }

  lemma JoinHas(a: Option<seq<Request>>, b: Option<seq<Request>>, u: nat, v: nat)
    requires Join(a, b).Some?
    ensures a.Some? && b.Some? && (Has(Join(a, b).value, u, v) <==> Has(a.value, u, v) || Has(b.value, u, v))
  {
    HasSplit(a.value, b.value, u, v);
  }

  lemma NamedDepsAre(nodes: map<string, nat>, n: Decl, p: nat, u: nat, v: nat)
    requires NamedDeps(nodes, n, p).Some?
    ensures Has(NamedDeps(nodes, n, p).value, u, v) <==> v == p && NamesDep(nodes, n, u)
  {
    var a, b, c := DepRequests(nodes, n.deps, p, V_RESULT_ALL), DepRequests(nodes, n.depsOnOk, p, V_RESULT_OK),
                   DepRequests(nodes, n.depsOnErr, p, V_RESULT_ERR);
    JoinHas(a, Join(b, c), u, v);
    JoinHas(b, c, u, v);
    DepPart(nodes, n.deps, p, V_RESULT_ALL, u, v);
    DepPart(nodes, n.depsOnOk, p, V_RESULT_OK, u, v);
    DepPart(nodes, n.depsOnErr, p, V_RESULT_ERR, u, v);
  }

  lemma NamedSuccsAre(nodes: map<string, nat>, n: Decl, p: nat, u: nat, v: nat)
    requires NamedSuccs(nodes, n, p).Some?
    ensures Has(NamedSuccs(nodes, n, p).value, u, v) <==> u == p && NamesSucc(nodes, n, v)
  {
    var a, b, c := SuccRequests(nodes, n.successor, p, V_RESULT_ALL), SuccRequests(nodes, n.successorOnOk, p, V_RESULT_OK),
                   SuccRequests(nodes, n.successorOnErr, p, V_RESULT_ERR);
    JoinHas(a, Join(b, c), u, v);
    JoinHas(b, c, u, v);
    SuccPart(nodes, n.successor, p, V_RESULT_ALL, u, v);
    SuccPart(nodes, n.successorOnOk, p, V_RESULT_OK, u, v);
    SuccPart(nodes, n.successorOnErr, p, V_RESULT_ERR, u, v);
  }

  lemma VertexRequestsAre(env: Env, s: Symbols, n: Decl, p: nat, u: nat, v: nat)
    requires VertexRequests(env, s.nodes, s.data, n, p).Some?
    ensures Has(VertexRequests(env, s.nodes, s.data, n, p).value, u, v) <==> LinkedBy(s, n, p, u, v)
  {
    var deps, succs, ins := NamedDeps(s.nodes, n, p), NamedSuccs(s.nodes, n, p), InputRequests(s.data, n.input, p);
    JoinHas(deps, Join(succs, ins), u, v);
    JoinHas(succs, ins, u, v);
    NamedDepsAre(s.nodes, n, p, u, v);
    NamedSuccsAre(s.nodes, n, p, u, v);
    InputPart(s.data, n.input, p, u, v);
  }

  /** Vertex p, declared as n, joins u to v: by naming a dependency, reading a datum or naming a successor. */
  ghost predicate LinkedBy(s: Symbols, n: Decl, p: nat, u: nat, v: nat) {
    || (v == p && (NamesDep(s.nodes, n, u) || ConsumesAny(s.data, n.input, p, u)))
    || (u == p && NamesSucc(s.nodes, n, v))
  }

  /** One of the first i vertices joins u to v. */
  ghost predicate Linked(s: Symbols, u: nat, v: nat, i: nat)
    requires |s.decls| == s.m && i <= s.Total()
  {
    exists p :: 0 <= p < i && LinkedBy(s, s.At(p), p, u, v)
  }

  lemma LinkedSplit(s: Symbols, u: nat, v: nat, i: nat)
    requires |s.decls| == s.m && 0 < i <= s.Total()
    ensures Linked(s, u, v, i) <==> Linked(s, u, v, i - 1) || LinkedBy(s, s.At(i - 1), i - 1, u, v)
  {
  }

  lemma AllRequestsStep(env: Env, s: Symbols, a: Option<seq<Request>>, b: Option<seq<Request>>, i: nat, u: nat, v: nat)
    requires |s.decls| == s.m && 0 < i <= s.Total() && a.Some? && b.Some?
    requires b == Join(a, VertexRequests(env, s.nodes, s.data, s.At(i - 1), i - 1))
    requires Has(a.value, u, v) <==> Linked(s, u, v, i - 1)
    ensures Has(b.value, u, v) <==> Linked(s, u, v, i)
  {
    LinkedSplit(s, u, v, i);
    JoinHas(a, VertexRequests(env, s.nodes, s.data, s.At(i - 1), i - 1), u, v);
    VertexRequestsAre(env, s, s.At(i - 1), i - 1, u, v);
  }

  lemma {:induction false} AllRequestsAre(env: Env, s: Symbols, i: nat, u: nat, v: nat)
    requires |s.decls| == s.m && i <= s.Total() && AllRequests(env, s, i).Some?
    ensures Has(AllRequests(env, s, i).value, u, v) <==> Linked(s, u, v, i)
  {
    if i > 0 {
      AllRequestsAre(env, s, i - 1, u, v);
      AllRequestsStep(env, s, AllRequests(env, s, i - 1), AllRequests(env, s, i), i, u, v);
    }
  }
}
