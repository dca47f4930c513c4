/** `Graph::Build`: the loops of the C++ graph compiler, proved to compute what GraphDecl, Links and
    CycleSearch define.  Vertices are named by their position: declared vertices first, then generated ones. */
module GraphBuild {
  import opened Options
  import opened VertexResults
  import opened Links
  import opened GraphDecl
  import opened CycleSearch
  import opened GraphEdges

  // ---------------------------------------------------------------- the result of a build

  /** A vertex marked as start declares no dependencies; any other has a dependency or a successor. */
  predicate Verified(n: Decl, x: VertexLinks) {
    if n.isStart then n.deps == [] && n.depsOnOk == [] && n.depsOnErr == []
    else !(x.succ == [] && x.idx == map[])
  }

  /** A graph of one vertex starts there. */
  function MarkSingle(s: Symbols): Symbols {
    if |s.decls| == 1 && s.gens == [] then s.(decls := [s.decls[0].(isStart := true)]) else s
  }

  datatype Built = Built(sym: Symbols, links: Table)

  /** Declarations, then links, then verification; `None` is failure. */
  ghost function BuildLinks(env: Env, decls: seq<Decl>): Option<Built> {
    match DeclareAll(env, decls, |decls|)
    case None => None
    case Some(s0) =>
      DeclareAllKeeps(env, decls, |decls|);
      var s := MarkSingle(s0);
      match AllRequests(env, s, s.Total())
      case None => None
      case Some(rs) =>
        RequestsInRange(env, decls, s, s.Total());
        var t := DependAll(Empty(s.Total()), rs);
        if forall p :: 0 <= p < s.Total() ==> Verified(s.At(p), t[p]) then Some(Built(s, t)) else None
  }

  ghost predicate NamesInRange(nodes: map<string, nat>, n: nat) {
    forall x :: x in nodes ==> nodes[x] < n
  }

  /** MarkSingle changes nothing the name tables depend on. */
  lemma MarkSingleKeeps(s: Symbols, decls: seq<Decl>)
    requires NameInv(s, decls, |decls|) && DataInv(s.decls, s.data)
    ensures var t := MarkSingle(s);
            && NameInv(t, decls, |decls|) && DataInv(t.decls, t.data)
            && NamesInRange(t.nodes, t.Total()) && NamesInRange(t.data, t.m)
  {
    var t := MarkSingle(s);
    forall id | id in t.nodes
      ensures Names(t, id, t.nodes[id])
    {
      assert Names(s, id, s.nodes[id]);
    }
    forall j | 0 <= j < |decls|
      ensures Normalised(t, decls[j], t.decls[j])
    {
      assert Normalised(s, decls[j], s.decls[j]);
    }
    assert forall x :: x in t.conds ==> HasCond(s, x);
    assert forall j, d :: 0 <= j < |s.decls| ==> (Produces(t.decls[j], d) <==> Produces(s.decls[j], d));
  }

  lemma LinkedInRange(s: Symbols, n: Decl, p: nat, u: nat, v: nat)
    requires p < s.Total() && NamesInRange(s.nodes, s.Total()) && NamesInRange(s.data, s.m) && LinkedBy(s, n, p, u, v)
    ensures u < s.Total() && v < s.Total()
  {
  }

  lemma RequestsInRange(env: Env, decls: seq<Decl>, s: Symbols, i: nat)
    requires DeclareAll(env, decls, |decls|).Some? && s == MarkSingle(DeclareAll(env, decls, |decls|).value)
    requires |s.decls| == s.m && i <= s.Total() && AllRequests(env, s, i).Some?
    ensures InRange(AllRequests(env, s, i).value, s.Total())
  {
    DeclareAllKeeps(env, decls, |decls|);
    MarkSingleKeeps(DeclareAll(env, decls, |decls|).value, decls);
    var rs := AllRequests(env, s, i).value;
    forall r | r in rs
      ensures r.from < s.Total() && r.to < s.Total()
    {
      assert Request(r.from, r.to, r.expected) in rs;
      AllRequestsAre(env, s, i, r.from, r.to);
      var p :| 0 <= p < i && LinkedBy(s, s.At(p), p, r.from, r.to);
      LinkedInRange(s, s.At(p), p, r.from, r.to);
    }
  }

  /** The stages of a successful build. */
  lemma BuildStages(env: Env, decls: seq<Decl>)
    requires BuildLinks(env, decls).Some?
    ensures var b := BuildLinks(env, decls).value;
            && SymbolsInv(b.sym, decls, |decls|) && |b.sym.decls| == b.sym.m == |decls|
            && NamesInRange(b.sym.nodes, b.sym.Total()) && NamesInRange(b.sym.data, b.sym.m)
            && AllRequests(env, b.sym, b.sym.Total()).Some?
            && InRange(AllRequests(env, b.sym, b.sym.Total()).value, b.sym.Total())
            && b.links == DependAll(Empty(b.sym.Total()), AllRequests(env, b.sym, b.sym.Total()).value)
            && forall p :: 0 <= p < b.sym.Total() ==> Verified(b.sym.At(p), b.links[p])
  {
    DeclareAllKeeps(env, decls, |decls|);
    var s0 := DeclareAll(env, decls, |decls|).value;
    MarkSingleKeeps(s0, decls);
    RequestsInRange(env, decls, MarkSingle(s0), MarkSingle(s0).Total());
  }

  lemma BuiltRanged(env: Env, decls: seq<Decl>)
    requires BuildLinks(env, decls).Some?
    ensures var b := BuildLinks(env, decls).value;
            |b.links| == b.sym.Total() && Consistent(b.links) && WellRanged(b.links)
  {
    BuildStages(env, decls);
    var b := BuildLinks(env, decls).value;
    var n, rs := b.sym.Total(), AllRequests(env, b.sym, b.sym.Total()).value;
    LinkedIsRanged(n, rs);
  }

  lemma LinkedIsRanged(n: nat, rs: seq<Request>)
    requires InRange(rs, n)
    ensures Consistent(DependAll(Empty(n), rs)) && WellRanged(DependAll(Empty(n), rs))
  {
    BuiltConsistent(n, rs);
    ConsistentIsRanged(DependAll(Empty(n), rs));
  }

  lemma ConsistentIsRanged(t: Table)
    requires Consistent(t)
    ensures WellRanged(t)
  {
    forall p, i | 0 <= p < |t| && 0 <= i < |t[p].succ|
      ensures t[p].succ[i] < |t|
    {
      assert Ranged(t[p], |t|) && t[p].succ[i] in t[p].succ;
    }
  }

  // ---------------------------------------------------------------- folding requests

  lemma {:induction false} DependAllAppend(t: Table, a: seq<Request>, b: seq<Request>)
    requires InRange(a + b, |t|)
    ensures InRange(a, |t|) && InRange(b, |t|)
    ensures DependAll(t, a + b) == DependAll(DependAll(t, a), b)
  {
    assert forall r :: r in a || r in b ==> r in a + b;
    if b == [] {
      assert a + b == a;
    } else {
      var b', r := b[..|b| - 1], b[|b| - 1];
      assert (a + b)[..|a + b| - 1] == a + b';
      assert forall x :: x in a + b' ==> x in a + b;
      DependAllAppend(t, a, b');
    }
  }

  lemma {:induction false} DepPrefix(nodes: map<string, nat>, names: seq<string>, p: nat, e: VertexResult, i: nat)
    requires i <= |names| && DepRequests(nodes, names, p, e).Some?
    ensures DepRequests(nodes, names[..i], p, e).Some?
  {
    if i < |names| {
      DepPrefix(nodes, names[..|names| - 1], p, e, i);
      assert names[..|names| - 1][..i] == names[..i];
    } else {
      assert names[..i] == names;
    }
  }

  lemma {:induction false} SuccPrefix(nodes: map<string, nat>, names: seq<string>, p: nat, e: VertexResult, i: nat)
    requires i <= |names| && SuccRequests(nodes, names, p, e).Some?
    ensures SuccRequests(nodes, names[..i], p, e).Some?
  {
    if i < |names| {
      SuccPrefix(nodes, names[..|names| - 1], p, e, i);
      assert names[..|names| - 1][..i] == names[..i];
    } else {
      assert names[..i] == names;
    }
  }

  lemma {:induction false} AggregatePrefix(data: map<string, nat>, d: Datum, ids: seq<string>, p: nat, i: nat)
    requires i <= |ids| && AggregateRequests(data, d, ids, p).Some?
    ensures AggregateRequests(data, d, ids[..i], p).Some?
  {
    if i < |ids| {
      AggregatePrefix(data, d, ids[..|ids| - 1], p, i);
      assert ids[..|ids| - 1][..i] == ids[..i];
    } else {
      assert ids[..i] == ids;
    }
  }

  lemma {:induction false} InputPrefix(data: map<string, nat>, input: seq<Datum>, p: nat, i: nat)
    requires i <= |input| && InputRequests(data, input, p).Some?
    ensures InputRequests(data, input[..i], p).Some?
  {
    if i < |input| {
      InputPrefix(data, input[..|input| - 1], p, i);
      assert input[..|input| - 1][..i] == input[..i];
    } else {
      assert input[..i] == input;
    }
  }

  lemma {:induction false} DeclareStops(env: Env, decls: seq<Decl>, i: nat)
    requires i <= |decls| && DeclareAll(env, decls, i).None?
    ensures DeclareAll(env, decls, |decls|).None?
    decreases |decls| - i
  {
    if i < |decls| {
      DeclareStops(env, decls, i + 1);
    }
  }

  lemma {:induction false} RequestsStop(env: Env, s: Symbols, i: nat)
    requires |s.decls| == s.m && i <= s.Total() && AllRequests(env, s, i).None?
    ensures AllRequests(env, s, s.Total()).None?
    decreases s.Total() - i
  {
    if i < s.Total() {
      RequestsStop(env, s, i + 1);
    }
  }

  class Graph {
    const env: Env
    var vertex: seq<Decl>
    var genVertex: seq<Decl>
    var nodes: map<string, nat>
    var dataMapping: map<string, nat>
    var idx: nat
    var links: Table

    constructor (env: Env, vertex: seq<Decl>)
      ensures this.env == env && this.vertex == vertex
      ensures genVertex == [] && nodes == map[] && dataMapping == map[] && idx == 0 && links == []
    {
      this.env, this.vertex := env, vertex;
      genVertex, nodes, dataMapping, idx, links := [], map[], map[], 0, [];
    }

    // ------------------------------------------------------------ declaring

    /** The symbols as far as the first `done` vertices are processed. */
    ghost function SymbolsAt(done: nat, conds: map<string, nat>): Symbols
      requires done <= |vertex|
      reads this
    {
      Symbols(|vertex|, vertex[..done], genVertex, nodes, dataMapping, conds, idx)
    }

    static method FillInputs(input: seq<Datum>, fields: seq<FieldInfo>) returns (r: seq<Datum>)
      ensures r == GraphDecl.FillInputs(input, fields)
    {
      r := input;
      for i := 0 to |fields|
        invariant GraphDecl.FillInputs(r, fields[i..]) == GraphDecl.FillInputs(input, fields)
      {
        var f, k := fields[i], 0;
        while k < |r| && r[k].field != f.name
          invariant k <= |r| && forall j :: 0 <= j < k ==> r[j].field != f.name
        {
          k := k + 1;
        }
        ghost var before := r;
        if k == |r| {
          r := r + [Datum(f.name, f.name, [], false, f.isExtern, f.isInOut)];
        } else if f.isInOut {
          r := r[k := r[k].(isInOut := true, isExtern := r[k].isExtern || f.isExtern)];
        }
        assert r == FillInput(before, f);
        assert fields[i..][0] == f && fields[i..][1..] == fields[i + 1..];
      }
    }

    static method FillOutputs(output: seq<Output>, fields: seq<string>) returns (r: seq<Output>)
      ensures r == GraphDecl.FillOutputs(output, fields)
    {
      r := output;
      for i := 0 to |fields|
        invariant GraphDecl.FillOutputs(r, fields[i..]) == GraphDecl.FillOutputs(output, fields)
      {
        var k := 0;
        while k < |r| && r[k].field != fields[i]
          invariant k <= |r| && forall j :: 0 <= j < k ==> r[j].field != fields[i]
        {
          k := k + 1;
        }
        assert fields[i..][0] == fields[i] && fields[i..][1..] == fields[i + 1..];
        if k == |r| {
          r := r + [Output(fields[i], fields[i])];
        }
      }
    }

    /** `FillInputOutput`: fails on an unknown processor, leaving the vertex as it was. */
    method FillInputOutput(n: Decl) returns (rc: int, r: Decl)
      ensures rc == 0 || rc == -1
      ensures GraphDecl.FillInputOutput(env, n) == if rc != 0 && env.strict then None else Some(r)
    {
      rc, r := 0, n;
      if n.processor != "" {
        if n.processor !in env.processors {
          rc := -1;
        } else {
          var f := env.processors[n.processor];
          var ins := FillInputs(n.input, f.inputs);
          var outs := FillOutputs(n.output, f.outputs);
          r := n.(input := ins, output := outs);
        }
      }
    }

    /** The output loop: name each output and enter it in the data table. */
    method EnterOutputs(p: nat, output: seq<Output>) returns (rc: int, outs: seq<Output>)
      modifies this`dataMapping
      ensures var named := NameOutputs(output);
              && rc == (if named.Some? && RegisterOutputs(old(dataMapping), named.value, p).Some? then 0 else -1)
              && (rc == 0 ==> outs == named.value && dataMapping == RegisterOutputs(old(dataMapping), named.value, p).value)
    {
      outs := output;
      ghost var named := NameOutputs(output);
      NameOutputsPointwise(output);
      for i := 0 to |output|
        invariant |outs| == |output| && outs[i..] == output[i..]
        invariant forall j :: 0 <= j < i ==> output[j].field != "" && outs[j] == NamedOutput(output[j])
        invariant named.Some? ==>
          RegisterOutputs(dataMapping, named.value[i..], p) == RegisterOutputs(old(dataMapping), named.value, p)
      {
        var o := output[i];
        if o.field == "" {
          return -1, outs;
        }
        if o.id == "" {
          o := o.(id := o.field);
        }
        if named.Some? {
          assert named.value[i..][0] == o && named.value[i..][1..] == named.value[i + 1..];
        }
        if o.id in dataMapping {
          return -1, outs;
        }
        outs := outs[i := o];
        dataMapping := dataMapping[o.id := p];
      }
      rc := 0;
    }

    static method EnterInputs(input: seq<Datum>) returns (rc: int, ins: seq<Datum>)
      ensures rc == if NameInputs(input).Some? then 0 else -1
      ensures rc == 0 ==> ins == NameInputs(input).value
    {
      ins := [];
      for i := 0 to |input|
        invariant NameInputs(input[..i]) == Some(ins)
      {
        assert input[..i + 1][..i] == input[..i];
        if input[i].field == "" {
          NameInputsPrefix(input, i + 1);
          return -1, ins;
        }
        ins := ins + [if input[i].id == "" then input[i].(id := input[i].field) else input[i]];
      }
      assert input[..|input|] == input;
      rc := 0;
    }

    /** Default processor, id and cluster of a vertex. */
    method SetDefaults(d: Decl) returns (n: Decl)
      modifies this`idx
      ensures (n, idx) == Defaults(env, old(idx), d)
    {
      n := d;
      if n.processor == "" && n.cond != "" {
        n := n.(processor := env.defaultExpr);
      }
      if n.id == "" {
        if n.processor == "" {
          n := n.(id := GenerateNodeId(env, idx));
          idx := idx + 1;
        } else {
          n := n.(id := n.processor);
        }
      }
      if n.graph != "" && (n.cluster == "." || n.cluster == "") {
        n := n.(cluster := env.cluster);
      }
    }

    /** The condition vertex of an `expect`. */
    method EnterCond(done: nat, d: Decl, conds: map<string, nat>) returns (n: Decl, conds': map<string, nat>)
      requires done <= |vertex| && forall t :: t in conds ==> conds[t] < |genVertex|
      modifies this`genVertex, this`nodes, this`idx
      ensures (SymbolsAt(done, conds'), n) == WithCond(env, old(SymbolsAt(done, conds)), d)
      ensures forall t :: t in conds' ==> conds'[t] < |genVertex|
    {
      n, conds' := d, conds;
      if n.expectation != "" {
        if n.expectation !in conds {
          var id := GenerateNodeId(env, idx);
          nodes := nodes[id := |vertex| + |genVertex|];
          genVertex := genVertex + [CondVertex(env, id, n)];
          conds' := conds[n.expectation := |genVertex| - 1];
          idx := idx + 1;
        }
        n := n.(depsOnOk := n.depsOnOk + [genVertex[conds'[n.expectation]].id]);
      }
    }

    method Enter(i: nat, d: Decl, ghost conds: map<string, nat>) returns (rc: int)
      requires i < |vertex|
      modifies this`vertex, this`nodes, this`dataMapping
      ensures var r := EnterVertex(env, old(SymbolsAt(i, conds)), d);
              && rc == (if r.Some? then 0 else -1)
              && (rc == 0 ==> |vertex| == old(|vertex|) && SymbolsAt(i + 1, conds) == r.value)
      ensures |vertex| == old(|vertex|) && vertex[i + 1..] == old(vertex[i + 1..])
    {
      if d.id in nodes {
        return -1;
      }
      nodes := nodes[d.id := i];
      var n, outs, ins;
      rc, n := FillInputOutput(MergeSuccessor(d));
      if rc != 0 && env.strict {
        return -1;
      }
      rc, outs := EnterOutputs(i, n.output);
      if rc != 0 {
        return -1;
      }
      rc, ins := EnterInputs(n.input);
      if rc != 0 {
        return -1;
      }
      vertex := vertex[i := n.(input := ins, output := outs)];
      assert vertex[..i + 1] == old(vertex[..i]) + [vertex[i]];
    }

    /** One turn of the declaration loop of `Build`. */
    method Declare(i: nat, conds: map<string, nat>) returns (rc: int, conds': map<string, nat>)
      requires i < |vertex| && forall t :: t in conds ==> conds[t] < |genVertex|
      modifies this
      ensures var r := DeclareVertex(env, old(SymbolsAt(i, conds)), old(vertex[i]));
              && rc == (if r.Some? then 0 else -1)
              && (rc == 0 ==> |vertex| == old(|vertex|) && SymbolsAt(i + 1, conds') == r.value)
      ensures |vertex| == old(|vertex|) && vertex[i + 1..] == old(vertex[i + 1..]) && links == old(links)
      ensures forall t :: t in conds' ==> conds'[t] < |genVertex|
    {
      conds' := conds;
      var n := SetDefaults(vertex[i]);
      if n.expectation != "" && n.expectConfig != "" {
        return -1, conds';
      }
      if n.expectConfig != "" && !ContainsConfigSetting(env, n.expectConfig) {
        return -1, conds';
      }
      n, conds' := EnterCond(i, n, conds);
      rc := Enter(i, n, conds');
    }

    /** The first i vertices of `decls` are processed, the others untouched. */
    ghost predicate DeclaredUpTo(decls: seq<Decl>, i: nat, conds: map<string, nat>)
      reads this
    {
      && i <= |vertex| == |decls| && vertex[i..] == decls[i..]
      && DeclareAll(env, decls, i) == Some(SymbolsAt(i, conds))
      && (forall t :: t in conds ==> conds[t] < |genVertex|)
    }

    method DeclareTurn(i: nat, conds: map<string, nat>, ghost decls: seq<Decl>) returns (rc: int, conds': map<string, nat>)
      requires DeclaredUpTo(decls, i, conds) && i < |vertex|
      modifies this
      ensures rc == 0 || rc == -1
      ensures |vertex| == old(|vertex|) && links == old(links)
      ensures if rc == 0 then DeclaredUpTo(decls, i + 1, conds') else DeclareAll(env, decls, |decls|).None?
    {
      assert vertex[i] == vertex[i..][0] == decls[i];
      assert vertex[i + 1..] == vertex[i..][1..] == decls[i..][1..] == decls[i + 1..];
      rc, conds' := Declare(i, conds);
      if rc != 0 {
        DeclareStops(env, decls, i + 1);
      }
    }

    method DeclareLoop(ghost decls: seq<Decl>) returns (rc: int, conds: map<string, nat>)
      requires DeclaredUpTo(decls, 0, map[])
      modifies this
      ensures |vertex| == old(|vertex|) && links == old(links) && (rc == 0 || rc == -1)
      ensures if rc == 0 then DeclaredUpTo(decls, |vertex|, conds) else DeclareAll(env, decls, |decls|).None?
    {
      rc, conds := 0, map[];
      var i := 0;
      while i < |vertex|
        invariant i <= |vertex| == old(|vertex|) && DeclaredUpTo(decls, i, conds) && links == old(links) && rc == 0
      {
        rc, conds := DeclareTurn(i, conds, decls);
        if rc != 0 {
          return;
        }
        i := i + 1;
      }
    }

    /** The declaration loop of `Build`. */
    method DeclareVertices() returns (rc: int, ghost conds: map<string, nat>)
      requires genVertex == [] && nodes == map[] && dataMapping == map[] && idx == 0
      modifies this
      ensures |vertex| == old(|vertex|) && links == old(links) && (rc == 0 || rc == -1)
      ensures if rc == 0 then DeclaredUpTo(old(vertex), |vertex|, conds) else DeclareAll(env, old(vertex), |old(vertex)|).None?
    {
      var c;
      rc, c := DeclareLoop(vertex);
      conds := c;
    }

    // ------------------------------------------------------------ linking

    /** `to->Depend(from, expected)`. */
    method Depend(to: nat, from: nat, expected: VertexResult)
      requires to < |links| && from < |links|
      modifies this`links
      ensures links == Links.Depend(old(links), Request(from, to, expected))
    {
      if to !in links[from].succ {
        links := links[from := links[from].(succ := links[from].succ + [to])];
      }
      var x := links[to];
      if from !in x.idx {
        links := links[to := x.(idx := x.idx[from := |x.idx|], expected := x.expected + [expected])];
      }
    }

    method BuildDeps(v: nat, dependency: seq<string>, expected: VertexResult) returns (rc: int)
      requires v < |links| && NamesInRange(nodes, |links|)
      modifies this`links
      ensures |links| == old(|links|)
      ensures rc == if DepRequests(nodes, dependency, v, expected).Some? then 0 else -1
      ensures rc == 0 ==> var rs := DepRequests(nodes, dependency, v, expected).value;
                InRange(rs, |links|) && links == DependAll(old(links), rs)
    {
      ghost var done: seq<Request> := [];
      for i := 0 to |dependency|
        invariant DepRequests(nodes, dependency[..i], v, expected) == Some(done)
        invariant |links| == old(|links|) && InRange(done, |links|) && links == DependAll(old(links), done)
      {
        assert dependency[..i + 1][..i] == dependency[..i];
        if dependency[i] !in nodes {
          if DepRequests(nodes, dependency, v, expected).Some? {
            DepPrefix(nodes, dependency, v, expected, i + 1);
          }
          return -1;
        }
        Depend(v, nodes[dependency[i]], expected);
        ghost var r := Request(nodes[dependency[i]], v, expected);
        assert (done + [r])[..|done|] == done;
        done := done + [r];
      }
      assert dependency[..|dependency|] == dependency;
      return 0;
    }

    method BuildSuccessors(v: nat, successor: seq<string>, expected: VertexResult) returns (rc: int)
      requires v < |links| && NamesInRange(nodes, |links|)
      modifies this`links
      ensures |links| == old(|links|)
      ensures rc == if SuccRequests(nodes, successor, v, expected).Some? then 0 else -1
      ensures rc == 0 ==> var rs := SuccRequests(nodes, successor, v, expected).value;
                InRange(rs, |links|) && links == DependAll(old(links), rs)
    {
      ghost var done: seq<Request> := [];
      for i := 0 to |successor|
        invariant SuccRequests(nodes, successor[..i], v, expected) == Some(done)
        invariant |links| == old(|links|) && InRange(done, |links|) && links == DependAll(old(links), done)
      {
        assert successor[..i + 1][..i] == successor[..i];
        if successor[i] !in nodes {
          if SuccRequests(nodes, successor, v, expected).Some? {
            SuccPrefix(nodes, successor, v, expected, i + 1);
          }
          return -1;
        }
        Depend(nodes[successor[i]], v, expected);
        ghost var r := Request(v, nodes[successor[i]], expected);
        assert (done + [r])[..|done|] == done;
        done := done + [r];
      }
      assert successor[..|successor|] == successor;
      return 0;
    }

    method BuildAggregate(v: nat, d: Datum) returns (rc: int)
      requires v < |links| && NamesInRange(dataMapping, |links|)
      modifies this`links
      ensures |links| == old(|links|)
      ensures rc == if AggregateRequests(dataMapping, d, d.aggregate, v).Some? then 0 else -1
      ensures rc == 0 ==> var rs := AggregateRequests(dataMapping, d, d.aggregate, v).value;
                InRange(rs, |links|) && links == DependAll(old(links), rs)
    {
      ghost var done: seq<Request> := [];
      for i := 0 to |d.aggregate|
        invariant AggregateRequests(dataMapping, d, d.aggregate[..i], v) == Some(done)
        invariant |links| == old(|links|) && InRange(done, |links|) && links == DependAll(old(links), done)
      {
        var id := d.aggregate[i];
        assert d.aggregate[..i + 1][..i] == d.aggregate[..i];
        if id !in dataMapping && !d.isExtern {
          if AggregateRequests(dataMapping, d, d.aggregate, v).Some? {
            AggregatePrefix(dataMapping, d, d.aggregate, v, i + 1);
          }
          return -1;
        }
        if id in dataMapping {
          Depend(v, dataMapping[id], InputMask(d));
          ghost var r := Request(dataMapping[id], v, InputMask(d));
          assert (done + [r])[..|done|] == done;
          done := done + [r];
        }
      }
      assert d.aggregate[..|d.aggregate|] == d.aggregate;
      return 0;
    }

    method BuildInput(v: nat, d: Datum) returns (rc: int)
      requires v < |links| && NamesInRange(dataMapping, |links|)
      modifies this`links
      ensures |links| == old(|links|)
      ensures rc == if InputRequest(dataMapping, d, v).Some? then 0 else -1
      ensures rc == 0 ==> var rs := InputRequest(dataMapping, d, v).value;
                InRange(rs, |links|) && links == DependAll(old(links), rs)
    {
      if d.aggregate != [] {
        rc := BuildAggregate(v, d);
      } else if d.id !in dataMapping {
        rc := if d.isExtern then 0 else -1;
      } else if d.isInOut && dataMapping[d.id] == v {
        rc := 0;
      } else {
        Depend(v, dataMapping[d.id], InputMask(d));
        assert [Request(dataMapping[d.id], v, InputMask(d))][..0] == [];
        rc := 0;
      }
    }

    method BuildInputs(v: nat, input: seq<Datum>) returns (rc: int)
      requires v < |links| && NamesInRange(dataMapping, |links|)
      modifies this`links
      ensures |links| == old(|links|)
      ensures rc == if InputRequests(dataMapping, input, v).Some? then 0 else -1
      ensures rc == 0 ==> var rs := InputRequests(dataMapping, input, v).value;
                InRange(rs, |links|) && links == DependAll(old(links), rs)
    {
      ghost var done: seq<Request> := [];
      for i := 0 to |input|
        invariant InputRequests(dataMapping, input[..i], v) == Some(done)
        invariant |links| == old(|links|) && InRange(done, |links|) && links == DependAll(old(links), done)
      {
        assert input[..i + 1][..i] == input[..i];
        rc := BuildInput(v, input[i]);
        if rc != 0 {
          if InputRequests(dataMapping, input, v).Some? {
            InputPrefix(dataMapping, input, v, i + 1);
          }
          return -1;
        }
        ghost var rs := InputRequest(dataMapping, input[i], v).value;
        DependAllAppend(old(links), done, rs);
        done := done + rs;
      }
      assert input[..|input|] == input;
      return 0;
    }

    method BuildAllDeps(v: nat, n: Decl) returns (rc: int)
      requires v < |links| && NamesInRange(nodes, |links|)
      modifies this`links
      ensures |links| == old(|links|)
      ensures rc == if NamedDeps(nodes, n, v).Some? then 0 else -1
      ensures rc == 0 ==> var rs := NamedDeps(nodes, n, v).value;
                InRange(rs, |links|) && links == DependAll(old(links), rs)
    {
      rc := BuildDeps(v, n.deps, V_RESULT_ALL);
      if rc != 0 { return; }
      rc := BuildDeps(v, n.depsOnOk, V_RESULT_OK);
      if rc != 0 { return; }
      rc := BuildDeps(v, n.depsOnErr, V_RESULT_ERR);
      if rc != 0 { return; }
      DependAllThree(old(links), DepRequests(nodes, n.deps, v, V_RESULT_ALL).value,
                     DepRequests(nodes, n.depsOnOk, v, V_RESULT_OK).value,
                     DepRequests(nodes, n.depsOnErr, v, V_RESULT_ERR).value);
    }

    method BuildAllSuccessors(v: nat, n: Decl) returns (rc: int)
      requires v < |links| && NamesInRange(nodes, |links|)
      modifies this`links
      ensures |links| == old(|links|)
      ensures rc == if NamedSuccs(nodes, n, v).Some? then 0 else -1
      ensures rc == 0 ==> var rs := NamedSuccs(nodes, n, v).value;
                InRange(rs, |links|) && links == DependAll(old(links), rs)
    {
      rc := BuildSuccessors(v, n.successor, V_RESULT_ALL);
      if rc != 0 { return; }
      rc := BuildSuccessors(v, n.successorOnOk, V_RESULT_OK);
      if rc != 0 { return; }
      rc := BuildSuccessors(v, n.successorOnErr, V_RESULT_ERR);
      if rc != 0 { return; }
      DependAllThree(old(links), SuccRequests(nodes, n.successor, v, V_RESULT_ALL).value,
                     SuccRequests(nodes, n.successorOnOk, v, V_RESULT_OK).value,
                     SuccRequests(nodes, n.successorOnErr, v, V_RESULT_ERR).value);
    }

    method CheckSelect(select: seq<string>) returns (ok: bool)
      ensures ok <==> forall i :: 0 <= i < |select| ==> ContainsConfigSetting(env, select[i])
    {
      for i := 0 to |select|
        invariant forall j :: 0 <= j < i ==> ContainsConfigSetting(env, select[j])
      {
        if !ContainsConfigSetting(env, select[i]) {
          return false;
        }
      }
      return true;
    }

    /** `Vertex::Build` of vertex v. */
    method BuildVertex(v: nat, n: Decl) returns (rc: int)
      requires v < |links| && NamesInRange(nodes, |links|) && NamesInRange(dataMapping, |links|)
      modifies this`links
      ensures |links| == old(|links|)
      ensures rc == if VertexRequests(env, nodes, dataMapping, n, v).Some? then 0 else -1
      ensures rc == 0 ==> var rs := VertexRequests(env, nodes, dataMapping, n, v).value;
                InRange(rs, |links|) && links == DependAll(old(links), rs)
    {
      if n.processor == "" && n.graph == "" {
        return -1;
      }
      var ok := CheckSelect(n.select);
      if !ok { return -1; }
      rc := BuildAllDeps(v, n);
      if rc != 0 { return; }
      rc := BuildAllSuccessors(v, n);
      if rc != 0 { return; }
      rc := BuildInputs(v, n.input);
      if rc != 0 { return; }
      DependAllThree(old(links), NamedDeps(nodes, n, v).value, NamedSuccs(nodes, n, v).value,
                     InputRequests(dataMapping, n.input, v).value);
    }

    /** The first i vertices of `s` have made their requests. */
    ghost predicate LinkedUpTo(s: Symbols, i: nat)
      reads this
    {
      && |s.decls| == s.m && i <= s.Total() == |links|
      && vertex == s.decls && genVertex == s.gens && nodes == s.nodes && dataMapping == s.data
      && NamesInRange(nodes, |links|) && NamesInRange(dataMapping, |links|)
      && AllRequests(env, s, i).Some? && InRange(AllRequests(env, s, i).value, |links|)
      && links == DependAll(Empty(|links|), AllRequests(env, s, i).value)
    }

    method LinkTurn(i: nat, ghost s: Symbols) returns (rc: int)
      requires LinkedUpTo(s, i) && i < s.Total()
      modifies this`links
      ensures rc == 0 || rc == -1
      ensures if rc == 0 then LinkedUpTo(s, i + 1) else AllRequests(env, s, i + 1).None?
    {
      var n := if i < |vertex| then vertex[i] else genVertex[i - |vertex|];
      ghost var done := AllRequests(env, s, i).value;
      rc := BuildVertex(i, n);
      if rc == 0 {
        DependAllAppend(Empty(|links|), done, VertexRequests(env, nodes, dataMapping, n, i).value);
      }
    }

    /** The link loops of `Build`: declared vertices, then generated ones. */
    method LinkVertices(ghost s: Symbols) returns (rc: int)
      requires LinkedUpTo(s, 0)
      modifies this`links
      ensures rc == 0 || rc == -1
      ensures if rc == 0 then LinkedUpTo(s, s.Total()) else AllRequests(env, s, s.Total()).None?
    {
      rc := 0;
      var i := 0;
      while i < |vertex| + |genVertex|
        invariant LinkedUpTo(s, i)
      {
        rc := LinkTurn(i, s);
        if rc != 0 {
          RequestsStop(env, s, i + 1);
          return;
        }
        i := i + 1;
      }
      rc := 0;
    }

    method VerifyVertices(ghost conds: map<string, nat>) returns (ok: bool)
      requires |links| == |vertex| + |genVertex|
      ensures ok <==> forall p :: 0 <= p < |links| ==> Verified(SymbolsAt(|vertex|, conds).At(p), links[p])
    {
      assert SymbolsAt(|vertex|, conds).decls == vertex;
      for i := 0 to |links|
        invariant forall p :: 0 <= p < i ==> Verified(SymbolsAt(|vertex|, conds).At(p), links[p])
      {
        var n := if i < |vertex| then vertex[i] else genVertex[i - |vertex|];
        if !Verified(n, links[i]) {
          return false;
        }
      }
      return true;
    }

    /** `FindVertexInSuccessors`, to at most `fuel` levels of recursion. */
    method FindVertexInSuccessors(p: nat, v: nat, fuel: nat) returns (found: Option<bool>)
      requires WellRanged(links) && p < |links|
      ensures found == Search(links, p, v, fuel)
      decreases fuel
    {
      if links[p].succ == [] {
        return Some(false);
      }
      if v in links[p].succ {
        return Some(true);
      }
      if fuel == 0 {
        return None;
      }
      var succ := links[p].succ;
      for i := 0 to |succ|
        invariant SearchAny(links, succ, v, fuel - 1) == SearchAny(links, succ[i..], v, fuel - 1)
      {
        assert succ[i..][0] == succ[i] && succ[i..][1..] == succ[i + 1..];
        found := FindVertexInSuccessors(succ[i], v, fuel - 1);
        if found != Some(false) {
          return found;
        }
      }
      return Some(false);
    }

    /** `TestCircle`, with the id table iterated in the given order. */
    method TestCircle(order: seq<nat>, fuel: nat) returns (found: Option<bool>)
      requires WellRanged(links) && InTable(order, |links|)
      ensures found == CycleSearch.TestCircle(links, order, fuel)
    {
      for i := 0 to |order|
        invariant CycleSearch.TestCircle(links, order, fuel) == CycleSearch.TestCircle(links, order[i..], fuel)
      {
        assert order[i..][0] == order[i] && order[i..][1..] == order[i + 1..];
        found := FindVertexInSuccessors(order[i], order[i], fuel);
        if found != Some(false) {
          return found;
        }
      }
      return Some(false);
    }

    /** A graph of one vertex starts there. */
    method MarkStart(ghost conds: map<string, nat>)
      modifies this`vertex
      ensures |vertex| == old(|vertex|) && SymbolsAt(|vertex|, conds) == MarkSingle(old(SymbolsAt(|vertex|, conds)))
    {
      assert vertex[..|vertex|] == vertex;
      if |vertex| == 1 && genVertex == [] {
        vertex := [vertex[0].(isStart := true)];
      }
      assert vertex[..|vertex|] == vertex;
    }

    /** The part of `Build` before the cycle test. */
    method BuildAllLinks() returns (rc: int, ghost conds: map<string, nat>)
      requires genVertex == [] && nodes == map[] && dataMapping == map[] && idx == 0
      modifies this
      ensures |vertex| == old(|vertex|)
      ensures match BuildLinks(env, old(vertex))
              case None => rc == -1
              case Some(b) => rc == 0 && SymbolsAt(|vertex|, conds) == b.sym && links == b.links
    {
      ghost var decls := vertex;
      rc, conds := DeclareVertices();
      if rc != 0 {
        return;
      }
      DeclareAllKeeps(env, decls, |decls|);
      MarkSingleKeeps(SymbolsAt(|vertex|, conds), decls);
      MarkStart(conds);
      ghost var s := SymbolsAt(|vertex|, conds);
      assert s.decls == vertex;
      links := Empty(|vertex| + |genVertex|);
      rc := LinkVertices(s);
      if rc != 0 {
        return;
      }
      var ok := VerifyVertices(conds);
      rc := if ok then 0 else -1;
    }

    /** `Build`: 0 when the graph is accepted, -1 when it is rejected; `None` when the cycle search went
        deeper than `fuel`. */
    method Build(fuel: nat) returns (rc: Option<int>, ghost conds: map<string, nat>)
      requires genVertex == [] && nodes == map[] && dataMapping == map[] && idx == 0
      modifies this
      ensures rc == BuildCode(env, old(vertex), fuel)
      ensures BuildLinks(env, old(vertex)).Some? ==>
                var b := BuildLinks(env, old(vertex)).value;
                SymbolsAt(|vertex|, conds) == b.sym && links == b.links
    {
      ghost var decls := vertex;
      var r;
      r, conds := BuildAllLinks();
      if r != 0 {
        return Some(-1), conds;
      }
      BuiltRanged(env, decls);
      var order := Listing(nodes.Values, |links|);
      assert forall i :: 0 <= i < |order| ==> order[i] in order;
      var found := TestCircle(order, fuel);
      rc := match found
            case None => None
            case Some(true) => Some(-1)
            case Some(false) => Some(if |vertex| == 0 then -1 else 0);
    }
  }

  /** The listed positions; the code returned by an answering build does not depend on their order. */
  ghost function ListedOrder(b: Built): (order: seq<nat>)
    ensures InTable(order, |b.links|)
  {
    var order := Listing(b.sym.nodes.Values, |b.links|);
    assert forall i :: 0 <= i < |order| ==> order[i] in order;
    order
  }

  /** What `Build` returns. */
  ghost function BuildCode(env: Env, decls: seq<Decl>, fuel: nat): Option<int> {
    match BuildLinks(env, decls)
    case None => Some(-1)
    case Some(b) =>
      BuiltRanged(env, decls);
      match TestCircle(b.links, ListedOrder(b), fuel)
      case None => None
      case Some(true) => Some(-1)
      case Some(false) => Some(if |decls| == 0 then -1 else 0)
  }

  lemma DependAllThree(t: Table, a: seq<Request>, b: seq<Request>, c: seq<Request>)
    requires InRange(a, |t|) && InRange(b, |t|) && InRange(c, |t|)
    ensures InRange(a + (b + c), |t|)
    ensures DependAll(t, a + (b + c)) == DependAll(DependAll(DependAll(t, a), b), c)
  {
    DependAllAppend(t, a, b + c);
    DependAllAppend(DependAll(t, a), b, c);
  }
}
