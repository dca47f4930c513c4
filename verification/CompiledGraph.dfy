/** What a successful `Graph::Build` guarantees: which edges there are, what each edge expects, and when the
    build accepts. */
module CompiledGraph {
  import opened Links
  import opened GraphDecl
  import opened GraphEdges
  import opened GraphListing
  import opened GraphBuild

  // ---------------------------------------------------------------- what is known after the build

  /** The symbols of a build: names, data, generated vertices. */
  ghost predicate Compiled(env: Env, decls: seq<Decl>, s: Symbols) {
    && SymbolsInv(s, decls, |decls|) && |s.decls| == s.m == |decls|
    && ListInv(env, s) && CondInv(s, decls) && IdInv(env, s, decls, |decls|)
    && NamesInRange(s.nodes, s.Total()) && NamesInRange(s.data, s.m)
  }

  lemma MarkSingleLists(env: Env, s: Symbols)
    requires ListInv(env, s)
    ensures ListInv(env, MarkSingle(s))
  {
    var t := MarkSingle(s);
    assert forall id :: IsCondId(t, id) <==> IsCondId(s, id);
    assert forall j :: 0 <= j < |s.decls| ==> t.decls[j].id == s.decls[j].id;
    forall k | 0 <= k < |t.gens|
      ensures Numbered(env, t, t.gens[k].id)
    {
      NumberedGrows(env, s, t, s.gens[k].id);
    }
  }

  lemma MarkSingleNumbers(env: Env, s: Symbols, decls: seq<Decl>)
    requires IdInv(env, s, decls, |decls|)
    ensures IdInv(env, MarkSingle(s), decls, |decls|)
  {
    var t := MarkSingle(s);
    assert forall j :: 0 <= j < |s.decls| ==> t.decls[j].id == s.decls[j].id;
    forall i | 0 <= i < |decls|
      ensures Made(env, t, decls, i)
    {
      assert Made(env, s, decls, i);
      StillGenerated(s, t, GenerateNodeId(env, CondNumber(env, decls, i)));
    }
  }

  lemma BuildIsCompiled(env: Env, decls: seq<Decl>)
    requires BuildLinks(env, decls).Some?
    ensures Compiled(env, decls, BuildLinks(env, decls).value.sym)
  {
    DeclaredIsCompiled(env, decls);
  }

  lemma DeclaredIsCompiled(env: Env, decls: seq<Decl>)
    requires DeclareAll(env, decls, |decls|).Some?
    ensures Compiled(env, decls, MarkSingle(DeclareAll(env, decls, |decls|).value))
  {
    var s := DeclareAll(env, decls, |decls|).value;
    DeclareAllKeeps(env, decls, |decls|);
    MarkSingleKeeps(s, decls);
    DeclareAllLists(env, decls, |decls|);
    DeclareAllConds(env, decls, |decls|);
    DeclareAllNumbers(env, decls, |decls|);
    MarkSingleLists(env, s);
    MarkSingleNumbers(env, s, decls);
    CondInvStays(decls, s, MarkSingle(s));
  }

  // ---------------------------------------------------------------- the id table

  /** The vertices that the id table lists, and the executor runs. */
  ghost predicate Listed(b: Built, p: nat) {
    p in b.sym.nodes.Values
  }

  /** A build lists every vertex but those whose id a later vertex generates for its condition. */
  lemma ListedIff(env: Env, decls: seq<Decl>, p: nat)
    requires BuildLinks(env, decls).Some? && p < BuildLinks(env, decls).value.sym.Total()
    ensures Listed(BuildLinks(env, decls).value, p) <==> p >= |decls| || !Replaced(env, decls, p)
  {
    BuildIsCompiled(env, decls);
    ListedIffNotReplaced(env, BuildLinks(env, decls).value.sym, decls, p);
  }

  lemma ListedInRange(env: Env, decls: seq<Decl>, p: nat)
    requires BuildLinks(env, decls).Some? && Listed(BuildLinks(env, decls).value, p)
    ensures p < |BuildLinks(env, decls).value.links|
  {
    BuildStages(env, decls);
    BuiltRanged(env, decls);
    var s := BuildLinks(env, decls).value.sym;
    var x :| x in s.nodes && s.nodes[x] == p;
  }

  // ---------------------------------------------------------------- names

  /** The vertex that an id denotes: the generated condition vertex of that id if there is one, or else the
      declared vertex of that id. */
  ghost predicate Denotes(s: Symbols, id: string, u: nat)
    requires |s.decls| == s.m
  {
    u < s.Total() && s.At(u).id == id && (u >= s.m || !IsCondId(s, id))
  }

  lemma DenotesIff(env: Env, decls: seq<Decl>, s: Symbols, id: string, u: nat)
    requires Compiled(env, decls, s)
    ensures id in s.nodes && s.nodes[id] == u <==> Denotes(s, id, u)
  {
    if id in s.nodes && s.nodes[id] == u {
      assert Names(s, id, s.nodes[id]);
    }
    if Denotes(s, id, u) {
      if u < s.m {
        assert s.decls[u].id in s.nodes;
      } else {
        assert s.gens[u - s.m].id in s.nodes;
      }
    }
  }

  ghost predicate DenotesAny(s: Symbols, names: seq<string>, u: nat)
    requires |s.decls| == s.m
  {
    exists x :: x in names && Denotes(s, x, u)
  }

  lemma RefersIff(env: Env, decls: seq<Decl>, s: Symbols, names: seq<string>, u: nat)
    requires Compiled(env, decls, s)
    ensures Refers(s.nodes, names, u) <==> DenotesAny(s, names, u)
  {
    if Refers(s.nodes, names, u) {
      var x :| x in names && x in s.nodes && s.nodes[x] == u;
      DenotesIff(env, decls, s, x, u);
      assert Denotes(s, x, u);
    }
    if DenotesAny(s, names, u) {
      var x :| x in names && Denotes(s, x, u);
      DenotesIff(env, decls, s, x, u);
    }
  }

  lemma DenotesAnySplit(s: Symbols, a: seq<string>, b: seq<string>, u: nat)
    requires |s.decls| == s.m
    ensures DenotesAny(s, a + b, u) <==> DenotesAny(s, a, u) || DenotesAny(s, b, u)
  {
    if DenotesAny(s, a, u) {
      var x :| x in a && Denotes(s, x, u);
      assert x in a + b;
    }
    if DenotesAny(s, b, u) {
      var x :| x in b && Denotes(s, x, u);
      assert x in a + b;
    }
  }

  // ---------------------------------------------------------------- edges

  ghost predicate NamedAsDep(s: Symbols, d: Decl, u: nat)
    requires |s.decls| == s.m
  {
    DenotesAny(s, d.deps, u) || DenotesAny(s, d.depsOnOk, u) || DenotesAny(s, d.depsOnErr, u)
  }

  ghost predicate NamedAsSuccessor(s: Symbols, d: Decl, v: nat)
    requires |s.decls| == s.m
  {
    || DenotesAny(s, d.successor, v) || DenotesAny(s, d.successorOnOk, v) || DenotesAny(s, d.successorOnErr, v)
    || DenotesAny(s, d.consequent, v) || DenotesAny(s, d.alternative, v)
  }

  /** u is the condition vertex of d's `expect`. */
  ghost predicate Expects(s: Symbols, d: Decl, u: nat) {
    d.expectation != "" && s.m <= u < s.Total() && s.gens[u - s.m].cond == d.expectation
  }

  function Ids(d: Datum): seq<string> {
    if d.aggregate == [] then [d.id] else d.aggregate
  }

  /** Vertex v reads a datum that u produces; a vertex may read its own in-out datum without an edge. */
  ghost predicate Reads(s: Symbols, v: nat, u: nat)
    requires v < |s.decls|
  {
    u < |s.decls| && exists d, id :: ReadsDatum(s, v, u, d, id)
  }

  ghost predicate ReadsDatum(s: Symbols, v: nat, u: nat, d: Datum, id: string)
    requires v < |s.decls| && u < |s.decls|
  {
    && d in s.decls[v].input && id in Ids(d) && Produces(s.decls[u], id)
    && !(d.aggregate == [] && d.isInOut && u == v)
  }

  function CondNames(d: Decl): seq<string> {
    if d.expectDeps != [] then d.expectDeps else d.deps + (d.depsOnOk + d.depsOnErr)
  }

  /** Condition vertex v waits for u: u is named by the first vertex that declares the text of v. */
  ghost predicate CondWaits(s: Symbols, decls: seq<Decl>, v: nat, u: nat)
    requires |s.decls| == s.m <= v < s.Total()
  {
    exists j :: 0 <= j < |decls| && FirstWith(decls, j, s.gens[v - s.m].cond) && DenotesAny(s, CondNames(decls[j]), u)
  }

  /** The declaration asks for an edge from u to v. */
  ghost predicate Declared(s: Symbols, decls: seq<Decl>, u: nat, v: nat)
    requires |s.decls| == s.m == |decls|
  {
    || (v < s.m && (NamedAsDep(s, decls[v], u) || Expects(s, decls[v], u) || Reads(s, v, u)))
    || (u < s.m && NamedAsSuccessor(s, decls[u], v))
    || (s.m <= v < s.Total() && CondWaits(s, decls, v, u))
  }

  lemma CondNameIs(env: Env, decls: seq<Decl>, s: Symbols, v: nat, u: nat)
    requires Compiled(env, decls, s) && v < s.m
    ensures NamesDep(s.nodes, s.decls[v], u) <==> NamedAsDep(s, decls[v], u) || Expects(s, decls[v], u)
  {
    assert Normalised(s, decls[v], s.decls[v]);
    RefersIff(env, decls, s, s.decls[v].deps, u);
    RefersIff(env, decls, s, s.decls[v].depsOnOk, u);
    RefersIff(env, decls, s, s.decls[v].depsOnErr, u);
    if decls[v].expectation != "" {
      var t := decls[v].expectation;
      DenotesAnySplit(s, decls[v].depsOnOk, [CondName(s, t)], u);
      CondIsUnique(env, decls, s, t, u);
    }
  }

  lemma CondIsUnique(env: Env, decls: seq<Decl>, s: Symbols, t: string, u: nat)
    requires Compiled(env, decls, s) && HasCond(s, t)
    ensures DenotesAny(s, [CondName(s, t)], u) <==> s.m <= u < s.Total() && s.gens[u - s.m].cond == t
  {
    var k := s.conds[t];
    assert s.gens[k].id in s.nodes && s.nodes[s.gens[k].id] == s.m + k;
    DenotesIff(env, decls, s, s.gens[k].id, u);
    if s.m <= u < s.Total() && s.gens[u - s.m].cond == t {
      assert IsCond(s, decls, u - s.m);
      assert s.gens[k].id in [CondName(s, t)];
    }
  }

  lemma SuccessorNamesAre(env: Env, decls: seq<Decl>, s: Symbols, u: nat, v: nat)
    requires Compiled(env, decls, s) && u < s.m
    ensures NamesSucc(s.nodes, s.decls[u], v) <==> NamedAsSuccessor(s, decls[u], v)
  {
    assert Normalised(s, decls[u], s.decls[u]);
    RefersIff(env, decls, s, s.decls[u].successor, v);
    RefersIff(env, decls, s, s.decls[u].successorOnOk, v);
    RefersIff(env, decls, s, s.decls[u].successorOnErr, v);
    DenotesAnySplit(s, decls[u].successorOnOk, decls[u].consequent, v);
    DenotesAnySplit(s, decls[u].successorOnErr, decls[u].alternative, v);
  }

  lemma ProducerIs(decls: seq<Decl>, data: map<string, nat>, id: string, u: nat)
    requires DataInv(decls, data)
    ensures id in data && data[id] == u <==> u < |decls| && Produces(decls[u], id)
  {
  }

  lemma ConsumesIs(s: Symbols, v: nat, u: nat, d: Datum)
    requires DataInv(s.decls, s.data) && v < |s.decls| && d in s.decls[v].input
    ensures Consumes(s.data, d, v, u) <==> u < |s.decls| && exists id :: ReadsDatum(s, v, u, d, id)
  {
    if Consumes(s.data, d, v, u) {
      var id := if d.aggregate == [] then d.id else
        var x :| x in d.aggregate && x in s.data && s.data[x] == u; x;
      ProducerIs(s.decls, s.data, id, u);
      assert ReadsDatum(s, v, u, d, id);
    }
    if u < |s.decls| && exists id :: ReadsDatum(s, v, u, d, id) {
      var id :| ReadsDatum(s, v, u, d, id);
      ProducerIs(s.decls, s.data, id, u);
    }
  }

  lemma ReadsIff(s: Symbols, v: nat, u: nat)
    requires DataInv(s.decls, s.data) && v < |s.decls|
    ensures ConsumesAny(s.data, s.decls[v].input, v, u) <==> Reads(s, v, u)
  {
    forall d | d in s.decls[v].input
      ensures Consumes(s.data, d, v, u) <==> u < |s.decls| && exists id :: ReadsDatum(s, v, u, d, id)
    {
      ConsumesIs(s, v, u, d);
    }
  }

  lemma FirstIsUnique(decls: seq<Decl>, i: nat, j: nat, text: string)
    requires i < |decls| && j < |decls| && FirstWith(decls, i, text) && FirstWith(decls, j, text)
    ensures i == j
  {
  }

  lemma CondNamesAre(env: Env, decls: seq<Decl>, s: Symbols, d: Decl, c: Decl, u: nat)
    requires Compiled(env, decls, s) && CondDeps(d, c)
    ensures NamesDep(s.nodes, c, u) <==> DenotesAny(s, CondNames(d), u)
  {
    RefersIff(env, decls, s, c.deps, u);
    RefersIff(env, decls, s, c.depsOnOk, u);
    RefersIff(env, decls, s, c.depsOnErr, u);
    DenotesAnySplit(s, d.deps, d.depsOnOk + d.depsOnErr, u);
    DenotesAnySplit(s, d.depsOnOk, d.depsOnErr, u);
  }

  lemma CondSource(s: Symbols, decls: seq<Decl>, v: nat) returns (j: nat)
    requires CondInv(s, decls) && |s.decls| == s.m <= v < s.Total()
    ensures j < |decls| && FirstWith(decls, j, s.gens[v - s.m].cond) && CondDeps(decls[j], s.At(v))
  {
    assert IsCond(s, decls, v - s.m);
    j :| 0 <= j < |decls| && FirstWith(decls, j, s.gens[v - s.m].cond) && CondDeps(decls[j], s.gens[v - s.m]);
  }

  lemma CondWaitsAt(s: Symbols, decls: seq<Decl>, v: nat, u: nat, j: nat)
    requires |s.decls| == s.m <= v < s.Total() && j < |decls| && FirstWith(decls, j, s.gens[v - s.m].cond)
    ensures CondWaits(s, decls, v, u) <==> DenotesAny(s, CondNames(decls[j]), u)
  {
    if CondWaits(s, decls, v, u) {
      var l :| 0 <= l < |decls| && FirstWith(decls, l, s.gens[v - s.m].cond) && DenotesAny(s, CondNames(decls[l]), u);
      FirstIsUnique(decls, j, l, s.gens[v - s.m].cond);
    }
  }

  lemma CondWaitsIff(env: Env, decls: seq<Decl>, s: Symbols, v: nat, u: nat)
    requires Compiled(env, decls, s) && s.m <= v < s.Total()
    ensures NamesDep(s.nodes, s.At(v), u) <==> CondWaits(s, decls, v, u)
    ensures s.At(v).input == [] && s.At(v).successor == [] && s.At(v).successorOnOk == [] && s.At(v).successorOnErr == []
  {
    var j := CondSource(s, decls, v);
    CondNamesAre(env, decls, s, decls[j], s.At(v), u);
    CondWaitsAt(s, decls, v, u, j);
  }

  /** The requests of one vertex, in terms of the declaration. */
  lemma LinkedByIff(env: Env, decls: seq<Decl>, s: Symbols, p: nat, u: nat, v: nat)
    requires Compiled(env, decls, s) && p < s.Total()
    ensures LinkedBy(s, s.At(p), p, u, v) <==>
            if p < s.m then
              (v == p && (NamedAsDep(s, decls[p], u) || Expects(s, decls[p], u) || Reads(s, p, u)))
              || (u == p && NamedAsSuccessor(s, decls[p], v))
            else v == p && CondWaits(s, decls, p, u)
  {
    if p < s.m {
      CondNameIs(env, decls, s, p, u);
      SuccessorNamesAre(env, decls, s, p, v);
      ReadsIff(s, p, u);
    } else {
      CondWaitsIff(env, decls, s, p, u);
    }
  }

  lemma LinkedIff(env: Env, decls: seq<Decl>, s: Symbols, u: nat, v: nat)
    requires Compiled(env, decls, s) && u < s.Total() && v < s.Total()
    ensures Linked(s, u, v, s.Total()) <==> Declared(s, decls, u, v)
  {
    LinkedByIff(env, decls, s, u, u, v);
    LinkedByIff(env, decls, s, v, u, v);
    if Linked(s, u, v, s.Total()) {
      var p :| 0 <= p < s.Total() && LinkedBy(s, s.At(p), p, u, v);
      assert p == u || p == v;
    }
  }

  /** After a successful build u → v is an edge exactly if the declaration asks for it, and the successor
      sets are exactly the inverse of the dependency maps. */
  lemma EdgeIffDeclared(env: Env, decls: seq<Decl>, u: nat, v: nat)
    requires BuildLinks(env, decls).Some?
    ensures var b := BuildLinks(env, decls).value;
            && |b.sym.decls| == b.sym.m == |decls| && |b.links| == b.sym.Total()
            && (u < |b.links| && v < |b.links| ==>
                  && (u in b.links[v].idx <==> Declared(b.sym, decls, u, v))
                  && (v in b.links[u].succ <==> u in b.links[v].idx))
  {
    BuildIsCompiled(env, decls);
    BuildStages(env, decls);
    BuiltRanged(env, decls);
    var b := BuildLinks(env, decls).value;
    if u < |b.links| && v < |b.links| {
      var rs := AllRequests(env, b.sym, b.sym.Total()).value;
      PairIffHas(b.sym.Total(), rs, u, v);
      AllRequestsAre(env, b.sym, b.sym.Total(), u, v);
      LinkedIff(env, decls, b.sym, u, v);
      assert Mirror(b.links, u, v);
    }
  }

  /** Every successor finds its slot: `GetDependencyIndex` is never -1, and slots are numbered 0..n-1. */
  lemma SlotsAreDense(env: Env, decls: seq<Decl>, u: nat, v: nat)
    requires BuildLinks(env, decls).Some?
    ensures var b := BuildLinks(env, decls).value;
            && |b.links| == b.sym.Total()
            && (v < |b.links| ==> Dense(b.links[v]))
            && (u < |b.links| && v < |b.links| && v in b.links[u].succ ==>
                  u in b.links[v].idx && b.links[v].idx[u] < |b.links[v].idx| == |b.links[v].expected|)
  {
    BuiltRanged(env, decls);
    var b := BuildLinks(env, decls).value;
    if u < |b.links| && v < |b.links| {
      assert Mirror(b.links, u, v);
    }
  }
}
