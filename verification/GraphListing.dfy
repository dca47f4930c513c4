/** Which vertices the id table ends up listing, and where generated condition vertices come from. */
module GraphListing {
  import opened GraphDecl
  import opened GraphEdges

  // ---------------------------------------------------------------- generated condition vertices

  /** The condition vertex takes the dependencies of the first vertex that declares its text, or that
      vertex's `expect_deps` when there are any. */
  ghost predicate CondFrom(decls: seq<Decl>, c: Decl) {
    exists j :: 0 <= j < |decls| && FirstWith(decls, j, c.cond) && CondDeps(decls[j], c)
  }

  ghost predicate FirstWith(decls: seq<Decl>, j: nat, text: string)
    requires j < |decls|
  {
    text != "" && decls[j].expectation == text && forall l :: 0 <= l < j ==> decls[l].expectation != text
  }

  ghost predicate CondDeps(d: Decl, c: Decl) {
    && c.successor == [] && c.successorOnOk == [] && c.successorOnErr == [] && c.input == []
    && if d.expectDeps != [] then c.deps == d.expectDeps && c.depsOnOk == [] && c.depsOnErr == []
       else c.deps == d.deps && c.depsOnOk == d.depsOnOk && c.depsOnErr == d.depsOnErr
  }

  /** The k-th generated vertex is the one condition vertex of its text. */
  ghost predicate IsCond(s: Symbols, decls: seq<Decl>, k: nat)
    requires k < |s.gens|
  {
    CondFrom(decls, s.gens[k]) && s.gens[k].cond in s.conds && s.conds[s.gens[k].cond] == k
  }

  ghost predicate CondInv(s: Symbols, decls: seq<Decl>) {
    forall k {:trigger IsCond(s, decls, k)} :: 0 <= k < |s.gens| ==> IsCond(s, decls, k)
  }

  lemma CondInvGrows(decls: seq<Decl>, s: Symbols, t: Symbols, c: Decl)
    requires CondInv(s, decls) && t.gens == s.gens + [c] && CondFrom(decls, c)
    requires c.cond !in s.conds && t.conds == s.conds[c.cond := |s.gens|]
    ensures CondInv(t, decls)
  {
    forall k | 0 <= k < |t.gens|
      ensures IsCond(t, decls, k)
    {
      if k < |s.gens| {
        assert IsCond(s, decls, k) && t.gens[k] == s.gens[k];
      }
    }
  }

  lemma CondInvStays(decls: seq<Decl>, s: Symbols, t: Symbols)
    requires CondInv(s, decls) && t.gens == s.gens && t.conds == s.conds
    ensures CondInv(t, decls)
  {
    forall k | 0 <= k < |t.gens|
      ensures IsCond(t, decls, k)
    {
      assert IsCond(s, decls, k);
    }
  }

  /** A new condition vertex belongs to the vertex being declared: no earlier one has its text. */
  lemma NewCond(env: Env, s: Symbols, decls: seq<Decl>, i: nat, id: string)
    requires NameInv(s, decls, i) && i < |decls| && decls[i].expectation != "" && decls[i].expectation !in s.conds
    ensures CondFrom(decls, CondVertex(env, id, decls[i]))
  {
    forall l | 0 <= l < i
      ensures decls[l].expectation != decls[i].expectation
    {
      assert Normalised(s, decls[l], s.decls[l]);
    }
    var c := CondVertex(env, id, decls[i]);
    assert FirstWith(decls, i, c.cond) && CondDeps(decls[i], c);
  }

  lemma DefaultsKeepNames(env: Env, next: nat, n: Decl)
    ensures var d := Defaults(env, next, n).0;
            d == n.(id := d.id, processor := d.processor, cluster := d.cluster)
  {
  }

  lemma PrepareKeepsConds(env: Env, s: Symbols, decls: seq<Decl>, i: nat)
    requires SymbolsInv(s, decls, i) && i < |decls| && CondInv(s, decls)
    ensures CondInv(Prepare(env, s, decls[i]).0, decls)
  {
    var (d, next) := Defaults(env, s.next, decls[i]);
    DefaultsKeepNames(env, s.next, decls[i]);
    var t := Prepare(env, s, decls[i]).0;
    if |t.gens| > |s.gens| {
      var c := CondVertex(env, GenerateNodeId(env, next), decls[i]);
      NewCond(env, s, decls, i, GenerateNodeId(env, next));
      assert t.gens == s.gens + [c];
      CondInvGrows(decls, s, t, c);
    } else {
      CondInvStays(decls, s, t);
    }
  }

  lemma EnterKeepsConds(env: Env, s: Symbols, d: Decl, decls: seq<Decl>)
    requires CondInv(s, decls) && EnterVertex(env, s, d).Some?
    ensures CondInv(EnterVertex(env, s, d).value, decls)
  {
    CondInvStays(decls, s, EnterVertex(env, s, d).value);
  }

  lemma {:induction false} DeclareAllConds(env: Env, decls: seq<Decl>, i: nat)
    requires i <= |decls| && DeclareAll(env, decls, i).Some?
    ensures CondInv(DeclareAll(env, decls, i).value, decls)
    decreases i, 0
  {
    if i == 0 {
      assert CondInv(Start(|decls|), decls);
    } else {
      PreparedConds(env, decls, i - 1);
      var p := Prepared(env, decls, i - 1).value;
      EnterKeepsConds(env, p.0, p.1, decls);
    }
  }

  lemma {:induction false} PreparedConds(env: Env, decls: seq<Decl>, i: nat)
    requires i < |decls| && Prepared(env, decls, i).Some?
    ensures CondInv(Prepared(env, decls, i).value.0, decls)
    decreases i, 1
  {
    DeclareAllConds(env, decls, i);
    DeclareAllKeeps(env, decls, i);
    PrepareKeepsConds(env, DeclareAll(env, decls, i).value, decls, i);
  }

  // ---------------------------------------------------------------- the id table

  /** The id was generated earlier in this graph. */
  ghost predicate Numbered(env: Env, s: Symbols, id: string) {
    exists n: nat :: n < s.next && id == GenerateNodeId(env, n)
  }

  ghost predicate IsCondId(s: Symbols, id: string) {
    exists k :: 0 <= k < |s.gens| && s.gens[k].id == id
  }

  /** Generated vertices are always listed; a declared vertex is listed unless a generated id replaced it. */
  ghost predicate ListInv(env: Env, s: Symbols) {
    && (forall k :: 0 <= k < |s.gens| ==>
          Numbered(env, s, s.gens[k].id) && s.gens[k].id in s.nodes && s.nodes[s.gens[k].id] == s.m + k)
    && (forall j :: 0 <= j < |s.decls| ==> s.decls[j].id in s.nodes)
    && (forall j :: 0 <= j < |s.decls| ==> s.nodes[s.decls[j].id] == j || IsCondId(s, s.decls[j].id))
  }

  lemma NumberedGrows(env: Env, s: Symbols, t: Symbols, id: string)
    requires Numbered(env, s, id) && s.next <= t.next
    ensures Numbered(env, t, id)
  {
  }

  lemma FreshNumber(env: Env, s: Symbols, id: string)
    requires Numbered(env, s, id)
    ensures id != GenerateNodeId(env, s.next)
  {
    var n: nat :| n < s.next && id == GenerateNodeId(env, n);
    GeneratedIdsDiffer(env, n, s.next);
  }

  lemma WithCondKeepsList(env: Env, s: Symbols, n: Decl)
    requires ListInv(env, s)
    ensures ListInv(env, WithCond(env, s, n).0)
  {
    var t := WithCond(env, s, n).0;
    if n.expectation != "" && n.expectation !in s.conds {
      var id := GenerateNodeId(env, s.next);
      forall k | 0 <= k < |t.gens|
        ensures Numbered(env, t, t.gens[k].id) && t.gens[k].id in t.nodes && t.nodes[t.gens[k].id] == t.m + k
      {
        if k < |s.gens| {
          assert t.gens[k] == s.gens[k];
          FreshNumber(env, s, s.gens[k].id);
        }
      }
      forall j | 0 <= j < |t.decls|
        ensures t.nodes[t.decls[j].id] == j || IsCondId(t, t.decls[j].id)
      {
        if t.decls[j].id == id {
          assert t.gens[|s.gens|].id == id;
        } else if IsCondId(s, s.decls[j].id) {
          var k :| 0 <= k < |s.gens| && s.gens[k].id == s.decls[j].id;
          assert t.gens[k].id == t.decls[j].id;
        }
      }
    }
  }

  lemma PrepareKeepsList(env: Env, s: Symbols, n: Decl)
    requires ListInv(env, s)
    ensures ListInv(env, Prepare(env, s, n).0)
  {
    var (d, next) := Defaults(env, s.next, n);
    var s0 := s.(next := next);
    assert ListInv(env, s0) by {
      forall k | 0 <= k < |s.gens|
        ensures Numbered(env, s0, s.gens[k].id)
      {
        NumberedGrows(env, s, s0, s.gens[k].id);
      }
      assert forall id :: IsCondId(s, id) ==> IsCondId(s0, id);
    }
    WithCondKeepsList(env, s0, d);
  }

  lemma EnterKeepsList(env: Env, s: Symbols, d: Decl)
    requires ListInv(env, s) && EnterVertex(env, s, d).Some?
    ensures ListInv(env, EnterVertex(env, s, d).value)
  {
    var done := EnterParts(env, s, d);
    var t := EnterVertex(env, s, d).value;
    forall k | 0 <= k < |t.gens|
      ensures Numbered(env, t, t.gens[k].id)
    {
      NumberedGrows(env, s, t, t.gens[k].id);
    }
    forall j | 0 <= j < |t.decls|
      ensures t.decls[j].id in t.nodes && (t.nodes[t.decls[j].id] == j || IsCondId(t, t.decls[j].id))
    {
      if j < |s.decls| && IsCondId(s, s.decls[j].id) {
        var k :| 0 <= k < |s.gens| && s.gens[k].id == s.decls[j].id;
        assert t.gens[k].id == t.decls[j].id;
      }
    }
  }

  lemma {:induction false} DeclareAllLists(env: Env, decls: seq<Decl>, i: nat)
    requires i <= |decls| && DeclareAll(env, decls, i).Some?
    ensures ListInv(env, DeclareAll(env, decls, i).value)
    decreases i, 0
  {
    if i == 0 {
      assert ListInv(env, Start(|decls|));
    } else {
      PreparedLists(env, decls, i - 1);
      var p := Prepared(env, decls, i - 1).value;
      EnterKeepsList(env, p.0, p.1);
    }
  }

  lemma {:induction false} PreparedLists(env: Env, decls: seq<Decl>, i: nat)
    requires i < |decls| && Prepared(env, decls, i).Some?
    ensures ListInv(env, Prepared(env, decls, i).value.0)
    decreases i, 1
  {
    DeclareAllLists(env, decls, i);
    PrepareKeepsList(env, DeclareAll(env, decls, i).value, decls[i]);
  }

  /** Every vertex is found under its own id. */
  ghost predicate AllListed(s: Symbols)
    requires |s.decls| == s.m
  {
    forall p :: 0 <= p < s.Total() ==> s.At(p).id in s.nodes && s.nodes[s.At(p).id] == p
  }

  // ---------------------------------------------------------------- ids, as the declaration gives them

  /** The processor that a vertex runs: a bare condition runs the default expression processor. */
  function ProcessorOf(env: Env, d: Decl): string {
    if d.processor == "" && d.cond != "" then env.defaultExpr else d.processor
  }

  /** The vertex gets a generated id. */
  predicate Nameless(env: Env, d: Decl) {
    d.id == "" && ProcessorOf(env, d) == ""
  }

  /** How many ids are generated for the first i vertices and their conditions. */
  ghost function Used(env: Env, decls: seq<Decl>, i: nat): nat
    requires i <= |decls|
    decreases i, 0
  {
    if i == 0 then 0
    else CondNumber(env, decls, i - 1) + if FirstWith(decls, i - 1, decls[i - 1].expectation) then 1 else 0
  }

  /** The number of the condition vertex that is generated when vertex i is the first with its text. */
  ghost function CondNumber(env: Env, decls: seq<Decl>, i: nat): nat
    requires i < |decls|
    decreases i, 1
  {
    Used(env, decls, i) + if Nameless(env, decls[i]) then 1 else 0
  }

  ghost function IdOf(env: Env, decls: seq<Decl>, j: nat): string
    requires j < |decls|
  {
    if decls[j].id != "" then decls[j].id
    else if Nameless(env, decls[j]) then GenerateNodeId(env, Used(env, decls, j))
    else ProcessorOf(env, decls[j])
  }

  /** The condition vertex generated for vertex i has this id. */
  ghost predicate Generates(env: Env, decls: seq<Decl>, i: nat, id: string)
    requires i < |decls|
  {
    FirstWith(decls, i, decls[i].expectation) && id == GenerateNodeId(env, CondNumber(env, decls, i))
  }

  /** A later vertex generates a condition vertex with the id of vertex j, which replaces j in the id table. */
  ghost predicate Replaced(env: Env, decls: seq<Decl>, j: nat)
    requires j < |decls|
  {
    exists i :: j < i < |decls| && Generates(env, decls, i, IdOf(env, decls, j))
  }

  ghost predicate NoClash(env: Env, decls: seq<Decl>) {
    forall j :: 0 <= j < |decls| ==> !Replaced(env, decls, j)
  }

  /** The generated vertices are those of the first n vertices. */
  ghost predicate GenInv(env: Env, s: Symbols, decls: seq<Decl>, n: nat)
    requires n <= |decls|
  {
    && (forall k :: 0 <= k < |s.gens| ==> GeneratedFor(env, decls, n, s.gens[k]))
    && (forall i {:trigger Made(env, s, decls, i)} :: 0 <= i < n ==> Made(env, s, decls, i))
  }

  ghost predicate GeneratedFor(env: Env, decls: seq<Decl>, n: nat, c: Decl)
    requires n <= |decls|
  {
    exists i :: 0 <= i < n && decls[i].expectation == c.cond && Generates(env, decls, i, c.id)
  }

  ghost predicate Made(env: Env, s: Symbols, decls: seq<Decl>, i: nat)
    requires i < |decls|
  {
    FirstWith(decls, i, decls[i].expectation) ==> IsCondId(s, GenerateNodeId(env, CondNumber(env, decls, i)))
  }

  /** Vertex j was entered under its id, which no vertex up to it had generated. */
  ghost predicate EnteredAs(env: Env, decls: seq<Decl>, j: nat, id: string)
    requires j < |decls|
  {
    id == IdOf(env, decls, j) && forall i :: 0 <= i <= j ==> !Generates(env, decls, i, id)
  }

  ghost predicate IdInv(env: Env, s: Symbols, decls: seq<Decl>, i: nat) {
    && i <= |decls| && |s.decls| == i && s.next == Used(env, decls, i) && GenInv(env, s, decls, i)
    && (forall j :: 0 <= j < i ==> EnteredAs(env, decls, j, s.decls[j].id))
  }

  /** Vertex i is prepared. */
  ghost predicate PreparedInv(env: Env, s: Symbols, d: Decl, decls: seq<Decl>, i: nat) {
    && i < |decls| && |s.decls| == i && s.next == Used(env, decls, i + 1) && GenInv(env, s, decls, i + 1)
    && d.id == IdOf(env, decls, i)
    && (forall j :: 0 <= j < i ==> EnteredAs(env, decls, j, s.decls[j].id))
  }

  lemma GeneratedForMore(env: Env, decls: seq<Decl>, n: nat, c: Decl)
    requires n < |decls| && GeneratedFor(env, decls, n, c)
    ensures GeneratedFor(env, decls, n + 1, c)
  {
  }

  /** The conditions in the table are those of the vertices before i. */
  lemma KnownIffEarlier(env: Env, s: Symbols, decls: seq<Decl>, i: nat)
    requires NameInv(s, decls, i) && i < |decls| && GenInv(env, s, decls, i) && decls[i].expectation != ""
    ensures decls[i].expectation in s.conds <==> !FirstWith(decls, i, decls[i].expectation)
  {
    var text := decls[i].expectation;
    if text in s.conds {
      assert HasCond(s, text);
      assert GeneratedFor(env, decls, i, s.gens[s.conds[text]]);
    }
    if !FirstWith(decls, i, text) {
      var l :| 0 <= l < i && decls[l].expectation == text;
      assert Normalised(s, decls[l], s.decls[l]);
    }
  }

  lemma NewGen(env: Env, s: Symbols, t: Symbols, decls: seq<Decl>, i: nat, c: Decl)
    requires i < |decls| && GenInv(env, s, decls, i) && t.gens == s.gens + [c]
    requires c.cond == decls[i].expectation && Generates(env, decls, i, c.id)
    ensures GenInv(env, t, decls, i + 1)
  {
    forall k | 0 <= k < |t.gens|
      ensures GeneratedFor(env, decls, i + 1, t.gens[k])
    {
      if k < |s.gens| {
        GeneratedForMore(env, decls, i, s.gens[k]);
      }
    }
    forall l | 0 <= l < i + 1
      ensures Made(env, t, decls, l)
    {
      if l == i {
        assert t.gens[|s.gens|].id == c.id;
      } else {
        assert Made(env, s, decls, l);
        StillGenerated(s, t, GenerateNodeId(env, CondNumber(env, decls, l)));
      }
    }
  }

  lemma StillGenerated(s: Symbols, t: Symbols, id: string)
    requires |s.gens| <= |t.gens| && t.gens[..|s.gens|] == s.gens
    ensures IsCondId(s, id) ==> IsCondId(t, id)
  {
    if IsCondId(s, id) {
      var k :| 0 <= k < |s.gens| && s.gens[k].id == id;
      assert t.gens[k] == t.gens[..|s.gens|][k];
    }
  }

  lemma SameGens(env: Env, s: Symbols, t: Symbols, decls: seq<Decl>, i: nat)
    requires i < |decls| && GenInv(env, s, decls, i) && t.gens == s.gens && !FirstWith(decls, i, decls[i].expectation)
    ensures GenInv(env, t, decls, i + 1)
  {
    forall k | 0 <= k < |t.gens|
      ensures GeneratedFor(env, decls, i + 1, t.gens[k])
    {
      GeneratedForMore(env, decls, i, s.gens[k]);
    }
    forall l | 0 <= l < i + 1
      ensures Made(env, t, decls, l)
    {
      if l < i {
        assert Made(env, s, decls, l);
        StillGenerated(s, t, GenerateNodeId(env, CondNumber(env, decls, l)));
      }
    }
  }

  /** `Defaults` gives a vertex the id that the declaration determines. */
  lemma DefaultsAre(env: Env, decls: seq<Decl>, i: nat)
    requires i < |decls|
    ensures var (d, next) := Defaults(env, Used(env, decls, i), decls[i]);
            d.id == IdOf(env, decls, i) && next == CondNumber(env, decls, i)
  {
  }

  lemma PrepareNumbers(env: Env, s: Symbols, decls: seq<Decl>, i: nat)
    requires NameInv(s, decls, i) && IdInv(env, s, decls, i) && i < |decls|
    ensures PreparedInv(env, Prepare(env, s, decls[i]).0, Prepare(env, s, decls[i]).1, decls, i)
  {
    var (d, next) := Defaults(env, s.next, decls[i]);
    DefaultsAre(env, decls, i);
    DefaultsKeepNames(env, s.next, decls[i]);
    var t := Prepare(env, s, decls[i]).0;
    if decls[i].expectation != "" {
      KnownIffEarlier(env, s, decls, i);
    }
    if FirstWith(decls, i, decls[i].expectation) {
      NewGen(env, s, t, decls, i, CondVertex(env, GenerateNodeId(env, next), d));
    } else {
      SameGens(env, s, t, decls, i);
    }
  }

  lemma EnterNumbers(env: Env, s: Symbols, d: Decl, decls: seq<Decl>, i: nat)
    requires PreparedInv(env, s, d, decls, i) && ListInv(env, s) && EnterVertex(env, s, d).Some?
    ensures IdInv(env, EnterVertex(env, s, d).value, decls, i + 1)
  {
    var done := EnterParts(env, s, d);
    var t := EnterVertex(env, s, d).value;
    forall l | 0 <= l < i + 1
      ensures Made(env, t, decls, l)
    {
      assert Made(env, s, decls, l);
      StillGenerated(s, t, GenerateNodeId(env, CondNumber(env, decls, l)));
    }
    forall l | 0 <= l <= i
      ensures !Generates(env, decls, l, d.id)
    {
      assert Made(env, s, decls, l);
    }
  }

  lemma StartNumbers(env: Env, decls: seq<Decl>)
    ensures IdInv(env, Start(|decls|), decls, 0)
  {
  }

  lemma {:induction false} DeclareAllNumbers(env: Env, decls: seq<Decl>, i: nat)
    requires i <= |decls| && DeclareAll(env, decls, i).Some?
    ensures IdInv(env, DeclareAll(env, decls, i).value, decls, i)
    decreases i, 0
  {
    if i == 0 {
      StartNumbers(env, decls);
    } else {
      var p := Prepared(env, decls, i - 1).value;
      assert DeclareAll(env, decls, i) == EnterVertex(env, p.0, p.1);
      PreparedNumbers(env, decls, i - 1);
      PreparedLists(env, decls, i - 1);
      EnterNumbers(env, p.0, p.1, decls, i - 1);
    }
  }

  lemma {:induction false} PreparedNumbers(env: Env, decls: seq<Decl>, i: nat)
    requires i < |decls| && Prepared(env, decls, i).Some?
    ensures PreparedInv(env, Prepared(env, decls, i).value.0, Prepared(env, decls, i).value.1, decls, i)
    decreases i, 1
  {
    DeclareAllNumbers(env, decls, i);
    DeclareAllKeeps(env, decls, i);
    PrepareNumbers(env, DeclareAll(env, decls, i).value, decls, i);
  }

  // ---------------------------------------------------------------- who is listed

  lemma ReplacedIff(env: Env, s: Symbols, decls: seq<Decl>, j: nat)
    requires IdInv(env, s, decls, |decls|) && j < |decls|
    ensures IsCondId(s, s.decls[j].id) <==> Replaced(env, decls, j)
  {
    var id := s.decls[j].id;
    assert EnteredAs(env, decls, j, id);
    if IsCondId(s, id) {
      var k :| 0 <= k < |s.gens| && s.gens[k].id == id;
      assert GeneratedFor(env, decls, |decls|, s.gens[k]);
      var i :| 0 <= i < |decls| && Generates(env, decls, i, id);
      assert i > j;
    }
    if Replaced(env, decls, j) {
      var i :| j < i < |decls| && Generates(env, decls, i, id);
      assert Made(env, s, decls, i);
    }
  }

  /** The id table lists every vertex but those whose id a later vertex generates for its condition. */
  lemma ListedIffNotReplaced(env: Env, s: Symbols, decls: seq<Decl>, p: nat)
    requires ListInv(env, s) && IdInv(env, s, decls, |decls|) && NameInv(s, decls, |decls|) && p < s.Total()
    ensures p in s.nodes.Values <==> p >= s.m || !Replaced(env, decls, p)
  {
    if p >= s.m {
      assert s.nodes[s.gens[p - s.m].id] == p;
    } else {
      ReplacedIff(env, s, decls, p);
      var id := s.decls[p].id;
      if IsCondId(s, id) {
        var k :| 0 <= k < |s.gens| && s.gens[k].id == id;
        assert s.nodes[id] == s.m + k;
        assert forall x :: x in s.nodes ==> Names(s, x, s.nodes[x]);
      } else {
        assert s.nodes[id] == p;
      }
    }
  }

  /** The id table lists every vertex under its own id exactly if no vertex has the id that is generated for the
      condition of a later one. */
  lemma ListedIffNoClash(env: Env, decls: seq<Decl>)
    requires DeclareAll(env, decls, |decls|).Some?
    ensures var s := DeclareAll(env, decls, |decls|).value;
            |s.decls| == s.m && (AllListed(s) <==> NoClash(env, decls))
  {
    var s := DeclareAll(env, decls, |decls|).value;
    DeclareAllKeeps(env, decls, |decls|);
    DeclareAllLists(env, decls, |decls|);
    DeclareAllNumbers(env, decls, |decls|);
    forall j | 0 <= j < |decls|
      ensures s.nodes[s.decls[j].id] == j <==> !Replaced(env, decls, j)
    {
      ReplacedIff(env, s, decls, j);
      if IsCondId(s, s.decls[j].id) {
        var k :| 0 <= k < |s.gens| && s.gens[k].id == s.decls[j].id;
        assert s.nodes[s.decls[j].id] == s.m + k;
      }
    }
    if AllListed(s) {
      forall j | 0 <= j < |decls|
        ensures !Replaced(env, decls, j)
      {
        assert s.At(j) == s.decls[j];
      }
    }
  }
}
