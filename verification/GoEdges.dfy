/** Which edges the Go compiler makes, what they expect, and when all names and data resolve, in terms of the declared
    vertices and the data table. */
module GoEdges {
  import opened Options
  import opened GoResults
  import opened GoDepend
  import opened GoGraph

  // ---------------------------------------------------------------- what a vertex declares

  /** An aggregate or a map input refers to the members of its list, any other input to its own id. */
  predicate RefersTo(d: Input, id: string) {
    if d.aggregate == [] && !d.isMap then id == d.id else id in d.aggregate
  }

  function KeyOf(d: Input, id: string): DataKey {
    DataKey(id, d.typeName, d.typeKind)
  }

  /** Input d of p reads, as `id`, a datum of u; a vertex reads its own plain in-out datum without an edge. */
  predicate ReadsDatum(data: map<DataKey, Id>, d: Input, id: string, p: Id, u: Id) {
    && RefersTo(d, id) && KeyOf(d, id) in data && data[KeyOf(d, id)] == u
    && !(d.isInOut && d.aggregate == [] && !d.isMap && u == p)
  }

  ghost predicate Reads(data: map<DataKey, Id>, d: Input, p: Id, u: Id) {
    exists id :: ReadsDatum(data, d, id, p, u)
  }

  ghost predicate ReadsAny(data: map<DataKey, Id>, input: seq<Input>, p: Id, u: Id) {
    exists i :: 0 <= i < |input| && Reads(data, input[i], p, u)
  }

  /** The first input that reads a datum of u. */
  ghost predicate FirstReader(data: map<DataKey, Id>, input: seq<Input>, p: Id, u: Id, i: int) {
    0 <= i < |input| && Reads(data, input[i], p, u) && forall j :: 0 <= j < i ==> !Reads(data, input[j], p, u)
  }

  predicate NamesDep(n: Vertex, u: Id) {
    u in n.deps || u in n.depsOnOk || u in n.depsOnErr
  }

  predicate NamesSuccessor(n: Vertex, v: Id) {
    v in n.successor || v in n.successorOnOk || v in n.orIf || v in n.successorOnErr || v in n.orElse
  }

  // ---------------------------------------------------------------- the calls for data

  lemma AppendSome(a: Option<seq<Call>>, b: Option<seq<Call>>)
    ensures Append(a, b).Some? <==> a.Some? && b.Some?
  {
  }

  /** All calls of one input ask the same. */
  lemma {:induction false} DataImplicit(data: map<DataKey, Id>, d: Input, ids: seq<string>, p: Id, u: Id, v: Id)
    requires DataCalls(data, d, ids, p).Some?
    requires forall id :: id in ids ==> RefersTo(d, id)
    ensures FirstImplicit(DataCalls(data, d, ids, p).value, u, v) ==
            if v == p && (exists id :: id in ids && ReadsDatum(data, d, id, p, u))
            then Some(if d.required then RESULT_OK else RESULT_ALL) else None
  {
    if ids != [] {
      var before, id := ids[..|ids| - 1], ids[|ids| - 1];
      assert forall x :: x in ids <==> x in before || x == id;
      DataImplicit(data, d, before, p, u, v);
      FirstImplicitAppend(DataCalls(data, d, before, p).value, DatumCall(data, d, id, p).value, u, v);
      DatumImplicit(data, d, id, p, u, v);
    }
  }

  lemma DatumImplicit(data: map<DataKey, Id>, d: Input, id: string, p: Id, u: Id, v: Id)
    requires DatumCall(data, d, id, p).Some? && RefersTo(d, id)
    ensures FirstImplicit(DatumCall(data, d, id, p).value, u, v) ==
            if v == p && ReadsDatum(data, d, id, p, u) then Some(if d.required then RESULT_OK else RESULT_ALL) else None
  {
    var calls := DatumCall(data, d, id, p).value;
    if calls != [] {
      assert calls[..|calls| - 1] == [];
    }
  }

  lemma IdsRefer(d: Input, id: string)
    ensures id in Ids(d) <==> RefersTo(d, id)
  {
  }

  lemma InputImplicit(data: map<DataKey, Id>, d: Input, p: Id, u: Id, v: Id)
    requires DataCalls(data, d, Ids(d), p).Some?
    ensures FirstImplicit(DataCalls(data, d, Ids(d), p).value, u, v) ==
            if v == p && Reads(data, d, p, u) then Some(if d.required then RESULT_OK else RESULT_ALL) else None
  {
    forall id
      ensures id in Ids(d) <==> RefersTo(d, id)
    {
      IdsRefer(d, id);
    }
    DataImplicit(data, d, Ids(d), p, u, v);
  }

  lemma InputsSplit(data: map<DataKey, Id>, input: seq<Input>, p: Id, u: Id, v: Id)
    requires input != [] && InputCalls(data, input, p).Some?
    ensures var before, d := input[..|input| - 1], input[|input| - 1];
            && InputCalls(data, before, p).Some?
            && FirstImplicit(InputCalls(data, input, p).value, u, v) ==
               OrElse(FirstImplicit(InputCalls(data, before, p).value, u, v),
                      if v == p && Reads(data, d, p, u) then Some(if d.required then RESULT_OK else RESULT_ALL) else None)
  {
    var before, d := input[..|input| - 1], input[|input| - 1];
    InputImplicit(data, d, p, u, v);
    FirstImplicitAppend(InputCalls(data, before, p).value, DataCalls(data, d, Ids(d), p).value, u, v);
  }

  lemma ReadsSplit(data: map<DataKey, Id>, input: seq<Input>, p: Id, u: Id)
    requires input != []
    ensures ReadsAny(data, input, p, u) <==>
            ReadsAny(data, input[..|input| - 1], p, u) || Reads(data, input[|input| - 1], p, u)
  {
    var before := input[..|input| - 1];
    if i :| 0 <= i < |before| && Reads(data, before[i], p, u) {
      assert Reads(data, input[i], p, u);
    }
    if i :| 0 <= i < |input| && Reads(data, input[i], p, u) {
      assert i < |before| ==> Reads(data, before[i], p, u);
    }
  }

  lemma {:induction false} InputsImplicit(data: map<DataKey, Id>, input: seq<Input>, p: Id, u: Id, v: Id)
    requires InputCalls(data, input, p).Some?
    ensures FirstImplicit(InputCalls(data, input, p).value, u, v).Some? <==> v == p && ReadsAny(data, input, p, u)
  {
    if input != [] {
      InputsSplit(data, input, p, u, v);
      ReadsSplit(data, input, p, u);
      InputsImplicit(data, input[..|input| - 1], p, u, v);
    }
  }

  /** The first reader decides. */
  lemma {:induction false} FirstReaderDecides(data: map<DataKey, Id>, input: seq<Input>, p: Id, u: Id, i: nat)
    requires InputCalls(data, input, p).Some? && FirstReader(data, input, p, u, i)
    ensures FirstImplicit(InputCalls(data, input, p).value, u, p) == Some(if input[i].required then RESULT_OK else RESULT_ALL)
  {
    var before := input[..|input| - 1];
    InputsSplit(data, input, p, u, p);
    if i < |before| {
      assert FirstReader(data, before, p, u, i);
      FirstReaderDecides(data, before, p, u, i);
    } else {
      assert !ReadsAny(data, before, p, u);
      InputsImplicit(data, before, p, u, p);
    }
  }

  // ---------------------------------------------------------------- the calls of a vertex

  lemma {:induction false} NamesAreExplicit(known: set<Id>, names: seq<Id>, p: Id, e: int, dep: bool, u: Id, v: Id)
    requires NamedCalls(known, names, p, e, dep).Some?
    ensures FirstImplicit(NamedCalls(known, names, p, e, dep).value, u, v).None?
  {
    if names != [] {
      var before, x := names[..|names| - 1], names[|names| - 1];
      NamesAreExplicit(known, before, p, e, dep, u, v);
      FirstImplicitAppend(NamedCalls(known, before, p, e, dep).value,
                          [if dep then Call(x, p, e, false) else Call(p, x, e, false)], u, v);
    }
  }

  lemma ImplicitAppend(a: Option<seq<Call>>, b: Option<seq<Call>>, u: Id, v: Id)
    requires Append(a, b).Some?
    ensures FirstImplicit(Append(a, b).value, u, v) == OrElse(FirstImplicit(a.value, u, v), FirstImplicit(b.value, u, v))
  {
    FirstImplicitAppend(a.value, b.value, u, v);
  }

  lemma DepsAreExplicit(known: set<Id>, n: Vertex, u: Id, v: Id)
    requires DepCalls(known, n).Some?
    ensures FirstImplicit(DepCalls(known, n).value, u, v).None?
  {
    var a, b, c := NamedCalls(known, n.depsOnErr, n.id, RESULT_ERR, true),
                   NamedCalls(known, n.depsOnOk, n.id, RESULT_OK, true), NamedCalls(known, n.deps, n.id, RESULT_ALL, true);
    NamesAreExplicit(known, n.depsOnErr, n.id, RESULT_ERR, true, u, v);
    NamesAreExplicit(known, n.depsOnOk, n.id, RESULT_OK, true, u, v);
    NamesAreExplicit(known, n.deps, n.id, RESULT_ALL, true, u, v);
    ImplicitAppend(a, b, u, v);
    ImplicitAppend(Append(a, b), c, u, v);
  }

  lemma SuccessorsAreExplicit(known: set<Id>, n: Vertex, u: Id, v: Id)
    requires SuccessorCalls(known, n).Some?
    ensures FirstImplicit(SuccessorCalls(known, n).value, u, v).None?
  {
    var a, b, c := NamedCalls(known, n.orElse + n.successorOnErr, n.id, RESULT_ERR, false),
                   NamedCalls(known, n.orIf + n.successorOnOk, n.id, RESULT_OK, false),
                   NamedCalls(known, n.successor, n.id, RESULT_ALL, false);
    NamesAreExplicit(known, n.orElse + n.successorOnErr, n.id, RESULT_ERR, false, u, v);
    NamesAreExplicit(known, n.orIf + n.successorOnOk, n.id, RESULT_OK, false, u, v);
    NamesAreExplicit(known, n.successor, n.id, RESULT_ALL, false, u, v);
    ImplicitAppend(a, b, u, v);
    ImplicitAppend(Append(a, b), c, u, v);
  }

  /** What a vertex asks of u → v explicitly, and for data. */
  lemma VertexAsks(known: set<Id>, data: map<DataKey, Id>, n: Vertex, u: Id, v: Id)
    requires VertexCalls(known, data, n).Some?
    ensures var calls := VertexCalls(known, data, n).value;
            && (LastExplicit(calls, u, v).Some? <==> (v == n.id && NamesDep(n, u)) || (u == n.id && NamesSuccessor(n, v)))
            && FirstImplicit(calls, u, v) == FirstImplicit(InputCalls(data, n.input, n.id).value, u, v)
  {
    var a, b, c := InputCalls(data, n.input, n.id), DepCalls(known, n), SuccessorCalls(known, n);
    InputsAreImplicit(data, n.input, n.id, u, v);
    DepsExplicit(known, n, u, v);
    SuccessorsExplicit(known, n, u, v);
    ExplicitAppend(a, b, u, v);
    ExplicitAppend(Append(a, b), c, u, v);
    DepsAreExplicit(known, n, u, v);
    SuccessorsAreExplicit(known, n, u, v);
    ImplicitAppend(a, b, u, v);
    ImplicitAppend(Append(a, b), c, u, v);
  }

  /** After any order, what is asked of a pair is what some vertex asks. */
  lemma {:induction false} AskedBySome(asks: Asks, order: seq<Id>, u: Id, v: Id)
    requires forall i :: 0 <= i < |order| ==> order[i] in asks
    ensures LastExplicit(Calls(asks, order), u, v).Some? <==>
            exists i :: 0 <= i < |order| && LastExplicit(asks[order[i]], u, v).Some?
    ensures FirstImplicit(Calls(asks, order), u, v).Some? <==>
            exists i :: 0 <= i < |order| && FirstImplicit(asks[order[i]], u, v).Some?
  {
    if order != [] {
      var before, p := order[..|order| - 1], order[|order| - 1];
      AskedBySome(asks, before, u, v);
      LastExplicitAppend(Calls(asks, before), asks[p], u, v);
      FirstImplicitAppend(Calls(asks, before), asks[p], u, v);
      assert forall i :: 0 <= i < |before| ==> order[i] == before[i];
      assert order[|before|] == p;
    }
  }

  /** Only the two ends ask. */
  lemma AskedByEnds(asks: Asks, order: seq<Id>, u: Id, v: Id)
    requires Own(asks) && IsOrder(asks, order) && u in asks && v in asks
    ensures Final(Calls(asks, order), u, v).Some? <==>
            LastExplicit(asks[u], u, v).Some? || LastExplicit(asks[v], u, v).Some? || FirstImplicit(asks[v], u, v).Some?
  {
    FinalIs(Calls(asks, order), u, v);
    AskedBySome(asks, order, u, v);
    forall i | 0 <= i < |order|
      ensures order[i] != u && order[i] != v ==> LastExplicit(asks[order[i]], u, v).None?
      ensures order[i] != v ==> FirstImplicit(asks[order[i]], u, v).None?
    {
      SilentVertex(asks[order[i]], order[i], u, v);
    }
    assert u in order && v in order;
  }

  // ---------------------------------------------------------------- the edges of a build

  ghost predicate BuiltIn(vertices: map<Id, Vertex>, data: map<DataKey, Id>, order: seq<Id>) {
    Entered(vertices, data) && Resolves(vertices, data) && IsOrder(AsksOf(vertices, data), order)
  }

  /** The links that a build in this order leaves behind. */
  ghost predicate IsBuild(vertices: map<Id, Vertex>, data: map<DataKey, Id>, order: seq<Id>, t: Table) {
    && BuiltIn(vertices, data, order) && AllKnown(Empty(vertices.Keys), Calls(AsksOf(vertices, data), order))
    && t == DependAll(Empty(vertices.Keys), Calls(AsksOf(vertices, data), order))
  }

  lemma CallsAreKnown(vertices: map<Id, Vertex>, data: map<DataKey, Id>, order: seq<Id>)
    requires BuiltIn(vertices, data, order)
    ensures AllKnown(Empty(vertices.Keys), Calls(AsksOf(vertices, data), order))
  {
    AsksAreOwn(vertices, data);
    AllCallsKnown(vertices.Keys, AsksOf(vertices, data), order);
  }

  /** What vertex p asks of the pair. */
  lemma AskIs(vertices: map<Id, Vertex>, data: map<DataKey, Id>, p: Id, u: Id, v: Id)
    requires Entered(vertices, data) && Resolves(vertices, data) && p in vertices
    ensures InputCalls(data, vertices[p].input, p).Some?
    ensures var n, calls := vertices[p], AsksOf(vertices, data)[p];
            && (LastExplicit(calls, u, v).Some? <==> (v == p && NamesDep(n, u)) || (u == p && NamesSuccessor(n, v)))
            && (FirstImplicit(calls, u, v).Some? <==> v == p && ReadsAny(data, n.input, p, u))
            && FirstImplicit(calls, u, v) == FirstImplicit(InputCalls(data, n.input, p).value, u, v)
  {
    assert AskOf(vertices, data, p).Some?;
    VertexAsks(vertices.Keys, data, vertices[p], u, v);
    InputsImplicit(data, vertices[p].input, p, u, v);
  }

  /** After a build in any order u → v is an edge exactly if one of its ends names the other, or v reads a datum of u,
      its own plain in-out data excepted; and then both ends know it. */
  lemma EdgeIffDeclared(vertices: map<Id, Vertex>, data: map<DataKey, Id>, order: seq<Id>, u: Id, v: Id)
    requires BuiltIn(vertices, data, order) && u in vertices && v in vertices
    ensures AllKnown(Empty(vertices.Keys), Calls(AsksOf(vertices, data), order))
    ensures var t := DependAll(Empty(vertices.Keys), Calls(AsksOf(vertices, data), order));
            && (u in t[v].idx <==>
                  NamesDep(vertices[v], u) || NamesSuccessor(vertices[u], v) || ReadsAny(data, vertices[v].input, v, u))
            && (v in t[u].succ <==> u in t[v].idx)
  {
    var asks := AsksOf(vertices, data);
    CallsAreKnown(vertices, data, order);
    AsksAreOwn(vertices, data);
    PairFinal(vertices.Keys, Calls(asks, order), u, v);
    AskedByEnds(asks, order, u, v);
    AskIs(vertices, data, u, u, v);
    AskIs(vertices, data, v, u, v);
  }

  /** An edge that only data ask for expects success if the first input that reads a datum of u is required, and any
      result otherwise, in every build order. */
  lemma DataEdgeExpects(vertices: map<Id, Vertex>, data: map<DataKey, Id>, order: seq<Id>, u: Id, v: Id, i: nat)
    requires BuiltIn(vertices, data, order) && u in vertices && v in vertices && u != v
    requires !NamesDep(vertices[v], u) && !NamesSuccessor(vertices[u], v)
    requires FirstReader(data, vertices[v].input, v, u, i)
    ensures AllKnown(Empty(vertices.Keys), Calls(AsksOf(vertices, data), order))
    ensures PairIs(DependAll(Empty(vertices.Keys), Calls(AsksOf(vertices, data), order)), u, v,
                   Some(if vertices[v].input[i].required then RESULT_OK else RESULT_ALL))
  {
    var asks := AsksOf(vertices, data);
    CallsAreKnown(vertices, data, order);
    AsksAreOwn(vertices, data);
    PairFinal(vertices.Keys, Calls(asks, order), u, v);
    FinalInOrder(asks, order, u, v);
    AskIs(vertices, data, u, u, v);
    AskIs(vertices, data, v, u, v);
    FirstReaderDecides(data, vertices[v].input, v, u, i);
  }

  // ---------------------------------------------------------------- what is accepted

  ghost predicate Declared(vertices: map<Id, Vertex>, data: map<DataKey, Id>, u: Id, v: Id) {
    && u in vertices && v in vertices
    && (NamesDep(vertices[v], u) || NamesSuccessor(vertices[u], v) || ReadsAny(data, vertices[v].input, v, u))
  }

  ghost function DeclaredEdges(vertices: map<Id, Vertex>, data: map<DataKey, Id>): set<(Id, Id)> {
    set u, v | u in vertices && v in vertices && Declared(vertices, data, u, v) :: (u, v)
  }

  /** A vertex that is no condition waits for nobody if it is marked as start, and is linked to something otherwise. */
  ghost predicate Placed(vertices: map<Id, Vertex>, data: map<DataKey, Id>, p: Id)
    requires p in vertices
  {
    vertices[p].cond != "" ||
    if vertices[p].start then forall u :: !Declared(vertices, data, u, p)
    else exists u :: Declared(vertices, data, u, p) || Declared(vertices, data, p, u)
  }

  lemma KeysStay(ids: set<Id>, calls: seq<Call>)
    requires AllKnown(Empty(ids), calls)
    ensures DependAll(Empty(ids), calls).Keys == ids
  {
    assert Empty(ids).Keys == ids;
  }

  lemma EndsAreVertices(vertices: map<Id, Vertex>, data: map<DataKey, Id>, order: seq<Id>, t: Table)
    requires IsBuild(vertices, data, order, t)
    ensures t.Keys == vertices.Keys
    ensures forall p :: p in vertices ==> t[p].succ <= vertices.Keys && t[p].idx.Keys <= vertices.Keys && Dense(t[p])
  {
    KeysStay(vertices.Keys, Calls(AsksOf(vertices, data), order));
    SuccessorsInside(vertices.Keys, Calls(AsksOf(vertices, data), order));
    DependenciesInside(vertices.Keys, Calls(AsksOf(vertices, data), order));
    BuiltDense(vertices.Keys, Calls(AsksOf(vertices, data), order));
  }

  lemma {:induction false} DependenciesInside(ids: set<Id>, calls: seq<Call>)
    requires AllKnown(Empty(ids), calls)
    ensures forall p :: p in ids ==> DependAll(Empty(ids), calls)[p].idx.Keys <= ids
  {
    if calls != [] {
      DependenciesInside(ids, calls[..|calls| - 1]);
    }
  }

  /** The links are those that the declaration asks for, at both ends. */
  ghost predicate LinksDeclared(vertices: map<Id, Vertex>, data: map<DataKey, Id>, t: Table) {
    && t.Keys == vertices.Keys
    && (forall p :: p in vertices ==> t[p].succ <= vertices.Keys && t[p].idx.Keys <= vertices.Keys && Dense(t[p]))
    && (forall u, v :: u in vertices && v in vertices ==> LinkDeclared(vertices, data, t, u, v))
  }

  ghost predicate LinkDeclared(vertices: map<Id, Vertex>, data: map<DataKey, Id>, t: Table, u: Id, v: Id)
    requires u in t && v in t
  {
    (v in t[u].succ <==> Declared(vertices, data, u, v)) && (u in t[v].idx <==> Declared(vertices, data, u, v))
  }

  lemma LinksAreDeclared(vertices: map<Id, Vertex>, data: map<DataKey, Id>, order: seq<Id>, t: Table)
    requires IsBuild(vertices, data, order, t)
    ensures LinksDeclared(vertices, data, t)
  {
    EndsAreVertices(vertices, data, order, t);
    PairsAreDeclared(vertices, data, order, t);
  }

  lemma PairsAreDeclared(vertices: map<Id, Vertex>, data: map<DataKey, Id>, order: seq<Id>, t: Table)
    requires IsBuild(vertices, data, order, t) && t.Keys == vertices.Keys
    ensures forall u, v :: u in vertices && v in vertices ==> LinkDeclared(vertices, data, t, u, v)
  {
    forall u, v | u in vertices && v in vertices
      ensures LinkDeclared(vertices, data, t, u, v)
    {
      PairIsDeclared(vertices, data, order, t, u, v);
    }
  }

  lemma PairIsDeclared(vertices: map<Id, Vertex>, data: map<DataKey, Id>, order: seq<Id>, t: Table, u: Id, v: Id)
    requires IsBuild(vertices, data, order, t) && u in vertices && v in vertices
    ensures LinkDeclared(vertices, data, t, u, v)
  {
    EdgeIffDeclared(vertices, data, order, u, v);
  }

  lemma DeclaredEdgesAre(vertices: map<Id, Vertex>, data: map<DataKey, Id>, t: Table)
    requires LinksDeclared(vertices, data, t)
    ensures GoSearch.EdgesOf(SuccessorsOf(t)) == DeclaredEdges(vertices, data)
  {
    var succ := SuccessorsOf(t);
    forall u, v
      ensures (u, v) in GoSearch.EdgesOf(succ) <==> (u, v) in DeclaredEdges(vertices, data)
    {
      assert (u, v) in GoSearch.EdgesOf(succ) <==> u in succ && v in succ[u];
      assert u in vertices && v in vertices ==> LinkDeclared(vertices, data, t, u, v);
    }
  }

  lemma VerifiedIff(vertices: map<Id, Vertex>, data: map<DataKey, Id>, p: Id, x: GoLinks)
    requires p in vertices && vertices[p].cond == "" && Dense(x) && x.succ <= vertices.Keys && x.idx.Keys <= vertices.Keys
    requires forall v :: v in vertices ==> (v in x.succ <==> Declared(vertices, data, p, v))
    requires forall u :: u in vertices ==> (u in x.idx <==> Declared(vertices, data, u, p))
    ensures Verified(vertices[p], x) <==> Placed(vertices, data, p)
  {
    assert x.expected == [] <==> x.idx == map[];
    if x.idx != map[] {
      var u :| u in x.idx;
      assert Declared(vertices, data, u, p);
    }
    if x.succ != {} {
      var v :| v in x.succ;
      assert Declared(vertices, data, p, v);
    }
  }

  /** The edges that the cycle test sees and the verification of every vertex, as the declaration gives them, whatever
      the build order. */
  lemma AcceptedIff(vertices: map<Id, Vertex>, data: map<DataKey, Id>, order: seq<Id>, t: Table)
    requires IsBuild(vertices, data, order, t)
    ensures GoSearch.EdgesOf(SuccessorsOf(t)) == DeclaredEdges(vertices, data)
    ensures AllVerified(vertices, t) <==> forall p :: p in vertices ==> Placed(vertices, data, p)
  {
    LinksAreDeclared(vertices, data, order, t);
    DeclaredEdgesAre(vertices, data, t);
    forall p | p in vertices && vertices[p].cond == ""
      ensures Verified(vertices[p], t[p]) <==> Placed(vertices, data, p)
    {
      forall q | q in vertices
        ensures LinkDeclared(vertices, data, t, p, q) && LinkDeclared(vertices, data, t, q, p)
      {
      }
      VerifiedIff(vertices, data, p, t[p]);
    }
  }

  // ---------------------------------------------------------------- what resolves

  lemma {:induction false} NamesResolve(known: set<Id>, names: seq<Id>, p: Id, e: int, dep: bool)
    ensures NamedCalls(known, names, p, e, dep).Some? <==> forall x :: x in names ==> x in known
  {
    if names != [] {
      NamesResolve(known, names[..|names| - 1], p, e, dep);
      assert names == names[..|names| - 1] + [names[|names| - 1]];
    }
  }

  /** Every datum that the input refers to has a producer, unless it is extern. */
  ghost predicate HasData(data: map<DataKey, Id>, d: Input) {
    d.isExtern || forall id :: RefersTo(d, id) ==> KeyOf(d, id) in data
  }

  lemma {:induction false} DataResolve(data: map<DataKey, Id>, d: Input, ids: seq<string>, p: Id)
    ensures DataCalls(data, d, ids, p).Some? <==> d.isExtern || forall id :: id in ids ==> KeyOf(d, id) in data
  {
    if ids != [] {
      DataResolve(data, d, ids[..|ids| - 1], p);
      assert ids == ids[..|ids| - 1] + [ids[|ids| - 1]];
      assert DatumCall(data, d, ids[|ids| - 1], p).Some? <==> d.isExtern || KeyOf(d, ids[|ids| - 1]) in data;
    }
  }

  lemma InputResolves(data: map<DataKey, Id>, d: Input, p: Id)
    ensures DataCalls(data, d, Ids(d), p).Some? <==> HasData(data, d)
  {
    DataResolve(data, d, Ids(d), p);
    forall id
      ensures id in Ids(d) <==> RefersTo(d, id)
    {
      IdsRefer(d, id);
    }
  }

  lemma {:induction false} InputsResolve(data: map<DataKey, Id>, input: seq<Input>, p: Id)
    ensures InputCalls(data, input, p).Some? <==> forall d :: d in input ==> HasData(data, d)
  {
    if input != [] {
      InputsResolve(data, input[..|input| - 1], p);
      InputResolves(data, input[|input| - 1], p);
      assert input == input[..|input| - 1] + [input[|input| - 1]];
    }
  }

  lemma VertexResolves(known: set<Id>, data: map<DataKey, Id>, n: Vertex)
    ensures VertexCalls(known, data, n).Some? <==>
            && n.selectsKnown && (forall x :: NamesDep(n, x) || NamesSuccessor(n, x) ==> x in known)
            && forall d :: d in n.input ==> HasData(data, d)
  {
    InputsResolve(data, n.input, n.id);
    NamesResolve(known, n.depsOnErr, n.id, RESULT_ERR, true);
    NamesResolve(known, n.depsOnOk, n.id, RESULT_OK, true);
    NamesResolve(known, n.deps, n.id, RESULT_ALL, true);
    NamesResolve(known, n.orElse + n.successorOnErr, n.id, RESULT_ERR, false);
    NamesResolve(known, n.orIf + n.successorOnOk, n.id, RESULT_OK, false);
    NamesResolve(known, n.successor, n.id, RESULT_ALL, false);
  }

  /** All names and data resolve exactly if every select argument and every name is known, and every datum that is not
      extern has a producer. */
  lemma ResolvesIff(vertices: map<Id, Vertex>, data: map<DataKey, Id>)
    ensures Resolves(vertices, data) <==>
            forall p :: p in vertices ==>
              && vertices[p].selectsKnown
              && (forall x :: NamesDep(vertices[p], x) || NamesSuccessor(vertices[p], x) ==> x in vertices)
              && forall d :: d in vertices[p].input ==> HasData(data, d)
  {
    forall p | p in vertices
      ensures AskOf(vertices, data, p).Some? <==>
              && vertices[p].selectsKnown
              && (forall x :: NamesDep(vertices[p], x) || NamesSuccessor(vertices[p], x) ==> x in vertices)
              && forall d :: d in vertices[p].input ==> HasData(data, d)
    {
      VertexResolves(vertices.Keys, data, vertices[p]);
    }
  }
}
