/** `Graph.build` of the Go compiler from its vertex map on: link every vertex, in any order, and reject cycles. */
module GoGraph {
  import opened Options
  import opened Digraph
  import opened GoDepend
  import opened GoResults
  import GoSearch

  datatype DataKey = DataKey(name: string, typeName: string, typeKind: int)

  datatype Input = Input(id: string, aggregate: seq<string>, isMap: bool, typeName: string, typeKind: int,
                         required: bool, isExtern: bool, isInOut: bool)

  /** A vertex after its operator's fields are filled in.  `selectsKnown`: every select argument that is not an
      expression names a config setting. */
  datatype Vertex = Vertex(
    id: Id, start: bool, cond: string, selectsKnown: bool, input: seq<Input>,
    depsOnErr: seq<Id>, depsOnOk: seq<Id>, deps: seq<Id>,
    orElse: seq<Id>, successorOnErr: seq<Id>, orIf: seq<Id>, successorOnOk: seq<Id>, successor: seq<Id>)

  /** Each vertex is entered under its own id, and the data table names vertices. */
  predicate Entered(vertices: map<Id, Vertex>, data: map<DataKey, Id>) {
    (forall x :: x in vertices ==> vertices[x].id == x) && forall k :: k in data ==> data[k] in vertices
  }

  // ---------------------------------------------------------------- the calls of one vertex

  function Ids(d: Input): seq<string> {
    if d.aggregate == [] && !d.isMap then [d.id] else d.aggregate
  }

  function Mask(d: Input): int {
    if d.required then RESULT_OK else RESULT_ALL
  }

  /** The call for one datum; a vertex reads its own in-out datum without one. */
  function DatumCall(data: map<DataKey, Id>, d: Input, id: string, p: Id): Option<seq<Call>> {
    var key := DataKey(id, d.typeName, d.typeKind);
    if key !in data then (if d.isExtern then Some([]) else None)
    else if d.isInOut && d.aggregate == [] && !d.isMap && data[key] == p then Some([])
    else Some([Call(data[key], p, Mask(d), true)])
  }

  function DataCalls(data: map<DataKey, Id>, d: Input, ids: seq<string>, p: Id): Option<seq<Call>> {
    if ids == [] then Some([])
    else Append(DataCalls(data, d, ids[..|ids| - 1], p), DatumCall(data, d, ids[|ids| - 1], p))
  }

  function InputCalls(data: map<DataKey, Id>, input: seq<Input>, p: Id): Option<seq<Call>> {
    if input == [] then Some([])
    else Append(InputCalls(data, input[..|input| - 1], p), DataCalls(data, input[|input| - 1], Ids(input[|input| - 1]), p))
  }

  /** Named dependencies (`dep`) or successors of p. */
  function NamedCalls(known: set<Id>, names: seq<Id>, p: Id, e: int, dep: bool): Option<seq<Call>> {
    if names == [] then Some([])
    else if names[|names| - 1] !in known then None
    else
      var x := names[|names| - 1];
      Append(NamedCalls(known, names[..|names| - 1], p, e, dep), Some([if dep then Call(x, p, e, false) else Call(p, x, e, false)]))
  }

  function Append(a: Option<seq<Call>>, b: Option<seq<Call>>): Option<seq<Call>> {
    if a.Some? && b.Some? then Some(a.value + b.value) else None
  }

  function DepCalls(known: set<Id>, n: Vertex): Option<seq<Call>> {
    Append(Append(NamedCalls(known, n.depsOnErr, n.id, RESULT_ERR, true), NamedCalls(known, n.depsOnOk, n.id, RESULT_OK, true)),
           NamedCalls(known, n.deps, n.id, RESULT_ALL, true))
  }

  function SuccessorCalls(known: set<Id>, n: Vertex): Option<seq<Call>> {
    Append(Append(NamedCalls(known, n.orElse + n.successorOnErr, n.id, RESULT_ERR, false),
                  NamedCalls(known, n.orIf + n.successorOnOk, n.id, RESULT_OK, false)),
           NamedCalls(known, n.successor, n.id, RESULT_ALL, false))
  }

  /** `Vertex.build`: data first, then dependencies, then successors. */
  function VertexCalls(known: set<Id>, data: map<DataKey, Id>, n: Vertex): Option<seq<Call>> {
    if !n.selectsKnown then None
    else Append(Append(InputCalls(data, n.input, n.id), DepCalls(known, n)), SuccessorCalls(known, n))
  }

  function AskOf(vertices: map<Id, Vertex>, data: map<DataKey, Id>, p: Id): Option<seq<Call>>
    requires p in vertices
  {
    VertexCalls(vertices.Keys, data, vertices[p])
  }

  ghost predicate Resolves(vertices: map<Id, Vertex>, data: map<DataKey, Id>) {
    forall p :: p in vertices ==> AskOf(vertices, data, p).Some?
  }

  /** What every vertex asks for. */
  function AsksOf(vertices: map<Id, Vertex>, data: map<DataKey, Id>): Asks {
    map p | p in vertices :: if AskOf(vertices, data, p).Some? then AskOf(vertices, data, p).value else []
  }

  // ---------------------------------------------------------------- calls stay about their vertex

  ghost predicate About(calls: seq<Call>, known: set<Id>, p: Id) {
    forall i :: 0 <= i < |calls| ==>
      && (calls[i].to == p || calls[i].from == p) && (calls[i].implicit ==> calls[i].to == p)
      && calls[i].to in known && calls[i].from in known && IsExpectation(calls[i].expected)
  }

  lemma AboutAppend(a: Option<seq<Call>>, b: Option<seq<Call>>, known: set<Id>, p: Id)
    requires Append(a, b).Some? && About(a.value, known, p) && About(b.value, known, p)
    ensures About(Append(a, b).value, known, p)
  {
  }

  lemma {:induction false} NamedAbout(known: set<Id>, names: seq<Id>, p: Id, e: int, dep: bool)
    requires NamedCalls(known, names, p, e, dep).Some? && p in known && IsExpectation(e)
    ensures About(NamedCalls(known, names, p, e, dep).value, known, p)
  {
    if names != [] {
      NamedAbout(known, names[..|names| - 1], p, e, dep);
    }
  }

  lemma {:induction false} DataAbout(known: set<Id>, data: map<DataKey, Id>, d: Input, ids: seq<string>, p: Id)
    requires DataCalls(data, d, ids, p).Some? && p in known && forall k :: k in data ==> data[k] in known
    ensures About(DataCalls(data, d, ids, p).value, known, p)
  {
    if ids != [] {
      DataAbout(known, data, d, ids[..|ids| - 1], p);
    }
  }

  lemma {:induction false} InputsAbout(known: set<Id>, data: map<DataKey, Id>, input: seq<Input>, p: Id)
    requires InputCalls(data, input, p).Some? && p in known && forall k :: k in data ==> data[k] in known
    ensures About(InputCalls(data, input, p).value, known, p)
  {
    if input != [] {
      InputsAbout(known, data, input[..|input| - 1], p);
      DataAbout(known, data, input[|input| - 1], Ids(input[|input| - 1]), p);
    }
  }

  lemma DepsAbout(known: set<Id>, n: Vertex)
    requires DepCalls(known, n).Some? && n.id in known
    ensures About(DepCalls(known, n).value, known, n.id)
  {
    var a, b, c := NamedCalls(known, n.depsOnErr, n.id, RESULT_ERR, true),
                   NamedCalls(known, n.depsOnOk, n.id, RESULT_OK, true), NamedCalls(known, n.deps, n.id, RESULT_ALL, true);
    NamedAbout(known, n.depsOnErr, n.id, RESULT_ERR, true);
    NamedAbout(known, n.depsOnOk, n.id, RESULT_OK, true);
    NamedAbout(known, n.deps, n.id, RESULT_ALL, true);
    AboutAppend(a, b, known, n.id);
    AboutAppend(Append(a, b), c, known, n.id);
  }

  lemma SuccessorsAbout(known: set<Id>, n: Vertex)
    requires SuccessorCalls(known, n).Some? && n.id in known
    ensures About(SuccessorCalls(known, n).value, known, n.id)
  {
    var a, b, c := NamedCalls(known, n.orElse + n.successorOnErr, n.id, RESULT_ERR, false),
                   NamedCalls(known, n.orIf + n.successorOnOk, n.id, RESULT_OK, false),
                   NamedCalls(known, n.successor, n.id, RESULT_ALL, false);
    NamedAbout(known, n.orElse + n.successorOnErr, n.id, RESULT_ERR, false);
    NamedAbout(known, n.orIf + n.successorOnOk, n.id, RESULT_OK, false);
    NamedAbout(known, n.successor, n.id, RESULT_ALL, false);
    AboutAppend(a, b, known, n.id);
    AboutAppend(Append(a, b), c, known, n.id);
  }

  lemma VertexAbout(known: set<Id>, data: map<DataKey, Id>, n: Vertex)
    requires VertexCalls(known, data, n).Some? && n.id in known && forall k :: k in data ==> data[k] in known
    ensures About(VertexCalls(known, data, n).value, known, n.id)
  {
    var a, b, c := InputCalls(data, n.input, n.id), DepCalls(known, n), SuccessorCalls(known, n);
    InputsAbout(known, data, n.input, n.id);
    DepsAbout(known, n);
    SuccessorsAbout(known, n);
    AboutAppend(a, b, known, n.id);
    AboutAppend(Append(a, b), c, known, n.id);
  }

  /** So the theorems about build orders apply to what the vertices ask. */
  lemma AsksAreOwn(vertices: map<Id, Vertex>, data: map<DataKey, Id>)
    requires Entered(vertices, data)
    ensures Own(AsksOf(vertices, data))
    ensures forall p :: p in vertices ==> About(AsksOf(vertices, data)[p], vertices.Keys, p)
  {
    forall p | p in vertices
      ensures About(AsksOf(vertices, data)[p], vertices.Keys, p)
    {
      if AskOf(vertices, data, p).Some? {
        VertexAbout(vertices.Keys, data, vertices[p]);
      }
    }
  }

  // ---------------------------------------------------------------- folding calls

  lemma {:induction false} NamedPrefix(known: set<Id>, names: seq<Id>, p: Id, e: int, dep: bool, i: nat)
    requires i <= |names| && NamedCalls(known, names, p, e, dep).Some?
    ensures NamedCalls(known, names[..i], p, e, dep).Some?
  {
    if i < |names| {
      NamedPrefix(known, names[..|names| - 1], p, e, dep, i);
      assert names[..|names| - 1][..i] == names[..i];
    } else {
      assert names[..i] == names;
    }
  }

  lemma {:induction false} DataPrefix(data: map<DataKey, Id>, d: Input, ids: seq<string>, p: Id, i: nat)
    requires i <= |ids| && DataCalls(data, d, ids, p).Some?
    ensures DataCalls(data, d, ids[..i], p).Some?
  {
    if i < |ids| {
      DataPrefix(data, d, ids[..|ids| - 1], p, i);
      assert ids[..|ids| - 1][..i] == ids[..i];
    } else {
      assert ids[..i] == ids;
    }
  }

  /** One more datum; a datum without a call fails the whole list. */
  lemma DataStep(data: map<DataKey, Id>, d: Input, ids: seq<string>, p: Id, i: nat)
    requires i < |ids|
    ensures DataCalls(data, d, ids[..i + 1], p) == Append(DataCalls(data, d, ids[..i], p), DatumCall(data, d, ids[i], p))
    ensures DatumCall(data, d, ids[i], p).None? ==> DataCalls(data, d, ids, p).None?
  {
    assert ids[..i + 1][..i] == ids[..i];
    if DatumCall(data, d, ids[i], p).None? && DataCalls(data, d, ids, p).Some? {
      DataPrefix(data, d, ids, p, i + 1);
    }
  }

  lemma {:induction false} InputPrefix(data: map<DataKey, Id>, input: seq<Input>, p: Id, i: nat)
    requires i <= |input| && InputCalls(data, input, p).Some?
    ensures InputCalls(data, input[..i], p).Some?
  {
    if i < |input| {
      InputPrefix(data, input[..|input| - 1], p, i);
      assert input[..|input| - 1][..i] == input[..i];
    } else {
      assert input[..i] == input;
    }
  }

  /** A vertex is a start vertex without dependencies, or is linked to something. */
  predicate Verified(n: Vertex, x: GoLinks) {
    if n.start then x.expected == [] else !(x.expected == [] && x.succ == {})
  }

  ghost predicate AllVerified(vertices: map<Id, Vertex>, links: Table)
    requires vertices.Keys <= links.Keys
  {
    forall p :: p in vertices && vertices[p].cond == "" ==> Verified(vertices[p], links[p])
  }

  function SuccessorsOf(links: Table): map<Id, set<Id>> {
    map p | p in links :: links[p].succ
  }

  lemma CallsGrow(asks: Asks, order: seq<Id>, p: Id)
    requires p in asks && forall i :: 0 <= i < |order| ==> order[i] in asks
    ensures (forall i :: 0 <= i < |order + [p]| ==> (order + [p])[i] in asks)
    ensures Calls(asks, order + [p]) == Calls(asks, order) + asks[p]
  {
    assert (order + [p])[..|order|] == order;
  }

  lemma OneMoreCall(ids: set<Id>, calls: seq<Call>, c: Call)
    requires AllKnown(Empty(ids), calls) && c.from in ids && c.to in ids
    ensures AllKnown(Empty(ids), calls + [c])
    ensures DependAll(Empty(ids), calls + [c]) == GoDepend.Depend(DependAll(Empty(ids), calls), c)
  {
    assert (calls + [c])[..|calls|] == calls;
  }

  lemma Extend(s: seq<Call>, a: seq<Call>, b: seq<Call>)
    ensures (s + a) + b == s + (a + b)
  {
  }

  lemma Associate(s: seq<Call>, a: seq<Call>, b: seq<Call>, c: seq<Call>)
    ensures ((s + a) + b) + c == s + ((a + b) + c)
  {
  }

  class Graph {
    const vertices: map<Id, Vertex>
    const data: map<DataKey, Id>
    var links: Table
    ghost var calls: seq<Call>

    constructor (vertices: map<Id, Vertex>, data: map<DataKey, Id>)
      requires Entered(vertices, data)
      ensures this.vertices == vertices && this.data == data && calls == [] && Valid()
    {
      this.vertices, this.data, links, calls := vertices, data, Empty(vertices.Keys), [];
    }

    /** The links are what the calls made so far leave behind. */
    ghost predicate Valid()
      reads this
    {
      && Entered(vertices, data)
      && AllKnown(Empty(vertices.Keys), calls) && links == DependAll(Empty(vertices.Keys), calls)
    }

    /** `to.depend(from, expected, implicit)`. */
    method Depend(to: Id, from: Id, expected: int, implicit: bool)
      requires Valid() && to in vertices && from in vertices
      modifies this
      ensures Valid() && calls == old(calls) + [Call(from, to, expected, implicit)]
      ensures links == GoDepend.Depend(old(links), Call(from, to, expected, implicit))
    {
      BuiltDense(vertices.Keys, calls);
      OneMoreCall(vertices.Keys, calls, Call(from, to, expected, implicit));
      Record(to, from, expected, implicit);
      calls := calls + [Call(from, to, expected, implicit)];
    }

    method Record(to: Id, from: Id, expected: int, implicit: bool)
      requires to in links && from in links && Dense(links[to])
      modifies this`links
      ensures links == GoDepend.Depend(old(links), Call(from, to, expected, implicit))
    {
      var x := links[to];
      if implicit {
        if from in x.idx {
          return;
        }
      } else if from in x.idx {
        links := links[to := x.(expected := x.expected[x.idx[from] := expected])];
        links := links[from := links[from].(succ := links[from].succ + {to})];
        return;
      }
      links := links[to := x.(idx := x.idx[from := |x.expected|], expected := x.expected + [expected])];
      links := links[from := links[from].(succ := links[from].succ + {to})];
    }

    /** `buildDeps` (dep) and `buildSuccessor`. */
    method BuildNamed(p: Id, names: seq<Id>, e: int, dep: bool) returns (ok: bool)
      requires Valid() && p in vertices
      modifies this
      ensures Valid() && (ok <==> NamedCalls(vertices.Keys, names, p, e, dep).Some?)
      ensures ok ==> calls == old(calls) + NamedCalls(vertices.Keys, names, p, e, dep).value
    {
      for i := 0 to |names|
        invariant Valid() && NamedCalls(vertices.Keys, names[..i], p, e, dep).Some?
        invariant calls == old(calls) + NamedCalls(vertices.Keys, names[..i], p, e, dep).value
      {
        assert names[..i + 1][..i] == names[..i];
        if names[i] !in vertices {
          if NamedCalls(vertices.Keys, names, p, e, dep).Some? {
            NamedPrefix(vertices.Keys, names, p, e, dep, i + 1);
          }
          return false;
        }
        ghost var sofar := NamedCalls(vertices.Keys, names[..i], p, e, dep).value;
        if dep {
          Depend(p, names[i], e, false);
        } else {
          Depend(names[i], p, e, false);
        }
        Extend(old(calls), sofar, [if dep then Call(names[i], p, e, false) else Call(p, names[i], e, false)]);
      }
      assert names[..|names|] == names;
      return true;
    }

    method BuildDatum(p: Id, d: Input, id: string) returns (ok: bool)
      requires Valid() && p in vertices
      modifies this
      ensures Valid() && (ok <==> DatumCall(data, d, id, p).Some?)
      ensures ok ==> calls == old(calls) + DatumCall(data, d, id, p).value
    {
      var key := DataKey(id, d.typeName, d.typeKind);
      if key !in data {
        return d.isExtern;
      }
      if !(d.isInOut && d.aggregate == [] && !d.isMap && data[key] == p) {
        Depend(p, data[key], Mask(d), true);
      }
      return true;
    }

    method BuildData(p: Id, d: Input, ids: seq<string>) returns (ok: bool)
      requires Valid() && p in vertices
      modifies this
      ensures Valid() && (ok <==> DataCalls(data, d, ids, p).Some?)
      ensures ok ==> calls == old(calls) + DataCalls(data, d, ids, p).value
    {
      ghost var sofar := DataCalls(data, d, [], p);
      for i := 0 to |ids|
        invariant Valid() && sofar == DataCalls(data, d, ids[..i], p) && sofar.Some? && calls == old(calls) + sofar.value
      {
        DataStep(data, d, ids, p, i);
        ghost var call := DatumCall(data, d, ids[i], p);
        ok := BuildDatum(p, d, ids[i]);
        if !ok {
          return;
        }
        Extend(old(calls), sofar.value, call.value);
        sofar := Append(sofar, call);
      }
      assert ids[..|ids|] == ids;
      return true;
    }

    method BuildInput(p: Id, d: Input) returns (ok: bool)
      requires Valid() && p in vertices
      modifies this
      ensures Valid() && (ok <==> DataCalls(data, d, Ids(d), p).Some?)
      ensures ok ==> calls == old(calls) + DataCalls(data, d, Ids(d), p).value
    {
      ok := BuildData(p, d, Ids(d));
    }

    method BuildInputs(p: Id, input: seq<Input>) returns (ok: bool)
      requires Valid() && p in vertices
      modifies this
      ensures Valid() && (ok <==> InputCalls(data, input, p).Some?)
      ensures ok ==> calls == old(calls) + InputCalls(data, input, p).value
    {
      for i := 0 to |input|
        invariant Valid() && InputCalls(data, input[..i], p).Some?
        invariant calls == old(calls) + InputCalls(data, input[..i], p).value
      {
        assert input[..i + 1][..i] == input[..i];
        ghost var sofar := InputCalls(data, input[..i], p).value;
        ok := BuildInput(p, input[i]);
        if !ok {
          if InputCalls(data, input, p).Some? {
            InputPrefix(data, input, p, i + 1);
          }
          return;
        }
        Extend(old(calls), sofar, DataCalls(data, input[i], Ids(input[i]), p).value);
      }
      assert input[..|input|] == input;
      return true;
    }

    method BuildAllDeps(n: Vertex) returns (ok: bool)
      requires Valid() && n.id in vertices
      modifies this
      ensures Valid() && (ok <==> DepCalls(vertices.Keys, n).Some?)
      ensures ok ==> calls == old(calls) + DepCalls(vertices.Keys, n).value
    {
      ok := BuildNamed(n.id, n.depsOnErr, RESULT_ERR, true);
      if !ok { return; }
      ok := BuildNamed(n.id, n.depsOnOk, RESULT_OK, true);
      if !ok { return; }
      ok := BuildNamed(n.id, n.deps, RESULT_ALL, true);
      if !ok { return; }
      Associate(old(calls), NamedCalls(vertices.Keys, n.depsOnErr, n.id, RESULT_ERR, true).value,
                NamedCalls(vertices.Keys, n.depsOnOk, n.id, RESULT_OK, true).value,
                NamedCalls(vertices.Keys, n.deps, n.id, RESULT_ALL, true).value);
    }

    method BuildAllSuccessors(n: Vertex) returns (ok: bool)
      requires Valid() && n.id in vertices
      modifies this
      ensures Valid() && (ok <==> SuccessorCalls(vertices.Keys, n).Some?)
      ensures ok ==> calls == old(calls) + SuccessorCalls(vertices.Keys, n).value
    {
      ok := BuildNamed(n.id, n.orElse + n.successorOnErr, RESULT_ERR, false);
      if !ok { return; }
      ok := BuildNamed(n.id, n.orIf + n.successorOnOk, RESULT_OK, false);
      if !ok { return; }
      ok := BuildNamed(n.id, n.successor, RESULT_ALL, false);
      if !ok { return; }
      Associate(old(calls), NamedCalls(vertices.Keys, n.orElse + n.successorOnErr, n.id, RESULT_ERR, false).value,
                NamedCalls(vertices.Keys, n.orIf + n.successorOnOk, n.id, RESULT_OK, false).value,
                NamedCalls(vertices.Keys, n.successor, n.id, RESULT_ALL, false).value);
    }

    /** `Vertex.build`. */
    method BuildVertex(n: Vertex) returns (ok: bool)
      requires Valid() && n.id in vertices
      modifies this
      ensures Valid() && (ok <==> VertexCalls(vertices.Keys, data, n).Some?)
      ensures ok ==> calls == old(calls) + VertexCalls(vertices.Keys, data, n).value
    {
      if !n.selectsKnown {
        return false;
      }
      ok := BuildInputs(n.id, n.input);
      if !ok { return; }
      ok := BuildAllDeps(n);
      if !ok { return; }
      ok := BuildAllSuccessors(n);
      if !ok { return; }
      Associate(old(calls), InputCalls(data, n.input, n.id).value, DepCalls(vertices.Keys, n).value,
                SuccessorCalls(vertices.Keys, n).value);
    }

    /** The vertices of `order` have made their calls. */
    ghost predicate BuiltSoFar(order: seq<Id>)
      reads this
    {
      && Valid() && (forall i :: 0 <= i < |order| ==> order[i] in vertices && AskOf(vertices, data, order[i]).Some?)
      && (forall i, j :: 0 <= i < j < |order| ==> order[i] != order[j])
      && calls == Calls(AsksOf(vertices, data), order)
    }

    method BuildTurn(p: Id, ghost order: seq<Id>) returns (ok: bool)
      requires BuiltSoFar(order) && p in vertices && p !in order
      modifies this
      ensures Valid() && (ok <==> AskOf(vertices, data, p).Some?)
      ensures ok ==> BuiltSoFar(order + [p])
    {
      CallsGrow(AsksOf(vertices, data), order, p);
      ok := BuildVertex(vertices[p]);
    }

    /** The build loop over the vertex map, in whatever order it yields. */
    method BuildAll() returns (ok: bool, ghost order: seq<Id>)
      requires Valid() && calls == []
      modifies this
      ensures Valid() && (ok <==> Resolves(vertices, data))
      ensures ok ==> IsOrder(AsksOf(vertices, data), order) && BuiltSoFar(order)
    {
      var rest := vertices.Keys;
      order := [];
      while rest != {}
        invariant rest <= vertices.Keys && BuiltSoFar(order)
        invariant forall p :: p in order <==> p in vertices && p !in rest
        decreases rest
      {
        var p :| p in rest;
        ok := BuildTurn(p, order);
        if !ok {
          return;
        }
        rest := rest - {p};
        order := order + [p];
      }
      assert forall p :: p in vertices ==> p in order;
      ok := true;
    }

    method VerifyAll() returns (ok: bool)
      requires Valid()
      ensures ok <==> AllVerified(vertices, links)
    {
      var rest := vertices.Keys;
      while rest != {}
        invariant rest <= vertices.Keys
        invariant forall p :: p in vertices && p !in rest && vertices[p].cond == "" ==> Verified(vertices[p], links[p])
        decreases rest
      {
        var p :| p in rest;
        if vertices[p].cond == "" && !Verified(vertices[p], links[p]) {
          return false;
        }
        rest := rest - {p};
      }
      return true;
    }

    /** `build`: accepts exactly the nonempty graphs whose names resolve, whose vertices are linked as their
        start flags say, and whose successor edges have no cycle; the links are those of some build order. */
    method Build() returns (ok: bool, ghost order: seq<Id>)
      requires Valid() && calls == []
      modifies this
      ensures vertices != map[] && Resolves(vertices, data) ==> IsOrder(AsksOf(vertices, data), order) && BuiltSoFar(order)
      ensures Valid() && (ok <==> vertices != map[] && Resolves(vertices, data) && AllVerified(vertices, links)
                                  && Acyclic(GoSearch.EdgesOf(SuccessorsOf(links))))
    {
      order := [];
      if vertices == map[] {
        return false, order;
      }
      ok, order := BuildAll();
      if !ok {
        return;
      }
      ok := VerifyAll();
      if !ok {
        return;
      }
      SuccessorsInside(vertices.Keys, calls);
      var circle := GoSearch.TestCircle(SuccessorsOf(links));
      ok := !circle;
    }
  }

  // ---------------------------------------------------------------- what the declarations amount to

  /** What v's dependency lists ask of u, the list built last winning; and what u's successor lists ask of v. */
  function DepExpectation(n: Vertex, u: Id): Option<int> {
    if u in n.deps then Some(RESULT_ALL) else if u in n.depsOnOk then Some(RESULT_OK)
    else if u in n.depsOnErr then Some(RESULT_ERR) else None
  }

  function SuccessorExpectation(n: Vertex, v: Id): Option<int> {
    if v in n.successor then Some(RESULT_ALL) else if v in n.orIf + n.successorOnOk then Some(RESULT_OK)
    else if v in n.orElse + n.successorOnErr then Some(RESULT_ERR) else None
  }

  lemma {:induction false} NamedExplicit(known: set<Id>, names: seq<Id>, p: Id, e: int, dep: bool, u: Id, v: Id)
    requires NamedCalls(known, names, p, e, dep).Some?
    ensures LastExplicit(NamedCalls(known, names, p, e, dep).value, u, v) ==
            if (if dep then v == p && u in names else u == p && v in names) then Some(e) else None
  {
    if names != [] {
      var before, x := names[..|names| - 1], names[|names| - 1];
      NamedExplicit(known, before, p, e, dep, u, v);
      assert names == before + [x];
      LastExplicitAppend(NamedCalls(known, before, p, e, dep).value, [if dep then Call(x, p, e, false) else Call(p, x, e, false)], u, v);
    }
  }

  lemma {:induction false} DataIsImplicit(data: map<DataKey, Id>, d: Input, ids: seq<string>, p: Id, u: Id, v: Id)
    requires DataCalls(data, d, ids, p).Some?
    ensures LastExplicit(DataCalls(data, d, ids, p).value, u, v).None?
  {
    if ids != [] {
      DataIsImplicit(data, d, ids[..|ids| - 1], p, u, v);
      ExplicitAppend(DataCalls(data, d, ids[..|ids| - 1], p), DatumCall(data, d, ids[|ids| - 1], p), u, v);
    }
  }

  lemma {:induction false} InputsAreImplicit(data: map<DataKey, Id>, input: seq<Input>, p: Id, u: Id, v: Id)
    requires InputCalls(data, input, p).Some?
    ensures LastExplicit(InputCalls(data, input, p).value, u, v).None?
  {
    if input != [] {
      var before, d := input[..|input| - 1], input[|input| - 1];
      InputsAreImplicit(data, before, p, u, v);
      DataIsImplicit(data, d, Ids(d), p, u, v);
      LastExplicitAppend(InputCalls(data, before, p).value, DataCalls(data, d, Ids(d), p).value, u, v);
    }
  }

  lemma ExplicitAppend(a: Option<seq<Call>>, b: Option<seq<Call>>, u: Id, v: Id)
    requires Append(a, b).Some?
    ensures LastExplicit(Append(a, b).value, u, v) == OrElse(LastExplicit(b.value, u, v), LastExplicit(a.value, u, v))
  {
    LastExplicitAppend(a.value, b.value, u, v);
  }

  lemma DepsExplicit(known: set<Id>, n: Vertex, u: Id, v: Id)
    requires DepCalls(known, n).Some?
    ensures LastExplicit(DepCalls(known, n).value, u, v) == if v == n.id then DepExpectation(n, u) else None
  {
    var a, b, c := NamedCalls(known, n.depsOnErr, n.id, RESULT_ERR, true),
                   NamedCalls(known, n.depsOnOk, n.id, RESULT_OK, true), NamedCalls(known, n.deps, n.id, RESULT_ALL, true);
    NamedExplicit(known, n.depsOnErr, n.id, RESULT_ERR, true, u, v);
    NamedExplicit(known, n.depsOnOk, n.id, RESULT_OK, true, u, v);
    NamedExplicit(known, n.deps, n.id, RESULT_ALL, true, u, v);
    ExplicitAppend(a, b, u, v);
    ExplicitAppend(Append(a, b), c, u, v);
  }

  lemma SuccessorsExplicit(known: set<Id>, n: Vertex, u: Id, v: Id)
    requires SuccessorCalls(known, n).Some?
    ensures LastExplicit(SuccessorCalls(known, n).value, u, v) == if u == n.id then SuccessorExpectation(n, v) else None
  {
    var a, b, c := NamedCalls(known, n.orElse + n.successorOnErr, n.id, RESULT_ERR, false),
                   NamedCalls(known, n.orIf + n.successorOnOk, n.id, RESULT_OK, false),
                   NamedCalls(known, n.successor, n.id, RESULT_ALL, false);
    NamedExplicit(known, n.orElse + n.successorOnErr, n.id, RESULT_ERR, false, u, v);
    NamedExplicit(known, n.orIf + n.successorOnOk, n.id, RESULT_OK, false, u, v);
    NamedExplicit(known, n.successor, n.id, RESULT_ALL, false, u, v);
    ExplicitAppend(a, b, u, v);
    ExplicitAppend(Append(a, b), c, u, v);
  }

  lemma VertexExplicit(known: set<Id>, data: map<DataKey, Id>, n: Vertex, u: Id, v: Id)
    requires VertexCalls(known, data, n).Some? && u != v
    ensures LastExplicit(VertexCalls(known, data, n).value, u, v) ==
            if v == n.id then DepExpectation(n, u) else if u == n.id then SuccessorExpectation(n, v) else None
  {
    var a, b, c := InputCalls(data, n.input, n.id), DepCalls(known, n), SuccessorCalls(known, n);
    InputsAreImplicit(data, n.input, n.id, u, v);
    DepsExplicit(known, n, u, v);
    SuccessorsExplicit(known, n, u, v);
    ExplicitAppend(a, b, u, v);
    ExplicitAppend(Append(a, b), c, u, v);
  }

  lemma {:induction false} CallsKnown(ids: set<Id>, a: seq<Call>, b: seq<Call>, p: Id)
    requires AllKnown(Empty(ids), a) && About(b, ids, p)
    ensures AllKnown(Empty(ids), a + b)
  {
    if b == [] {
      assert a + b == a;
    } else {
      assert (a + b)[..|a + b| - 1] == a + b[..|b| - 1];
      CallsKnown(ids, a, b[..|b| - 1], p);
    }
  }

  lemma {:induction false} AllCallsKnown(ids: set<Id>, asks: Asks, order: seq<Id>)
    requires forall p :: p in asks ==> About(asks[p], ids, p)
    requires forall i :: 0 <= i < |order| ==> order[i] in asks
    ensures AllKnown(Empty(ids), Calls(asks, order))
  {
    if order != [] {
      AllCallsKnown(ids, asks, order[..|order| - 1]);
      CallsKnown(ids, Calls(asks, order[..|order| - 1]), asks[order[|order| - 1]], order[|order| - 1]);
    }
  }

  /** After a build in any order: u → v is linked if one of its ends names the other, and it expects what they
      name when they agree, whatever the data ask. */
  lemma ExplicitBeatsData(vertices: map<Id, Vertex>, data: map<DataKey, Id>, order: seq<Id>, u: Id, v: Id, e: int)
    requires Entered(vertices, data) && Resolves(vertices, data) && IsOrder(AsksOf(vertices, data), order)
    requires u in vertices && v in vertices && u != v
    requires var x, y := SuccessorExpectation(vertices[u], v), DepExpectation(vertices[v], u);
             (x == Some(e) && (y.None? || y == x)) || (y == Some(e) && x.None?)
    ensures var calls := Calls(AsksOf(vertices, data), order);
            && AllKnown(Empty(vertices.Keys), calls)
            && PairIs(DependAll(Empty(vertices.Keys), calls), u, v, Some(e))
  {
    var asks := AsksOf(vertices, data);
    AsksAreOwn(vertices, data);
    AllCallsKnown(vertices.Keys, asks, order);
    PairFinal(vertices.Keys, Calls(asks, order), u, v);
    assert AskOf(vertices, data, u).Some? && AskOf(vertices, data, v).Some?;
    VertexExplicit(vertices.Keys, data, vertices[u], u, v);
    VertexExplicit(vertices.Keys, data, vertices[v], u, v);
    ExplicitWins(asks, order, u, v, e);
  }

  /** Successors are vertices of the graph. */
  lemma {:induction false} SuccessorsInside(ids: set<Id>, calls: seq<Call>)
    requires AllKnown(Empty(ids), calls)
    ensures forall p :: p in ids ==> DependAll(Empty(ids), calls)[p].succ <= ids
  {
    if calls != [] {
      SuccessorsInside(ids, calls[..|calls| - 1]);
    }
  }
}
