/** How a processor's fields are filled before it runs: the loops behind the `inputs` and `injected` of a run's
    actions. */
module ProcessorInputs {
  import opened Options
  import opened Protocol
  import opened Determinism
  import opened Variables

  /** One input field: a datum, or an aggregate of several.  `registered`: the field has an index, which leads to
      the slot of its own name, whatever name is asked for. */
  datatype Field = Field(name: DataId, aggregate: seq<DataId>, required: bool, move: bool, registered: bool)

  /** One injection of a field: it looks in a slot of the graph's own table and then for a name elsewhere.
      `counts`: its outcome decides whether the field is filled. */
  datatype Try =
    | Try(slot: DataId, name: DataId, counts: bool, required: bool, move: bool)
    | Unresolved(required: bool)

  function TryName(f: Field, name: DataId, counts: bool): Try {
    Try(if f.registered then f.name else name, name, counts, f.required, f.move)
  }

  /** A variable among the ids of an aggregate is injected twice, by its value if it has one and by its own name,
      and only the second outcome counts. */
  function MemberTries(vars: Vars, f: Field, id: DataId): seq<Try> {
    (if IsVar(vars, id) && VarOf(vars, id) != "" then [TryName(f, VarOf(vars, id), false)] else [])
    + [TryName(f, id, true)]
  }

  function AggregateTries(vars: Vars, f: Field, ids: seq<DataId>): seq<Try> {
    if ids == [] then []
    else AggregateTries(vars, f, ids[..|ids| - 1]) + MemberTries(vars, f, ids[|ids| - 1])
  }

  function FieldTries(vars: Vars, f: Field): seq<Try> {
    if f.aggregate != [] then AggregateTries(vars, f, f.aggregate)
    else if !IsVar(vars, f.name) then [TryName(f, f.name, true)]
    else if VarOf(vars, f.name) != "" then [TryName(f, VarOf(vars, f.name), true)]
    else [Unresolved(f.required)]
  }

  function TriesOf(vars: Vars, fields: seq<Field>): seq<Try> {
    if fields == [] then [] else TriesOf(vars, fields[..|fields| - 1]) + FieldTries(vars, fields[|fields| - 1])
  }

  /** The graph's own table, and what the other contexts hold. */
  datatype World = World(table: map<DataId, Value>, extern: map<DataId, Value>)

  function Sees(w: World, t: Try): Option<Value> {
    if t.Unresolved? then None
    else if t.slot in w.table then Some(w.table[t.slot])
    else if t.name in w.extern then Some(w.extern[t.name]) else None
  }

  /** A moved datum is gone from where it was found. */
  function Leaves(w: World, t: Try): World {
    if t.Unresolved? || !t.move then w
    else if t.slot in w.table then w.(table := w.table - {t.slot})
    else w.(extern := w.extern - {t.name})
  }

  datatype Injection = Injection(values: seq<Option<Value>>, world: World)

  /** The tries in order, each in the world that the ones before it left. */
  function ReadTries(w: World, tries: seq<Try>): (o: Injection)
    ensures |o.values| == |tries|
  {
    if tries == [] then Injection([], w)
    else
      var o, t := ReadTries(w, tries[..|tries| - 1]), tries[|tries| - 1];
      Injection(o.values + [Sees(o.world, t)], Leaves(o.world, t))
  }

  predicate Fails(t: Try, value: Option<Value>) {
    t.required && (t.Unresolved? || t.counts) && value.None?
  }

  /** The first required input that is not found, or the number of tries. */
  ghost predicate FailsAt(w: World, tries: seq<Try>, j: nat) {
    && j < |tries| && Fails(tries[j], ReadTries(w, tries).values[j])
    && forall i :: 0 <= i < j ==> !Fails(tries[i], ReadTries(w, tries).values[i])
  }

  ghost predicate AllFound(w: World, tries: seq<Try>) {
    forall i :: 0 <= i < |tries| ==> !Fails(tries[i], ReadTries(w, tries).values[i])
  }

  lemma {:induction false} ReadAppend(w: World, a: seq<Try>, b: seq<Try>)
    ensures var o := ReadTries(w, a);
            ReadTries(w, a + b) == Injection(o.values + ReadTries(o.world, b).values, ReadTries(o.world, b).world)
  {
    if b == [] {
      assert a + b == a;
    } else {
      assert (a + b)[..|a + b| - 1] == a + b[..|b| - 1];
      ReadAppend(w, a, b[..|b| - 1]);
    }
  }

  /** What the tries decide: the code, the values read and the world they leave; a failing injection stops at the
      first required input that is not found. */
  ghost predicate Decides(w: World, tries: seq<Try>, rc: int, values: seq<Option<Value>>, w': World) {
    || (rc == 0 && AllFound(w, tries) && Injection(values, w') == ReadTries(w, tries))
    || (rc == -1 && exists j :: FailsAt(w, tries, j) && w' == ReadTries(w, tries[..j + 1]).world)
  }

  lemma OneMore(w: World, tries: seq<Try>, i: nat)
    requires i < |tries|
    ensures var o := ReadTries(w, tries[..i]);
            ReadTries(w, tries[..i + 1]) == Injection(o.values + [Sees(o.world, tries[i])], Leaves(o.world, tries[i]))
    ensures ReadTries(w, tries).values[i] == Sees(ReadTries(w, tries[..i]).world, tries[i])
  {
    assert tries[..i + 1][..i] == tries[..i];
    assert tries == tries[..i + 1] + tries[i + 1..];
    ReadAppend(w, tries[..i + 1], tries[i + 1..]);
  }

  /** The injections of one field. */
  method InjectField(tries: seq<Try>, w: World) returns (rc: int, values: seq<Option<Value>>, w': World)
    ensures Decides(w, tries, rc, values, w')
  {
    rc, values, w' := 0, [], w;
    for i := 0 to |tries|
      invariant Injection(values, w') == ReadTries(w, tries[..i])
      invariant forall j :: 0 <= j < i ==> !Fails(tries[j], ReadTries(w, tries).values[j])
    {
      OneMore(w, tries, i);
      var value := Sees(w', tries[i]);
      w' := Leaves(w', tries[i]);
      if Fails(tries[i], value) {
        assert FailsAt(w, tries, i);
        return -1, values, w';
      }
      values := values + [value];
    }
    assert tries[..|tries|] == tries;
  }

  lemma AllFoundMore(w: World, a: seq<Try>, b: seq<Try>)
    requires AllFound(w, a) && AllFound(ReadTries(w, a).world, b)
    ensures AllFound(w, a + b)
  {
    ReadAppend(w, a, b);
    forall i | 0 <= i < |a + b|
      ensures !Fails((a + b)[i], ReadTries(w, a + b).values[i])
    {
      if i >= |a| {
        assert !Fails(b[i - |a|], ReadTries(ReadTries(w, a).world, b).values[i - |a|]);
      } else {
        assert !Fails(a[i], ReadTries(w, a).values[i]);
      }
    }
  }

  lemma FailsAtMore(w: World, a: seq<Try>, b: seq<Try>, j: nat)
    requires AllFound(w, a) && FailsAt(ReadTries(w, a).world, b, j)
    ensures FailsAt(w, a + b, |a| + j)
    ensures ReadTries(w, (a + b)[..|a| + j + 1]).world == ReadTries(ReadTries(w, a).world, b[..j + 1]).world
  {
    var mid := ReadTries(w, a).world;
    ReadAppend(w, a, b);
    ReadAppend(w, a, b[..j + 1]);
    assert (a + b)[..|a| + j + 1] == a + b[..j + 1];
    forall i | 0 <= i < |a| + j
      ensures !Fails((a + b)[i], ReadTries(w, a + b).values[i])
    {
      if i >= |a| {
        assert !Fails(b[i - |a|], ReadTries(mid, b).values[i - |a|]);
      } else {
        assert !Fails(a[i], ReadTries(w, a).values[i]);
      }
    }
  }

  /** Appending the tries of one more field. */
  lemma DecidesMore(w: World, a: seq<Try>, values: seq<Option<Value>>, mid: World, b: seq<Try>,
                    rc: int, more: seq<Option<Value>>, w': World)
    requires Decides(w, a, 0, values, mid) && Decides(mid, b, rc, more, w')
    ensures Decides(w, a + b, rc, values + more, w')
  {
    if rc == 0 {
      ReadAppend(w, a, b);
      AllFoundMore(w, a, b);
    } else {
      var j :| FailsAt(mid, b, j) && w' == ReadTries(mid, b[..j + 1]).world;
      FailsAtMore(w, a, b, j);
    }
  }

  lemma FailsAtLess(w: World, a: seq<Try>, b: seq<Try>, j: nat)
    requires FailsAt(w, a, j)
    ensures FailsAt(w, a + b, j) && (a + b)[..j + 1] == a[..j + 1]
  {
    ReadAppend(w, a, b);
    forall i | 0 <= i < j
      ensures !Fails((a + b)[i], ReadTries(w, a + b).values[i])
    {
      assert !Fails(a[i], ReadTries(w, a).values[i]);
    }
  }

  lemma TriesNext(vars: Vars, fields: seq<Field>, i: nat)
    requires i < |fields|
    ensures TriesOf(vars, fields[..i + 1]) == TriesOf(vars, fields[..i]) + FieldTries(vars, fields[i])
  {
    assert fields[..i + 1][..i] == fields[..i];
  }

  lemma FailureExtends(w: World, a: seq<Try>, b: seq<Try>, values: seq<Option<Value>>, w': World)
    requires Decides(w, a, -1, values, w')
    ensures Decides(w, a + b, -1, values, w')
  {
    var j :| FailsAt(w, a, j) && w' == ReadTries(w, a[..j + 1]).world;
    FailsAtLess(w, a, b, j);
  }

  lemma {:induction false} FailureStays(vars: Vars, w: World, fields: seq<Field>, i: nat, values: seq<Option<Value>>, w': World)
    requires i <= |fields| && Decides(w, TriesOf(vars, fields[..i]), -1, values, w')
    ensures Decides(w, TriesOf(vars, fields), -1, values, w')
    decreases |fields| - i
  {
    if i < |fields| {
      TriesNext(vars, fields, i);
      FailureExtends(w, TriesOf(vars, fields[..i]), FieldTries(vars, fields[i]), values, w');
      FailureStays(vars, w, fields, i + 1, values, w');
    } else {
      assert fields[..i] == fields;
    }
  }

  /** `InjectInputs`: it makes the tries of all fields in order and fails exactly if a required input is not found.
      So its outcome is a function of the values read, as `Behaviour.inject` takes it to be. */
  method InjectInputs(vars: Vars, fields: seq<Field>, w: World) returns (rc: int, values: seq<Option<Value>>, w': World)
    ensures Decides(w, TriesOf(vars, fields), rc, values, w')
  {
    rc, values, w' := 0, [], w;
    for i := 0 to |fields|
      invariant Decides(w, TriesOf(vars, fields[..i]), 0, values, w')
    {
      TriesNext(vars, fields, i);
      var r, more, next := InjectField(FieldTries(vars, fields[i]), w');
      DecidesMore(w, TriesOf(vars, fields[..i]), values, w', FieldTries(vars, fields[i]), r, more, next);
      values, w' := values + more, next;
      if r != 0 {
        FailureStays(vars, w, fields, i + 1, values, w');
        return -1, values, w';
      }
    }
    assert fields[..|fields|] == fields;
  }

  // ---------------------------------------------------------------- inputs without variables and moves

  function FieldIds(f: Field): seq<DataId> {
    if f.aggregate != [] then f.aggregate else [f.name]
  }

  /** No move, no variable, and no aggregate of a field that has an index. */
  predicate IsPlain(vars: Vars, f: Field) {
    && !f.move && (f.aggregate == [] || !f.registered)
    && forall id :: id in FieldIds(f) ==> !IsVar(vars, id)
  }

  /** All ids in the order in which they are read. */
  function IdsOf(fields: seq<Field>): seq<DataId> {
    if fields == [] then [] else IdsOf(fields[..|fields| - 1]) + FieldIds(fields[|fields| - 1])
  }

  /** The tries are one for each id. */
  ghost predicate TriesIds(tries: seq<Try>, ids: seq<DataId>) {
    |tries| == |ids| && forall j :: 0 <= j < |ids| ==> tries[j].Try? && !tries[j].move && tries[j].slot == tries[j].name == ids[j]
  }

  lemma {:induction false} PlainAggregate(vars: Vars, f: Field, ids: seq<DataId>)
    requires !f.move && !f.registered && forall id :: id in ids ==> !IsVar(vars, id)
    ensures TriesIds(AggregateTries(vars, f, ids), ids)
  {
    if ids != [] {
      PlainAggregate(vars, f, ids[..|ids| - 1]);
    }
  }

  lemma {:induction false} PlainTries(vars: Vars, fields: seq<Field>)
    requires forall f :: f in fields ==> IsPlain(vars, f)
    ensures TriesIds(TriesOf(vars, fields), IdsOf(fields))
  {
    if fields != [] {
      var f := fields[|fields| - 1];
      PlainTries(vars, fields[..|fields| - 1]);
      assert f in fields;
      if f.aggregate != [] {
        PlainAggregate(vars, f, f.aggregate);
      } else {
        assert f.name in FieldIds(f);
      }
    }
  }

  /** Then the world stays as it is, and the values read are those that the behaviours of module Determinism
      read. */
  lemma {:induction false} PlainReads(w: World, tries: seq<Try>, ids: seq<DataId>)
    requires TriesIds(tries, ids)
    ensures ReadTries(w, tries) == Injection(ReadAll(w.table, w.extern, ids), w)
  {
    if tries != [] {
      PlainReads(w, tries[..|tries| - 1], ids[..|ids| - 1]);
    }
  }

  /** Whatever the parameters are, fields that name no variable and move nothing read a function of the table and
      the outside data alone, id by id, by index or by name. */
  lemma PlainInjectionReads(vars: Vars, fields: seq<Field>, w: World)
    requires forall f :: f in fields ==> IsPlain(vars, f)
    ensures ReadTries(w, TriesOf(vars, fields)) == Injection(ReadAll(w.table, w.extern, IdsOf(fields)), w)
  {
    PlainTries(vars, fields);
    PlainReads(w, TriesOf(vars, fields), IdsOf(fields));
  }

  predicate IsFound(w: World, id: DataId) {
    id in w.table || id in w.extern
  }

  /** Field f tries id, in its own slot or elsewhere. */
  predicate TriesId(t: Try, f: Field, id: DataId) {
    t == Try(id, id, true, f.required, false)
  }

  lemma {:induction false} PlainMembers(vars: Vars, f: Field, ids: seq<DataId>, t: Try)
    requires !f.move && !f.registered && forall id :: id in ids ==> !IsVar(vars, id)
    ensures t in AggregateTries(vars, f, ids) <==> exists id :: id in ids && TriesId(t, f, id)
  {
    if ids != [] {
      var before, id := ids[..|ids| - 1], ids[|ids| - 1];
      PlainMembers(vars, f, before, t);
      assert id in ids && ids == before + [id];
      assert MemberTries(vars, f, id) == [TryName(f, id, true)];
      assert t in MemberTries(vars, f, id) <==> TriesId(t, f, id);
      assert (exists x :: x in ids && TriesId(t, f, x)) <==> (exists x :: x in before && TriesId(t, f, x)) || TriesId(t, f, id);
    }
  }

  lemma PlainField(vars: Vars, f: Field, t: Try)
    requires IsPlain(vars, f)
    ensures t in FieldTries(vars, f) <==> exists id :: id in FieldIds(f) && TriesId(t, f, id)
  {
    if f.aggregate != [] {
      PlainMembers(vars, f, f.aggregate, t);
    } else {
      assert FieldIds(f) == [f.name] && f.name in FieldIds(f);
      assert FieldTries(vars, f) == [TryName(f, f.name, true)];
      assert t in FieldTries(vars, f) <==> TriesId(t, f, f.name);
    }
  }

  ghost predicate TriedBy(fields: seq<Field>, t: Try) {
    exists f :: f in fields && TriedByOne(f, t)
  }

  ghost predicate TriedByOne(f: Field, t: Try) {
    exists id :: id in FieldIds(f) && TriesId(t, f, id)
  }

  lemma {:induction false} PlainFields(vars: Vars, fields: seq<Field>, t: Try)
    requires forall f :: f in fields ==> IsPlain(vars, f)
    ensures t in TriesOf(vars, fields) <==> TriedBy(fields, t)
  {
    if fields != [] {
      var before, f := fields[..|fields| - 1], fields[|fields| - 1];
      PlainFields(vars, before, t);
      assert f in fields && fields == before + [f];
      PlainField(vars, f, t);
      assert TriedBy(fields, t) <==> TriedBy(before, t) || TriedByOne(f, t);
    }
  }

  lemma FoundIff(w: World, tries: seq<Try>, ids: seq<DataId>, j: nat)
    requires TriesIds(tries, ids) && j < |tries| && tries[j].counts
    ensures Fails(tries[j], ReadTries(w, tries).values[j]) <==> tries[j].required && !IsFound(w, tries[j].name)
  {
    PlainReads(w, tries, ids);
  }

  /** A required field of which an id is not found. */
  ghost predicate Unfilled(w: World, fields: seq<Field>) {
    exists f, id :: f in fields && f.required && id in FieldIds(f) && !IsFound(w, id)
  }

  lemma UnfilledIff(vars: Vars, fields: seq<Field>, w: World)
    requires forall f :: f in fields ==> IsPlain(vars, f)
    ensures AllFound(w, TriesOf(vars, fields)) <==> !Unfilled(w, fields)
  {
    var tries := TriesOf(vars, fields);
    PlainTries(vars, fields);
    forall j | 0 <= j < |tries|
      ensures TriedBy(fields, tries[j])
      ensures Fails(tries[j], ReadTries(w, tries).values[j]) <==> tries[j].required && !IsFound(w, tries[j].name)
    {
      PlainFields(vars, fields, tries[j]);
      FoundIff(w, tries, IdsOf(fields), j);
    }
    if f, id :| f in fields && f.required && id in FieldIds(f) && !IsFound(w, id) {
      var t := Try(id, id, true, f.required, false);
      assert TriesId(t, f, id) && TriedByOne(f, t);
      PlainFields(vars, fields, t);
      var j :| 0 <= j < |tries| && tries[j] == t;
      assert Fails(tries[j], ReadTries(w, tries).values[j]);
    }
  }

  lemma PlainPrefix(w: World, tries: seq<Try>, ids: seq<DataId>, n: nat)
    requires TriesIds(tries, ids) && n <= |tries|
    ensures ReadTries(w, tries[..n]).world == w
  {
    assert TriesIds(tries[..n], ids[..n]);
    PlainReads(w, tries[..n], ids[..n]);
  }

  lemma FailedInPlace(w: World, tries: seq<Try>, ids: seq<DataId>, values: seq<Option<Value>>, w': World)
    requires TriesIds(tries, ids) && Decides(w, tries, -1, values, w')
    ensures w' == w && !AllFound(w, tries)
  {
    var j: nat :| FailsAt(w, tries, j) && w' == ReadTries(w, tries[..j + 1]).world;
    PlainPrefix(w, tries, ids, j + 1);
  }

  /** The injection of plain fields fails exactly if a required one has an id that is not found; it leaves the data as
      they are, and when it succeeds the fields hold what is found under their ids, in order. */
  lemma PlainInjectionFailsIff(vars: Vars, fields: seq<Field>, w: World, rc: int, values: seq<Option<Value>>, w': World)
    requires (forall f :: f in fields ==> IsPlain(vars, f)) && Decides(w, TriesOf(vars, fields), rc, values, w')
    ensures rc == if Unfilled(w, fields) then -1 else 0
    ensures w' == w && (rc == 0 ==> values == ReadAll(w.table, w.extern, IdsOf(fields)))
  {
    var tries := TriesOf(vars, fields);
    PlainTries(vars, fields);
    UnfilledIff(vars, fields, w);
    if rc == -1 {
      FailedInPlace(w, tries, IdsOf(fields), values, w');
    } else {
      PlainInjectionReads(vars, fields, w);
    }
  }

  /** A field that moves its datum takes it away from where it was found, and nothing else. */
  lemma MoveTakes(vars: Vars, f: Field, w: World)
    requires f.move && f.aggregate == [] && !IsVar(vars, f.name)
    ensures var o := ReadTries(w, FieldTries(vars, f));
            && o.values == [Find(w.table, w.extern, f.name)]
            && o.world == if f.name in w.table then World(w.table - {f.name}, w.extern) else World(w.table, w.extern - {f.name})
  {
    var tries := FieldTries(vars, f);
    assert tries == [TryName(f, f.name, true)] && tries[..0] == [];
  }

  // ---------------------------------------------------------------- variables among the inputs

  lemma OneTry(vars: Vars, f: Field, w: World)
    requires f.aggregate == [] && IsVar(vars, f.name) && VarOf(vars, f.name) != ""
    ensures ReadTries(w, FieldTries(vars, f)).values == [Sees(w, TryName(f, VarOf(vars, f.name), true))]
  {
    assert FieldTries(vars, f)[..0] == [];
  }

  /** A required input named by a variable fails exactly if the variable is unset or leads to nothing, by its index first
      and then by its value. */
  lemma VariableFailsIff(vars: Vars, f: Field, w: World)
    requires f.aggregate == [] && IsVar(vars, f.name)
    ensures !AllFound(w, FieldTries(vars, f)) <==>
            f.required && (VarOf(vars, f.name) == "" ||
                           !((if f.registered then f.name else VarOf(vars, f.name)) in w.table || VarOf(vars, f.name) in w.extern))
  {
    var tries := FieldTries(vars, f);
    assert |tries| == 1 && tries[..0] == [];
    assert ReadTries(w, tries).values == [Sees(w, tries[0])];
  }

  /** With these data present, the input reads the datum that its variable names, whatever the data are. */
  ghost predicate ReadsByValue(vars: Vars, f: Field, own: set<DataId>, outside: set<DataId>)
    requires IsVar(vars, f.name)
  {
    forall w: World :: w.table.Keys == own && w.extern.Keys == outside ==>
      ReadTries(w, FieldTries(vars, f)).values == [Find(w.table, w.extern, VarOf(vars, f.name))]
  }

  /** A world in which the input reads something else than its variable names. */
  lemma WrongWorld(vars: Vars, f: Field, own: set<DataId>, outside: set<DataId>, a: Value, b: Value) returns (w: World)
    requires f.aggregate == [] && IsVar(vars, f.name) && VarOf(vars, f.name) != "" && a != b
    requires f.registered && VarOf(vars, f.name) != f.name && (f.name in own || VarOf(vars, f.name) in own)
    ensures w.table.Keys == own && w.extern.Keys == outside
    ensures ReadTries(w, FieldTries(vars, f)).values != [Find(w.table, w.extern, VarOf(vars, f.name))]
  {
    var d := VarOf(vars, f.name);
    w := World(map id | id in own :: if id == d then a else b, map id | id in outside :: if f.name in own then a else b);
    OneTry(vars, f, w);
    assert Sees(w, TryName(f, d, true)) != Find(w.table, w.extern, d);
  }

  /** An index defeats a variable: the input reads what its variable names exactly if it has no index, the value is
      the variable's own name, or the graph's own table holds neither of the two.  `a` and `b` are any two data that
      differ. */
  lemma IndexDefeatsVariable(vars: Vars, f: Field, own: set<DataId>, outside: set<DataId>, a: Value, b: Value)
    requires f.aggregate == [] && IsVar(vars, f.name) && VarOf(vars, f.name) != "" && a != b
    ensures ReadsByValue(vars, f, own, outside) <==>
            !f.registered || VarOf(vars, f.name) == f.name || (f.name !in own && VarOf(vars, f.name) !in own)
  {
    if f.registered && VarOf(vars, f.name) != f.name && (f.name in own || VarOf(vars, f.name) in own) {
      var w := WrongWorld(vars, f, own, outside, a, b);
    } else {
      forall w: World | w.table.Keys == own && w.extern.Keys == outside
        ensures ReadTries(w, FieldTries(vars, f)).values == [Find(w.table, w.extern, VarOf(vars, f.name))]
      {
        OneTry(vars, f, w);
      }
    }
  }

  ghost predicate AreFound(w: World, ids: seq<DataId>) {
    forall i :: 0 <= i < |ids| ==> IsFound(w, ids[i])
  }

  lemma AreFoundSplit(w: World, ids: seq<DataId>)
    requires ids != []
    ensures AreFound(w, ids) <==> AreFound(w, ids[..|ids| - 1]) && IsFound(w, ids[|ids| - 1])
  {
    forall i | 0 <= i < |ids| - 1
      ensures ids[i] == ids[..|ids| - 1][i]
    {
    }
  }

  lemma {:induction false} LastTry(w: World, tries: seq<Try>, t: Try)
    requires t.Try? && !t.move && ReadTries(w, tries).world == w
    ensures ReadTries(w, tries + [t]).world == w
    ensures AllFound(w, tries + [t]) <==> AllFound(w, tries) && !Fails(t, Sees(w, t))
  {
    assert (tries + [t])[..|tries|] == tries;
    var o, p := ReadTries(w, tries), ReadTries(w, tries + [t]);
    assert p.values == o.values + [Sees(w, t)];
    if AllFound(w, tries + [t]) {
      assert !Fails((tries + [t])[|tries|], p.values[|tries|]);
      forall i | 0 <= i < |tries|
        ensures !Fails(tries[i], o.values[i])
      {
        assert !Fails((tries + [t])[i], p.values[i]);
      }
    }
  }

  lemma {:induction false} MemberIgnoresVariable(vars: Vars, f: Field, id: DataId, w: World, before: seq<Try>)
    requires f.required && !f.move && !f.registered && ReadTries(w, before).world == w
    ensures ReadTries(w, before + MemberTries(vars, f, id)).world == w
    ensures AllFound(w, before + MemberTries(vars, f, id)) <==> AllFound(w, before) && IsFound(w, id)
  {
    var own := TryName(f, id, true);
    assert Fails(own, Sees(w, own)) <==> !IsFound(w, id);
    if IsVar(vars, id) && VarOf(vars, id) != "" {
      var extra := TryName(f, VarOf(vars, id), false);
      LastTry(w, before, extra);
      assert !Fails(extra, Sees(w, extra));
      LastTry(w, before + [extra], own);
      assert MemberTries(vars, f, id) == [extra] + [own];
      assert before + MemberTries(vars, f, id) == before + [extra] + [own];
    } else {
      LastTry(w, before, own);
      assert MemberTries(vars, f, id) == [own];
    }
  }

  /** The value of a variable among the ids of an aggregate never decides: the aggregate is filled exactly if the
      data named like the variables themselves are found. */
  lemma {:induction false} AggregateIgnoresVariables(vars: Vars, f: Field, ids: seq<DataId>, w: World)
    requires f.required && !f.move && !f.registered
    ensures AllFound(w, AggregateTries(vars, f, ids)) <==> AreFound(w, ids)
    ensures ReadTries(w, AggregateTries(vars, f, ids)).world == w
  {
    if ids != [] {
      var init, id := ids[..|ids| - 1], ids[|ids| - 1];
      AggregateIgnoresVariables(vars, f, init, w);
      MemberIgnoresVariable(vars, f, id, w, AggregateTries(vars, f, init));
      AreFoundSplit(w, ids);
    }
  }

  // ---------------------------------------------------------------- data that are not found

  /** x is set to "d", and the graph's own table holds "d" alone. */
  function SetToD(): Vars {
    Some((name: string) => if name == "x" then "d" else "")
  }

  function OnlyD(d: Value): World {
    World(map["d" := d], map[])
  }

  lemma SetToDIs()
    ensures IsVar(SetToD(), "$x") && VarOf(SetToD(), "$x") == "d"
  {
    assert "$x"[1..] == "x";
  }

  lemma FirstFieldFails(vars: Vars, f: Field, w: World, rc: int, values: seq<Option<Value>>, w': World)
    requires Decides(w, TriesOf(vars, [f]), rc, values, w') && !AllFound(w, FieldTries(vars, f))
    ensures rc == -1
  {
    assert [f][..0] == [];
    assert TriesOf(vars, [f]) == [] + FieldTries(vars, f) == FieldTries(vars, f);
  }

  /** A required input "$x" with an index, which a reader has that declares it as extern although its processor does
      not: "d" was published in the same graph, but it is looked for elsewhere only, and the injection fails. */
  lemma IndexedVariableMissesDatum(d: Value, rc: int, values: seq<Option<Value>>, w': World)
    requires Decides(OnlyD(d), TriesOf(SetToD(), [Field("$x", [], true, false, true)]), rc, values, w')
    ensures Find(OnlyD(d).table, OnlyD(d).extern, VarOf(SetToD(), "$x")) == Some(d)
    ensures ReadTries(OnlyD(d), FieldTries(SetToD(), Field("$x", [], true, false, true))).values == [None]
    ensures rc == -1
  {
    var f := Field("$x", [], true, false, true);
    SetToDIs();
    OneTry(SetToD(), f, OnlyD(d));
    var tries := FieldTries(SetToD(), f);
    assert Fails(tries[0], ReadTries(OnlyD(d), tries).values[0]);
    FirstFieldFails(SetToD(), f, OnlyD(d), rc, values, w');
  }

  /** A required aggregate of "$x" alone: "d" is there and is even injected, and the injection fails. */
  lemma AggregateMissesDatum(d: Value, rc: int, values: seq<Option<Value>>, w': World)
    requires Decides(OnlyD(d), TriesOf(SetToD(), [Field("in", ["$x"], true, false, false)]), rc, values, w')
    ensures IsFound(OnlyD(d), VarOf(SetToD(), "$x")) && rc == -1
  {
    var f := Field("in", ["$x"], true, false, false);
    SetToDIs();
    AggregateIgnoresVariables(SetToD(), f, f.aggregate, OnlyD(d));
    assert !IsFound(OnlyD(d), f.aggregate[0]);
    FirstFieldFails(SetToD(), f, OnlyD(d), rc, values, w');
  }
}
