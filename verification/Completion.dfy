/** What the declaration loop makes of each vertex, field by field, and exactly when it goes through. */
module Completion {
  import opened Options
  import opened GraphDecl
  import opened GraphEdges
  import opened GraphListing

  // ---------------------------------------------------------------- inputs

  ghost predicate HasInOut(fields: seq<FieldInfo>, name: string) {
    exists f :: f in fields && f.name == name && f.isInOut
  }

  ghost predicate HasExternInOut(fields: seq<FieldInfo>, name: string) {
    exists f :: f in fields && f.name == name && f.isInOut && f.isExtern
  }

  ghost predicate FirstOfField(input: seq<Datum>, k: nat)
    requires k < |input|
  {
    forall j :: 0 <= j < k ==> input[j].field != input[k].field
  }

  /** A declared input keeps its flags and gains those of an in-out field of the processor, if it is the first input for
      that field. */
  ghost predicate Marked(fields: seq<FieldInfo>, input: seq<Datum>, k: nat, x: Datum)
    requires k < |input|
  {
    && (x.isInOut <==> input[k].isInOut || (FirstOfField(input, k) && HasInOut(fields, input[k].field)))
    && (x.isExtern <==> input[k].isExtern || (FirstOfField(input, k) && HasExternInOut(fields, input[k].field)))
  }

  /** An input that the declaration does not mention has the flags of the processor's field. */
  ghost predicate Flagged(fields: seq<FieldInfo>, x: Datum) {
    && (x.isInOut <==> HasInOut(fields, x.field))
    && exists f :: f in fields && f.name == x.field && f.isExtern == x.isExtern
  }

  lemma HasInOutSplit(fields: seq<FieldInfo>, name: string)
    requires fields != []
    ensures HasInOut(fields, name) <==> (fields[0].name == name && fields[0].isInOut) || HasInOut(fields[1..], name)
    ensures HasExternInOut(fields, name) <==>
            (fields[0].name == name && fields[0].isInOut && fields[0].isExtern) || HasExternInOut(fields[1..], name)
  {
    assert forall f :: f in fields <==> f == fields[0] || f in fields[1..];
  }

  lemma FillInputMarks(input: seq<Datum>, f: FieldInfo)
    ensures var r := FillInput(input, f);
            && (forall k :: 0 <= k < |input| ==> Marked([f], input, k, r[k]))
            && (|r| > |input| ==> !HasField(input, f.name) && r[|input|].field == f.name)
            && (|r| > |input| ==> r[|input|].isInOut == f.isInOut && r[|input|].isExtern == f.isExtern)
  {
    FillInputKeeps(input, f);
    forall k | 0 <= k < |input|
      ensures Marked([f], input, k, FillInput(input, f)[k])
    {
      assert [f][0] == f && [f][1..] == [];
      HasInOutSplit([f], input[k].field);
    }
  }

  lemma {:induction false} FillInputsMarks(input: seq<Datum>, fields: seq<FieldInfo>)
    ensures var r := FillInputs(input, fields);
            && |input| <= |r|
            && (forall k :: 0 <= k < |input| ==> Marked(fields, input, k, r[k]))
            && (forall k :: |input| <= k < |r| ==> Flagged(fields, r[k]))
            && (forall j, k :: |input| <= k < |r| && 0 <= j < k ==> r[j].field != r[k].field)
    decreases |fields|
  {
    if fields != [] {
      var f, rest := fields[0], fields[1..];
      var first, r := FillInput(input, f), FillInputs(input, fields);
      FillInputMarks(input, f);
      FillInputKeeps(input, f);
      FillInputsMarks(first, rest);
      FillInputsCompletes(first, rest);
      forall k | 0 <= k < |input|
        ensures Marked(fields, input, k, r[k])
      {
        MarkedMore(input, first, fields, k, r[k]);
      }
      forall k | |input| <= k < |r|
        ensures Flagged(fields, r[k])
        ensures forall j :: 0 <= j < k ==> r[j].field != r[k].field
      {
        FlaggedMore(input, first, r, fields, k);
      }
    }
  }

  lemma MarkedMore(input: seq<Datum>, first: seq<Datum>, fields: seq<FieldInfo>, k: nat, x: Datum)
    requires fields != [] && k < |input| <= |first| && forall j :: 0 <= j < |input| ==> first[j].field == input[j].field
    requires Marked([fields[0]], input, k, first[k]) && Marked(fields[1..], first, k, x)
    ensures Marked(fields, input, k, x)
  {
    HasInOutSplit(fields, input[k].field);
    assert [fields[0]][0] == fields[0] && [fields[0]][1..] == [];
    HasInOutSplit([fields[0]], input[k].field);
    assert FirstOfField(first, k) <==> FirstOfField(input, k);
  }

  lemma FlaggedMore(input: seq<Datum>, first: seq<Datum>, r: seq<Datum>, fields: seq<FieldInfo>, k: nat)
    requires fields != [] && first == FillInput(input, fields[0]) && |input| <= |first| <= |r| && |input| <= k < |r|
    requires forall j :: 0 <= j < |first| ==> r[j].field == first[j].field && Marked(fields[1..], first, j, r[j])
    requires forall j :: |first| <= j < |r| ==> Flagged(fields[1..], r[j])
    requires forall i, j :: |first| <= j < |r| && 0 <= i < j ==> r[i].field != r[j].field
    ensures Flagged(fields, r[k]) && forall j :: 0 <= j < k ==> r[j].field != r[k].field
  {
    var f := fields[0];
    FillInputMarks(input, f);
    FillInputKeeps(input, f);
    HasInOutSplit(fields, r[k].field);
    if k < |first| {
      assert k == |input| && !HasField(input, f.name);
      assert FirstOfField(first, k);
      if r[k].isExtern != f.isExtern {
        var g :| g in fields[1..] && g.name == first[k].field && g.isInOut && g.isExtern;
        assert g in fields;
      }
      assert f in fields;
    } else {
      var i :| 0 <= i < |first| && first[i].field == f.name;
      assert r[i].field != r[k].field;
      var g :| g in fields[1..] && g.name == r[k].field && g.isExtern == r[k].isExtern;
      assert g in fields;
    }
  }

  // ---------------------------------------------------------------- names

  lemma {:induction false} NameInputsPointwise(input: seq<Datum>)
    ensures NameInputs(input).Some? <==> forall i :: 0 <= i < |input| ==> input[i].field != ""
    ensures NameInputs(input).Some? ==>
              var named := NameInputs(input).value;
              && |named| == |input|
              && forall i :: 0 <= i < |input| ==> named[i] == input[i].(id := IdOrField(input[i].id, input[i].field))
  {
    if input != [] {
      NameInputsPointwise(input[..|input| - 1]);
    }
  }

  /** The id of a datum defaults to its field. */
  function IdOrField(id: string, field: string): string {
    if id == "" then field else id
  }

  /** What becomes of the k-th declared input. */
  ghost predicate InputKept(fields: seq<FieldInfo>, input: seq<Datum>, k: nat, x: Datum)
    requires k < |input|
  {
    && x.field == input[k].field != "" && x.id == IdOrField(input[k].id, input[k].field)
    && x.aggregate == input[k].aggregate && x.required == input[k].required && Marked(fields, input, k, x)
  }

  /** An input for a field that the declaration does not mention. */
  ghost predicate InputAdded(fields: seq<FieldInfo>, x: Datum) {
    x.field != "" && x.id == x.field && x.aggregate == [] && !x.required && Flagged(fields, x)
  }

  ghost predicate InputsCompleted(fields: seq<FieldInfo>, input: seq<Datum>, r: seq<Datum>) {
    && |input| <= |r|
    && (forall k :: 0 <= k < |input| ==> InputKept(fields, input, k, r[k]))
    && (forall k :: |input| <= k < |r| ==> InputAdded(fields, r[k]))
    && (forall f :: f in fields ==> HasField(r, f.name))
    && (forall j, k :: |input| <= k < |r| && 0 <= j < k ==> r[j].field != r[k].field)
  }

  ghost predicate OutputsCompleted(fields: seq<string>, output: seq<Output>, r: seq<Output>) {
    && |output| <= |r|
    && (forall k :: 0 <= k < |output| ==>
          r[k].field == output[k].field != "" && r[k].id == IdOrField(output[k].id, output[k].field))
    && (forall k :: |output| <= k < |r| ==> r[k].field != "" && r[k].id == r[k].field && r[k].field in fields)
    && (forall f :: f in fields ==> HasOutput(r, f))
    && (forall j, k :: |output| <= k < |r| && 0 <= j < k ==> r[j].field != r[k].field)
  }

  lemma InputsComplete(fields: seq<FieldInfo>, input: seq<Datum>)
    ensures NameInputs(FillInputs(input, fields)).Some? <==>
            (forall d :: d in input ==> d.field != "") && (forall f :: f in fields ==> f.name != "")
    ensures NameInputs(FillInputs(input, fields)).Some? ==>
              InputsCompleted(fields, input, NameInputs(FillInputs(input, fields)).value)
  {
    var filled := FillInputs(input, fields);
    FillInputsCompletes(input, fields);
    FillInputsMarks(input, fields);
    NameInputsPointwise(filled);
    assert forall k :: 0 <= k < |input| ==> filled[k].field == input[k].field && input[k] in input;
    if NameInputs(filled).Some? {
      forall f | f in fields
        ensures f.name != ""
      {
        assert HasField(filled, f.name);
      }
      NamedInputsComplete(fields, input, filled, NameInputs(filled).value);
    }
  }

  lemma NamedInputsComplete(fields: seq<FieldInfo>, input: seq<Datum>, filled: seq<Datum>, named: seq<Datum>)
    requires filled == FillInputs(input, fields) && NameInputs(filled) == Some(named)
    ensures InputsCompleted(fields, input, named)
  {
    FillInputsCompletes(input, fields);
    FillInputsMarks(input, fields);
    NameInputsPointwise(filled);
    forall k | 0 <= k < |input|
      ensures InputKept(fields, input, k, named[k])
    {
      assert SameDatum(filled[k], input[k]) && Marked(fields, input, k, filled[k]);
    }
    forall k | |input| <= k < |named|
      ensures InputAdded(fields, named[k])
    {
      assert Implied(filled[k], fields) && Flagged(fields, filled[k]);
    }
    forall f | f in fields
      ensures HasField(named, f.name)
    {
      assert HasField(filled, f.name);
      var i :| 0 <= i < |filled| && filled[i].field == f.name;
      assert named[i].field == f.name;
    }
  }

  lemma OutputsComplete(fields: seq<string>, output: seq<Output>)
    ensures NameOutputs(FillOutputs(output, fields)).Some? <==>
            (forall o :: o in output ==> o.field != "") && (forall f :: f in fields ==> f != "")
    ensures NameOutputs(FillOutputs(output, fields)).Some? ==>
              OutputsCompleted(fields, output, NameOutputs(FillOutputs(output, fields)).value)
  {
    var filled := FillOutputs(output, fields);
    FillOutputsCompletes(output, fields);
    NameOutputsPointwise(filled);
    assert forall k :: 0 <= k < |output| ==> filled[k] == output[k] && output[k] in output;
    if NameOutputs(filled).Some? {
      var named := NameOutputs(filled).value;
      forall f | f in fields
        ensures f != "" && HasOutput(named, f)
      {
        assert HasOutput(filled, f);
        var i :| 0 <= i < |filled| && filled[i].field == f;
        assert named[i].field == f;
      }
    }
  }

  // ---------------------------------------------------------------- one vertex

  /** The fields of the processor as far as the factory knows it. */
  function FieldsOf(env: Env, processor: string): Fields {
    if processor != "" && processor in env.processors then env.processors[processor] else Fields([], [])
  }

  /** What a vertex declared as d is entered as: names are treated by `Normalised`, the id by `EnteredAs`. */
  ghost predicate Completed(env: Env, d: Decl, n: Decl) {
    && n.processor == ProcessorOf(env, d) && n.cond == d.cond && n.graph == d.graph
    && n.cluster == (if d.graph != "" && (d.cluster == "" || d.cluster == ".") then env.cluster else d.cluster)
    && n.select == d.select && n.expectation == d.expectation && n.expectConfig == d.expectConfig
    && InputsCompleted(FieldsOf(env, ProcessorOf(env, d)).inputs, d.input, n.input)
    && OutputsCompleted(FieldsOf(env, ProcessorOf(env, d)).outputs, d.output, n.output)
  }

  /** A generated vertex evaluates its condition with the default expression processor. */
  predicate Evaluates(env: Env, c: Decl) {
    && c.processor == env.defaultExpr && c.cond != "" && c.graph == c.cluster == "" && c.input == [] && c.output == []
    && c.select == [] && !c.isStart && c.expectation == c.expectConfig == ""
  }

  ghost predicate CompletedInv(env: Env, s: Symbols, decls: seq<Decl>, i: nat) {
    && |s.decls| == i <= |decls|
    && (forall j :: 0 <= j < i ==> Completed(env, decls[j], s.decls[j]) && s.decls[j].isStart == decls[j].isStart)
    && (forall c :: c in s.gens ==> Evaluates(env, c))
  }

  /** The vertex as `Prepare` leaves it, but for its id and names. */
  ghost predicate IsPrepared(env: Env, d: Decl, n: Decl) {
    && n.processor == ProcessorOf(env, d) && n.cond == d.cond && n.graph == d.graph
    && n.cluster == (if d.graph != "" && (d.cluster == "" || d.cluster == ".") then env.cluster else d.cluster)
    && n.select == d.select && n.expectation == d.expectation && n.expectConfig == d.expectConfig && n.isStart == d.isStart
    && n.input == d.input && n.output == d.output
  }

  lemma DefaultsComplete(env: Env, next: nat, d: Decl)
    ensures IsPrepared(env, d, Defaults(env, next, d).0)
  {
  }

  lemma WithCondCompletes(env: Env, s: Symbols, decls: seq<Decl>, i: nat, n: Decl)
    requires CompletedInv(env, s, decls, i)
    ensures var (t, d) := WithCond(env, s, n); CompletedInv(env, t, decls, i) && d == n.(depsOnOk := d.depsOnOk)
  {
    var t := WithCond(env, s, n).0;
    forall c | c in t.gens
      ensures Evaluates(env, c)
    {
      if c !in s.gens {
        assert c == CondVertex(env, GenerateNodeId(env, s.next), n);
      }
    }
  }

  lemma PrepareCompletes(env: Env, s: Symbols, decls: seq<Decl>, i: nat)
    requires CompletedInv(env, s, decls, i) && i < |decls|
    ensures var p := Prepare(env, s, decls[i]); CompletedInv(env, p.0, decls, i) && IsPrepared(env, decls[i], p.1)
  {
    var (d, next) := Defaults(env, s.next, decls[i]);
    DefaultsComplete(env, s.next, decls[i]);
    WithCondCompletes(env, s.(next := next), decls, i, d);
  }

  /** When the fields of the prepared vertex are in order. */
  ghost predicate FieldsOk(env: Env, n: Decl) {
    && (n.processor == "" || n.processor in env.processors || !env.strict)
    && (forall d :: d in n.input ==> d.field != "") && (forall o :: o in n.output ==> o.field != "")
    && (forall f :: f in FieldsOf(env, n.processor).inputs ==> f.name != "")
    && (forall f :: f in FieldsOf(env, n.processor).outputs ==> f != "")
  }

  /** The outputs and inputs that a vertex with fields in order gets. */
  lemma FieldsComplete(env: Env, n: Decl) returns (outs: seq<Output>, ins: seq<Datum>)
    requires FieldsOk(env, n)
    ensures FillInputOutput(env, n).Some?
    ensures var r := FillInputOutput(env, n).value;
            && r == n.(input := r.input, output := r.output)
            && NameOutputs(r.output) == Some(outs) && NameInputs(r.input) == Some(ins)
    ensures OutputsCompleted(FieldsOf(env, n.processor).outputs, n.output, outs)
    ensures InputsCompleted(FieldsOf(env, n.processor).inputs, n.input, ins)
  {
    var fields := FieldsOf(env, n.processor);
    InputsComplete(fields.inputs, n.input);
    OutputsComplete(fields.outputs, n.output);
    outs, ins := NameOutputs(FillOutputs(n.output, fields.outputs)).value, NameInputs(FillInputs(n.input, fields.inputs)).value;
  }

  lemma FieldsNeeded(env: Env, n: Decl)
    requires FillInputOutput(env, n).Some?
    requires var r := FillInputOutput(env, n).value; NameOutputs(r.output).Some? && NameInputs(r.input).Some?
    ensures FieldsOk(env, n)
  {
    var fields := FieldsOf(env, n.processor);
    InputsComplete(fields.inputs, n.input);
    OutputsComplete(fields.outputs, n.output);
  }

  /** The prepared vertex is entered exactly if its id is new, its fields are in order, and its data have no producer. */
  lemma EnterIff(env: Env, s: Symbols, n: Decl)
    ensures EnterVertex(env, s, n).Some? ==> n.id !in s.nodes && FieldsOk(env, n)
  {
    if EnterVertex(env, s, n).Some? {
      FieldsNeeded(env, MergeSuccessor(n));
    }
  }

  lemma EnterIs(env: Env, s: Symbols, n: Decl) returns (outs: seq<Output>, ins: seq<Datum>)
    requires n.id !in s.nodes && FieldsOk(env, n)
    ensures OutputsCompleted(FieldsOf(env, n.processor).outputs, n.output, outs)
    ensures InputsCompleted(FieldsOf(env, n.processor).inputs, n.input, ins)
    ensures EnterVertex(env, s, n) ==
            match RegisterOutputs(s.data, outs, |s.decls|)
            case None => None
            case Some(data) => Some(s.(nodes := s.nodes[n.id := |s.decls|], data := data,
                                       decls := s.decls + [MergeSuccessor(n).(input := ins, output := outs)]))
  {
    outs, ins := FieldsComplete(env, MergeSuccessor(n));
  }

  // ---------------------------------------------------------------- data

  /** The vertex publishes x: one of its outputs carries that id, or it is an output field of its processor that the
      declaration does not mention. */
  ghost predicate Publishes(env: Env, d: Decl, x: string) {
    || (exists k :: 0 <= k < |d.output| && IdOrField(d.output[k].id, d.output[k].field) == x)
    || (x in FieldsOf(env, ProcessorOf(env, d)).outputs && !HasOutput(d.output, x))
  }

  /** It publishes no datum twice. */
  ghost predicate PublishesOnce(env: Env, d: Decl) {
    && (forall j, k :: 0 <= j < k < |d.output| ==>
          IdOrField(d.output[j].id, d.output[j].field) != IdOrField(d.output[k].id, d.output[k].field))
    && (forall k, f :: 0 <= k < |d.output| && f in FieldsOf(env, ProcessorOf(env, d)).outputs && !HasOutput(d.output, f) ==>
          IdOrField(d.output[k].id, d.output[k].field) != f)
  }

  ghost predicate HasId(r: seq<Output>, x: string) {
    exists k :: 0 <= k < |r| && r[k].id == x
  }

  /** A field that no declared output has is found among the added ones. */
  lemma AddedOutput(fields: seq<string>, output: seq<Output>, r: seq<Output>, f: string) returns (k: nat)
    requires OutputsCompleted(fields, output, r) && f in fields && !HasOutput(output, f)
    ensures |output| <= k < |r| && r[k].id == f
  {
    assert HasOutput(r, f);
    k :| 0 <= k < |r| && r[k].field == f;
    assert forall j :: 0 <= j < |output| ==> output[j].field == r[j].field;
  }

  lemma AddedIsNew(fields: seq<string>, output: seq<Output>, r: seq<Output>, k: nat)
    requires OutputsCompleted(fields, output, r) && |output| <= k < |r|
    ensures r[k].id in fields && !HasOutput(output, r[k].id)
  {
    forall j | 0 <= j < |output|
      ensures output[j].field != r[k].id
    {
      assert r[j].field != r[k].field;
    }
  }

  lemma HasIdIff(env: Env, d: Decl, r: seq<Output>, x: string)
    requires OutputsCompleted(FieldsOf(env, ProcessorOf(env, d)).outputs, d.output, r)
    ensures HasId(r, x) <==> Publishes(env, d, x)
  {
    var fields := FieldsOf(env, ProcessorOf(env, d)).outputs;
    if HasId(r, x) {
      var k :| 0 <= k < |r| && r[k].id == x;
      if k >= |d.output| {
        AddedIsNew(fields, d.output, r, k);
      }
    }
    if x in fields && !HasOutput(d.output, x) {
      var k := AddedOutput(fields, d.output, r, x);
    } else if Publishes(env, d, x) {
      var k :| 0 <= k < |d.output| && IdOrField(d.output[k].id, d.output[k].field) == x;
      assert r[k].id == x;
    }
  }

  predicate IdsDiffer(r: seq<Output>) {
    forall j, k :: 0 <= j < k < |r| ==> r[j].id != r[k].id
  }

  lemma DifferIff(env: Env, d: Decl, r: seq<Output>)
    requires OutputsCompleted(FieldsOf(env, ProcessorOf(env, d)).outputs, d.output, r)
    ensures IdsDiffer(r) <==> PublishesOnce(env, d)
  {
    var fields := FieldsOf(env, ProcessorOf(env, d)).outputs;
    if IdsDiffer(r) {
      forall k, f | 0 <= k < |d.output| && f in fields && !HasOutput(d.output, f)
        ensures IdOrField(d.output[k].id, d.output[k].field) != f
      {
        var l := AddedOutput(fields, d.output, r, f);
      }
    }
    if PublishesOnce(env, d) {
      forall j, k | 0 <= j < k < |r|
        ensures r[j].id != r[k].id
      {
        if k >= |d.output| {
          AddedIsNew(fields, d.output, r, k);
        }
      }
    }
  }

  lemma {:induction false} RegisterIff(data: map<string, nat>, output: seq<Output>, p: nat)
    ensures RegisterOutputs(data, output, p).Some? <==>
            (forall k :: 0 <= k < |output| ==> output[k].id !in data) && IdsDiffer(output)
    decreases |output|
  {
    if output != [] {
      var rest := output[1..];
      RegisterIff(data[output[0].id := p], rest, p);
      assert forall k :: 0 <= k < |rest| ==> rest[k] == output[k + 1];
      assert forall k :: 0 < k < |output| ==> output[k] == rest[k - 1];
    }
  }

  // ---------------------------------------------------------------- the loop

  /** An earlier vertex has the id, or it was generated for the condition of a vertex up to this one. */
  ghost predicate Taken(env: Env, decls: seq<Decl>, i: nat, id: string)
    requires i < |decls|
  {
    (exists j :: 0 <= j < i && IdOf(env, decls, j) == id) || (exists l :: 0 <= l <= i && Generates(env, decls, l, id))
  }

  /** A config setting of that name, or its negation. */
  ghost predicate IsSetting(env: Env, name: string) {
    exists c :: c in env.configs && if name != "" && name[0] == '!' then name == "!" + c else name == c
  }

  /** The data of vertex i are new. */
  ghost predicate DataFree(env: Env, decls: seq<Decl>, i: nat)
    requires i < |decls|
  {
    PublishesOnce(env, decls[i]) && forall j, x :: 0 <= j < i && Publishes(env, decls[j], x) ==> !Publishes(env, decls[i], x)
  }

  /** Vertex i can be declared after those before it. */
  ghost predicate Declarable(env: Env, decls: seq<Decl>, i: nat)
    requires i < |decls|
  {
    var d := decls[i];
    && (d.expectation == "" || d.expectConfig == "") && (d.expectConfig == "" || IsSetting(env, d.expectConfig))
    && FieldsOk(env, d.(processor := ProcessorOf(env, d)))
    && !Taken(env, decls, i, IdOf(env, decls, i)) && DataFree(env, decls, i)
  }

  lemma SettingIff(env: Env, name: string)
    ensures ContainsConfigSetting(env, name) <==> IsSetting(env, name)
  {
    if name != "" && name[0] == '!' {
      assert name == "!" + name[1..];
      forall c | name == "!" + c
        ensures c == name[1..]
      {
        assert ("!" + c)[1..] == c;
      }
    }
  }

  lemma TakenIff(env: Env, s: Symbols, n: Decl, decls: seq<Decl>, i: nat, id: string)
    requires PreparedInv(env, s, n, decls, i) && NameInv(s, decls, i) && ListInv(env, s)
    ensures id in s.nodes <==> Taken(env, decls, i, id)
  {
    if id in s.nodes {
      assert Names(s, id, s.nodes[id]);
      if s.nodes[id] < i {
        assert EnteredAs(env, decls, s.nodes[id], id);
      } else {
        assert GeneratedFor(env, decls, i + 1, s.gens[s.nodes[id] - s.m]);
      }
    }
    if j :| 0 <= j < i && IdOf(env, decls, j) == id {
      assert EnteredAs(env, decls, j, s.decls[j].id);
    }
    if l :| 0 <= l <= i && Generates(env, decls, l, id) {
      assert Made(env, s, decls, l);
      assert IsCondId(s, id);
    }
  }

  /** What is known of the first i vertices. */
  ghost predicate LoopInv(env: Env, s: Symbols, decls: seq<Decl>, i: nat) {
    CompletedInv(env, s, decls, i) && SymbolsInv(s, decls, i) && ListInv(env, s) && IdInv(env, s, decls, i)
  }

  /** And vertex i is prepared as n. */
  ghost predicate PreparedLoop(env: Env, s: Symbols, n: Decl, decls: seq<Decl>, i: nat) {
    && i < |decls| && CompletedInv(env, s, decls, i) && IsPrepared(env, decls[i], n) && ReadyInv(s, n, decls, i)
    && ListInv(env, s) && PreparedInv(env, s, n, decls, i)
  }

  lemma PrepareLoop(env: Env, s: Symbols, decls: seq<Decl>, i: nat)
    requires LoopInv(env, s, decls, i) && i < |decls|
    ensures PreparedLoop(env, Prepare(env, s, decls[i]).0, Prepare(env, s, decls[i]).1, decls, i)
  {
    PrepareCompletes(env, s, decls, i);
    PrepareKeeps(env, s, decls, i);
    PrepareKeepsList(env, s, decls[i]);
    PrepareNumbers(env, s, decls, i);
  }

  /** The data of earlier vertices. */
  lemma ProducedIff(env: Env, s: Symbols, decls: seq<Decl>, i: nat, x: string)
    requires CompletedInv(env, s, decls, i) && DataInv(s.decls, s.data)
    ensures x in s.data <==> exists j :: 0 <= j < i && Publishes(env, decls[j], x)
  {
    forall j | 0 <= j < i
      ensures Produces(s.decls[j], x) <==> Publishes(env, decls[j], x)
    {
      assert Completed(env, decls[j], s.decls[j]);
      HasIdIff(env, decls[j], s.decls[j].output, x);
    }
    if x in s.data {
      assert Produces(s.decls[s.data[x]], x);
    }
  }

  lemma DataFreeIff(env: Env, s: Symbols, decls: seq<Decl>, i: nat, outs: seq<Output>)
    requires i < |decls| && CompletedInv(env, s, decls, i) && DataInv(s.decls, s.data)
    requires OutputsCompleted(FieldsOf(env, ProcessorOf(env, decls[i])).outputs, decls[i].output, outs)
    ensures RegisterOutputs(s.data, outs, i).Some? <==> DataFree(env, decls, i)
  {
    RegisterIff(s.data, outs, i);
    DifferIff(env, decls[i], outs);
    forall x
      ensures HasId(outs, x) <==> Publishes(env, decls[i], x)
      ensures x in s.data <==> exists j :: 0 <= j < i && Publishes(env, decls[j], x)
    {
      HasIdIff(env, decls[i], outs, x);
      ProducedIff(env, s, decls, i, x);
    }
    assert (forall k :: 0 <= k < |outs| ==> outs[k].id !in s.data) <==> forall x :: HasId(outs, x) ==> x !in s.data;
  }

  lemma EnterLoop(env: Env, s: Symbols, n: Decl, decls: seq<Decl>, i: nat)
    requires PreparedLoop(env, s, n, decls, i)
    ensures EnterVertex(env, s, n).Some? <==> FieldsOk(env, n) && !Taken(env, decls, i, n.id) && DataFree(env, decls, i)
  {
    EnterIff(env, s, n);
    TakenIff(env, s, n, decls, i, n.id);
    if n.id !in s.nodes && FieldsOk(env, n) {
      var outs, ins := EnterIs(env, s, n);
      DataFreeIff(env, s, decls, i, outs);
    }
  }

  lemma EnterCompletes(env: Env, s: Symbols, n: Decl, decls: seq<Decl>, i: nat)
    requires PreparedLoop(env, s, n, decls, i) && EnterVertex(env, s, n).Some?
    ensures CompletedInv(env, EnterVertex(env, s, n).value, decls, i + 1)
  {
    EnterIff(env, s, n);
    var outs, ins := EnterIs(env, s, n);
    assert Completed(env, decls[i], MergeSuccessor(n).(input := ins, output := outs));
  }

  lemma {:induction false} LoopHolds(env: Env, decls: seq<Decl>, i: nat)
    requires i <= |decls| && DeclareAll(env, decls, i).Some?
    ensures LoopInv(env, DeclareAll(env, decls, i).value, decls, i)
  {
    DeclareAllKeeps(env, decls, i);
    DeclareAllLists(env, decls, i);
    DeclareAllNumbers(env, decls, i);
    if i > 0 {
      LoopHolds(env, decls, i - 1);
      var s := DeclareAll(env, decls, i - 1).value;
      PrepareLoop(env, s, decls, i - 1);
      EnterCompletes(env, Prepare(env, s, decls[i - 1]).0, Prepare(env, s, decls[i - 1]).1, decls, i - 1);
    }
  }

  lemma StepIff(env: Env, decls: seq<Decl>, i: nat)
    requires i < |decls| && DeclareAll(env, decls, i).Some?
    ensures DeclareAll(env, decls, i + 1).Some? <==> Declarable(env, decls, i)
  {
    LoopHolds(env, decls, i);
    var s := DeclareAll(env, decls, i).value;
    SettingIff(env, decls[i].expectConfig);
    PrepareLoop(env, s, decls, i);
    var p := Prepare(env, s, decls[i]);
    EnterLoop(env, p.0, p.1, decls, i);
    SameFields(env, decls[i], p.1);
    assert Prepared(env, decls, i) == if SettingsOk(env, decls[i]) then Some(p) else None;
  }

  lemma SameFields(env: Env, d: Decl, n: Decl)
    requires IsPrepared(env, d, n)
    ensures FieldsOk(env, n) <==> FieldsOk(env, d.(processor := ProcessorOf(env, d)))
  {
  }

  lemma EarlierDeclared(env: Env, decls: seq<Decl>, i: nat)
    requires i < |decls| && DeclareAll(env, decls, i + 1).Some?
    ensures DeclareAll(env, decls, i).Some?
  {
  }

  ghost predicate AllDeclarable(env: Env, decls: seq<Decl>, i: nat)
    requires i <= |decls|
  {
    forall j :: 0 <= j < i ==> Declarable(env, decls, j)
  }

  lemma AllDeclarableNext(env: Env, decls: seq<Decl>, i: nat)
    requires i < |decls|
    ensures AllDeclarable(env, decls, i + 1) <==> AllDeclarable(env, decls, i) && Declarable(env, decls, i)
  {
  }

  lemma DeclaredNext(env: Env, decls: seq<Decl>, i: nat)
    requires i < |decls|
    ensures DeclareAll(env, decls, i + 1).Some? <==> DeclareAll(env, decls, i).Some? && Declarable(env, decls, i)
  {
    if DeclareAll(env, decls, i).Some? {
      StepIff(env, decls, i);
    } else if DeclareAll(env, decls, i + 1).Some? {
      EarlierDeclared(env, decls, i);
    }
  }

  /** The declaration loop goes through exactly if every vertex can be declared after those before it. */
  lemma {:induction false} DeclaredIff(env: Env, decls: seq<Decl>, i: nat)
    requires i <= |decls|
    ensures DeclareAll(env, decls, i).Some? <==> AllDeclarable(env, decls, i)
  {
    if i == 0 {
      assert DeclareAll(env, decls, 0) == Some(Start(|decls|));
    } else {
      DeclaredIff(env, decls, i - 1);
      AllDeclarableNext(env, decls, i - 1);
      DeclaredNext(env, decls, i - 1);
    }
  }
}
