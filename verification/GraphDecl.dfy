/** From a declared graph to named, normalised vertices and the dependency requests they make. */
module GraphDecl {
  import opened Options
  import opened VertexResults
  import opened Links

  /** An input of a vertex: one datum by id, or an aggregate of several. */
  datatype Datum = Datum(id: string, field: string, aggregate: seq<string>, required: bool, isExtern: bool, isInOut: bool)

  datatype Output = Output(id: string, field: string)

  /** What a vertex declares.  The id sets are given in iteration order. */
  datatype Decl = Decl(
    id: string, processor: string, cond: string,
    expectation: string, expectDeps: seq<string>, expectConfig: string, isStart: bool,
    cluster: string, graph: string,
    successor: seq<string>, successorOnOk: seq<string>, successorOnErr: seq<string>,
    consequent: seq<string>, alternative: seq<string>,
    deps: seq<string>, depsOnOk: seq<string>, depsOnErr: seq<string>,
    select: seq<string>,
    input: seq<Datum>, output: seq<Output>)

  datatype FieldInfo = FieldInfo(name: string, isExtern: bool, isInOut: bool)

  datatype Fields = Fields(inputs: seq<FieldInfo>, outputs: seq<string>)

  /** The enclosing cluster, and the processors' fields as the factory reports them. */
  datatype Env = Env(
    cluster: string, graph: string, defaultExpr: string, strict: bool,
    configs: set<string>, processors: map<string, Fields>)

  predicate ContainsConfigSetting(env: Env, name: string) {
    if name != "" && name[0] == '!' then name[1..] in env.configs else name in env.configs
  }

  // ---------------------------------------------------------------- generated ids

  function Digits(n: nat): (d: string)
    ensures |d| > 0
  {
    if n < 10 then ["0123456789"[n]] else Digits(n / 10) + ["0123456789"[n % 10]]
  }

  function GenerateNodeId(env: Env, n: nat): string {
    env.graph + "_" + Digits(n)
  }

  lemma {:induction false} DigitsInjective(m: nat, n: nat)
    requires Digits(m) == Digits(n)
    ensures m == n
  {
    var a, b := Digits(m), Digits(n);
    assert "0123456789"[m % 10] == a[|a| - 1] == b[|b| - 1] == "0123456789"[n % 10];
    assert m % 10 == n % 10;
    if m >= 10 && n >= 10 {
      assert Digits(m / 10) == a[..|a| - 1] == b[..|b| - 1] == Digits(n / 10);
      DigitsInjective(m / 10, n / 10);
    }
  }

  /** Generated ids of one graph never clash with each other. */
  lemma GeneratedIdsDiffer(env: Env, m: nat, n: nat)
    requires m != n
    ensures GenerateNodeId(env, m) != GenerateNodeId(env, n)
  {
    if GenerateNodeId(env, m) == GenerateNodeId(env, n) {
      var p := env.graph + "_";
      assert Digits(m) == (p + Digits(m))[|p|..] == (p + Digits(n))[|p|..] == Digits(n);
      DigitsInjective(m, n);
    }
  }

  // ---------------------------------------------------------------- normalising one vertex

  /** What the declaration loop has collected: processed vertices, generated condition vertices, the id and
      data tables, the condition vertex of each `expect` text, and the next number for a generated id.
      Positions below `m` are declared vertices; `m + k` is the k-th generated one. */
  datatype Symbols = Symbols(
    m: nat, decls: seq<Decl>, gens: seq<Decl>,
    nodes: map<string, nat>, data: map<string, nat>, conds: map<string, nat>, next: nat)
  {
    function Total(): nat { m + |gens| }

    function At(p: nat): Decl
      requires |decls| == m && p < Total()
    {
      if p < m then decls[p] else gens[p - m]
    }
  }

  function Start(m: nat): Symbols {
    Symbols(m, [], [], map[], map[], map[], 0)
  }

  const NO_DECL := Decl("", "", "", "", [], "", false, "", "", [], [], [], [], [], [], [], [], [], [], [])

  /** The condition vertex generated for the first vertex that declares this `expect`. */
  function CondVertex(env: Env, id: string, n: Decl): Decl {
    var c := NO_DECL.(id := id, processor := env.defaultExpr, cond := n.expectation);
    if n.expectDeps != [] then c.(deps := n.expectDeps)
    else c.(deps := n.deps, depsOnErr := n.depsOnErr, depsOnOk := n.depsOnOk)
  }

  /** Make sure the condition vertex of n's `expect` exists; n then depends on its success. */
  function WithCond(env: Env, s: Symbols, n: Decl): (Symbols, Decl) {
    if n.expectation == "" then (s, n)
    else if n.expectation in s.conds then
      (s, n.(depsOnOk := n.depsOnOk + [CondId(s, n.expectation)]))
    else
      var id := GenerateNodeId(env, s.next);
      (s.(gens := s.gens + [CondVertex(env, id, n)], nodes := s.nodes[id := s.Total()],
          conds := s.conds[n.expectation := |s.gens|], next := s.next + 1),
       n.(depsOnOk := n.depsOnOk + [id]))
  }

  function CondId(s: Symbols, text: string): string
    requires text in s.conds
  {
    if s.conds[text] < |s.gens| then s.gens[s.conds[text]].id else ""
  }

  /** Inputs and outputs that the processor has and the declaration does not mention; in-out flags. */
  function FillInput(input: seq<Datum>, f: FieldInfo): seq<Datum> {
    if exists i :: 0 <= i < |input| && input[i].field == f.name then
      var i := FirstField(input, f.name);
      if f.isInOut then
        input[i := input[i].(isInOut := true, isExtern := input[i].isExtern || f.isExtern)]
      else input
    else input + [Datum(f.name, f.name, [], false, f.isExtern, f.isInOut)]
  }

  function FirstField(input: seq<Datum>, name: string): (i: nat)
    requires exists i :: 0 <= i < |input| && input[i].field == name
    ensures i < |input| && input[i].field == name && forall j :: 0 <= j < i ==> input[j].field != name
  {
    if input[0].field == name then 0 else
      assert exists i :: 0 <= i < |input[1..]| && input[1..][i].field == name by {
        var i :| 0 <= i < |input| && input[i].field == name;
        assert input[1..][i - 1] == input[i];
      }
      1 + FirstField(input[1..], name)
  }

  function FillInputs(input: seq<Datum>, fields: seq<FieldInfo>): seq<Datum>
    decreases |fields|
  {
    if fields == [] then input else FillInputs(FillInput(input, fields[0]), fields[1..])
  }

  /** The same datum, whatever its flags. */
  predicate SameDatum(a: Datum, b: Datum) {
    a.id == b.id && a.field == b.field && a.aggregate == b.aggregate && a.required == b.required
  }

  ghost predicate HasField(input: seq<Datum>, name: string) {
    exists i :: 0 <= i < |input| && input[i].field == name
  }

  /** A datum that the declaration does not mention is one of the processor's fields, under the field's name. */
  ghost predicate Implied(d: Datum, fields: seq<FieldInfo>) {
    d.id == d.field && d.aggregate == [] && !d.required && exists f :: f in fields && f.name == d.field
  }

  /** Filling in keeps every declared input in place, gives every field of the processor an input, and adds
      nothing but fields of the processor. */
  lemma {:induction false} FillInputsCompletes(input: seq<Datum>, fields: seq<FieldInfo>)
    ensures var r := FillInputs(input, fields);
            && |input| <= |r| && (forall i :: 0 <= i < |input| ==> SameDatum(r[i], input[i]))
            && (forall i :: |input| <= i < |r| ==> Implied(r[i], fields))
            && (forall f :: f in fields ==> HasField(r, f.name))
    decreases |fields|
  {
    if fields != [] {
      var first, rest := FillInput(input, fields[0]), fields[1..];
      FillInputsCompletes(first, rest);
      var r := FillInputs(input, fields);
      FillInputKeeps(input, fields[0]);
      var i :| 0 <= i < |first| && first[i].field == fields[0].name;
      assert r[i].field == fields[0].name;
      forall i | |input| <= i < |r|
        ensures Implied(r[i], fields)
      {
        if i >= |first| {
          assert Implied(r[i], rest);
          var f :| f in rest && f.name == r[i].field;
          assert f in fields;
        } else {
          assert SameDatum(r[i], first[i]) && fields[0] in fields;
        }
      }
      forall f | f in fields
        ensures HasField(r, f.name)
      {
        assert f == fields[0] || f in rest;
      }
    }
  }

  lemma FillInputKeeps(input: seq<Datum>, f: FieldInfo)
    ensures var r := FillInput(input, f);
            && |input| <= |r| <= |input| + 1 && (forall i :: 0 <= i < |input| ==> SameDatum(r[i], input[i]))
            && HasField(r, f.name)
            && (|r| > |input| ==> r[|input|].id == r[|input|].field == f.name)
            && (|r| > |input| ==> r[|input|].aggregate == [] && !r[|input|].required)
  {
    var r := FillInput(input, f);
    if HasField(input, f.name) {
      var i :| 0 <= i < |input| && input[i].field == f.name;
      assert r[i].field == f.name;
    } else {
      assert r[|input|].field == f.name;
    }
  }

  function FillOutputs(output: seq<Output>, fields: seq<string>): seq<Output>
    decreases |fields|
  {
    if fields == [] then output
    else if exists i :: 0 <= i < |output| && output[i].field == fields[0] then FillOutputs(output, fields[1..])
    else FillOutputs(output + [Output(fields[0], fields[0])], fields[1..])
  }

  /** Filling in leaves the declared outputs alone, gives every output field of the processor an output, and adds
      nothing but those fields, each once under its own name. */
  lemma {:induction false} FillOutputsCompletes(output: seq<Output>, fields: seq<string>)
    ensures var r := FillOutputs(output, fields);
            && output <= r
            && (forall i :: |output| <= i < |r| ==> r[i].id == r[i].field && r[i].field in fields)
            && (forall i, j :: |output| <= i < |r| && 0 <= j < i ==> r[j].field != r[i].field)
            && (forall f :: f in fields ==> HasOutput(r, f))
    decreases |fields|
  {
    if fields != [] {
      var f, rest := fields[0], fields[1..];
      var next := if HasOutput(output, f) then output else output + [Output(f, f)];
      FillOutputsCompletes(next, rest);
      var r := FillOutputs(output, fields);
      assert r == FillOutputs(next, rest);
      assert HasOutput(next, f) by {
        if !HasOutput(output, f) {
          assert next[|output|].field == f;
        }
      }
      var k :| 0 <= k < |next| && next[k].field == f;
      assert r[k].field == f;
      assert forall g :: g in fields <==> g == f || g in rest;
    }
  }

  ghost predicate HasOutput(output: seq<Output>, field: string) {
    exists i :: 0 <= i < |output| && output[i].field == field
  }

  function FillInputOutput(env: Env, n: Decl): Option<Decl> {
    if n.processor == "" then Some(n)
    else if n.processor !in env.processors then (if env.strict then None else Some(n))
    else
      var f := env.processors[n.processor];
      Some(n.(input := FillInputs(n.input, f.inputs), output := FillOutputs(n.output, f.outputs)))
  }

  /** Ids default to field names; a missing field name is an error. */
  function NameInputs(input: seq<Datum>): Option<seq<Datum>> {
    if input == [] then Some([])
    else
      var d := input[|input| - 1];
      match NameInputs(input[..|input| - 1])
      case Some(named) => if d.field == "" then None else Some(named + [NamedInput(d)])
      case None => None
  }

  function NamedInput(d: Datum): Datum {
    if d.id == "" then d.(id := d.field) else d
  }

  function NameOutputs(output: seq<Output>): Option<seq<Output>> {
    if output == [] then Some([])
    else
      var o := output[|output| - 1];
      match NameOutputs(output[..|output| - 1])
      case Some(named) => if o.field == "" then None else Some(named + [NamedOutput(o)])
      case None => None
  }

  function NamedOutput(o: Output): Output {
    if o.id == "" then o.(id := o.field) else o
  }

  lemma {:induction false} NameOutputsPointwise(output: seq<Output>)
    ensures NameOutputs(output).Some? <==> forall i :: 0 <= i < |output| ==> output[i].field != ""
    ensures NameOutputs(output).Some? ==>
              var named := NameOutputs(output).value;
              |named| == |output| && forall i :: 0 <= i < |output| ==> named[i] == NamedOutput(output[i])
  {
    if output != [] {
      NameOutputsPointwise(output[..|output| - 1]);
    }
  }

  lemma {:induction false} NameInputsPrefix(input: seq<Datum>, i: nat)
    requires i <= |input| && NameInputs(input[..i]).None?
    ensures NameInputs(input).None?
    decreases |input| - i
  {
    if i < |input| {
      assert input[..i + 1][..i] == input[..i];
      NameInputsPrefix(input, i + 1);
    } else {
      assert input[..i] == input;
    }
  }

  /** Enter the outputs of vertex p in the data table; a datum has one producer. */
  function RegisterOutputs(data: map<string, nat>, output: seq<Output>, p: nat): Option<map<string, nat>>
    decreases |output|
  {
    if output == [] then Some(data)
    else if output[0].id in data then None
    else RegisterOutputs(data[output[0].id := p], output[1..], p)
  }

  /** Default processor, id and cluster. */
  function Defaults(env: Env, next: nat, n: Decl): (Decl, nat) {
    var a := if n.processor == "" && n.cond != "" then n.(processor := env.defaultExpr) else n;
    var named := a.id != "" || a.processor != "";
    var b := if a.id != "" then a
             else if a.processor == "" then a.(id := GenerateNodeId(env, next)) else a.(id := a.processor);
    var c := if b.graph != "" && (b.cluster == "." || b.cluster == "") then b.(cluster := env.cluster) else b;
    (c, if named then next else next + 1)
  }

  /** No vertex is left without an id. */
  lemma EveryVertexGetsAnId(env: Env, next: nat, n: Decl)
    ensures var (d, next') := Defaults(env, next, n);
            && d.id != "" && (n.id != "" ==> d.id == n.id)
            && (next' != next ==> d.id == GenerateNodeId(env, next) && next' == next + 1)
  {
    assert GenerateNodeId(env, next)[|env.graph|] == '_';
  }

  /** `IsCondVertex`: the failures of such a vertex are never ignored. */
  predicate IsCondVertex(n: Decl) {
    n.cond != "" || n.consequent != [] || n.alternative != []
  }

  function MergeSuccessor(n: Decl): Decl {
    n.(successorOnOk := n.successorOnOk + n.consequent, successorOnErr := n.successorOnErr + n.alternative)
  }

  /** Enter a vertex under its id, complete its fields and register its outputs. */
  function EnterVertex(env: Env, s: Symbols, d: Decl): Option<Symbols> {
    if d.id in s.nodes then None
    else
      match FillInputOutput(env, MergeSuccessor(d))
      case None => None
      case Some(n) =>
        match (NameOutputs(n.output), NameInputs(n.input))
        case (Some(outs), Some(ins)) =>
          (match RegisterOutputs(s.data, outs, |s.decls|)
           case None => None
           case Some(data) =>
             Some(s.(nodes := s.nodes[d.id := |s.decls|], data := data,
                     decls := s.decls + [n.(input := ins, output := outs)])))
        case _ => None
  }

  /** An `expect` excludes an `expect_config`, which has to name a config setting. */
  predicate SettingsOk(env: Env, n: Decl) {
    if n.expectation != "" then n.expectConfig == ""
    else n.expectConfig == "" || ContainsConfigSetting(env, n.expectConfig)
  }

  /** The vertex with its defaults and its condition vertex, ready to be entered. */
  function Prepare(env: Env, s: Symbols, n: Decl): (Symbols, Decl) {
    var (d, next) := Defaults(env, s.next, n);
    WithCond(env, s.(next := next), d)
  }

  /** One turn of the declaration loop of `Graph::Build`. */
  function DeclareVertex(env: Env, s: Symbols, n: Decl): Option<Symbols> {
    if !SettingsOk(env, n) then None
    else
      var p := Prepare(env, s, n);
      EnterVertex(env, p.0, p.1)
  }

  /** The declaration loop: vertex i - 1 is prepared in what the vertices before it left behind, and entered. */
  function DeclareAll(env: Env, decls: seq<Decl>, i: nat): Option<Symbols>
    requires i <= |decls|
    decreases i, 0
  {
    if i == 0 then Some(Start(|decls|))
    else
      match Prepared(env, decls, i - 1)
      case None => None
      case Some(p) => EnterVertex(env, p.0, p.1)
  }

  function Prepared(env: Env, decls: seq<Decl>, i: nat): Option<(Symbols, Decl)>
    requires i < |decls|
    decreases i, 1
  {
    match DeclareAll(env, decls, i)
    case None => None
    case Some(s) => if SettingsOk(env, decls[i]) then Some(Prepare(env, s, decls[i])) else None
  }

  // ---------------------------------------------------------------- the requests of one vertex

  function DepRequests(nodes: map<string, nat>, names: seq<string>, p: nat, e: VertexResult): Option<seq<Request>> {
    if names == [] then Some([])
    else if names[|names| - 1] !in nodes then None
    else
      match DepRequests(nodes, names[..|names| - 1], p, e)
      case None => None
      case Some(rs) => Some(rs + [Request(nodes[names[|names| - 1]], p, e)])
  }

  function SuccRequests(nodes: map<string, nat>, names: seq<string>, p: nat, e: VertexResult): Option<seq<Request>> {
    if names == [] then Some([])
    else if names[|names| - 1] !in nodes then None
    else
      match SuccRequests(nodes, names[..|names| - 1], p, e)
      case None => None
      case Some(rs) => Some(rs + [Request(p, nodes[names[|names| - 1]], e)])
  }

  /** The data ids an input refers to, each with the exemption of a vertex reading its own in-out datum. */
  function InputMask(d: Datum): VertexResult {
    if d.required then V_RESULT_OK else V_RESULT_ALL
  }

  function AggregateRequests(data: map<string, nat>, d: Datum, ids: seq<string>, p: nat): Option<seq<Request>> {
    if ids == [] then Some([])
    else
      match AggregateRequests(data, d, ids[..|ids| - 1], p)
      case None => None
      case Some(rs) =>
        var id := ids[|ids| - 1];
        if id in data then Some(rs + [Request(data[id], p, InputMask(d))])
        else if d.isExtern then Some(rs) else None
  }

  function InputRequest(data: map<string, nat>, d: Datum, p: nat): Option<seq<Request>> {
    if d.aggregate != [] then AggregateRequests(data, d, d.aggregate, p)
    else if d.id !in data then (if d.isExtern then Some([]) else None)
    else if d.isInOut && data[d.id] == p then Some([])
    else Some([Request(data[d.id], p, InputMask(d))])
  }

  function InputRequests(data: map<string, nat>, input: seq<Datum>, p: nat): Option<seq<Request>> {
    if input == [] then Some([])
    else
      match (InputRequests(data, input[..|input| - 1], p), InputRequest(data, input[|input| - 1], p))
      case (Some(rs), Some(qs)) => Some(rs + qs)
      case _ => None
  }

  function Join(a: Option<seq<Request>>, b: Option<seq<Request>>): Option<seq<Request>> {
    match (a, b)
    case (Some(x), Some(y)) => Some(x + y)
    case _ => None
  }

  function NamedDeps(nodes: map<string, nat>, n: Decl, p: nat): Option<seq<Request>> {
    Join(DepRequests(nodes, n.deps, p, V_RESULT_ALL),
         Join(DepRequests(nodes, n.depsOnOk, p, V_RESULT_OK), DepRequests(nodes, n.depsOnErr, p, V_RESULT_ERR)))
  }

  function NamedSuccs(nodes: map<string, nat>, n: Decl, p: nat): Option<seq<Request>> {
    Join(SuccRequests(nodes, n.successor, p, V_RESULT_ALL),
         Join(SuccRequests(nodes, n.successorOnOk, p, V_RESULT_OK), SuccRequests(nodes, n.successorOnErr, p, V_RESULT_ERR)))
  }

  /** `Vertex::Build`: the `Depend` calls of vertex p in order, or failure. */
  function VertexRequests(env: Env, nodes: map<string, nat>, data: map<string, nat>, n: Decl, p: nat): Option<seq<Request>> {
    if n.processor == "" && n.graph == "" then None
    else if exists i :: 0 <= i < |n.select| && !ContainsConfigSetting(env, n.select[i]) then None
    else Join(NamedDeps(nodes, n, p), Join(NamedSuccs(nodes, n, p), InputRequests(data, n.input, p)))
  }

  /** The requests of the first i vertices. */
  function AllRequests(env: Env, s: Symbols, i: nat): Option<seq<Request>>
    requires |s.decls| == s.m && i <= s.Total()
  {
    if i == 0 then Some([])
    else Join(AllRequests(env, s, i - 1), VertexRequests(env, s.nodes, s.data, s.At(i - 1), i - 1))
  }
}
