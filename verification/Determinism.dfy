/** Schedule independence: with the environment fixed per vertex, every complete interleaving leaves the
    results, codes and data of one sequential, recursive evaluation of the graph. */
module Determinism {
  import opened Options
  import opened VertexResults
  import opened Digraph
  import opened Protocol
  import opened RunInvariant
  import opened RunTheorems

  /** What the vertices do, as functions of what they read.  `gate[v]`: v has a target and its configured
      condition holds.  `consumes[v]` and `produces[v]`: the data it injects and publishes.  `extern`: data
      found outside the graph's own table.  `inject`: whether injection succeeds; `run`: the return code
      and the published values of v's processor. */
  datatype Behaviour = Behaviour(
    gate: seq<bool>,
    consumes: seq<seq<DataId>>,
    produces: seq<set<DataId>>,
    extern: map<DataId, Value>,
    inject: (nat, seq<Option<Value>>) -> bool,
    run: (nat, seq<Option<Value>>) -> (int, map<DataId, Value>))

  /** What the graph compiler establishes (see GraphBuild): one producer per data id, and an edge from the
      producer to every reader. */
  ghost predicate Fits(g: Graph, b: Behaviour) {
    && |b.gate| == |b.consumes| == |b.produces| == g.N()
    && (forall v: nat, ins :: v < g.N() ==> b.run(v, ins).1.Keys <= b.produces[v])
    && (forall u, v, d :: 0 <= u < g.N() && 0 <= v < g.N() && d in b.produces[u] && d in b.produces[v] ==> u == v)
    && (forall u, v, d :: 0 <= u < g.N() && 0 <= v < g.N() && d in b.produces[u] && d in b.consumes[v] ==> u in g.deps[v])
  }

  /** A graph that runs one round and has no early exit. */
  predicate SingleRound(g: Graph) {
    !g.earlyExit && g.whileVertex.None? && forall x :: x in g.options ==> !x.earlyExit
  }

  ghost predicate Runnable(g: Graph, b: Behaviour) {
    WellFormed(g) && Acyclic(Edges(g)) && SingleRound(g) && Fits(g, b)
  }

  function Find(table: map<DataId, Value>, extern: map<DataId, Value>, d: DataId): Option<Value> {
    if d in table then Some(table[d]) else if d in extern then Some(extern[d]) else None
  }

  function ReadAll(table: map<DataId, Value>, extern: map<DataId, Value>, ids: seq<DataId>): seq<Option<Value>> {
    seq(|ids|, j requires 0 <= j < |ids| => Find(table, extern, ids[j]))
  }

  /** The environment's choices in this action are the ones the behaviour dictates. */
  ghost predicate Faithful(g: Graph, b: Behaviour, s: State, a: Action)
    requires Runnable(g, b) && Shape(g, s) && Enabled(g, s, a)
  {
    match a
    case Begin(v, gate, inputs, injected) =>
      gate == b.gate[v] && inputs == ReadAll(s.table, b.extern, b.consumes[v]) && injected == b.inject(v, inputs)
    case Finish(v, rc, outs) => outs.Keys <= b.produces[v] && (rc, NonNull(outs)) == b.run(v, s.vs[v].phase.inputs)
    case _ => true
  }

  ghost predicate FaithfulSchedule(g: Graph, b: Behaviour, r: Run)
    requires Runnable(g, b) && Schedule(g, r)
  {
    match r
    case Start => true
    case Then(before, a) => FaithfulSchedule(g, b, before) && Faithful(g, b, After(g, before), a)
  }

  // ---------------------------------------------------------------- the sequential evaluator

  datatype Outcome = Outcome(result: VertexResult, code: int, outs: map<DataId, Value>)

  /** The outcome of v by recursion over its dependencies, in topological order. */
  ghost function Eval(g: Graph, b: Behaviour, v: nat): Outcome
    requires Runnable(g, b) && v < g.N()
    decreases Rank(Edges(g), v), 3
  {
    if !EvalMatches(g, b, v) then
      Outcome(if g.skipAsError then V_RESULT_ERR else V_RESULT_SKIP, V_CODE_SKIP, map[])
    else
      var ins := EvalInputs(g, b, v);
      if !b.inject(v, ins) then Outcome(V_RESULT_ERR, V_CODE_SKIP, map[])
      else
        var (rc, outs) := b.run(v, ins);
        var code := FinalCode(g, v, rc);
        if code == 0 then Outcome(V_RESULT_OK, code, outs) else Outcome(V_RESULT_ERR, code, map[])
  }

  ghost function EvalDep(g: Graph, b: Behaviour, v: nat, k: nat): Outcome
    requires Runnable(g, b) && v < g.N() && k < |g.deps[v]|
    decreases Rank(Edges(g), v), 0
  {
    assert SlotAt(g, v, k, Position(g, v, k));
    assert (g.deps[v][k], v) in Edges(g);
    RankClimbs(Edges(g), g.deps[v][k], v);
    Eval(g, b, g.deps[v][k])
  }

  ghost predicate EvalMatches(g: Graph, b: Behaviour, v: nat)
    requires Runnable(g, b) && v < g.N()
    decreases Rank(Edges(g), v), 1
  {
    b.gate[v] && forall k :: 0 <= k < |g.deps[v]| ==> Meets(EvalDep(g, b, v, k).result, g.expected[v][k])
  }

  /** A data id is found with the dependency that published it, or else outside the graph. */
  ghost function EvalRead(g: Graph, b: Behaviour, v: nat, d: DataId): Option<Value>
    requires Runnable(g, b) && v < g.N()
    decreases Rank(Edges(g), v), 1
  {
    if exists k :: 0 <= k < |g.deps[v]| && d in EvalDep(g, b, v, k).outs then
      var k :| 0 <= k < |g.deps[v]| && d in EvalDep(g, b, v, k).outs;
      Some(EvalDep(g, b, v, k).outs[d])
    else if d in b.extern then Some(b.extern[d]) else None
  }

  ghost function EvalInputs(g: Graph, b: Behaviour, v: nat): seq<Option<Value>>
    requires Runnable(g, b) && v < g.N()
    decreases Rank(Edges(g), v), 2
  {
    seq(|b.consumes[v]|, j requires 0 <= j < |b.consumes[v]| => EvalRead(g, b, v, b.consumes[v][j]))
  }

  lemma OutsAreOutputs(g: Graph, b: Behaviour, v: nat)
    requires Runnable(g, b) && v < g.N()
    ensures Eval(g, b, v).outs.Keys <= b.produces[v]
  {
  }

  // ---------------------------------------------------------------- agreement during the run

  ghost predicate VertexAgrees(g: Graph, b: Behaviour, s: State, v: nat)
    requires Runnable(g, b) && Shape(g, s) && v < g.N()
  {
    var x, e := s.vs[v], Eval(g, b, v);
    && (Recorded(x.phase) ==> x.result == e.result && x.code == e.code && Published(s.table, e.outs))
    && (x.phase.Running? ==>
          EvalMatches(g, b, v) && x.phase.inputs == EvalInputs(g, b, v) && b.inject(v, x.phase.inputs))
  }

  ghost predicate Published(table: map<DataId, Value>, outs: map<DataId, Value>) {
    forall d :: d in outs ==> d in table && table[d] == outs[d]
  }

  ghost predicate HasProducer(g: Graph, b: Behaviour, s: State, d: DataId)
    requires Runnable(g, b) && Shape(g, s)
  {
    exists v :: 0 <= v < g.N() && Recorded(s.vs[v].phase) && d in Eval(g, b, v).outs
  }

  ghost predicate Agrees(g: Graph, b: Behaviour, s: State)
    requires Runnable(g, b) && Shape(g, s)
  {
    && s.early == 0
    && (forall v {:trigger VertexAgrees(g, b, s, v)} :: 0 <= v < g.N() ==> VertexAgrees(g, b, s, v))
    && (forall d :: d in s.table ==> HasProducer(g, b, s, d))
  }

  /** When a vertex is entered, each of its dependencies has recorded its result and handed it over. */
  lemma DepsAreRecorded(g: Graph, s: State, v: nat, k: nat)
    requires WellFormed(g) && Inv(g, s) && v < g.N() && k < |g.deps[v]| && !s.vs[v].phase.Waiting?
    ensures g.deps[v][k] < g.N()
    ensures s.vs[g.deps[v][k]].phase.Notifying? && s.vs[v].slots[k] == s.vs[g.deps[v][k]].result
  {
    assert SlotAt(g, v, k, Position(g, v, k));
    assert VertexInv(g, s, v) && SlotInv(g, s, v, k) && VertexInv(g, s, g.deps[v][k]);
    assert k !in EmptySlots(s.vs[v].slots);
  }

  /** A vertex that injects its inputs finds the one in-graph producer of each already finished: its data
      is in the table for good, or will never be. */
  lemma ProducersFinishedBeforeReaders(g: Graph, b: Behaviour, r: Run, v: nat, d: DataId, u: nat)
    requires Runnable(g, b) && Schedule(g, r) && v < g.N() && u < g.N()
    requires d in b.consumes[v] && d in b.produces[u] && !After(g, r).vs[v].phase.Waiting?
    ensures After(g, r).vs[u].phase.Notifying?
  {
    ScheduleInv(g, r);
    assert u in g.deps[v];
    var k :| 0 <= k < |g.deps[v]| && g.deps[v][k] == u;
    DepsAreRecorded(g, After(g, r), v, k);
  }

  /** What a queued vertex sees in its slots and in the table is what the evaluator computes. */
  lemma ReaderSeesEval(g: Graph, b: Behaviour, s: State, v: nat)
    requires Runnable(g, b) && Inv(g, s) && Agrees(g, b, s) && v < g.N() && s.vs[v].phase.Queued?
    ensures MayRun(g, s, v, b.gate[v]) <==> EvalMatches(g, b, v)
    ensures ReadAll(s.table, b.extern, b.consumes[v]) == EvalInputs(g, b, v)
  {
    forall k | 0 <= k < |g.deps[v]|
      ensures s.vs[v].slots[k] == EvalDep(g, b, v, k).result
    {
      DepsAreRecorded(g, s, v, k);
      assert VertexAgrees(g, b, s, g.deps[v][k]);
    }
    forall j | 0 <= j < |b.consumes[v]|
      ensures Find(s.table, b.extern, b.consumes[v][j]) == EvalRead(g, b, v, b.consumes[v][j])
    {
      ReadSeesEval(g, b, s, v, b.consumes[v][j]);
    }
  }

  lemma ReadSeesEval(g: Graph, b: Behaviour, s: State, v: nat, d: DataId)
    requires Runnable(g, b) && Inv(g, s) && Agrees(g, b, s) && v < g.N() && s.vs[v].phase.Queued? && d in b.consumes[v]
    ensures Find(s.table, b.extern, d) == EvalRead(g, b, v, d)
  {
    forall k | 0 <= k < |g.deps[v]| && d in EvalDep(g, b, v, k).outs
      ensures d in s.table && s.table[d] == EvalDep(g, b, v, k).outs[d]
    {
      DepsAreRecorded(g, s, v, k);
      assert VertexAgrees(g, b, s, g.deps[v][k]);
    }
    if d in s.table {
      var k := ProducerSlot(g, b, s, v, d);
    }
  }

  /** A datum in the table that v reads came from one of v's dependencies. */
  lemma ProducerSlot(g: Graph, b: Behaviour, s: State, v: nat, d: DataId) returns (k: nat)
    requires Runnable(g, b) && Shape(g, s) && Agrees(g, b, s) && v < g.N() && d in b.consumes[v] && d in s.table
    ensures k < |g.deps[v]| && d in EvalDep(g, b, v, k).outs
  {
    assert HasProducer(g, b, s, d);
    var u: nat :| u < g.N() && Recorded(s.vs[u].phase) && d in Eval(g, b, u).outs;
    OutsAreOutputs(g, b, u);
    k := ReaderSlot(g, b, u, v, d);
  }

  lemma ReaderSlot(g: Graph, b: Behaviour, u: nat, v: nat, d: DataId) returns (k: nat)
    requires Fits(g, b) && u < g.N() && v < g.N() && d in b.produces[u] && d in b.consumes[v]
    ensures k < |g.deps[v]| && g.deps[v][k] == u
  {
    assert u in g.deps[v];
    k :| 0 <= k < |g.deps[v]| && g.deps[v][k] == u;
  }

  lemma AgreementFrame(g: Graph, b: Behaviour, s: State, t: State, v: nat)
    requires Runnable(g, b) && Shape(g, s) && Shape(g, t) && Agrees(g, b, s) && v < g.N()
    requires t.early == 0 && t.table == s.table && VertexAgrees(g, b, t, v)
    requires forall w :: 0 <= w < g.N() && w != v ==>
      && t.vs[w].result == s.vs[w].result && t.vs[w].code == s.vs[w].code
      && (Recorded(t.vs[w].phase) <==> Recorded(s.vs[w].phase))
      && (t.vs[w].phase.Running? ==> t.vs[w].phase == s.vs[w].phase)
    requires Recorded(s.vs[v].phase) ==> Recorded(t.vs[v].phase)
    ensures Agrees(g, b, t)
  {
    forall w | 0 <= w < g.N()
      ensures VertexAgrees(g, b, t, w)
    {
      assert VertexAgrees(g, b, s, w);
    }
    forall d | d in t.table
      ensures HasProducer(g, b, t, d)
    {
      assert HasProducer(g, b, s, d);
      var u :| 0 <= u < g.N() && Recorded(s.vs[u].phase) && d in Eval(g, b, u).outs;
      assert Recorded(t.vs[u].phase);
    }
  }

  lemma BeginAgrees(g: Graph, b: Behaviour, s: State, a: Action)
    requires Runnable(g, b) && Inv(g, s) && Agrees(g, b, s) && Enabled(g, s, a) && Faithful(g, b, s, a) && a.Begin?
    ensures Shape(g, Step(g, s, a)) && Agrees(g, b, Step(g, s, a))
  {
    StepKeepsShape(g, s, a);
    ReaderSeesEval(g, b, s, a.v);
    assert VertexInv(g, s, a.v);
    AgreementFrame(g, b, s, Step(g, s, a), a.v);
  }

  /** A vertex that has not finished has published nothing, so the nulls that it publishes clear nothing. */
  lemma NullsClearNothing(g: Graph, b: Behaviour, s: State, v: nat, outs: map<DataId, Option<Value>>)
    requires Runnable(g, b) && Shape(g, s) && Agrees(g, b, s) && v < g.N() && !Recorded(s.vs[v].phase)
    requires outs.Keys <= b.produces[v]
    ensures Written(s.table, outs) == s.table + NonNull(outs)
  {
    forall d | d in outs
      ensures d !in s.table
    {
      assert forall u: nat :: u < g.N() && d in Eval(g, b, u).outs ==> u == v by {
        forall u: nat | u < g.N() && d in Eval(g, b, u).outs
          ensures d in b.produces[u]
        {
          OutsAreOutputs(g, b, u);
        }
      }
      assert d in s.table ==> HasProducer(g, b, s, d);
    }
  }

  /** The recorded outcome of a processor that did what the behaviour dictates. */
  lemma FinishOutcome(g: Graph, b: Behaviour, s: State, v: nat, rc: int, outs: map<DataId, Option<Value>>)
    requires Runnable(g, b) && Shape(g, s) && v < g.N() && s.vs[v].phase.Running? && s.vs[v].result == V_RESULT_INVALID
    requires VertexAgrees(g, b, s, v) && (rc, NonNull(outs)) == b.run(v, s.vs[v].phase.inputs)
    ensures var x, e := FinishVertex(g, s.vs[v], v, rc), Eval(g, b, v);
            x.result == e.result && x.code == e.code == FinalCode(g, v, rc)
            && e.outs == (if FinalCode(g, v, rc) == 0 then NonNull(outs) else map[])
  {
  }

  lemma FinishTable(g: Graph, b: Behaviour, s: State, v: nat, rc: int, outs: map<DataId, Option<Value>>, e: Outcome)
    requires Runnable(g, b) && Shape(g, s) && Agrees(g, b, s) && v < g.N() && s.vs[v].phase.Running?
    requires outs.Keys <= b.produces[v] && e.outs == (if FinalCode(g, v, rc) == 0 then NonNull(outs) else map[])
    ensures (if FinalCode(g, v, rc) == 0 then Written(s.table, outs) else s.table) == s.table + e.outs
  {
    NullsClearNothing(g, b, s, v, outs);
  }

  lemma FinishIs(g: Graph, b: Behaviour, s: State, a: Action)
    requires Runnable(g, b) && Inv(g, s) && Agrees(g, b, s) && Enabled(g, s, a) && Faithful(g, b, s, a) && a.Finish?
    ensures var t, v, e := Step(g, s, a), a.v, Eval(g, b, a.v);
            t.vs[v].result == e.result && t.vs[v].code == e.code && t.table == s.table + e.outs && t.early == 0
  {
    assert g.options[a.v] in g.options;
    assert VertexAgrees(g, b, s, a.v) && VertexInv(g, s, a.v);
    FinishOutcome(g, b, s, a.v, a.rc, a.outs);
    FinishTable(g, b, s, a.v, a.rc, a.outs, Eval(g, b, a.v));
  }

  lemma FinishAgrees(g: Graph, b: Behaviour, s: State, a: Action)
    requires Runnable(g, b) && Inv(g, s) && Agrees(g, b, s) && Enabled(g, s, a) && Faithful(g, b, s, a) && a.Finish?
    ensures Shape(g, Step(g, s, a)) && Agrees(g, b, Step(g, s, a))
  {
    StepKeepsShape(g, s, a);
    FinishIs(g, b, s, a);
    var t := Step(g, s, a);
    PublishedAgrees(g, b, s, t, a.v);
  }

  lemma StillAgrees(g: Graph, b: Behaviour, s: State, t: State, v: nat, w: nat)
    requires Runnable(g, b) && Shape(g, s) && Shape(g, t) && v < g.N() && w < g.N() && VertexAgrees(g, b, s, w)
    requires w != v ==> t.vs[w] == s.vs[w]
    requires var e := Eval(g, b, v); t.vs[v].result == e.result && t.vs[v].code == e.code && t.table == s.table + e.outs
    requires Recorded(t.vs[v].phase)
    ensures VertexAgrees(g, b, t, w)
  {
    OutsAreOutputs(g, b, v);
    OutsAreOutputs(g, b, w);
  }

  lemma StillProduced(g: Graph, b: Behaviour, s: State, t: State, v: nat, d: DataId)
    requires Runnable(g, b) && Shape(g, s) && Shape(g, t) && v < g.N()
    requires forall w :: 0 <= w < g.N() && w != v ==> t.vs[w] == s.vs[w]
    requires Recorded(t.vs[v].phase) && (d in Eval(g, b, v).outs || HasProducer(g, b, s, d))
    ensures HasProducer(g, b, t, d)
  {
    if d !in Eval(g, b, v).outs {
      var u :| 0 <= u < g.N() && Recorded(s.vs[u].phase) && d in Eval(g, b, u).outs;
      assert Recorded(t.vs[u].phase);
    }
  }

  /** v recorded the evaluator's outcome and published its data; nothing else changed. */
  lemma PublishedAgrees(g: Graph, b: Behaviour, s: State, t: State, v: nat)
    requires Runnable(g, b) && Shape(g, s) && Shape(g, t) && Agrees(g, b, s) && v < g.N()
    requires forall w :: 0 <= w < g.N() && w != v ==> t.vs[w] == s.vs[w]
    requires var e := Eval(g, b, v);
             t.vs[v].result == e.result && t.vs[v].code == e.code && t.table == s.table + e.outs && t.early == 0
    requires Recorded(t.vs[v].phase)
    ensures Agrees(g, b, t)
  {
    forall w | 0 <= w < g.N()
      ensures VertexAgrees(g, b, t, w)
    {
      StillAgrees(g, b, s, t, v, w);
    }
    forall d | d in t.table
      ensures HasProducer(g, b, t, d)
    {
      StillProduced(g, b, s, t, v, d);
    }
  }

  lemma OtherAgrees(g: Graph, b: Behaviour, s: State, a: Action)
    requires Runnable(g, b) && Inv(g, s) && Agrees(g, b, s) && Enabled(g, s, a) && !a.Begin? && !a.Finish?
    ensures Shape(g, Step(g, s, a)) && Agrees(g, b, Step(g, s, a))
  {
    StepKeepsShape(g, s, a);
    OtherStepIs(g, s, a);
    assert VertexAgrees(g, b, s, a.v);
    AgreementFrame(g, b, s, Step(g, s, a), a.v);
  }

  /** Such a step changes no result, code or datum, and moves only its own vertex between recorded phases or
      towards running. */
  lemma OtherStepIs(g: Graph, s: State, a: Action)
    requires WellFormed(g) && g.whileVertex.None? && Inv(g, s) && Enabled(g, s, a) && !a.Begin? && !a.Finish?
    ensures Shape(g, Step(g, s, a))
    ensures var t := Step(g, s, a);
            && t.early == s.early && t.table == s.table
            && forall w :: 0 <= w < g.N() ==>
                 && t.vs[w].result == s.vs[w].result && t.vs[w].code == s.vs[w].code
                 && (Recorded(t.vs[w].phase) <==> Recorded(s.vs[w].phase))
                 && (t.vs[w].phase.Running? ==> t.vs[w].phase == s.vs[w].phase)
  {
    StepKeepsShape(g, s, a);
    if a.Notify? {
      NotifyFindsEmptySlot(g, s, a.v);
    }
  }

  lemma {:induction false} ScheduleAgrees(g: Graph, b: Behaviour, r: Run)
    requires Runnable(g, b) && Schedule(g, r) && FaithfulSchedule(g, b, r)
    ensures Agrees(g, b, After(g, r))
  {
    match r
    case Start =>
    case Then(before, a) =>
      ScheduleAgrees(g, b, before);
      ScheduleInv(g, before);
      if a.Begin? {
        BeginAgrees(g, b, After(g, before), a);
      } else if a.Finish? {
        FinishAgrees(g, b, After(g, before), a);
      } else {
        OtherAgrees(g, b, After(g, before), a);
      }
  }

  // ---------------------------------------------------------------- the theorems

  /** The data table the sequential evaluator leaves. */
  ghost function FinalTable(g: Graph, b: Behaviour): map<DataId, Value>
    requires Runnable(g, b)
  {
    TableUpTo(g, b, g.N())
  }

  ghost function TableUpTo(g: Graph, b: Behaviour, n: nat): map<DataId, Value>
    requires Runnable(g, b) && n <= g.N()
  {
    if n == 0 then map[] else TableUpTo(g, b, n - 1) + Eval(g, b, n - 1).outs
  }

  lemma {:induction false} TableHasOutputs(g: Graph, b: Behaviour, n: nat, v: nat, d: DataId)
    requires Runnable(g, b) && v < n <= g.N() && d in Eval(g, b, v).outs
    ensures d in TableUpTo(g, b, n) && TableUpTo(g, b, n)[d] == Eval(g, b, v).outs[d]
  {
    OutsAreOutputs(g, b, n - 1);
    OutsAreOutputs(g, b, v);
    if v < n - 1 {
      TableHasOutputs(g, b, n - 1, v, d);
    }
  }

  lemma {:induction false} TableHasOnlyOutputs(g: Graph, b: Behaviour, n: nat, d: DataId) returns (v: nat)
    requires Runnable(g, b) && n <= g.N() && d in TableUpTo(g, b, n)
    ensures v < n && d in Eval(g, b, v).outs
  {
    if d in Eval(g, b, n - 1).outs {
      v := n - 1;
    } else {
      v := TableHasOnlyOutputs(g, b, n - 1, d);
    }
  }

  lemma DatumReached(g: Graph, b: Behaviour, s: State, d: DataId)
    requires Runnable(g, b) && Shape(g, s) && Agrees(g, b, s)
    requires forall v :: 0 <= v < g.N() ==> Recorded(s.vs[v].phase)
    ensures d in s.table <==> d in FinalTable(g, b)
    ensures d in s.table ==> s.table[d] == FinalTable(g, b)[d]
  {
    if d in FinalTable(g, b) {
      var v := TableHasOnlyOutputs(g, b, g.N(), d);
      TableHasOutputs(g, b, g.N(), v, d);
      assert VertexAgrees(g, b, s, v);
    } else if d in s.table {
      assert HasProducer(g, b, s, d);
      var v :| 0 <= v < g.N() && Recorded(s.vs[v].phase) && d in Eval(g, b, v).outs;
      TableHasOutputs(g, b, g.N(), v, d);
    }
  }

  lemma FinalTableReached(g: Graph, b: Behaviour, s: State)
    requires Runnable(g, b) && Shape(g, s) && Agrees(g, b, s)
    requires forall v :: 0 <= v < g.N() ==> Recorded(s.vs[v].phase)
    ensures s.table == FinalTable(g, b)
  {
    forall d
      ensures d in s.table <==> d in FinalTable(g, b)
      ensures d in s.table ==> s.table[d] == FinalTable(g, b)[d]
    {
      DatumReached(g, b, s, d);
    }
  }

  lemma CompleteIsRecorded(g: Graph, r: Run)
    requires WellFormed(g) && Acyclic(Edges(g)) && Complete(g, r)
    ensures forall v :: 0 <= v < g.N() ==> Recorded(After(g, r).vs[v].phase)
    ensures After(g, r).calls == [After(g, r).early]
  {
    var c := CompleteRunIsDone(g, r);
  }

  /** Every complete interleaving ends with the results, codes and data table of the sequential evaluator,
      and with one completion call carrying code 0. */
  lemma ScheduleIndependence(g: Graph, b: Behaviour, r: Run)
    requires Runnable(g, b) && Complete(g, r) && FaithfulSchedule(g, b, r)
    ensures var s := After(g, r);
            && (forall v :: 0 <= v < g.N() ==> s.vs[v].result == Eval(g, b, v).result && s.vs[v].code == Eval(g, b, v).code)
            && s.table == FinalTable(g, b)
            && s.calls == [0]
  {
    CompleteIsRecorded(g, r);
    ScheduleAgrees(g, b, r);
    FinalTableReached(g, b, After(g, r));
    AgreedResults(g, b, After(g, r));
  }

  lemma AgreedResults(g: Graph, b: Behaviour, s: State)
    requires Runnable(g, b) && Shape(g, s) && Agrees(g, b, s)
    requires forall v :: 0 <= v < g.N() ==> Recorded(s.vs[v].phase)
    ensures forall v :: 0 <= v < g.N() ==> s.vs[v].result == Eval(g, b, v).result && s.vs[v].code == Eval(g, b, v).code
  {
    forall v | 0 <= v < g.N()
      ensures s.vs[v].result == Eval(g, b, v).result && s.vs[v].code == Eval(g, b, v).code
    {
      assert VertexAgrees(g, b, s, v);
    }
  }

  /** Two complete runs from the same external data end with the same results, codes and data table. */
  lemma RunsAgree(g: Graph, b: Behaviour, r: Run, r': Run)
    requires Runnable(g, b) && Complete(g, r) && FaithfulSchedule(g, b, r)
    requires Complete(g, r') && FaithfulSchedule(g, b, r')
    ensures var s, t := After(g, r), After(g, r');
            && s.table == t.table && s.calls == t.calls
            && forall v :: 0 <= v < g.N() ==>
                 s.vs[v].result == t.vs[v].result && s.vs[v].code == t.vs[v].code && s.vs[v].slots == t.vs[v].slots
  {
    ScheduleIndependence(g, b, r);
    ScheduleIndependence(g, b, r');
    var c := CompleteRunIsDone(g, r);
    var c' := CompleteRunIsDone(g, r');
    var s, t := After(g, r), After(g, r');
    forall v | 0 <= v < g.N()
      ensures s.vs[v].slots == t.vs[v].slots
    {
      SameSlots(g, s, t, c, c', v);
    }
  }

  /** At the end every slot holds its source's result, so equal results make equal slots. */
  lemma SameSlots(g: Graph, s: State, t: State, c: nat, c': nat, v: nat)
    requires WellFormed(g) && Shape(g, s) && Shape(g, t) && c < g.N() && c' < g.N() && v < g.N()
    requires Quiescent(g, s, c) && Quiescent(g, t, c')
    requires forall u :: 0 <= u < g.N() ==> s.vs[u].result == t.vs[u].result
    ensures s.vs[v].slots == t.vs[v].slots
  {
    forall k | 0 <= k < |g.deps[v]|
      ensures s.vs[v].slots[k] == t.vs[v].slots[k]
    {
      assert SlotAt(g, v, k, Position(g, v, k));
    }
  }

  // ---------------------------------------------------------------- fixed return codes

  /** The environment fixed by vertex alone: the gate, whether injection succeeds, and the return code.
      Nothing is assumed about what is read, moved or published. */
  datatype Fixed = Fixed(gate: bool, injected: bool, rc: int)

  predicate FollowsCodes(fixed: seq<Fixed>, a: Action) {
    && (a.Begin? ==> a.v < |fixed| && a.gate == fixed[a.v].gate && a.injected == fixed[a.v].injected)
    && (a.Finish? ==> a.v < |fixed| && a.rc == fixed[a.v].rc)
  }

  predicate RunFollowsCodes(fixed: seq<Fixed>, r: Run) {
    match r
    case Start => true
    case Then(before, a) => RunFollowsCodes(fixed, before) && FollowsCodes(fixed, a)
  }

  function CodesOnly(fixed: seq<Fixed>): Behaviour {
    Behaviour(
      seq(|fixed|, v requires 0 <= v < |fixed| => fixed[v].gate),
      seq(|fixed|, _ => []),
      seq(|fixed|, _ => {}),
      map[],
      (v: nat, ins: seq<Option<Value>>) => v < |fixed| && fixed[v].injected,
      (v: nat, ins: seq<Option<Value>>) => (if v < |fixed| then fixed[v].rc else 0, map[]))
  }

  function EraseAction(a: Action): Action {
    match a
    case Begin(v, gate, _, injected) => Begin(v, gate, [], injected)
    case Finish(v, rc, _) => Finish(v, rc, map[])
    case _ => a
  }

  function EraseRun(r: Run): Run {
    match r
    case Start => Start
    case Then(before, a) => Then(EraseRun(before), EraseAction(a))
  }

  function EraseVertex(x: VertexState): VertexState {
    if x.phase.Running? then x.(phase := Running([])) else x
  }

  function EraseState(s: State): State {
    s.(table := map[], vs := seq(|s.vs|, v requires 0 <= v < |s.vs| => EraseVertex(s.vs[v])))
  }

  /** Forgetting the data maps steps to steps. */
  lemma EraseStep(g: Graph, s: State, a: Action)
    requires WellFormed(g) && Inv(g, s) && Enabled(g, s, a)
    ensures Shape(g, EraseState(s)) && Enabled(g, EraseState(s), EraseAction(a))
    ensures Step(g, EraseState(s), EraseAction(a)) == EraseState(Step(g, s, a))
  {
    if a.Notify? {
      EraseNotify(g, s, a);
    } else if a.Close? {
      EraseClose(g, s, a);
    } else {
      EraseLocal(g, s, a);
    }
  }

  lemma EraseLocal(g: Graph, s: State, a: Action)
    requires WellFormed(g) && Inv(g, s) && Enabled(g, s, a) && !a.Notify? && !a.Close?
    ensures Shape(g, EraseState(s)) && Enabled(g, EraseState(s), EraseAction(a))
    ensures Step(g, EraseState(s), EraseAction(a)) == EraseState(Step(g, s, a))
  {
    assert Step(g, EraseState(s), EraseAction(a)).vs == EraseState(Step(g, s, a)).vs;
  }

  lemma EraseClose(g: Graph, s: State, a: Action)
    requires WellFormed(g) && Inv(g, s) && Enabled(g, s, a) && a.Close?
    ensures Shape(g, EraseState(s)) && Enabled(g, EraseState(s), EraseAction(a))
    ensures Step(g, EraseState(s), EraseAction(a)) == EraseState(Step(g, s, a))
  {
    assert EraseAction(a) == a;
    if Repeats(g, s) {
      assert EraseState(Restart(g, s)).vs == Restart(g, EraseState(s)).vs;
    } else {
      assert Step(g, EraseState(s), a).vs == EraseState(Step(g, s, a)).vs;
    }
  }

  lemma EraseNotify(g: Graph, s: State, a: Action)
    requires WellFormed(g) && Inv(g, s) && Enabled(g, s, a) && a.Notify?
    ensures Shape(g, EraseState(s)) && Enabled(g, EraseState(s), a)
    ensures Step(g, EraseState(s), a) == EraseState(Step(g, s, a))
  {
    NotifyFindsEmptySlot(g, s, a.v);
    assert Step(g, EraseState(s), a).vs == EraseState(Step(g, s, a)).vs;
  }

  lemma {:induction false} EraseSchedule(g: Graph, r: Run)
    requires WellFormed(g) && Schedule(g, r)
    ensures Schedule(g, EraseRun(r)) && After(g, EraseRun(r)) == EraseState(After(g, r))
  {
    match r
    case Start => assert EraseState(Init(g)) == Init(g);
    case Then(before, a) =>
      EraseSchedule(g, before);
      ScheduleInv(g, before);
      EraseStep(g, After(g, before), a);
  }

  lemma ErasedIsFaithful(g: Graph, fixed: seq<Fixed>, s: State, a: Action)
    requires |fixed| == g.N() && Runnable(g, CodesOnly(fixed)) && Inv(g, s) && Enabled(g, s, a) && FollowsCodes(fixed, a)
    ensures Shape(g, EraseState(s)) && Enabled(g, EraseState(s), EraseAction(a))
    ensures Faithful(g, CodesOnly(fixed), EraseState(s), EraseAction(a))
  {
    EraseStep(g, s, a);
  }

  lemma {:induction false} ErasedScheduleIsFaithful(g: Graph, fixed: seq<Fixed>, r: Run)
    requires |fixed| == g.N() && Runnable(g, CodesOnly(fixed)) && Schedule(g, r) && RunFollowsCodes(fixed, r)
    ensures Schedule(g, EraseRun(r)) && FaithfulSchedule(g, CodesOnly(fixed), EraseRun(r))
  {
    EraseSchedule(g, r);
    match r
    case Start =>
    case Then(before, a) =>
      EraseSchedule(g, before);
      ErasedScheduleIsFaithful(g, fixed, before);
      ScheduleInv(g, before);
      ErasedIsFaithful(g, fixed, After(g, before), a);
  }

  lemma CodesOnlyFits(g: Graph, fixed: seq<Fixed>)
    requires WellFormed(g) && |fixed| == g.N()
    ensures Fits(g, CodesOnly(fixed))
  {
  }

  /** With each vertex's gate, injection and return code fixed, and whatever the vertices move or publish,
      every complete interleaving gives every vertex the result and code of the sequential evaluator. */
  lemma FixedCodesDetermineResults(g: Graph, fixed: seq<Fixed>, r: Run, v: nat)
    requires WellFormed(g) && Acyclic(Edges(g)) && SingleRound(g) && |fixed| == g.N() && v < g.N()
    requires Complete(g, r) && RunFollowsCodes(fixed, r)
    ensures Runnable(g, CodesOnly(fixed))
    ensures var e := Eval(g, CodesOnly(fixed), v);
            After(g, r).vs[v].result == e.result && After(g, r).vs[v].code == e.code
  {
    CodesOnlyFits(g, fixed);
    ErasedScheduleIsFaithful(g, fixed, r);
    EraseSchedule(g, r);
    ScheduleAgrees(g, CodesOnly(fixed), EraseRun(r));
    var c := CompleteRunIsDone(g, r);
    assert VertexAgrees(g, CodesOnly(fixed), EraseState(After(g, r)), v);
  }
}
