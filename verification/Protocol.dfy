/** The concurrent run of one built graph: one step per atomic action of a worker.

    A worker takes a queued vertex, skips or starts it, later records its outcome, subtracts one from the
    graph's join counter, hands its result to each successor in turn, and queues the successors whose last
    dependency it delivered.  The worker that takes the join counter to zero restarts a while graph or
    reports completion.  What the environment decides (whether the vertex may run, what its inputs held,
    what its processor returned) is a parameter of the action. */
module Protocol {
  import opened Options
  import opened VertexResults

  type DataId = string
  type Value(==, 0, !new)

  datatype VertexOptions = VertexOptions(ignoreError: bool, isCond: bool, earlyExit: bool)

  /** A built graph.  `deps[v]` lists the sources of v's dependency slots, `succs[u]` the successors of u in
      the order in which u notifies them, and `slotOf[u][i]` the slot of `succs[u][i]` that belongs to u.
      `eager`: a vertex whose last dependency has reported is handed over at once, as the Go executor does;
      the C++ executor first tells all successors of the notifier. */
  datatype Graph = Graph(
    deps: seq<seq<nat>>,
    expected: seq<seq<VertexResult>>,
    succs: seq<seq<nat>>,
    slotOf: seq<seq<nat>>,
    options: seq<VertexOptions>,
    skipAsError: bool,
    earlyExit: bool,
    whileVertex: Option<nat>,
    eager: bool)
  {
    function N(): nat { |deps| }
  }

  datatype Phase =
    | Waiting                               // some dependency has not reported
    | Held(notifier: nat)                   // last dependency delivered; still in the notifier's ready list
    | Queued                                // handed to an executor, not yet entered
    | Running(inputs: seq<Option<Value>>)   // its processor has started
    | Finished                              // result recorded, not yet subtracted from the join counter
    | Notifying(next: nat)                  // joined; the first `next` successors have been told
    | Last                                  // took the join counter to zero
    | Ended                                 // reported completion

  datatype VertexState = VertexState(
    phase: Phase,
    waiting: Uint32,
    slots: seq<VertexResult>,
    result: VertexResult,
    code: int)

  datatype State = State(
    join: Uint32,
    vs: seq<VertexState>,
    early: int,
    table: map<DataId, Value>,
    calls: seq<int>)

  datatype Action =
    | Begin(v: nat, gate: bool, inputs: seq<Option<Value>>, injected: bool)
    | Finish(v: nat, rc: int, outs: map<DataId, Option<Value>>)   // an output that is not set empties its slot
    | Join(v: nat)
    | Notify(v: nat)
    | Release(v: nat)
    | Close(v: nat)

  predicate Joined(p: Phase) {
    p.Notifying? || p.Last? || p.Ended?
  }

  /** What `Setup` puts together: every successor entry leads to a slot of that successor. */
  ghost predicate Assembled(g: Graph) {
    && 0 < g.N() < 0x1_0000_0000
    && |g.expected| == |g.succs| == |g.slotOf| == |g.options| == g.N()
    && (g.whileVertex.Some? ==> g.whileVertex.value < g.N())
    && (forall v :: 0 <= v < g.N() ==> |g.expected[v]| == |g.deps[v]| < 0x1_0000_0000)
    && (forall u :: 0 <= u < g.N() ==> |g.slotOf[u]| == |g.succs[u]|)
    && (forall u, i :: 0 <= u < g.N() && 0 <= i < |g.succs[u]| ==> IsSuccessor(g, u, i))
    && (forall u, i, j :: 0 <= u < g.N() && 0 <= i < j < |g.succs[u]| ==> g.succs[u][i] != g.succs[u][j])
  }

  /** And every slot has a vertex that fills it: slots and successor lists name each other. */
  ghost predicate WellFormed(g: Graph) {
    && Assembled(g)
    && (forall v, k :: 0 <= v < g.N() && 0 <= k < |g.deps[v]| ==> IsSlot(g, v, k))
  }

  ghost predicate IsSuccessor(g: Graph, u: nat, i: nat)
    requires u < |g.succs| && u < |g.slotOf| && i < |g.succs[u]| && |g.slotOf[u]| == |g.succs[u]|
  {
    var w := g.succs[u][i];
    w < g.N() && g.slotOf[u][i] < |g.deps[w]| && g.deps[w][g.slotOf[u][i]] == u
  }

  /** Slot k of v belongs to a vertex that lists v as a successor with that slot. */
  ghost predicate IsSlot(g: Graph, v: nat, k: nat)
    requires |g.succs| == |g.slotOf| == g.N() && v < g.N() && k < |g.deps[v]|
  {
    exists i :: SlotAt(g, v, k, i)
  }

  ghost predicate SlotAt(g: Graph, v: nat, k: nat, i: nat)
    requires |g.succs| == |g.slotOf| == g.N() && v < g.N() && k < |g.deps[v]|
  {
    var u := g.deps[v][k];
    u < g.N() && i < |g.succs[u]| && i < |g.slotOf[u]| && g.succs[u][i] == v && g.slotOf[u][i] == k
  }

  /** The position of v among the successors of its k-th dependency. */
  ghost function Position(g: Graph, v: nat, k: nat): (i: nat)
    requires Assembled(g) && v < g.N() && k < |g.deps[v]| && IsSlot(g, v, k)
    ensures SlotAt(g, v, k, i)
  {
    var i: nat :| SlotAt(g, v, k, i);
    i
  }

  ghost function Edges(g: Graph): set<(nat, nat)> {
    set v, k | 0 <= v < g.N() && 0 <= k < |g.deps[v]| :: (g.deps[v][k], v)
  }

  // ---------------------------------------------------------------- transitions

  /** `ResetState`: nothing reported, the counter at the number of dependencies; a vertex without
      dependencies belongs to the start set and is handed to the executor at once. */
  function FreshVertex(deps: nat): VertexState {
    VertexState(if Narrow(deps) == 0 then Queued else Waiting, Narrow(deps),
                seq(deps, _ => V_RESULT_INVALID), V_RESULT_INVALID, V_CODE_INVALID)
  }

  function Fresh(g: Graph): seq<VertexState> {
    seq(g.N(), v requires 0 <= v < g.N() => FreshVertex(|g.deps[v]|))
  }

  function Init(g: Graph): State {
    State(Narrow(g.N()), Fresh(g), 0, map[], [])
  }

  /** Every dependency has reported a result that its edge expects. */
  predicate MatchesDeps(slots: seq<VertexResult>, expected: seq<VertexResult>)
    requires |slots| == |expected|
  {
    forall k :: 0 <= k < |slots| ==> Meets(slots[k], expected[k])
  }

  predicate MayRun(g: Graph, s: State, v: nat, gate: bool)
    requires v < |s.vs| && v < |g.expected| && |s.vs[v].slots| == |g.expected[v]|
  {
    gate && MatchesDeps(s.vs[v].slots, g.expected[v]) && s.early == 0
  }

  /** `Execute`: skip, fail on a missing required input, or start the processor. */
  function BeginVertex(g: Graph, s: State, v: nat, gate: bool, inputs: seq<Option<Value>>, injected: bool): VertexState
    requires v < |s.vs| && v < |g.expected| && |s.vs[v].slots| == |g.expected[v]|
  {
    var x := s.vs[v];
    if !MayRun(g, s, v, gate) then
      x.(phase := Finished, result := if g.skipAsError then V_RESULT_ERR else V_RESULT_SKIP, code := V_CODE_SKIP)
    else if !injected then
      x.(phase := Finished, result := if x.result == V_RESULT_INVALID then V_RESULT_ERR else x.result, code := V_CODE_SKIP)
    else
      x.(phase := Running(inputs))
  }

  predicate ExitsEarly(g: Graph, v: nat, rc: int)
    requires v < |g.options|
  {
    rc != 0 && (g.options[v].earlyExit || g.earlyExit)
  }

  /** The code that `FinishVertexProcess` records for a processor that returned rc. */
  function FinalCode(g: Graph, v: nat, rc: int): int
    requires v < |g.options|
  {
    if ExitsEarly(g, v, rc) then rc
    else if g.options[v].ignoreError && !g.options[v].isCond then 0
    else rc
  }

  function FinishVertex(g: Graph, x: VertexState, v: nat, rc: int): VertexState
    requires v < |g.options|
  {
    var code := FinalCode(g, v, rc);
    x.(phase := Finished, code := code,
       result := if code == 0 then V_RESULT_OK
                 else if x.result == V_RESULT_INVALID then V_RESULT_ERR else x.result)
  }

  /** `SetDependencyResult`: fill the slot and, when it was empty, count down; `before` is what it returns. */
  datatype Delivery = Delivery(vertex: VertexState, before: Uint32)

  function Deliver(x: VertexState, k: nat, r: VertexResult): Delivery
    requires k < |x.slots|
  {
    var filled := x.(slots := x.slots[k := r]);
    if x.slots[k] == V_RESULT_INVALID
    then Delivery(filled.(waiting := Decrement(x.waiting)), x.waiting)
    else Delivery(filled, x.waiting)
  }

  predicate Shape(g: Graph, s: State) {
    |s.vs| == g.N() && forall v :: 0 <= v < g.N() ==> |s.vs[v].slots| == |g.deps[v]|
  }

  ghost predicate Enabled(g: Graph, s: State, a: Action)
    requires Assembled(g) && Shape(g, s)
  {
    && a.v < g.N()
    && var p := s.vs[a.v].phase;
       match a
       case Begin(_, _, _, _) => p.Queued?
       case Finish(_, _, _) => p.Running?
       case Join(_) => p.Finished?
       case Notify(v) => p.Notifying? && p.next < |g.succs[v]|
       case Release(_) =>
         && p.Held? && p.notifier < g.N()
         && s.vs[p.notifier].phase.Notifying? && (g.eager || s.vs[p.notifier].phase.next >= |g.succs[p.notifier]|)
       case Close(_) => p.Last?
  }

  function NotifyStep(g: Graph, s: State, v: nat): State
    requires Shape(g, s) && v < g.N() && |g.succs| == |g.slotOf| == g.N() && |g.succs[v]| == |g.slotOf[v]|
    requires s.vs[v].phase.Notifying? && s.vs[v].phase.next < |g.succs[v]|
    requires g.succs[v][s.vs[v].phase.next] < g.N()
    requires g.slotOf[v][s.vs[v].phase.next] < |g.deps[g.succs[v][s.vs[v].phase.next]]|
  {
    var i := s.vs[v].phase.next;
    var w := g.succs[v][i];
    var d := Deliver(s.vs[w], g.slotOf[v][i], s.vs[v].result);
    var told := if d.before == 1 then d.vertex.(phase := Held(v)) else d.vertex;
    var vs := s.vs[w := told];
    s.(vs := vs[v := vs[v].(phase := Notifying(i + 1))])
  }

  /** The while restart: `ResetState` on every vertex, then the start set again; the recorded early-exit
      code, the published data and the completion calls stay. */
  function Restart(g: Graph, s: State): State {
    s.(join := Narrow(g.N()), vs := Fresh(g))
  }

  predicate Repeats(g: Graph, s: State) {
    g.whileVertex.Some? && g.whileVertex.value < |s.vs| && s.vs[g.whileVertex.value].code == 0
  }

  ghost function Step(g: Graph, s: State, a: Action): State
    requires Assembled(g) && Shape(g, s) && Enabled(g, s, a)
  {
    match a
    case Begin(v, gate, inputs, injected) =>
      s.(vs := s.vs[v := BeginVertex(g, s, v, gate, inputs, injected)])
    case Finish(v, rc, outs) =>
      s.(vs := s.vs[v := FinishVertex(g, s.vs[v], v, rc)],
         early := if ExitsEarly(g, v, rc) && s.early == 0 then rc else s.early,
         table := if FinalCode(g, v, rc) == 0 then Written(s.table, outs) else s.table)
    case Join(v) =>
      s.(join := Decrement(s.join),
         vs := s.vs[v := s.vs[v].(phase := if s.join == 1 then Last else Notifying(0))])
    case Notify(v) =>
      assert IsSuccessor(g, v, s.vs[v].phase.next);
      NotifyStep(g, s, v)
    case Release(v) =>
      s.(vs := s.vs[v := s.vs[v].(phase := Queued)])
    case Close(v) =>
      if Repeats(g, s) then Restart(g, s)
      else s.(vs := s.vs[v := s.vs[v].(phase := Ended)], calls := s.calls + [s.early])
  }

  lemma StepKeepsShape(g: Graph, s: State, a: Action)
    requires Assembled(g) && Shape(g, s) && Enabled(g, s, a)
    ensures Shape(g, Step(g, s, a))
  {
    if a.Notify? {
      assert IsSuccessor(g, a.v, s.vs[a.v].phase.next);
    }
  }

  // ---------------------------------------------------------------- schedules

  /** The actions of all workers in the order in which they took effect: one interleaving. */
  datatype Run = Start | Then(before: Run, act: Action)

  function Length(r: Run): nat {
    match r
    case Start => 0
    case Then(before, _) => Length(before) + 1
  }

  /** Each action was enabled when it was taken. */
  ghost predicate Schedule(g: Graph, r: Run)
    requires Assembled(g)
    decreases r, 0
  {
    match r
    case Start => true
    case Then(before, a) => Schedule(g, before) && Enabled(g, After(g, before), a)
  }

  ghost function After(g: Graph, r: Run): (s: State)
    requires Assembled(g) && Schedule(g, r)
    ensures Shape(g, s)
    decreases r, 1
  {
    match r
    case Start => Init(g)
    case Then(before, a) =>
      StepKeepsShape(g, After(g, before), a);
      Step(g, After(g, before), a)
  }

  ghost predicate Stuck(g: Graph, s: State)
    requires Assembled(g) && Shape(g, s)
  {
    forall a :: !Enabled(g, s, a)
  }

  /** A maximal run: no action is left to take. */
  ghost predicate Complete(g: Graph, r: Run)
    requires Assembled(g)
  {
    Schedule(g, r) && Stuck(g, After(g, r))
  }
}
