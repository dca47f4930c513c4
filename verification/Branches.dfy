/** Conditional branches at run time: who runs, given what a vertex's dependencies left in its slots. */
module Branches {
  import opened Options
  import opened VertexResults
  import opened Digraph
  import opened Protocol
  import opened RunInvariant
  import opened RunTheorems
  import opened Determinism

  /** The processor of v ran to completion. */
  predicate Ran(r: Run, v: nat) {
    match r
    case Start => false
    case Then(before, a) => Ran(before, v) || (a.Finish? && a.v == v)
  }

  /** v was entered with its target present and its inputs injected. */
  predicate Calm(r: Run, v: nat) {
    match r
    case Start => true
    case Then(before, a) => Calm(before, v) && (a.Begin? && a.v == v ==> a.gate && a.injected)
  }

  predicate IsResult(r: VertexResult) {
    r == V_RESULT_INVALID || r == V_RESULT_OK || r == V_RESULT_ERR || r == V_RESULT_SKIP
  }

  /** What is known of v: `ran` says whether its processor has run to completion. */
  ghost predicate Fate(g: Graph, s: State, v: nat, ran: bool)
    requires WellFormed(g) && Shape(g, s) && v < g.N()
  {
    var x := s.vs[v];
    && IsResult(x.result)
    && (x.phase.Running? || ran ==> MatchesDeps(x.slots, g.expected[v]))
    && (ran ==> Recorded(x.phase) && (if x.code == 0 then x.result == V_RESULT_OK else x.result == V_RESULT_ERR))
  }

  /** A vertex that left its processor out had a dependency of an unexpected result. */
  ghost predicate Skipped(g: Graph, s: State, v: nat, ran: bool)
    requires WellFormed(g) && Shape(g, s) && v < g.N()
  {
    s.early == 0 && (Recorded(s.vs[v].phase) && !ran ==> !MatchesDeps(s.vs[v].slots, g.expected[v]))
  }

  /** Once a vertex is past waiting its slots are final for the round. */
  lemma SlotsStable(g: Graph, s: State, a: Action, v: nat)
    requires WellFormed(g) && g.whileVertex.None? && Inv(g, s) && Enabled(g, s, a) && v < g.N()
    requires !s.vs[v].phase.Waiting?
    ensures |Step(g, s, a).vs| == g.N() && Step(g, s, a).vs[v].slots == s.vs[v].slots
  {
    StepKeepsShape(g, s, a);
    assert VertexInv(g, s, v);
    assert forall k :: 0 <= k < |s.vs[v].slots| ==> k !in EmptySlots(s.vs[v].slots);
    if a.Notify? {
      NotifyFindsEmptySlot(g, s, a.v);
    }
  }

  lemma PhaseAfter(g: Graph, s: State, a: Action, v: nat)
    requires WellFormed(g) && g.whileVertex.None? && Inv(g, s) && Enabled(g, s, a) && v < g.N()
    ensures |Step(g, s, a).vs| == g.N()
    ensures var x, y := s.vs[v], Step(g, s, a).vs[v];
            if a.v == v && (a.Begin? || a.Finish?) then true
            else (y.phase.Running? <==> x.phase.Running?) && (Recorded(y.phase) <==> Recorded(x.phase))
                 && y.result == x.result && y.code == x.code
  {
    StepKeepsShape(g, s, a);
    assert VertexInv(g, s, v);
    if a.Notify? {
      NotifyFindsEmptySlot(g, s, a.v);
    }
  }

  lemma FateStep(g: Graph, s: State, a: Action, v: nat, ran: bool)
    requires WellFormed(g) && g.whileVertex.None? && Inv(g, s) && Enabled(g, s, a) && v < g.N() && Fate(g, s, v, ran)
    ensures Shape(g, Step(g, s, a)) && Fate(g, Step(g, s, a), v, ran || (a.Finish? && a.v == v))
  {
    StepKeepsShape(g, s, a);
    assert VertexInv(g, s, v);
    PhaseAfter(g, s, a, v);
    if !s.vs[v].phase.Waiting? {
      SlotsStable(g, s, a, v);
    }
  }

  lemma SkippedStep(g: Graph, s: State, a: Action, v: nat, ran: bool)
    requires WellFormed(g) && SingleRound(g) && Inv(g, s) && Enabled(g, s, a) && v < g.N() && Skipped(g, s, v, ran)
    requires a.Begin? && a.v == v ==> a.gate && a.injected
    ensures Shape(g, Step(g, s, a)) && Skipped(g, Step(g, s, a), v, ran || (a.Finish? && a.v == v))
  {
    StepKeepsShape(g, s, a);
    assert VertexInv(g, s, v);
    PhaseAfter(g, s, a, v);
    if !s.vs[v].phase.Waiting? {
      SlotsStable(g, s, a, v);
    }
    if a.Finish? {
      assert g.options[a.v] in g.options;
    }
  }

  lemma {:induction false} FateHolds(g: Graph, r: Run, v: nat)
    requires WellFormed(g) && g.whileVertex.None? && Schedule(g, r) && v < g.N()
    ensures Fate(g, After(g, r), v, Ran(r, v))
  {
    match r
    case Start =>
    case Then(before, a) =>
      FateHolds(g, before, v);
      ScheduleInv(g, before);
      FateStep(g, After(g, before), a, v, Ran(before, v));
  }

  lemma {:induction false} SkippedHolds(g: Graph, r: Run, v: nat)
    requires WellFormed(g) && SingleRound(g) && Schedule(g, r) && v < g.N() && Calm(r, v)
    ensures Skipped(g, After(g, r), v, Ran(r, v))
  {
    match r
    case Start =>
    case Then(before, a) =>
      SkippedHolds(g, before, v);
      ScheduleInv(g, before);
      SkippedStep(g, After(g, before), a, v, Ran(before, v));
  }

  /** What the processor of v returned, if it ran to completion. */
  function Returned(r: Run, v: nat): Option<int> {
    match r
    case Start => None
    case Then(before, a) => if a.Finish? && a.v == v then Some(a.rc) else Returned(before, v)
  }

  /** v has recorded what becomes of its return code. */
  ghost predicate HasRecorded(g: Graph, s: State, v: nat, rc: int)
    requires WellFormed(g) && Shape(g, s) && v < g.N()
  {
    && Recorded(s.vs[v].phase)
    && (if Succeeds(g, v, rc) then s.vs[v].code == 0 && s.vs[v].result == V_RESULT_OK
        else s.vs[v].code == rc && s.vs[v].result == V_RESULT_ERR)
  }

  /** The record stays until the round ends: a vertex that ran ends OK with code 0 if it returned 0 or its failures
      are ignored, and ERR with the code it returned otherwise. */
  lemma {:induction false} ReturnIsRecorded(g: Graph, r: Run, v: nat)
    requires WellFormed(g) && g.whileVertex.None? && Schedule(g, r) && v < g.N()
    ensures Ran(r, v) <==> Returned(r, v).Some?
    ensures Returned(r, v).Some? ==> HasRecorded(g, After(g, r), v, Returned(r, v).value)
  {
    match r
    case Start =>
    case Then(before, a) =>
      ReturnIsRecorded(g, before, v);
      ScheduleInv(g, before);
      PhaseAfter(g, After(g, before), a, v);
      if a.Finish? && a.v == v {
        FinishRecords(g, After(g, before), v, a.rc, a.outs);
      }
  }

  /** x depends on c alone, whose failures are ignored: whatever c's processor returned, x runs if it expects success,
      and does not run if it expects failure. */
  lemma IgnoredFailureCounts(g: Graph, r: Run, c: nat, x: nat)
    requires WellFormed(g) && Acyclic(Edges(g)) && SingleRound(g) && Complete(g, r)
    requires c < g.N() && x < g.N() && g.deps[x] == [c] && Ran(r, c) && Calm(r, x)
    requires g.options[c].ignoreError && !g.options[c].isCond
    ensures After(g, r).vs[c].result == V_RESULT_OK && After(g, r).vs[c].code == 0
    ensures g.expected[x][0] == V_RESULT_OK ==> Ran(r, x)
    ensures g.expected[x][0] == V_RESULT_ERR ==> !Ran(r, x)
  {
    ReturnIsRecorded(g, r, c);
    assert g.options[c] in g.options;
    RunsIffExpected(g, r, c, x);
  }

  /** A filled slot holds the result of its source. */
  lemma FilledSlot(g: Graph, s: State, v: nat, k: nat)
    requires WellFormed(g) && Inv(g, s) && v < g.N() && k < |g.deps[v]| && s.vs[v].slots[k] != V_RESULT_INVALID
    ensures g.deps[v][k] < g.N() && s.vs[v].slots[k] == s.vs[g.deps[v][k]].result
  {
    assert SlotAt(g, v, k, Position(g, v, k));
    assert SlotInv(g, s, v, k);
  }

  /** No run executes two vertices that expect disjoint results of the same dependency: an `if` branch that
      expects OK and an `else` branch that expects ERR exclude each other, in every interleaving. */
  lemma BranchesExclude(g: Graph, r: Run, c: nat, x: nat, j: nat, y: nat, k: nat)
    requires WellFormed(g) && g.whileVertex.None? && Schedule(g, r) && c < g.N()
    requires x < g.N() && j < |g.deps[x]| && g.deps[x][j] == c
    requires y < g.N() && k < |g.deps[y]| && g.deps[y][k] == c
    requires g.expected[x][j] == V_RESULT_OK && g.expected[y][k] == V_RESULT_ERR
    ensures !(Ran(r, x) && Ran(r, y))
  {
    FateHolds(g, r, x);
    FateHolds(g, r, y);
    FateHolds(g, r, c);
    ScheduleInv(g, r);
    var s := After(g, r);
    if Ran(r, x) {
      assert Meets(s.vs[x].slots[j], g.expected[x][j]);
      FilledSlot(g, s, x, j);
      OnlyOk(s.vs[c].result);
      if s.vs[y].slots[k] != V_RESULT_INVALID {
        FilledSlot(g, s, y, k);
      }
      assert !Meets(s.vs[y].slots[k], g.expected[y][k]);
    }
  }

  lemma OnlyOk(r: VertexResult)
    requires IsResult(r) && r & V_RESULT_OK != 0
    ensures r == V_RESULT_OK && r & V_RESULT_ERR == 0
  {
  }

  /** In a complete run a vertex whose only dependency is c, entered undisturbed, runs exactly if the result
      of c meets its expectation. */
  lemma RunsIffExpected(g: Graph, r: Run, c: nat, x: nat)
    requires WellFormed(g) && Acyclic(Edges(g)) && SingleRound(g) && Complete(g, r)
    requires c < g.N() && x < g.N() && g.deps[x] == [c] && Calm(r, x)
    ensures Ran(r, x) <==> Meets(After(g, r).vs[c].result, g.expected[x][0])
  {
    FateHolds(g, r, x);
    SkippedHolds(g, r, x);
    ScheduleInv(g, r);
    var s := After(g, r);
    var last := CompleteRunIsDone(g, r);
    assert VertexInv(g, s, x) && Recorded(s.vs[x].phase);
    assert 0 !in EmptySlots(s.vs[x].slots);
    FilledSlot(g, s, x, 0);
  }

  lemma AnyResultMeets(r: VertexResult)
    requires IsResult(r) && r != V_RESULT_INVALID
    ensures Meets(r, V_RESULT_ALL)
  {
  }

  /** And when it accepts any result it runs in every complete run, whatever becomes of c. */
  lemma AnyResultRuns(g: Graph, r: Run, c: nat, x: nat)
    requires WellFormed(g) && Acyclic(Edges(g)) && SingleRound(g) && Complete(g, r)
    requires c < g.N() && x < g.N() && g.deps[x] == [c] && g.expected[x][0] == V_RESULT_ALL && Calm(r, x)
    ensures Ran(r, x)
  {
    RunsIffExpected(g, r, c, x);
    FateHolds(g, r, c);
    ScheduleInv(g, r);
    var s := After(g, r);
    var last := CompleteRunIsDone(g, r);
    assert VertexInv(g, s, x);
    assert 0 !in EmptySlots(s.vs[x].slots);
    FilledSlot(g, s, x, 0);
    AnyResultMeets(s.vs[c].result);
  }

  /** When the condition ran and is the only dependency of both branches, exactly one of them runs in every
      complete run: the `if` branch when the condition's recorded code is 0, the `else` branch otherwise. */
  lemma ExactlyOneBranch(g: Graph, r: Run, c: nat, x: nat, y: nat)
    requires WellFormed(g) && Acyclic(Edges(g)) && SingleRound(g) && Complete(g, r)
    requires c < g.N() && x < g.N() && y < g.N() && g.deps[x] == [c] && g.deps[y] == [c]
    requires g.expected[x][0] == V_RESULT_OK && g.expected[y][0] == V_RESULT_ERR
    requires Ran(r, c) && Calm(r, x) && Calm(r, y)
    ensures Ran(r, x) <==> After(g, r).vs[c].code == 0
    ensures Ran(r, y) <==> After(g, r).vs[c].code != 0
  {
    FateHolds(g, r, c);
    RunsIffExpected(g, r, c, x);
    RunsIffExpected(g, r, c, y);
  }
}
