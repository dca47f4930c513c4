/** The generated while graph: a condition vertex 0 with the body, vertex 1, as its consequent. */
module WhileLoop {
  import opened Options
  import opened VertexResults
  import opened Digraph
  import opened Protocol
  import opened RunInvariant
  import opened RunTheorems

  /** What `GraphCluster::Build` generates for a vertex with a while condition: the body depends on the
      condition's success.  The condition vertex has a consequent, so its failures are not ignored; no early
      exit flag is set on either vertex or on the graph. */
  ghost predicate IsWhileGraph(g: Graph) {
    && WellFormed(g) && g.N() == 2
    && |g.deps[0]| == 0 && |g.deps[1]| == 1 && g.deps[1][0] == 0 && g.expected[1][0] == V_RESULT_OK
    && |g.succs[0]| == 1 && g.succs[0][0] == 1 && g.slotOf[0][0] == 0 && |g.succs[1]| == 0
    && g.options[0].isCond && !g.options[0].earlyExit && !g.options[1].earlyExit && !g.earlyExit
    && g.whileVertex == Some(0)
  }

  function WhileGraph(): Graph {
    Graph([[], [0]], [[], [V_RESULT_OK]], [[1], []], [[0], []],
          [VertexOptions(true, true, false), VertexOptions(true, false, false)], true, false, Some(0), false)
  }

  lemma WhileGraphExists()
    ensures IsWhileGraph(WhileGraph())
  {
    var g := WhileGraph();
    assert SlotAt(g, 1, 0, 0);
    assert IsSuccessor(g, 0, 0);
  }

  lemma WhileGraphIsAcyclic(g: Graph)
    requires IsWhileGraph(g)
    ensures Acyclic(Edges(g))
  {
    forall e | e in Edges(g)
      ensures e.0 < e.1
    {
    }
    ClimbingIsAcyclic(Edges(g), (v: nat) => v);
  }

  /** The processors that ran to completion, in order. */
  function Executed(r: Run): seq<nat> {
    match r
    case Start => []
    case Then(before, a) => if a.Finish? then Executed(before) + [a.v] else Executed(before)
  }

  /** What the condition returned, call by call. */
  function CondCodes(r: Run): seq<int> {
    match r
    case Start => []
    case Then(before, a) => if a.Finish? && a.v == 0 then CondCodes(before) + [a.rc] else CondCodes(before)
  }

  /** (condition, body) `k` times. */
  function Rounds(k: nat): seq<nat> {
    if k == 0 then [] else Rounds(k - 1) + [0, 1]
  }

  /** No deadline, targets present, inputs injected. */
  predicate Undisturbed(a: Action) {
    a.Begin? ==> a.gate && a.injected
  }

  predicate UndisturbedRun(r: Run) {
    match r
    case Start => true
    case Then(before, a) => UndisturbedRun(before) && Undisturbed(a)
  }

  /** All condition calls but the last returned 0; what ran so far and how often the loop restarted. */
  ghost predicate WhileInv(s: State, codes: seq<int>, ran: seq<nat>, restarts: nat)
    requires |s.vs| == 2
  {
    var x, y := s.vs[0], s.vs[1];
    && s.early == 0
    && (forall i :: 0 <= i < |codes| - 1 ==> codes[i] == 0)
    && if !Recorded(x.phase) then
         && y.phase.Waiting? && restarts == |codes| && ran == Rounds(|codes|)
         && (forall i :: 0 <= i < |codes| ==> codes[i] == 0)
       else
         && |codes| > 0 && restarts == |codes| - 1
         && var last := codes[|codes| - 1];
            && x.code == last && x.result == (if last == 0 then V_RESULT_OK else V_RESULT_ERR)
            && (y.phase.Running? ==> last == 0)
            && (y.phase.Ended? ==> last != 0)
            && (Recorded(y.phase) && last != 0 ==> y.code == V_CODE_SKIP)
            && ran == Rounds(|codes| - 1) + if Recorded(y.phase) && last == 0 then [0, 1] else [0]
  }

  /** Facts of the two-vertex graph that follow from the general invariant. */
  lemma WhileShape(g: Graph, s: State)
    requires IsWhileGraph(g) && Inv(g, s)
    ensures |s.vs| == 2 && |s.vs[1].slots| == 1 && s.vs[0].slots == []
    ensures !Closing(s.vs[0].phase) && !s.vs[0].phase.Held? && !s.vs[0].phase.Waiting?
    ensures s.vs[0].phase.Notifying? ==> s.vs[0].phase.next <= 1
    ensures if s.vs[0].phase.Notifying? && s.vs[0].phase.next == 1
            then s.vs[1].slots[0] == s.vs[0].result && !s.vs[1].phase.Waiting?
            else s.vs[1].phase.Waiting?
    ensures s.vs[1].phase.Finished? ==> s.join == 1
    ensures s.vs[0].phase.Finished? ==> s.join == 2
    ensures !(s.vs[1].phase.Notifying? && s.vs[0].phase.Notifying?)
  {
    SlotShape(g, s);
    if s.join == 0 {
      var c := Quiescence(g, s);
    } else {
      assert forall v :: 0 <= v < 2 && Closing(s.vs[v].phase) ==> v in Closers(s);
      assert Unjoined(s) == (if Joined(s.vs[0].phase) then {} else {0}) + (if Joined(s.vs[1].phase) then {} else {1});
    }
  }

  lemma SlotShape(g: Graph, s: State)
    requires IsWhileGraph(g) && Inv(g, s)
    ensures |s.vs| == 2 && |s.vs[1].slots| == 1 && s.vs[0].slots == []
    ensures !s.vs[0].phase.Held? && !s.vs[0].phase.Waiting?
    ensures s.vs[0].phase.Notifying? ==> s.vs[0].phase.next <= 1
    ensures if s.vs[0].phase.Notifying? && s.vs[0].phase.next == 1
            then s.vs[1].slots[0] == s.vs[0].result && !s.vs[1].phase.Waiting?
            else s.vs[1].phase.Waiting?
  {
    assert VertexInv(g, s, 0) && VertexInv(g, s, 1) && SlotInv(g, s, 1, 0);
    assert SlotAt(g, 1, 0, Position(g, 1, 0));
    assert EmptySlots(s.vs[0].slots) == {};
    assert EmptySlots(s.vs[1].slots) == if s.vs[1].slots[0] == V_RESULT_INVALID then {0} else {};
  }

  lemma FinishWhile(g: Graph, s: State, a: Action, codes: seq<int>, ran: seq<nat>, restarts: nat)
    requires IsWhileGraph(g) && Inv(g, s) && Enabled(g, s, a) && a.Finish?
    requires |s.vs| == 2 && WhileInv(s, codes, ran, restarts)
    ensures WhileInv(Step(g, s, a), if a.v == 0 then codes + [a.rc] else codes, ran + [a.v], restarts)
  {
    WhileShape(g, s);
    assert VertexInv(g, s, a.v);
    if a.v == 0 {
      assert Step(g, s, a).vs[1].phase.Waiting?;
    } else {
      assert a.v == 1 && codes[|codes| - 1] == 0;
      assert Rounds(|codes| - 1) + [0] + [1] == Rounds(|codes| - 1) + [0, 1];
    }
  }

  lemma BeginWhile(g: Graph, s: State, a: Action, codes: seq<int>, ran: seq<nat>, restarts: nat)
    requires IsWhileGraph(g) && Inv(g, s) && Enabled(g, s, a) && a.Begin? && Undisturbed(a)
    requires |s.vs| == 2 && WhileInv(s, codes, ran, restarts)
    ensures WhileInv(Step(g, s, a), codes, ran, restarts)
  {
    WhileShape(g, s);
    if a.v == 0 {
      assert MayRun(g, s, 0, a.gate);
    } else {
      assert MayRun(g, s, 1, a.gate) <==> codes[|codes| - 1] == 0;
    }
  }

  lemma CloseWhile(g: Graph, s: State, a: Action, codes: seq<int>, ran: seq<nat>, restarts: nat)
    requires IsWhileGraph(g) && Inv(g, s) && Enabled(g, s, a) && a.Close?
    requires |s.vs| == 2 && WhileInv(s, codes, ran, restarts)
    ensures |Step(g, s, a).vs| == 2
    ensures WhileInv(Step(g, s, a), codes, ran, restarts + if Restarts(g, s, a) then 1 else 0)
  {
    WhileShape(g, s);
    assert a.v == 1;
    assert Rounds(|codes|) == Rounds(|codes| - 1) + [0, 1];
  }

  /** Joining, notifying and queueing. */
  lemma PassWhile(g: Graph, s: State, a: Action, codes: seq<int>, ran: seq<nat>, restarts: nat)
    requires IsWhileGraph(g) && Inv(g, s) && Enabled(g, s, a)
    requires a.Join? || a.Notify? || a.Release?
    requires |s.vs| == 2 && WhileInv(s, codes, ran, restarts)
    ensures |Step(g, s, a).vs| == 2 && WhileInv(Step(g, s, a), codes, ran, restarts)
  {
    WhileShape(g, s);
    if a.Notify? {
      NotifyFindsEmptySlot(g, s, a.v);
    }
  }

  /** Every step keeps the loop's shape, whatever the body returns. */
  lemma WhileStep(g: Graph, s: State, a: Action, codes: seq<int>, ran: seq<nat>, restarts: nat)
    requires IsWhileGraph(g) && Inv(g, s) && Enabled(g, s, a) && Undisturbed(a)
    requires |s.vs| == 2 && WhileInv(s, codes, ran, restarts)
    ensures |Step(g, s, a).vs| == 2
    ensures WhileInv(Step(g, s, a),
                     if a.Finish? && a.v == 0 then codes + [a.rc] else codes,
                     if a.Finish? then ran + [a.v] else ran,
                     restarts + if Restarts(g, s, a) then 1 else 0)
  {
    match a
    case Begin(_, _, _, _) => BeginWhile(g, s, a, codes, ran, restarts);
    case Finish(_, _, _) => FinishWhile(g, s, a, codes, ran, restarts);
    case Close(_) => CloseWhile(g, s, a, codes, ran, restarts);
    case _ => PassWhile(g, s, a, codes, ran, restarts);
  }

  lemma {:induction false} WhileSchedule(g: Graph, r: Run)
    requires IsWhileGraph(g) && Schedule(g, r) && UndisturbedRun(r)
    ensures |After(g, r).vs| == 2
    ensures WhileInv(After(g, r), CondCodes(r), Executed(r), RestartCount(g, r))
  {
    match r
    case Start =>
    case Then(before, a) =>
      WhileSchedule(g, before);
      ScheduleInv(g, before);
      WhileStep(g, After(g, before), a, CondCodes(before), Executed(before), RestartCount(g, before));
  }

  /** The i-th call of the condition returns `cond(i)`. */
  ghost predicate FollowsCond(cond: nat -> int, codes: seq<int>) {
    forall i :: 0 <= i < |codes| ==> codes[i] == cond(i)
  }

  /** All calls but perhaps the last returned 0. */
  predicate ZeroBeforeLast(codes: seq<int>) {
    forall i :: 0 <= i < |codes| - 1 ==> codes[i] == 0
  }

  /** The condition succeeds k times and then fails. */
  ghost predicate FailsFirstAt(cond: nat -> int, k: nat) {
    cond(k) != 0 && forall i: nat :: i < k ==> cond(i) == 0
  }

  lemma CallsUntilFailure(codes: seq<int>, cond: nat -> int, k: nat)
    requires FollowsCond(cond, codes) && ZeroBeforeLast(codes) && cond(k) != 0
    ensures |codes| <= k + 1
    ensures |codes| > 0 && codes[|codes| - 1] != 0 && FailsFirstAt(cond, k) ==> |codes| == k + 1
    ensures |codes| > 0 && codes[|codes| - 1] == 0 ==> |codes| <= k
  {
    if k < |codes| {
      assert codes[k] == cond(k);
    }
    if |codes| > 0 {
      assert codes[|codes| - 1] == cond(|codes| - 1);
    }
  }

  /** How the loop ends: the last call of the condition failed, all others succeeded, and the body was skipped
      in the last round only. */
  ghost predicate LoopEnded(s: State, codes: seq<int>, ran: seq<nat>, restarts: nat) {
    && |codes| > 0 && codes[|codes| - 1] != 0 && ZeroBeforeLast(codes)
    && ran == Rounds(|codes| - 1) + [0] && restarts == |codes| - 1
    && |s.vs| == 2 && s.vs[1].code == V_CODE_SKIP && s.calls == [0]
  }

  lemma EndOfWhile(g: Graph, s: State, c: nat, codes: seq<int>, ran: seq<nat>, restarts: nat)
    requires IsWhileGraph(g) && Shape(g, s) && WhileInv(s, codes, ran, restarts)
    requires c < g.N() && Quiescent(g, s, c) && s.vs[c].phase.Ended? && s.calls == [s.early]
    ensures LoopEnded(s, codes, ran, restarts)
  {
    assert c == 1;
    assert s.vs[0].phase.Notifying?;
  }

  lemma CompleteWhile(g: Graph, r: Run)
    requires IsWhileGraph(g) && Complete(g, r) && UndisturbedRun(r)
    ensures LoopEnded(After(g, r), CondCodes(r), Executed(r), RestartCount(g, r))
  {
    var c := WhileRunEnds(g, r);
    WhileSchedule(g, r);
    EndOfWhile(g, After(g, r), c, CondCodes(r), Executed(r), RestartCount(g, r));
  }

  lemma WhileRunEnds(g: Graph, r: Run) returns (c: nat)
    requires IsWhileGraph(g) && Complete(g, r)
    ensures var s := After(g, r); c < g.N() && Quiescent(g, s, c) && s.vs[c].phase.Ended? && s.calls == [s.early]
  {
    WhileGraphIsAcyclic(g);
    c := CompleteRunIsDone(g, r);
  }

  /** A condition that succeeds k times and then fails makes every complete run execute (condition, body)
      exactly k times, then the failing condition with the body skipped, and call done once, with 0. */
  lemma WhileRefinesLoop(g: Graph, r: Run, cond: nat -> int, k: nat)
    requires IsWhileGraph(g) && Complete(g, r) && UndisturbedRun(r)
    requires FollowsCond(cond, CondCodes(r)) && FailsFirstAt(cond, k)
    ensures Executed(r) == Rounds(k) + [0]
    ensures |CondCodes(r)| == k + 1 && RestartCount(g, r) == k
    ensures After(g, r).calls == [0]
    ensures |After(g, r).vs| == 2 && After(g, r).vs[1].code == V_CODE_SKIP
  {
    CompleteWhile(g, r);
    CallsUntilFailure(CondCodes(r), cond, k);
  }

  lemma RestartsFollowCalls(g: Graph, r: Run)
    requires IsWhileGraph(g) && Schedule(g, r) && UndisturbedRun(r)
    ensures var codes, n := CondCodes(r), RestartCount(g, r);
            ZeroBeforeLast(codes) && (n + 1 == |codes| || (n == |codes| && (n > 0 ==> codes[n - 1] == 0)))
  {
    WhileSchedule(g, r);
  }

  /** Such a loop also stops: its runs, complete or not, fit the budget of k + 1 rounds. */
  lemma WhileTerminates(g: Graph, r: Run, cond: nat -> int, k: nat)
    requires IsWhileGraph(g) && Schedule(g, r) && UndisturbedRun(r)
    requires FollowsCond(cond, CondCodes(r)) && cond(k) != 0
    ensures Length(r) < Budget(g, k + 1)
  {
    assert RestartCount(g, r) <= k by {
      RestartsFollowCalls(g, r);
      CallsUntilFailure(CondCodes(r), cond, k);
    }
    WhileRounds(g, r, k);
  }

  lemma WhileRounds(g: Graph, r: Run, k: nat)
    requires IsWhileGraph(g) && Schedule(g, r) && RestartCount(g, r) <= k
    ensures Length(r) < Budget(g, k + 1)
  {
    Termination(g, r);
    BudgetGrows(g, RestartCount(g, r) + 1, k + 1);
  }

  lemma {:induction false} BudgetGrows(g: Graph, m: nat, n: nat)
    requires WellFormed(g) && m <= n
    ensures Budget(g, m) <= Budget(g, n)
    decreases n
  {
    if m < n {
      BudgetGrows(g, m, n - 1);
    }
  }
}
