/** The run-time objects of one graph.  Each method is one atomic part of the executor and is proved to take
    exactly the corresponding protocol step; `OnVertexDone` and the resets, which loop, take exactly the
    steps they are made of.  A vertex context's ghost `phase` records how far its worker has come. */
module Contexts {
  import opened Options
  import opened VertexResults
  import opened Protocol
  import opened RunInvariant

  // ---------------------------------------------------------------- the loops as runs of steps

  /** All notifications v still has to make, without interference. */
  ghost function NotifyAll(g: Graph, s: State, v: nat): State
    requires Assembled(g) && Shape(g, s) && v < g.N() && s.vs[v].phase.Notifying?
    decreases |g.succs[v]| - s.vs[v].phase.next
  {
    if s.vs[v].phase.next < |g.succs[v]| then
      NotifyAdvances(g, s, v);
      NotifyAll(g, Step(g, s, Notify(v)), v)
    else s
  }

  lemma NotifyAdvances(g: Graph, s: State, v: nat)
    requires Assembled(g) && Shape(g, s) && v < g.N() && s.vs[v].phase.Notifying? && s.vs[v].phase.next < |g.succs[v]|
    ensures Shape(g, Step(g, s, Notify(v)))
    ensures Step(g, s, Notify(v)).vs[v].phase == Notifying(s.vs[v].phase.next + 1)
  {
    StepKeepsShape(g, s, Notify(v));
    assert IsSuccessor(g, v, s.vs[v].phase.next);
  }

  /** The effect of `NotifyAll` is that of a run of notification steps. */
  lemma {:induction false} NotifyAllIsARun(g: Graph, r: Run, v: nat) returns (r': Run)
    requires Assembled(g) && Schedule(g, r) && v < g.N() && After(g, r).vs[v].phase.Notifying?
    ensures Schedule(g, r') && After(g, r') == NotifyAll(g, After(g, r), v)
    decreases |g.succs[v]| - After(g, r).vs[v].phase.next
  {
    if After(g, r).vs[v].phase.next < |g.succs[v]| {
      NotifyAdvances(g, After(g, r), v);
      r' := NotifyAllIsARun(g, Then(r, Notify(v)), v);
    } else {
      r' := r;
    }
  }

  /** The ready list `ready` handed to executors, in order. */
  function ReleaseAll(s: State, ready: seq<nat>): (t: State)
    requires forall i :: 0 <= i < |ready| ==> ready[i] < |s.vs|
    ensures |t.vs| == |s.vs|
  {
    if ready == [] then s
    else
      var t, w := ReleaseAll(s, ready[..|ready| - 1]), ready[|ready| - 1];
      t.(vs := t.vs[w := t.vs[w].(phase := Queued)])
  }

  /** The order does not matter: exactly the listed vertices are queued. */
  lemma {:induction false} ReleaseAllEffect(s: State, ready: seq<nat>)
    requires forall i :: 0 <= i < |ready| ==> ready[i] < |s.vs|
    ensures ReleaseAll(s, ready) == s.(vs := ReleaseAll(s, ready).vs)
    ensures forall w: nat :: w < |s.vs| ==>
              ReleaseAll(s, ready).vs[w] == if w in ready then s.vs[w].(phase := Queued) else s.vs[w]
  {
    if ready != [] {
      ReleaseAllEffect(s, ready[..|ready| - 1]);
      assert ready == ready[..|ready| - 1] + [ready[|ready| - 1]];
    }
  }

  lemma ReleaseSame(s: State, q: seq<nat>, q': seq<nat>)
    requires forall i :: 0 <= i < |q| ==> q[i] < |s.vs|
    requires forall i :: 0 <= i < |q'| ==> q'[i] < |s.vs|
    requires multiset(q) == multiset(q')
    ensures ReleaseAll(s, q) == ReleaseAll(s, q')
  {
    forall w
      ensures w in q <==> w in q'
    {
      assert w in q <==> w in multiset(q);
    }
    ReleaseAllEffect(s, q);
    ReleaseAllEffect(s, q');
    assert ReleaseAll(s, q).vs == ReleaseAll(s, q').vs;
  }

  /** Vertices that are queued already stay so. */
  lemma ReleaseQueued(s: State, ready: seq<nat>)
    requires forall i :: 0 <= i < |ready| ==> ready[i] < |s.vs| && s.vs[ready[i]].phase == Queued
    ensures ReleaseAll(s, ready) == s
  {
    ReleaseAllEffect(s, ready);
    assert ReleaseAll(s, ready).vs == s.vs;
  }

  /** Handing over a notifier's ready list is a run of release steps, one per vertex. */
  lemma {:induction false} ReleaseAllIsARun(g: Graph, r: Run, v: nat, ready: seq<nat>) returns (r': Run)
    requires Assembled(g) && Schedule(g, r) && v < g.N() && After(g, r).vs[v].phase == Notifying(|g.succs[v]|)
    requires forall i, j :: 0 <= i < j < |ready| ==> ready[i] != ready[j]
    requires forall i :: 0 <= i < |ready| ==> ready[i] < g.N() && After(g, r).vs[ready[i]].phase == Held(v)
    ensures Schedule(g, r') && Length(r') == Length(r) + |ready|
    ensures After(g, r') == ReleaseAll(After(g, r), ready)
    decreases |ready|
  {
    if ready == [] {
      r' := r;
    } else {
      var before, w := ready[..|ready| - 1], ready[|ready| - 1];
      var r1 := ReleaseAllIsARun(g, r, v, before);
      ReleaseAllEffect(After(g, r), before);
      r' := Then(r1, Release(w));
    }
  }

  // ---------------------------------------------------------------- the ready list of a notifier

  /** The vertices in v's ready list. */
  ghost function HeldBy(s: State, v: nat): set<nat> {
    set w: nat | 0 <= w < |s.vs| && s.vs[w].phase == Held(v)
  }

  /** `ready` lists exactly `held`, each once. */
  ghost predicate Lists(ready: seq<nat>, held: set<nat>) {
    && (forall w :: w in ready <==> w in held)
    && (forall i, j :: 0 <= i < j < |ready| ==> ready[i] != ready[j])
  }

  lemma HeldAfterNotify(g: Graph, s: State, v: nat)
    requires Assembled(g) && Inv(g, s) && v < g.N() && s.vs[v].phase.Notifying? && s.vs[v].phase.next < |g.succs[v]|
    ensures var t, w := Step(g, s, Notify(v)), g.succs[v][s.vs[v].phase.next];
            w !in HeldBy(s, v) && HeldBy(t, v) - {w} == HeldBy(s, v)
    ensures Shape(g, Step(g, s, Notify(v)))
    ensures Step(g, s, Notify(v)).vs[v].phase == Notifying(s.vs[v].phase.next + 1)
  {
    NotifyFindsEmptySlot(g, s, v);
    NotifyAdvances(g, s, v);
  }

  /** v has told its first i successors; `ready` lists those it holds. */
  ghost predicate Serves(g: Graph, s: State, v: nat, i: nat, ready: seq<nat>)
    requires Assembled(g)
  {
    Inv(g, s) && v < g.N() && s.vs[v].phase == Notifying(i) && Lists(ready, HeldBy(s, v))
  }

  lemma ServesNext(g: Graph, s: State, v: nat, i: nat, ready: seq<nat>)
    requires Assembled(g) && Serves(g, s, v, i, ready) && i < |g.succs[v]|
    ensures var t, w := Step(g, s, Notify(v)), g.succs[v][i];
            Serves(g, t, v, i + 1, if w in HeldBy(t, v) then ready + [w] else ready)
  {
    StepInv(g, s, Notify(v));
    HeldAfterNotify(g, s, v);
  }

  lemma NoneHeldAfterJoin(g: Graph, s: State, v: nat)
    requires Assembled(g) && Inv(g, s) && v < g.N() && s.vs[v].phase.Finished?
    ensures HeldBy(Step(g, s, Join(v)), v) == {}
  {
    forall w: nat | w < g.N()
      ensures s.vs[w].phase != Held(v)
    {
      assert VertexInv(g, s, w);
    }
  }

  class VertexContext {
    const deps: nat
    var waitingNum: Uint32
    var depsResults: seq<VertexResult>
    var result: VertexResult
    var code: int
    ghost var phase: Phase

    ghost function View(): VertexState
      reads this
    {
      VertexState(phase, waitingNum, depsResults, result, code)
    }

    constructor (deps: nat)
      ensures this.deps == deps && View() == FreshVertex(deps)
    {
      this.deps := deps;
      waitingNum, result, code := Narrow(deps), V_RESULT_INVALID, V_CODE_INVALID;
      depsResults := seq(deps, _ => V_RESULT_INVALID);
      phase := if Narrow(deps) == 0 then Queued else Waiting;
    }

    method ResetState()
      modifies this
      ensures View() == FreshVertex(deps)
    {
      result, code := V_RESULT_INVALID, V_CODE_INVALID;
      depsResults := seq(deps, _ => V_RESULT_INVALID);
      waitingNum := Narrow(deps);
      phase := if waitingNum == 0 then Queued else Waiting;
    }

    method Ready() returns (b: bool)
      ensures b <==> waitingNum == 0
    {
      b := waitingNum == 0;
    }

    method SetDependencyResult(idx: nat, r: VertexResult) returns (waitNum: Uint32)
      requires idx < |depsResults|
      modifies this
      ensures Delivery(View(), waitNum) == Deliver(old(View()), idx, r)
    {
      var last := depsResults[idx];
      depsResults := depsResults[idx := r];
      waitNum := waitingNum;
      if last == V_RESULT_INVALID {
        waitingNum := Decrement(waitingNum);
      }
    }

    /** The dependency test of `Execute`: the first unmet slot decides. */
    method MatchDependencies(expected: seq<VertexResult>) returns (matched: bool)
      requires |expected| == |depsResults|
      ensures matched <==> MatchesDeps(depsResults, expected)
    {
      matched := true;
      for i := 0 to |depsResults|
        invariant matched && forall k :: 0 <= k < i ==> Meets(depsResults[k], expected[k])
      {
        if depsResults[i] == V_RESULT_INVALID || depsResults[i] & expected[i] == 0 {
          assert !Meets(depsResults[i], expected[i]);
          return false;
        }
      }
    }
  }

  class GraphContext {
    const g: Graph
    const vs: seq<VertexContext>
    var joinVertexNum: Uint32
    var earlyExitRc: int
    var dataTable: map<DataId, Value>
    var startCtxs: seq<nat>
    ghost var doneCalls: seq<int>

    ghost predicate Valid()
      reads this, vs
    {
      && Assembled(g) && |vs| == g.N()
      && (forall i, j :: 0 <= i < j < |vs| ==> vs[i] != vs[j])
      && (forall i :: 0 <= i < |vs| ==> vs[i].deps == |g.deps[i]| && |vs[i].depsResults| == |g.deps[i]|)
      && IsStartSet(startCtxs)
    }

    /** The vertices without dependencies, each once. */
    ghost predicate IsStartSet(starts: seq<nat>)
      requires |vs| == g.N()
    {
      && (forall v: nat :: v in starts <==> v < g.N() && |g.deps[v]| == 0)
      && (forall i, j :: 0 <= i < j < |starts| ==> starts[i] != starts[j])
    }

    ghost function VertexViews(): (r: seq<VertexState>)
      reads this, vs
      ensures |r| == |vs|
    {
      seq(|vs|, i requires 0 <= i < |vs| reads vs => vs[i].View())
    }

    ghost function View(): (s: State)
      requires Valid()
      reads this, vs
      ensures Shape(g, s)
    {
      State(joinVertexNum, VertexViews(), earlyExitRc, dataTable, doneCalls)
    }

    /** `Setup`: one context per vertex, the start set, and the initial counters. */
    constructor (g: Graph)
      requires Assembled(g)
      ensures this.g == g && Valid() && View() == Init(g) && fresh(vs)
    {
      this.g := g;
      var made: seq<VertexContext> := [];
      var starts: seq<nat> := [];
      for i := 0 to g.N()
        invariant |made| == i && fresh(made)
        invariant forall j, k :: 0 <= j < k < i ==> made[j] != made[k]
        invariant forall j :: 0 <= j < i ==> made[j].deps == |g.deps[j]| && made[j].View() == FreshVertex(|g.deps[j]|)
        invariant forall v: nat :: v in starts <==> v < i && |g.deps[v]| == 0
        invariant forall j, k :: 0 <= j < k < |starts| ==> starts[j] != starts[k]
      {
        var ctx := new VertexContext(|g.deps[i]|);
        made := made + [ctx];
        var ready := ctx.Ready();
        if ready {
          starts := starts + [i];
        }
      }
      vs, startCtxs := made, starts;
      joinVertexNum, earlyExitRc, dataTable, doneCalls := Narrow(g.N()), 0, map[], [];
      new;
      assert VertexViews() == Fresh(g);
    }

    /** `ResetState`: the while restart. */
    method ResetState()
      requires Valid()
      modifies this`joinVertexNum, vs
      ensures Valid() && View() == Restart(g, old(View()))
    {
      joinVertexNum := Narrow(g.N());
      ResetVertices();
    }

    method ResetVertices()
      requires Valid()
      modifies vs
      ensures Valid() && VertexViews() == Fresh(g)
    {
      for i := 0 to |vs|
        invariant Valid()
        invariant forall j :: 0 <= j < i ==> vs[j].View() == FreshVertex(|g.deps[j]|)
      {
        vs[i].ResetState();
      }
      assert VertexViews() == Fresh(g);
    }

    /** `Reset` before a context goes back to the pool, then `Execute` with a new completion callback: the
        next run on this context starts from the state that `Setup` established.  `dataTable` stands for the
        contents of the data context, which `DataStore.RunThenReset` shows to be empty again. */
    method Reset()
      requires Valid()
      modifies this`joinVertexNum, this`earlyExitRc, this`dataTable, vs
      ensures Valid() && View() == Init(g).(calls := old(doneCalls))
    {
      joinVertexNum := Narrow(g.N());
      ResetVertices();
      dataTable := map[];
      earlyExitRc := 0;
    }

    method SetEarlyExitCode(rc: int)
      modifies this`earlyExitRc
      ensures earlyExitRc == if old(earlyExitRc) == 0 then rc else old(earlyExitRc)
    {
      if earlyExitRc == 0 {
        earlyExitRc := rc;
      }
    }

    /** Only vertex v changed. */
    twostate lemma OnlyOneChanged(v: nat)
      requires old(Valid()) && Valid() && v < |vs|
      requires forall i :: 0 <= i < |vs| && i != v ==> unchanged(vs[i])
      ensures VertexViews() == old(VertexViews())[v := vs[v].View()]
    {
    }

    /** Entering a vertex. */
    method Begin(v: nat, gate: bool, ghost inputs: seq<Option<Value>>, injected: bool) returns (started: bool)
      requires Valid() && v < g.N() && vs[v].phase.Queued?
      modifies vs[v]
      ensures Valid() && View() == Step(g, old(View()), Action.Begin(v, gate, inputs, injected))
      ensures started <==> vs[v].phase.Running?
    {
      var x := vs[v];
      var matched := false;
      if gate {
        matched := x.MatchDependencies(g.expected[v]);
      }
      started := false;
      if !matched || earlyExitRc != 0 {
        x.result := if g.skipAsError then V_RESULT_ERR else V_RESULT_SKIP;
        x.code := V_CODE_SKIP;
        x.phase := Finished;
      } else if !injected {
        x.code := V_CODE_SKIP;
        if x.result == V_RESULT_INVALID {
          x.result := V_RESULT_ERR;
        }
        x.phase := Finished;
      } else {
        x.phase := Running(inputs);
        started := true;
      }
      OnlyOneChanged(v);
    }

    /** `FinishVertexProcess` for a processor that returned rc. */
    method FinishVertexProcess(v: nat, rc: int, outs: map<DataId, Option<Value>>)
      requires Valid() && v < g.N() && vs[v].phase.Running?
      modifies this`earlyExitRc, this`dataTable, vs[v]
      ensures Valid() && View() == Step(g, old(View()), Finish(v, rc, outs))
      ensures var ignored := g.options[v].ignoreError && !g.options[v].isCond && !g.options[v].earlyExit && !g.earlyExit;
              if rc == 0 || ignored then
                vs[v].code == 0 && vs[v].result == V_RESULT_OK && dataTable == Written(old(dataTable), outs)
              else
                && vs[v].code == rc && dataTable == old(dataTable)
                && vs[v].result == if old(vs[v].result) == V_RESULT_INVALID then V_RESULT_ERR else old(vs[v].result)
      ensures earlyExitRc ==
              if rc != 0 && (g.options[v].earlyExit || g.earlyExit) && old(earlyExitRc) == 0 then rc else old(earlyExitRc)
    {
      var x := vs[v];
      var code := rc;
      if code != 0 && (g.options[v].earlyExit || g.earlyExit) {
        SetEarlyExitCode(code);
      } else {
        code := if g.options[v].ignoreError && !g.options[v].isCond then 0 else code;
      }
      x.code := code;
      if 0 != code {
        if x.result == V_RESULT_INVALID {
          x.result := V_RESULT_ERR;
        }
      } else {
        x.result := V_RESULT_OK;
        dataTable := Written(dataTable, outs);
      }
      x.phase := Finished;
      OnlyOneChanged(v);
    }

    /** The decrement that opens `OnVertexDone`. */
    method Join(v: nat) returns (last: bool)
      requires Valid() && v < g.N() && vs[v].phase.Finished?
      modifies this`joinVertexNum, vs[v]
      ensures Valid() && View() == Step(g, old(View()), Action.Join(v))
      ensures last <==> vs[v].phase.Last?
    {
      last := joinVertexNum == 1;
      joinVertexNum := Decrement(joinVertexNum);
      vs[v].phase := if last then Last else Notifying(0);
      OnlyOneChanged(v);
    }

    /** Deliver v's result to w; with the last dependency v takes w into its ready list. */
    method Tell(v: nat, w: nat, k: nat) returns (ready: bool)
      requires Valid() && v < g.N() && w < g.N() && k < |g.deps[w]|
      modifies vs[w]
      ensures Valid()
      ensures var s, d := old(View()), Deliver(old(View()).vs[w], k, old(View()).vs[v].result);
              && (ready <==> d.before == 1)
              && View() == s.(vs := s.vs[w := if ready then d.vertex.(phase := Held(v)) else d.vertex])
    {
      var waitNum := vs[w].SetDependencyResult(k, vs[v].result);
      ready := 1 == waitNum;
      if ready {
        vs[w].phase := Held(v);
      }
      OnlyOneChanged(w);
    }

    ghost method Advance(v: nat, i: nat)
      requires Valid() && v < g.N()
      modifies vs[v]
      ensures Valid() && View() == old(View()).(vs := old(View()).vs[v := old(View()).vs[v].(phase := Notifying(i))])
    {
      vs[v].phase := Notifying(i);
      OnlyOneChanged(v);
    }

    /** One turn of the notification loop of `OnVertexDone`. */
    method NotifyNext(v: nat, i: nat) returns (ready: bool)
      requires Valid() && Inv(g, View()) && v < g.N() && vs[v].phase == Notifying(i) && i < |g.succs[v]|
      modifies vs
      ensures Valid() && View() == Step(g, old(View()), Notify(v))
      ensures ready <==> g.succs[v][i] in HeldBy(View(), v)
    {
      ghost var s := View();
      assert s.vs[v] == vs[v].View();
      NotifyFindsEmptySlot(g, s, v);
      ready := Tell(v, g.succs[v][i], g.slotOf[v][i]);
      Advance(v, i + 1);
    }

    ghost predicate Serving(v: nat, i: nat, ready: seq<nat>)
      reads this, vs
    {
      Valid() && Serves(g, View(), v, i, ready)
    }

    method NotifyTurn(v: nat, i: nat, ready: seq<nat>) returns (ready': seq<nat>)
      requires Serving(v, i, ready) && i < |g.succs[v]|
      modifies vs
      ensures Serving(v, i + 1, ready') && View() == Step(g, old(View()), Notify(v))
    {
      assert View().vs[v] == vs[v].View();
      ServesNext(g, View(), v, i, ready);
      var r := NotifyNext(v, i);
      ready' := if r then ready + [g.succs[v][i]] else ready;
    }

    /** The notification loop of `OnVertexDone`, by one worker without interference; `ready` lists the
        successors whose last dependency this was. */
    method NotifySuccessors(v: nat) returns (ready: seq<nat>)
      requires Serving(v, 0, [])
      modifies vs
      ensures Serving(v, |g.succs[v]|, ready) && View() == NotifyAll(g, old(View()), v)
    {
      ready := [];
      var i := 0;
      assert VertexInv(g, View(), v);
      while i < |g.succs[v]|
        invariant i <= |g.succs[v]| && Serving(v, i, ready)
        invariant NotifyAll(g, View(), v) == NotifyAll(g, old(View()), v)
      {
        ready := NotifyTurn(v, i, ready);
        i := i + 1;
      }
    }

    /** The vertex of a ready list that the calling worker runs itself: the first without an IO processor, or
        else the first. */
    method SelectLocal(ready: seq<nat>, isIO: nat -> bool) returns (pick: nat)
      requires ready != []
      ensures pick < |ready| && forall j :: 0 <= j < pick ==> isIO(ready[j])
      ensures isIO(ready[pick]) ==> pick == 0 && forall j :: 0 <= j < |ready| ==> isIO(ready[j])
    {
      pick := 0;
      while pick < |ready| && isIO(ready[pick])
        invariant pick <= |ready| && forall j :: 0 <= j < pick ==> isIO(ready[j])
      {
        pick := pick + 1;
      }
      if pick == |ready| {
        pick := 0;
      }
    }

    method Enqueue(w: nat)
      requires Valid() && w < g.N()
      modifies vs[w]
      ensures Valid() && View() == old(View()).(vs := old(View()).vs[w := old(View()).vs[w].(phase := Queued)])
    {
      vs[w].phase := Queued;
      OnlyOneChanged(w);
    }

    /** The asynchronous part of the hand-over: everything but the vertex at `pick`. */
    method QueueOthers(ready: seq<nat>, pick: nat) returns (queued: seq<nat>)
      requires Valid() && pick < |ready| && forall i :: 0 <= i < |ready| ==> ready[i] < g.N()
      modifies vs
      ensures Valid() && queued == Others(ready, pick, |ready|)
      ensures (forall i :: 0 <= i < |queued| ==> queued[i] < g.N()) && View() == ReleaseAll(old(View()), queued)
    {
      queued := [];
      for i := 0 to |ready|
        invariant Valid() && queued == Others(ready, pick, i)
        invariant (forall j :: 0 <= j < |queued| ==> queued[j] < g.N()) && View() == ReleaseAll(old(View()), queued)
      {
        if i != pick {
          Enqueue(ready[i]);
          assert (queued + [ready[i]])[..|queued|] == queued;
          queued := queued + [ready[i]];
        }
      }
    }

    method HandOver(ready: seq<nat>, pick: nat) returns (queued: seq<nat>)
      requires Valid() && pick < |ready| && forall i :: 0 <= i < |ready| ==> ready[i] < g.N()
      modifies vs
      ensures Valid() && queued == Others(ready, pick, |ready|)
      ensures forall i :: 0 <= i < |queued + [ready[pick]]| ==> (queued + [ready[pick]])[i] < g.N()
      ensures View() == ReleaseAll(old(View()), queued + [ready[pick]])
    {
      queued := QueueOthers(ready, pick);
      Enqueue(ready[pick]);
      assert (queued + [ready[pick]])[..|queued|] == queued;
    }

    /** `ExecuteReadyVertexs`: every ready vertex is handed over exactly once, the one that the worker runs
        itself last. */
    method ExecuteReadyVertexs(ready: seq<nat>, isIO: nat -> bool) returns (handed: seq<nat>)
      requires Valid() && forall i :: 0 <= i < |ready| ==> ready[i] < g.N()
      modifies vs
      ensures Valid() && View() == ReleaseAll(old(View()), ready)
      ensures multiset(handed) == multiset(ready)
      ensures ready != [] && isIO(handed[|handed| - 1]) ==>
                handed[|handed| - 1] == ready[0] && forall j :: 0 <= j < |ready| ==> isIO(ready[j])
    {
      if ready == [] {
        return [];
      }
      var pick := SelectLocal(ready, isIO);
      var queued := HandOver(ready, pick);
      PickedOut(ready, pick);
      ReleaseSame(old(View()), queued + [ready[pick]], ready);
      handed := queued + [ready[pick]];
    }

    /** The start vertices of a fresh round: exactly those without dependencies, each once. */
    method ExecuteStart(isIO: nat -> bool) returns (handed: seq<nat>)
      requires Valid() && VertexViews() == Fresh(g)
      modifies vs
      ensures Valid() && View() == old(View()) && IsStartSet(handed)
    {
      forall i | 0 <= i < |startCtxs|
        ensures startCtxs[i] < g.N() && View().vs[startCtxs[i]].phase == Queued
      {
        assert startCtxs[i] in startCtxs;
      }
      ReleaseQueued(View(), startCtxs);
      handed := ExecuteReadyVertexs(startCtxs, isIO);
      SameListing(startCtxs, handed);
    }

    /** `Execute` on a context that has been set up or reset: a new completion callback, and the start vertices. */
    method Execute(isIO: nat -> bool) returns (handed: seq<nat>)
      requires Valid() && VertexViews() == Fresh(g)
      modifies this`doneCalls, vs
      ensures Valid() && View() == old(View()).(calls := []) && IsStartSet(handed)
    {
      doneCalls := [];
      assert VertexViews() == old(VertexViews());
      handed := ExecuteStart(isIO);
    }

    /** The branch of `OnVertexDone` taken by the vertex that joined last: the restart hands over the start
        vertices again, the end nothing. */
    method Close(v: nat, isIO: nat -> bool) returns (handed: seq<nat>)
      requires Valid() && v < g.N() && vs[v].phase.Last?
      modifies this`joinVertexNum, this`doneCalls, vs
      ensures Valid() && View() == Step(g, old(View()), Action.Close(v))
      ensures if Repeats(g, old(View())) then IsStartSet(handed) else handed == []
    {
      handed := [];
      if g.whileVertex.Some? && vs[g.whileVertex.value].code == 0 {
        ResetState();
        assert VertexViews() == View().vs == Fresh(g);
        handed := ExecuteStart(isIO);
      } else {
        doneCalls := doneCalls + [earlyExitRc];
        vs[v].phase := Ended;
        OnlyOneChanged(v);
      }
    }

    /** `OnVertexDone`: the join, then either the closing branch, or the notification of every successor and the
        hand-over of those that it made ready, each once. */
    method OnVertexDone(v: nat, isIO: nat -> bool) returns (handed: seq<nat>, ghost ready: seq<nat>)
      requires Valid() && Inv(g, View()) && v < g.N() && vs[v].phase.Finished?
      modifies this`joinVertexNum, this`doneCalls, vs
      ensures Valid()
      ensures var joined := Step(g, old(View()), Action.Join(v));
              if joined.vs[v].phase.Last? then
                && View() == Step(g, joined, Action.Close(v))
                && (if Repeats(g, joined) then IsStartSet(handed) else handed == [])
              else
                var told := NotifyAll(g, joined, v);
                && Serves(g, told, v, |g.succs[v]|, ready) && multiset(handed) == multiset(ready)
                && (forall i :: 0 <= i < |ready| ==> ready[i] < g.N()) && View() == ReleaseAll(told, ready)
    {
      handed, ready := [], [];
      assert View().vs[v] == vs[v].View();
      StepInv(g, View(), Action.Join(v));
      NoneHeldAfterJoin(g, View(), v);
      var last := Join(v);
      if last {
        handed := Close(v, isIO);
      } else {
        var list := NotifySuccessors(v);
        ready := list;
        assert forall i :: 0 <= i < |list| ==> list[i] in list;
        handed := ExecuteReadyVertexs(list, isIO);
      }
    }
  }

  lemma SameListing(a: seq<nat>, b: seq<nat>)
    requires multiset(a) == multiset(b) && forall i, j :: 0 <= i < j < |a| ==> a[i] != a[j]
    ensures (forall x :: x in a <==> x in b) && forall i, j :: 0 <= i < j < |b| ==> b[i] != b[j]
  {
    forall x
      ensures x in a <==> x in b
    {
      assert x in a <==> x in multiset(a);
      assert x in b <==> x in multiset(b);
    }
    forall i, j | 0 <= i < j < |b|
      ensures b[i] != b[j]
    {
      if b[i] == b[j] {
        OnceInDistinct(a, b[i]);
        TwiceInMultiset(b, i, j);
      }
    }
  }

  lemma {:induction false} OnceInDistinct(a: seq<nat>, x: nat)
    requires forall i, j :: 0 <= i < j < |a| ==> a[i] != a[j]
    ensures multiset(a)[x] <= 1
  {
    if a != [] {
      var last := |a| - 1;
      OnceInDistinct(a[..last], x);
      assert a == a[..last] + [a[last]];
      assert x in multiset(a[..last]) <==> x in a[..last];
    }
  }

  lemma TwiceInMultiset(b: seq<nat>, i: nat, j: nat)
    requires i < j < |b| && b[i] == b[j]
    ensures multiset(b)[b[i]] >= 2
  {
    assert b == b[..i] + [b[i]] + b[i + 1..j] + [b[j]] + b[j + 1..];
  }

  /** The first i entries without the one at `pick`. */
  ghost function Others<T>(s: seq<T>, pick: nat, i: nat): seq<T>
    requires i <= |s|
  {
    if i == 0 then []
    else if i - 1 == pick then Others(s, pick, i - 1)
    else Others(s, pick, i - 1) + [s[i - 1]]
  }

  lemma SliceGrows<T>(s: seq<T>, i: nat, j: nat)
    requires i <= j < |s|
    ensures s[i..j + 1] == s[i..j] + [s[j]]
  {
  }

  lemma {:induction false} OthersAreSlices<T>(s: seq<T>, pick: nat, i: nat)
    requires pick < |s| && i <= |s|
    ensures Others(s, pick, i) == if i > pick then s[..pick] + s[pick + 1..i] else s[..i]
  {
    if i > 0 {
      OthersAreSlices(s, pick, i - 1);
      if i - 1 > pick {
        SliceGrows(s, pick + 1, i - 1);
      }
    }
  }

  lemma MovedToTheEnd<T>(s: seq<T>, pick: nat)
    requires pick < |s|
    ensures multiset(s[..pick] + s[pick + 1..] + [s[pick]]) == multiset(s)
  {
    assert s == s[..pick] + [s[pick]] + s[pick + 1..];
  }

  lemma PickedOut<T>(s: seq<T>, pick: nat)
    requires pick < |s|
    ensures multiset(s) == multiset(Others(s, pick, |s|) + [s[pick]])
  {
    OthersAreSlices(s, pick, |s|);
    MovedToTheEnd(s, pick);
    assert s[pick + 1..|s|] == s[pick + 1..];
  }
}
