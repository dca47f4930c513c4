/** The Go executor: the same protocol as the C++ one, except that a ready vertex is started at once and that a
    skipped vertex counts as failed.  Each method is proved to take the steps of module Protocol. */
module GoContexts {
  import opened VertexResults
  import opened GoResults
  import opened Protocol
  import opened RunInvariant

  /** A result code as a result bit; 0 is no result. */
  function Bit(result: int): VertexResult {
    if result == RESULT_OK then V_RESULT_OK else if result == RESULT_ERR then V_RESULT_ERR
    else if result == RESULT_SKIP then V_RESULT_SKIP else V_RESULT_INVALID
  }

  /** An expectation code as a mask. */
  function Mask(e: int): VertexResult
    requires IsExpectation(e)
  {
    if e == RESULT_OK then V_RESULT_OK else if e == RESULT_ERR then V_RESULT_ERR else V_RESULT_ALL
  }

  /** The graphs that the Go executor runs: no while restart and no early exit, skips count as errors. */
  ghost predicate IsGoGraph(g: Graph) {
    && WellFormed(g) && g.eager && g.skipAsError && !g.earlyExit && g.whileVertex.None?
    && forall x :: x in g.options ==> x == VertexOptions(false, false, false)
  }

  // ---------------------------------------------------------------- one successor at a time

  /** One successor is told and, if that was its last dependency, started. */
  ghost function Tell(g: Graph, s: State, v: nat): (t: State)
    requires WellFormed(g) && Inv(g, s) && g.eager && Enabled(g, s, Notify(v))
    ensures Inv(g, t) && t.vs[v].phase == Notifying(s.vs[v].phase.next + 1)
  {
    StepInv(g, s, Notify(v));
    NotifyFindsEmptySlot(g, s, v);
    var t, w := Step(g, s, Notify(v)), g.succs[v][s.vs[v].phase.next];
    assert IsSuccessor(g, v, s.vs[v].phase.next);
    if t.vs[w].phase == Held(v) then
      StepInv(g, t, Release(w));
      Step(g, t, Release(w))
    else t
  }

  /** All remaining successors of v. */
  ghost function TellAll(g: Graph, s: State, v: nat): State
    requires WellFormed(g) && Inv(g, s) && g.eager && v < g.N() && s.vs[v].phase.Notifying?
    decreases |g.succs[v]| - s.vs[v].phase.next
  {
    if s.vs[v].phase.next < |g.succs[v]| then TellAll(g, Tell(g, s, v), v) else s
  }

  /** Telling all successors, uninterrupted, is one of the protocol's runs. */
  lemma {:induction false} TellAllIsARun(g: Graph, r: Run, v: nat) returns (r': Run)
    requires WellFormed(g) && g.eager && Schedule(g, r) && Inv(g, After(g, r)) && v < g.N() && After(g, r).vs[v].phase.Notifying?
    ensures Schedule(g, r') && After(g, r') == TellAll(g, After(g, r), v)
    decreases |g.succs[v]| - After(g, r).vs[v].phase.next
  {
    var s := After(g, r);
    if s.vs[v].phase.next < |g.succs[v]| {
      var told := Then(r, Notify(v));
      var w := g.succs[v][s.vs[v].phase.next];
      assert IsSuccessor(g, v, s.vs[v].phase.next);
      var t := Tell(g, s, v);
      NotifyFindsEmptySlot(g, s, v);
      var next := if After(g, told).vs[w].phase == Held(v) then Then(told, Release(w)) else told;
      assert Schedule(g, next) && After(g, next) == t;
      r' := TellAllIsARun(g, next, v);
    } else {
      r' := r;
    }
  }

  /** The expectation codes are those of the graph's masks. */
  ghost predicate Codes(g: Graph, expects: seq<seq<int>>) {
    && |expects| == |g.expected|
    && (forall v :: 0 <= v < |expects| ==> |expects[v]| == |g.expected[v]|)
    && (forall v, k :: 0 <= v < |expects| && 0 <= k < |g.expected[v]| ==>
          IsExpectation(expects[v][k]) && Mask(expects[v][k]) == g.expected[v][k])
  }

  /** The counter and the result codes of a vertex against its protocol state; a skip is never stored. */
  ghost predicate Mirrors(waiting: int, results: seq<int>, x: VertexState) {
    && waiting == x.waiting && |results| == |x.slots|
    && forall k :: 0 <= k < |results| ==> Bit(results[k]) == x.slots[k] && results[k] != RESULT_SKIP
  }

  ghost predicate AllMirrored(waiting: seq<int>, results: seq<seq<int>>, s: State) {
    && |waiting| == |results| == |s.vs|
    && forall v {:trigger Mirrors(waiting[v], results[v], s.vs[v])} :: 0 <= v < |s.vs| ==> Mirrors(waiting[v], results[v], s.vs[v])
  }

  /** Nothing but phases, results and codes changed. */
  lemma MirroredPhases(waiting: seq<int>, results: seq<seq<int>>, s: State, t: State)
    requires AllMirrored(waiting, results, s) && |t.vs| == |s.vs|
    requires forall v :: 0 <= v < |s.vs| ==> t.vs[v].waiting == s.vs[v].waiting && t.vs[v].slots == s.vs[v].slots
    ensures AllMirrored(waiting, results, t)
  {
    forall v | 0 <= v < |s.vs|
      ensures Mirrors(waiting[v], results[v], t.vs[v])
    {
      assert Mirrors(waiting[v], results[v], s.vs[v]);
    }
  }

  /** One vertex got a result. */
  lemma MirroredDelivery(waiting: seq<int>, results: seq<seq<int>>, s: State, t: State, w: nat, k: nat, result: int)
    requires AllMirrored(waiting, results, s) && |t.vs| == |s.vs| && w < |s.vs| && k < |results[w]|
    requires |t.vs[w].slots| == |s.vs[w].slots| && k < |s.vs[w].slots|
    requires result != RESULT_SKIP && t.vs[w].slots == s.vs[w].slots[k := Bit(result)] && t.vs[w].waiting == s.vs[w].waiting - 1
    requires forall v :: 0 <= v < |s.vs| && v != w ==> t.vs[v].waiting == s.vs[v].waiting && t.vs[v].slots == s.vs[v].slots
    ensures AllMirrored(waiting[w := waiting[w] - 1], results[w := results[w][k := result]], t)
  {
    forall v | 0 <= v < |s.vs|
      ensures Mirrors(waiting[w := waiting[w] - 1][v], results[w := results[w][k := result]][v], t.vs[v])
    {
      assert Mirrors(waiting[v], results[v], s.vs[v]);
    }
  }

  class GraphExecuteContext {
    const g: Graph
    const expects: seq<seq<int>>
    var waitingNum: seq<int>
    var depsResults: seq<seq<int>>
    var pendingVertices: int
    var doneCalls: nat
    ghost var s: State

    /** `build` and `Reset`: nothing has reported. */
    constructor (g: Graph, expects: seq<seq<int>>)
      requires IsGoGraph(g) && Codes(g, expects)
      ensures this.g == g && this.expects == expects && s == Init(g) && Valid()
    {
      this.g, this.expects := g, expects;
      waitingNum := seq(g.N(), v requires 0 <= v < g.N() => |g.deps[v]|);
      depsResults := seq(g.N(), v requires 0 <= v < g.N() => seq(|g.deps[v]|, _ => 0));
      pendingVertices, doneCalls := g.N(), 0;
      s := Init(g);
      FreshInv(g, Init(g));
    }

    /** The Go fields hold what the protocol state says. */
    ghost predicate Valid()
      reads this
    {
      && IsGoGraph(g) && Inv(g, s) && s.early == 0 && Codes(g, expects)
      && pendingVertices == s.join && doneCalls == |s.calls|
      && AllMirrored(waitingNum, depsResults, s)
    }

    /** `execute` of the graph collects its start vertices before it starts any: exactly those without
        dependencies, which the protocol starts as queued. */
    method CollectReady() returns (ready: seq<nat>)
      requires Valid() && s == Init(g)
      ensures forall v: nat :: v in ready <==> v < g.N() && g.deps[v] == []
      ensures forall i :: 0 <= i < |ready| ==> ready[i] < g.N() && s.vs[ready[i]].phase.Queued?
      ensures forall i, j :: 0 <= i < j < |ready| ==> ready[i] < ready[j]
    {
      ready := [];
      for v := 0 to |waitingNum|
        invariant forall w: nat :: w in ready <==> w < v && g.deps[w] == []
        invariant forall i :: 0 <= i < |ready| ==> ready[i] < v && s.vs[ready[i]].phase.Queued?
        invariant forall i, j :: 0 <= i < j < |ready| ==> ready[i] < ready[j]
      {
        assert Mirrors(waitingNum[v], depsResults[v], s.vs[v]) && VertexInv(g, s, v);
        if waitingNum[v] == 0 {
          ready := ready + [v];
        }
      }
    }

    /** The dependency test of `execute`, for a vertex whose dependencies have all reported. */
    method MatchDeps(v: nat) returns (eagerExit: bool)
      requires Valid() && v < g.N() && s.vs[v].waiting == 0
      ensures |s.vs[v].slots| == |g.expected[v]| && (eagerExit <==> !MatchesDeps(s.vs[v].slots, g.expected[v]))
    {
      assert Mirrors(waitingNum[v], depsResults[v], s.vs[v]) && VertexInv(g, s, v);
      assert forall k :: 0 <= k < |s.vs[v].slots| ==> k !in EmptySlots(s.vs[v].slots);
      eagerExit := false;
      for i := 0 to |depsResults[v]|
        invariant eagerExit <==> exists k :: 0 <= k < i && !Meets(s.vs[v].slots[k], g.expected[v][k])
      {
        assert i !in EmptySlots(s.vs[v].slots);
        var e, r := expects[v][i], depsResults[v][i];
        MeetsByCode(r, e);
        if e == RESULT_OK {
          if r != RESULT_OK { eagerExit := true; }
        } else if e == RESULT_ERR {
          if r != RESULT_ERR { eagerExit := true; }
        }
      }
    }

    /** `setDependencyResult`: store the result, count down, return the rest. */
    method SetDependencyResult(w: nat, k: nat, result: int) returns (rest: int)
      requires w < |waitingNum| == |depsResults| && k < |depsResults[w]|
      modifies this`waitingNum, this`depsResults
      ensures depsResults == old(depsResults)[w := old(depsResults)[w][k := result]]
      ensures waitingNum == old(waitingNum)[w := old(waitingNum)[w] - 1] && rest == waitingNum[w]
    {
      depsResults := depsResults[w := depsResults[w][k := result]];
      waitingNum := waitingNum[w := waitingNum[w] - 1];
      rest := waitingNum[w];
    }

    /** v has told i successors its result. */
    ghost predicate Telling(v: nat, i: nat, result: int)
      reads this
    {
      && Valid() && v < g.N() && i <= |g.succs[v]| && s.vs[v].phase == Notifying(i)
      && Bit(result) == s.vs[v].result && result != RESULT_SKIP
    }

    /** One turn of the notification loop of `vertexDone`: the successor is told, and started when nothing is
        left to wait for. */
    method TellNext(v: nat, i: nat, result: int) returns (started: bool)
      requires Telling(v, i, result) && i < |g.succs[v]|
      modifies this`waitingNum, this`depsResults, this`s
      ensures Telling(v, i + 1, result) && s == Tell(g, old(s), v)
      ensures var w := g.succs[v][i]; w < g.N() && (started <==> s.vs[w].phase.Queued?)
    {
      TellEffect(g, s, v);
      var w, k := g.succs[v][i], g.slotOf[v][i];
      assert Mirrors(waitingNum[w], depsResults[w], s.vs[w]);
      MirroredDelivery(waitingNum, depsResults, s, Tell(g, s, v), w, k, result);
      var rest := SetDependencyResult(w, k, result);
      s := Tell(g, s, v);
      started := rest == 0;
    }

    /** `vertexDone`, by one worker without interference: the join; then completion, or every successor told and
        the ready ones started.  A skip is reported as an error. */
    method VertexDone(v: nat, result: int)
      requires Valid() && v < g.N() && s.vs[v].phase.Finished?
      requires Bit(if result == RESULT_SKIP then RESULT_ERR else result) == s.vs[v].result
      modifies this
      ensures Valid()
      ensures var j := Step(g, old(s), Action.Join(v));
              Inv(g, j) && s == if j.vs[v].phase.Last? then Step(g, j, Close(v)) else TellAll(g, j, v)
    {
      var reported := if result == RESULT_SKIP then RESULT_ERR else result;
      Join(v);
      if pendingVertices == 0 {
        Finish(v);
        return;
      }
      TellSuccessors(v, reported);
    }

    /** `atomic.AddInt32(&g.pendingVertices, -1)`. */
    method Join(v: nat)
      requires Valid() && v < g.N() && s.vs[v].phase.Finished?
      modifies this`pendingVertices, this`s
      ensures Valid() && s == Step(g, old(s), Action.Join(v)) && s.vs[v].result == old(s).vs[v].result
      ensures if pendingVertices == 0 then s.vs[v].phase.Last? else s.vs[v].phase == Notifying(0)
    {
      StepInv(g, s, Action.Join(v));
      assert v in Unjoined(s);
      MirroredPhases(waitingNum, depsResults, s, Step(g, s, Action.Join(v)));
      pendingVertices := pendingVertices - 1;
      s := Step(g, s, Action.Join(v));
    }

    /** `wg.Done` and the early return. */
    method Finish(v: nat)
      requires Valid() && v < g.N() && s.vs[v].phase.Last?
      modifies this`doneCalls, this`s
      ensures Valid() && s == Step(g, old(s), Close(v))
    {
      StepInv(g, s, Close(v));
      MirroredPhases(waitingNum, depsResults, s, Step(g, s, Close(v)));
      doneCalls := doneCalls + 1;
      s := Step(g, s, Close(v));
    }

    method TellSuccessors(v: nat, result: int)
      requires Telling(v, 0, result)
      modifies this`waitingNum, this`depsResults, this`s
      ensures Telling(v, |g.succs[v]|, result) && s == TellAll(g, old(s), v)
    {
      var i := 0;
      while i < |g.succs[v]|
        invariant i <= |g.succs[v]| && Telling(v, i, result) && TellAll(g, s, v) == TellAll(g, old(s), v)
      {
        var started := TellNext(v, i, result);
        i := i + 1;
      }
    }
  }

  /** What telling one successor changes. */
  lemma TellEffect(g: Graph, s: State, v: nat)
    requires WellFormed(g) && Inv(g, s) && g.eager && Enabled(g, s, Notify(v))
    ensures var i := s.vs[v].phase.next;
            var w, k, t := g.succs[v][i], g.slotOf[v][i], Tell(g, s, v);
            && w < g.N() && w != v && k < |s.vs[w].slots| && s.vs[w].waiting > 0
            && t == s.(vs := t.vs) && |t.vs| == |s.vs|
            && t.vs[w].slots == s.vs[w].slots[k := s.vs[v].result] && t.vs[w].waiting == s.vs[w].waiting - 1
            && (t.vs[w].phase.Queued? <==> t.vs[w].waiting == 0)
            && t.vs[v] == s.vs[v].(phase := Notifying(i + 1))
            && forall x :: 0 <= x < |s.vs| && x != w && x != v ==> t.vs[x] == s.vs[x]
  {
    NotifyFindsEmptySlot(g, s, v);
    var i := s.vs[v].phase.next;
    assert IsSuccessor(g, v, i);
    var w := g.succs[v][i];
    assert VertexInv(g, s, w) && VertexInv(g, s, v);
    assert g.slotOf[v][i] in EmptySlots(s.vs[w].slots);
    assert VertexInv(g, Tell(g, s, v), w);
  }

  lemma MeetsByCode(r: int, e: int)
    requires IsExpectation(e) && Bit(r) != V_RESULT_INVALID && r != RESULT_SKIP
    ensures Meets(Bit(r), Mask(e)) <==> e == RESULT_ALL || r == e
  {
  }
}
