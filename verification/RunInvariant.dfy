/** What every step of every interleaving keeps: the counters agree with the slots and phases they count,
    and a slot is filled exactly when its source has passed that successor. */
module RunInvariant {
  import opened Options
  import opened VertexResults
  import opened Protocol

  ghost function EmptySlots(slots: seq<VertexResult>): set<nat> {
    set k: nat | 0 <= k < |slots| && slots[k] == V_RESULT_INVALID
  }

  ghost function Unjoined(s: State): set<nat> {
    set v: nat | 0 <= v < |s.vs| && !Joined(s.vs[v].phase)
  }

  predicate Closing(p: Phase) {
    p.Last? || p.Ended?
  }

  predicate Recorded(p: Phase) {
    p.Finished? || Joined(p)
  }

  /** The source of slot k of v has already notified v. */
  ghost predicate Told(g: Graph, s: State, v: nat, k: nat)
    requires Assembled(g) && Shape(g, s) && v < g.N() && k < |g.deps[v]| && IsSlot(g, v, k)
  {
    var i := Position(g, v, k);
    var p := s.vs[g.deps[v][k]].phase;
    p.Notifying? && i < p.next
  }

  ghost predicate SlotInv(g: Graph, s: State, v: nat, k: nat)
    requires Assembled(g) && Shape(g, s) && v < g.N() && k < |g.deps[v]|
  {
    s.vs[v].slots[k] ==
    if IsSlot(g, v, k) && Told(g, s, v, k) then s.vs[g.deps[v][k]].result else V_RESULT_INVALID
  }

  ghost predicate VertexInv(g: Graph, s: State, v: nat)
    requires Assembled(g) && Shape(g, s) && v < g.N()
  {
    var x := s.vs[v];
    && x.waiting == |EmptySlots(x.slots)|
    && (x.phase.Waiting? <==> x.waiting != 0)
    && (x.result != V_RESULT_INVALID <==> Recorded(x.phase))
    && (x.phase.Notifying? ==> x.phase.next <= |g.succs[v]|)
    && (x.phase.Held? ==> x.phase.notifier < g.N() && s.vs[x.phase.notifier].phase.Notifying?)
  }

  ghost function Closers(s: State): set<nat> {
    set v: nat | 0 <= v < |s.vs| && Closing(s.vs[v].phase)
  }

  ghost function Enders(s: State): set<nat> {
    set v: nat | 0 <= v < |s.vs| && s.vs[v].phase.Ended?
  }

  ghost predicate JoinInv(g: Graph, s: State) {
    && s.join == |Unjoined(s)|
    && (s.join == 0 <==> Closers(s) != {})
    && (forall u, v :: u in Closers(s) && v in Closers(s) ==> u == v)
    && s.calls == if Enders(s) == {} then [] else [s.early]
  }

  ghost predicate Inv(g: Graph, s: State)
    requires Assembled(g)
  {
    && Shape(g, s)
    && (forall v {:trigger VertexInv(g, s, v)} :: 0 <= v < g.N() ==> VertexInv(g, s, v))
    && (forall v, k {:trigger SlotInv(g, s, v, k)} :: 0 <= v < g.N() && 0 <= k < |g.deps[v]| ==> SlotInv(g, s, v, k))
    && JoinInv(g, s)
  }

  // ---------------------------------------------------------------- counting

  lemma {:induction false} CountBelow(s: set<nat>, n: nat)
    requires forall k: nat :: k in s <==> k < n
    ensures |s| == n
  {
    if n > 0 {
      CountBelow(s - {n - 1}, n - 1);
    }
  }

  lemma FreshCounts(deps: nat)
    requires deps < 0x1_0000_0000
    ensures FreshVertex(deps).waiting == |EmptySlots(FreshVertex(deps).slots)| == deps
  {
    CountBelow(EmptySlots(FreshVertex(deps).slots), deps);
  }

  lemma EmptyAfterFill(slots: seq<VertexResult>, k: nat, r: VertexResult)
    requires k < |slots| && r != V_RESULT_INVALID
    ensures EmptySlots(slots[k := r]) == EmptySlots(slots) - {k}
  {
  }

  // ---------------------------------------------------------------- every step keeps the invariant

  lemma FreshInv(g: Graph, s: State)
    requires Assembled(g) && s.vs == Fresh(g) && s.join == g.N() && s.calls == []
    ensures Inv(g, s)
  {
    forall v | 0 <= v < g.N()
      ensures VertexInv(g, s, v)
    {
      FreshCounts(|g.deps[v]|);
    }
    CountBelow(Unjoined(s), g.N());
  }

  lemma BeginInv(g: Graph, s: State, a: Action)
    requires Assembled(g) && Inv(g, s) && Enabled(g, s, a) && a.Begin?
    ensures Inv(g, Step(g, s, a))
  {
    var t := Step(g, s, a);
    assert VertexInv(g, s, a.v) && a.v in Unjoined(s);
    LocalStep(g, s, t, a.v);
  }

  lemma FinishInv(g: Graph, s: State, a: Action)
    requires Assembled(g) && Inv(g, s) && Enabled(g, s, a) && a.Finish?
    ensures Inv(g, Step(g, s, a))
  {
    var t := Step(g, s, a);
    assert VertexInv(g, s, a.v) && a.v in Unjoined(s);
    LocalStep(g, s, t, a.v);
  }

  lemma ReleaseInv(g: Graph, s: State, a: Action)
    requires Assembled(g) && Inv(g, s) && Enabled(g, s, a) && a.Release?
    ensures Inv(g, Step(g, s, a))
  {
    assert VertexInv(g, s, a.v);
    LocalStep(g, s, Step(g, s, a), a.v);
  }

  /** A step that only moves one unjoined vertex between unjoined phases. */
  lemma LocalStep(g: Graph, s: State, t: State, v: nat)
    requires Assembled(g) && Inv(g, s) && v < g.N()
    requires !Joined(s.vs[v].phase) && !s.vs[v].phase.Waiting? && |t.vs| == g.N() && t.vs == s.vs[v := t.vs[v]]
    requires t.vs[v].slots == s.vs[v].slots && t.vs[v].waiting == s.vs[v].waiting
    requires var p := t.vs[v].phase; p.Queued? || p.Running? || p.Finished?
    requires t.vs[v].result != V_RESULT_INVALID <==> t.vs[v].phase.Finished?
    requires t.join == s.join && t.calls == s.calls && (t.early == s.early || s.join != 0)
    ensures Inv(g, t)
  {
    SlotsFrame(g, s, t);
    forall w | 0 <= w < g.N()
      ensures VertexInv(g, t, w)
    {
      assert VertexInv(g, s, w) && VertexInv(g, s, v);
    }
    assert Unjoined(t) == Unjoined(s) && Closers(t) == Closers(s) && Enders(t) == Enders(s);
  }

  /** A slot depends only on itself and on its source's result and notification count. */
  lemma SlotsFrame(g: Graph, s: State, t: State)
    requires Assembled(g) && Inv(g, s) && Shape(g, t)
    requires forall w :: 0 <= w < g.N() ==>
      && t.vs[w].slots == s.vs[w].slots
      && (s.vs[w].phase.Notifying? ==> t.vs[w].phase == s.vs[w].phase && t.vs[w].result == s.vs[w].result)
      && (!s.vs[w].phase.Notifying? ==> !t.vs[w].phase.Notifying? || t.vs[w].phase.next == 0)
    ensures forall w, k {:trigger SlotInv(g, t, w, k)} :: 0 <= w < g.N() && 0 <= k < |g.deps[w]| ==> SlotInv(g, t, w, k)
  {
    forall w, k | 0 <= w < g.N() && 0 <= k < |g.deps[w]|
      ensures SlotInv(g, t, w, k)
    {
      assert SlotInv(g, s, w, k);
      assert IsSlot(g, w, k) ==> SlotAt(g, w, k, Position(g, w, k));
    }
  }

  lemma JoinStepInv(g: Graph, s: State, a: Action)
    requires Assembled(g) && Inv(g, s) && Enabled(g, s, a) && a.Join?
    ensures Inv(g, Step(g, s, a))
  {
    var t := Step(g, s, a);
    SlotsFrame(g, s, t);
    assert VertexInv(g, s, a.v);
    forall w | 0 <= w < g.N()
      ensures VertexInv(g, t, w)
    {
      if w != a.v {
        VertexFrame(g, s, t, w);
      }
    }
    JoinStepCounts(g, s, t, a.v);
  }

  /** A vertex the step did not touch keeps its invariant. */
  lemma VertexFrame(g: Graph, s: State, t: State, w: nat)
    requires Assembled(g) && Shape(g, s) && Shape(g, t) && w < g.N() && VertexInv(g, s, w)
    requires t.vs[w] == s.vs[w]
    requires forall u :: 0 <= u < g.N() && s.vs[u].phase.Notifying? ==> t.vs[u].phase.Notifying?
    ensures VertexInv(g, t, w)
  {
  }

  lemma JoinStepCounts(g: Graph, s: State, t: State, v: nat)
    requires JoinInv(g, s) && v < |s.vs| && s.vs[v].phase.Finished?
    requires t == s.(join := Decrement(s.join),
                     vs := s.vs[v := s.vs[v].(phase := if s.join == 1 then Last else Notifying(0))])
    ensures JoinInv(g, t)
  {
    assert v in Unjoined(s) && Unjoined(t) == Unjoined(s) - {v};
    assert Closers(t) == if s.join == 1 then {v} else {};
    assert Enders(s) <= Closers(s) && Enders(t) <= Closers(s);
  }

  lemma CloseInv(g: Graph, s: State, a: Action)
    requires Assembled(g) && Inv(g, s) && Enabled(g, s, a) && a.Close?
    ensures Inv(g, Step(g, s, a))
  {
    var t := Step(g, s, a);
    assert a.v in Closers(s) && Enders(s) <= Closers(s);
    assert Enders(s) == {};
    if Repeats(g, s) {
      FreshInv(g, t);
    } else {
      SlotsFrame(g, s, t);
      forall w | 0 <= w < g.N()
        ensures VertexInv(g, t, w)
      {
        assert VertexInv(g, s, w) && VertexInv(g, s, a.v);
      }
      assert Unjoined(t) == Unjoined(s) && Closers(t) == Closers(s) && Enders(t) == {a.v};
    }
  }

  /** The edge a notifier is about to serve: its slot is empty, so the counter is positive and the
      already-filled branch of `SetDependencyResult` is not taken. */
  lemma NotifyFindsEmptySlot(g: Graph, s: State, v: nat)
    requires Assembled(g) && Inv(g, s) && v < g.N()
    requires s.vs[v].phase.Notifying? && s.vs[v].phase.next < |g.succs[v]|
    ensures var i := s.vs[v].phase.next;
            var w, k := g.succs[v][i], g.slotOf[v][i];
            && w < g.N() && k < |g.deps[w]| && g.deps[w][k] == v && SlotAt(g, w, k, i) && Position(g, w, k) == i && w != v
            && s.vs[w].slots[k] == V_RESULT_INVALID && s.vs[w].waiting > 0 && s.vs[w].phase.Waiting?
  {
    var i := s.vs[v].phase.next;
    assert IsSuccessor(g, v, i);
    var w, k := g.succs[v][i], g.slotOf[v][i];
    assert SlotAt(g, w, k, i);
    assert SlotAt(g, w, k, Position(g, w, k));
    assert Position(g, w, k) == i;
    assert SlotInv(g, s, w, k) && VertexInv(g, s, w);
    assert k in EmptySlots(s.vs[w].slots);
  }

  lemma NotifyInv(g: Graph, s: State, a: Action)
    requires Assembled(g) && Inv(g, s) && Enabled(g, s, a) && a.Notify?
    ensures Inv(g, Step(g, s, a))
  {
    var t := Step(g, s, a);
    var v, i := a.v, s.vs[a.v].phase.next;
    NotifyFindsEmptySlot(g, s, v);
    var w, k := g.succs[v][i], g.slotOf[v][i];
    assert VertexInv(g, s, v) && VertexInv(g, s, w);
    EmptyAfterFill(s.vs[w].slots, k, s.vs[v].result);
    assert EmptySlots(t.vs[w].slots) == EmptySlots(s.vs[w].slots) - {k};
    forall x, j | 0 <= x < g.N() && 0 <= j < |g.deps[x]|
      ensures SlotInv(g, t, x, j)
    {
      NotifySlot(g, s, t, a, x, j);
    }
    forall x | 0 <= x < g.N()
      ensures VertexInv(g, t, x)
    {
      if x != v && x != w {
        VertexFrame(g, s, t, x);
      }
    }
    NotifyCounts(g, s, t, a);
  }

  lemma NotifyCounts(g: Graph, s: State, t: State, a: Action)
    requires Assembled(g) && Inv(g, s) && Enabled(g, s, a) && a.Notify? && t == Step(g, s, a)
    ensures JoinInv(g, t)
  {
    NotifyFindsEmptySlot(g, s, a.v);
    assert Unjoined(t) == Unjoined(s) && Closers(t) == Closers(s) && Enders(t) == Enders(s);
  }

  lemma NotifySlot(g: Graph, s: State, t: State, a: Action, x: nat, j: nat)
    requires Assembled(g) && Inv(g, s) && Enabled(g, s, a) && a.Notify? && t == Step(g, s, a) && Shape(g, t)
    requires x < g.N() && j < |g.deps[x]|
    ensures SlotInv(g, t, x, j)
  {
    NotifyFindsEmptySlot(g, s, a.v);
    assert SlotInv(g, s, x, j);
    assert IsSlot(g, x, j) ==> SlotAt(g, x, j, Position(g, x, j));
  }

  lemma StepInv(g: Graph, s: State, a: Action)
    requires Assembled(g) && Inv(g, s) && Enabled(g, s, a)
    ensures Inv(g, Step(g, s, a))
  {
    match a
    case Begin(_, _, _, _) => BeginInv(g, s, a);
    case Finish(_, _, _) => FinishInv(g, s, a);
    case Join(_) => JoinStepInv(g, s, a);
    case Notify(_) => NotifyInv(g, s, a);
    case Release(_) => ReleaseInv(g, s, a);
    case Close(_) => CloseInv(g, s, a);
  }

  /** Counter conservation, over every interleaving. */
  lemma {:induction false} ScheduleInv(g: Graph, r: Run)
    requires Assembled(g) && Schedule(g, r)
    ensures Inv(g, After(g, r))
  {
    match r
    case Start => FreshInv(g, Init(g));
    case Then(before, a) =>
      ScheduleInv(g, before);
      StepInv(g, After(g, before), a);
  }

  // ---------------------------------------------------------------- what a return code becomes

  /** Vertex v leaves no failure behind: its processor returned 0, or neither it nor the graph exits early on a
      failure and it ignores errors without being a condition. */
  predicate Succeeds(g: Graph, v: nat, rc: int)
    requires v < |g.options|
  {
    rc == 0 || (!g.options[v].earlyExit && !g.earlyExit && g.options[v].ignoreError && !g.options[v].isCond)
  }

  /** A processor that returned rc: its vertex ends OK with code 0 and its outputs are published exactly if it
      succeeds in this sense; otherwise it ends ERR with code rc and publishes nothing.  The first failure of a vertex
      that exits early is recorded; nothing else changes. */
  lemma FinishRecords(g: Graph, s: State, v: nat, rc: int, outs: map<DataId, Option<Value>>)
    requires Assembled(g) && Inv(g, s) && Enabled(g, s, Finish(v, rc, outs))
    ensures var t := Step(g, s, Finish(v, rc, outs));
            && |t.vs| == g.N() && t.vs[v].phase == Finished && t.vs[v].slots == s.vs[v].slots
            && (if Succeeds(g, v, rc) then
                  t.vs[v].code == 0 && t.vs[v].result == V_RESULT_OK && t.table == Written(s.table, outs)
                else
                  t.vs[v].code == rc != 0 && t.vs[v].result == V_RESULT_ERR && t.table == s.table)
            && t.early == (if s.early == 0 && rc != 0 && (g.options[v].earlyExit || g.earlyExit) then rc else s.early)
            && t.join == s.join && t.calls == s.calls
            && forall w :: 0 <= w < g.N() && w != v ==> t.vs[w] == s.vs[w]
  {
    assert VertexInv(g, s, v);
  }

  /** The target is there and its condition holds, every dependency reported a result of a kind that its edge expects,
      and no early-exit code is recorded. */
  predicate Due(g: Graph, s: State, v: nat, gate: bool)
    requires v < |s.vs| && v < |g.expected| && |s.vs[v].slots| == |g.expected[v]|
  {
    && gate && s.early == 0
    && forall k :: 0 <= k < |s.vs[v].slots| ==>
         s.vs[v].slots[k] != V_RESULT_INVALID && s.vs[v].slots[k] & g.expected[v][k] != 0
  }

  lemma DueIff(g: Graph, s: State, v: nat, gate: bool)
    requires v < |s.vs| && v < |g.expected| && |s.vs[v].slots| == |g.expected[v]|
    ensures MayRun(g, s, v, gate) <==> Due(g, s, v, gate)
  {
    assert forall k :: 0 <= k < |s.vs[v].slots| ==>
      (Meets(s.vs[v].slots[k], g.expected[v][k]) <==>
       s.vs[v].slots[k] != V_RESULT_INVALID && s.vs[v].slots[k] & g.expected[v][k] != 0);
  }

  /** Entering a vertex: it starts exactly if it is due and its inputs were injected.  If only the injection fails it
      ends ERR; a vertex that is not due is skipped, which counts as ERR where skips are errors. */
  lemma BeginRecords(g: Graph, s: State, v: nat, gate: bool, inputs: seq<Option<Value>>, injected: bool)
    requires Assembled(g) && Inv(g, s) && Enabled(g, s, Begin(v, gate, inputs, injected))
    ensures var t := Step(g, s, Begin(v, gate, inputs, injected));
            && |t.vs| == g.N() && t.vs[v].slots == s.vs[v].slots
            && (Due(g, s, v, gate) && injected ==> t.vs[v].phase == Running(inputs) && t.vs[v].result == V_RESULT_INVALID)
            && (Due(g, s, v, gate) && !injected ==>
                  t.vs[v].phase == Finished && t.vs[v].result == V_RESULT_ERR && t.vs[v].code == V_CODE_SKIP)
            && (!Due(g, s, v, gate) ==> t.vs[v].phase == Finished && t.vs[v].code == V_CODE_SKIP
                                        && t.vs[v].result == if g.skipAsError then V_RESULT_ERR else V_RESULT_SKIP)
            && t.early == s.early && t.join == s.join && t.calls == s.calls && t.table == s.table
            && forall w :: 0 <= w < g.N() && w != v ==> t.vs[w] == s.vs[w]
  {
    assert VertexInv(g, s, v);
    DueIff(g, s, v, gate);
  }
}
