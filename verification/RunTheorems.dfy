/** Whole-run theorems of the executor, over every interleaving of its workers. */
module RunTheorems {
  import opened Options
  import opened VertexResults
  import opened Digraph
  import opened Protocol
  import opened RunInvariant

  // ---------------------------------------------------------------- counters and quiescence

  /** Neither unsigned counter is ever decremented at zero, and a slot is never filled twice in a round. */
  lemma CountersNeverWrap(g: Graph, r: Run, a: Action)
    requires Assembled(g) && Schedule(g, r) && Enabled(g, After(g, r), a)
    ensures a.Join? ==> After(g, r).join > 0
    ensures a.Notify? ==>
              var s := After(g, r);
              var i := s.vs[a.v].phase.next;
              var w, k := g.succs[a.v][i], g.slotOf[a.v][i];
              && w < g.N() && k < |s.vs[w].slots|
              && s.vs[w].slots[k] == V_RESULT_INVALID && s.vs[w].waiting > 0 && s.vs[w].phase.Waiting?
  {
    ScheduleInv(g, r);
    var s := After(g, r);
    if a.Join? {
      assert a.v in Unjoined(s);
    }
    if a.Notify? {
      NotifyFindsEmptySlot(g, s, a.v);
    }
  }

  /** All work is over: every slot is filled, nothing waits, is queued, runs or is being notified. */
  ghost predicate Quiescent(g: Graph, s: State, c: nat)
    requires Assembled(g) && Shape(g, s) && c < g.N()
  {
    && Closing(s.vs[c].phase) && g.succs[c] == []
    && (forall v :: 0 <= v < g.N() && v != c ==> s.vs[v].phase == Notifying(|g.succs[v]|))
    && (forall v :: 0 <= v < g.N() ==> s.vs[v].waiting == 0 && s.vs[v].result != V_RESULT_INVALID)
    && (forall v, k :: 0 <= v < g.N() && 0 <= k < |g.deps[v]| ==>
          IsSlot(g, v, k) && g.deps[v][k] < g.N() && s.vs[v].slots[k] == s.vs[g.deps[v][k]].result)
  }

  /** When the join counter is zero the vertex that took it there has no successors, so its early return
      loses no notification, and no other worker has anything left to do: `ResetState` races with nothing. */
  lemma Quiescence(g: Graph, s: State) returns (c: nat)
    requires Assembled(g) && Inv(g, s) && s.join == 0
    ensures c < g.N() && Quiescent(g, s, c)
    ensures forall a :: Enabled(g, s, a) <==> a == Close(c) && s.vs[c].phase.Last?
  {
    c :| c in Closers(s);
    forall v | 0 <= v < g.N()
      ensures s.vs[v].waiting == 0 && s.vs[v].result != V_RESULT_INVALID
      ensures v != c ==> s.vs[v].phase == Notifying(|g.succs[v]|)
      ensures v == c ==> g.succs[v] == []
    {
      assert v !in Unjoined(s) && VertexInv(g, s, v);
      assert Closing(s.vs[v].phase) ==> v in Closers(s);
      if |g.succs[v]| > 0 {
        AllTold(g, s, v, |g.succs[v]| - 1);
      }
    }
    forall v, k | 0 <= v < g.N() && 0 <= k < |g.deps[v]|
      ensures IsSlot(g, v, k) && g.deps[v][k] < g.N() && s.vs[v].slots[k] == s.vs[g.deps[v][k]].result
    {
      assert VertexInv(g, s, v) && SlotInv(g, s, v, k);
      assert k !in EmptySlots(s.vs[v].slots);
      assert SlotAt(g, v, k, Position(g, v, k));
    }
  }

  /** With every vertex joined, each vertex has told each of its successors. */
  lemma AllTold(g: Graph, s: State, u: nat, i: nat)
    requires Assembled(g) && Inv(g, s) && Unjoined(s) == {} && u < g.N() && i < |g.succs[u]|
    ensures s.vs[u].phase.Notifying? && i < s.vs[u].phase.next
  {
    assert IsSuccessor(g, u, i);
    var w, k := g.succs[u][i], g.slotOf[u][i];
    assert SlotAt(g, w, k, i) && SlotAt(g, w, k, Position(g, w, k));
    assert Position(g, w, k) == i;
    assert w !in Unjoined(s) && VertexInv(g, s, w) && SlotInv(g, s, w, k);
    assert k !in EmptySlots(s.vs[w].slots);
  }

  // ---------------------------------------------------------------- progress

  /** In an acyclic graph the workers never deadlock. */
  lemma Progress(g: Graph, s: State) returns (a: Action)
    requires WellFormed(g) && Acyclic(Edges(g)) && Inv(g, s) && s.join > 0
    ensures Enabled(g, s, a)
  {
    assert Unjoined(s) != {};
    var v :| v in Unjoined(s);
    a := Unblock(g, s, v);
  }

  /** Some action is enabled at an unjoined vertex or at one of the vertices it waits for. */
  lemma Unblock(g: Graph, s: State, v: nat) returns (a: Action)
    requires WellFormed(g) && Acyclic(Edges(g)) && Inv(g, s) && v < g.N() && !Joined(s.vs[v].phase)
    ensures Enabled(g, s, a)
    decreases Rank(Edges(g), v)
  {
    assert v in Unjoined(s) && VertexInv(g, s, v);
    assert forall x :: 0 <= x < g.N() && Closing(s.vs[x].phase) ==> x in Closers(s);
    match s.vs[v].phase
    case Queued => a := Begin(v, true, [], true);
    case Running(_) => a := Finish(v, 0, map[]);
    case Finished => a := Join(v);
    case Held(u) =>
      assert VertexInv(g, s, u);
      a := if s.vs[u].phase.next < |g.succs[u]| then Notify(u) else Release(v);
    case Waiting =>
      assert EmptySlots(s.vs[v].slots) != {};
      var k :| k in EmptySlots(s.vs[v].slots);
      var u := g.deps[v][k];
      assert IsSlot(g, v, k) && SlotAt(g, v, k, Position(g, v, k));
      assert SlotInv(g, s, v, k) && VertexInv(g, s, u);
      if s.vs[u].phase.Notifying? {
        a := Notify(u);
      } else {
        assert (u, v) in Edges(g);
        RankClimbs(Edges(g), u, v);
        a := Unblock(g, s, u);
      }
  }

  // ---------------------------------------------------------------- termination

  /** The steps still ahead of one vertex in this round, at most. */
  function Weight(p: Phase, successors: nat): nat {
    match p
    case Waiting => successors + 6
    case Held(_) => successors + 5
    case Queued => successors + 4
    case Running(_) => successors + 3
    case Finished => successors + 2
    case Notifying(i) => if i <= successors then successors - i else 0
    case Last => 1
    case Ended => 0
  }

  ghost function Remaining(vs: seq<VertexState>, succs: seq<seq<nat>>): nat
    requires |vs| == |succs|
  {
    if vs == [] then 0
    else Remaining(vs[..|vs| - 1], succs[..|vs| - 1]) + Weight(vs[|vs| - 1].phase, |succs[|vs| - 1]|)
  }

  lemma {:induction false} RemainingAfterUpdate(vs: seq<VertexState>, succs: seq<seq<nat>>, v: nat, x: VertexState)
    requires |vs| == |succs| && v < |vs|
    ensures Remaining(vs[v := x], succs) + Weight(vs[v].phase, |succs[v]|)
         == Remaining(vs, succs) + Weight(x.phase, |succs[v]|)
  {
    var last := |vs| - 1;
    if v == last {
      assert vs[v := x][..last] == vs[..last];
    } else {
      assert vs[v := x][..last] == vs[..last][v := x];
      RemainingAfterUpdate(vs[..last], succs[..last], v, x);
    }
  }

  ghost predicate Restarts(g: Graph, s: State, a: Action) {
    a.Close? && Repeats(g, s)
  }

  /** Every step other than the while restart consumes some of the work ahead. */
  lemma StepConsumes(g: Graph, s: State, a: Action)
    requires Assembled(g) && Inv(g, s) && Enabled(g, s, a) && !Restarts(g, s, a)
    ensures Shape(g, Step(g, s, a)) && Remaining(Step(g, s, a).vs, g.succs) < Remaining(s.vs, g.succs)
  {
    StepKeepsShape(g, s, a);
    if a.Notify? {
      NotifyConsumes(g, s, Step(g, s, a), a);
    } else {
      OneVertexConsumes(g, s.vs, Step(g, s, a).vs, a.v);
    }
  }

  lemma OneVertexConsumes(g: Graph, vs: seq<VertexState>, ws: seq<VertexState>, v: nat)
    requires |vs| == |ws| == |g.succs| && v < |vs| && ws == vs[v := ws[v]]
    requires Weight(ws[v].phase, |g.succs[v]|) < Weight(vs[v].phase, |g.succs[v]|)
    ensures Remaining(ws, g.succs) < Remaining(vs, g.succs)
  {
    RemainingAfterUpdate(vs, g.succs, v, ws[v]);
  }

  lemma NotifyConsumes(g: Graph, s: State, t: State, a: Action)
    requires Assembled(g) && Inv(g, s) && Enabled(g, s, a) && a.Notify? && t == Step(g, s, a) && Shape(g, t)
    ensures Remaining(t.vs, g.succs) < Remaining(s.vs, g.succs)
  {
    NotifyFindsEmptySlot(g, s, a.v);
    var w := g.succs[a.v][s.vs[a.v].phase.next];
    var mid := s.vs[w := t.vs[w]];
    RemainingAfterUpdate(s.vs, g.succs, w, t.vs[w]);
    RemainingAfterUpdate(mid, g.succs, a.v, t.vs[a.v]);
    assert t.vs == mid[a.v := t.vs[a.v]];
  }

  ghost function RestartCount(g: Graph, r: Run): nat
    requires Assembled(g) && Schedule(g, r)
  {
    match r
    case Start => 0
    case Then(before, a) => RestartCount(g, before) + if Restarts(g, After(g, before), a) then 1 else 0
  }

  ghost function RoundLength(g: Graph): nat
    requires Assembled(g)
  {
    Remaining(Init(g).vs, g.succs)
  }

  /** The actions that `rounds` rounds can take, closing actions included. */
  ghost function Budget(g: Graph, rounds: nat): nat
    requires Assembled(g)
  {
    if rounds == 0 then 0 else Budget(g, rounds - 1) + RoundLength(g) + 1
  }

  lemma RestartConsumes(g: Graph, s: State, a: Action)
    requires Assembled(g) && Inv(g, s) && Enabled(g, s, a) && Restarts(g, s, a)
    ensures Shape(g, Step(g, s, a)) && Remaining(Step(g, s, a).vs, g.succs) == RoundLength(g)
  {
  }

  /** No interleaving runs for longer than the work of its rounds: one round plus one per while restart. */
  lemma {:induction false} Termination(g: Graph, r: Run)
    requires Assembled(g) && Schedule(g, r)
    ensures Within(g, After(g, r), Length(r), RestartCount(g, r))
  {
    match r
    case Start =>
      assert Budget(g, 1) == Budget(g, 0) + RoundLength(g) + 1;
    case Then(before, a) =>
      Termination(g, before);
      ScheduleInv(g, before);
      TerminationStep(g, After(g, before), a, After(g, r), Length(before), RestartCount(g, before), RestartCount(g, r));
  }

  /** The steps taken and the work still ahead fit the budget of the rounds begun. */
  ghost predicate Within(g: Graph, s: State, taken: nat, restarts: nat)
    requires Assembled(g) && Shape(g, s)
  {
    taken + Remaining(s.vs, g.succs) < Budget(g, restarts + 1)
  }

  lemma TerminationStep(g: Graph, s: State, a: Action, t: State, taken: nat, n: nat, n': nat)
    requires Assembled(g) && Inv(g, s) && Enabled(g, s, a) && t == Step(g, s, a) && Shape(g, t)
    requires n' == n + if Restarts(g, s, a) then 1 else 0
    requires Within(g, s, taken, n)
    ensures Within(g, t, taken + 1, n')
  {
    if Restarts(g, s, a) {
      RestartConsumes(g, s, a);
      assert Budget(g, n + 2) == Budget(g, n + 1) + RoundLength(g) + 1;
    } else {
      StepConsumes(g, s, a);
    }
  }

  /** A graph without a while condition never restarts, so its runs have a bound fixed in advance. */
  lemma BoundedRun(g: Graph, r: Run)
    requires Assembled(g) && Schedule(g, r) && g.whileVertex.None?
    ensures Length(r) <= RoundLength(g)
  {
    Termination(g, r);
    NoRestarts(g, r);
    assert Budget(g, 1) == Budget(g, 0) + RoundLength(g) + 1;
  }

  lemma {:induction false} NoRestarts(g: Graph, r: Run)
    requires Assembled(g) && Schedule(g, r) && g.whileVertex.None?
    ensures RestartCount(g, r) == 0
  {
    match r
    case Start =>
    case Then(before, _) => NoRestarts(g, before);
  }

  /** A maximal run of an acyclic graph has joined every vertex and called done exactly once. */
  lemma CompleteRunIsDone(g: Graph, r: Run) returns (c: nat)
    requires WellFormed(g) && Acyclic(Edges(g)) && Complete(g, r)
    ensures var s := After(g, r);
            s.join == 0 && c < g.N() && Quiescent(g, s, c) && s.vs[c].phase.Ended? && s.calls == [s.early]
  {
    ScheduleInv(g, r);
    var s := After(g, r);
    if s.join > 0 {
      var a := Progress(g, s);
      assert false;
    }
    c := Quiescence(g, s);
    assert !Enabled(g, s, Close(c));
    assert c in Enders(s);
  }

  lemma NothingAfterDone(g: Graph, s: State)
    requires Assembled(g) && Inv(g, s) && s.calls != []
    ensures Stuck(g, s) && |s.calls| == 1
  {
    var e :| e in Enders(s);
    assert e in Closers(s);
    var c := Quiescence(g, s);
    assert c in Closers(s);
  }

  /** Whatever the schedule and the graph, done is called at most once, and only when nothing is left to do. */
  lemma DoneAtMostOnce(g: Graph, r: Run)
    requires Assembled(g) && Schedule(g, r)
    ensures |After(g, r).calls| <= 1
    ensures After(g, r).calls != [] ==> Complete(g, r)
  {
    ScheduleInv(g, r);
    if After(g, r).calls != [] {
      NothingAfterDone(g, After(g, r));
    }
  }

  // ---------------------------------------------------------------- slots that nobody fills

  /** Done is called only if every slot has a vertex that fills it. */
  lemma DoneNeedsSenders(g: Graph, r: Run)
    requires Assembled(g) && Schedule(g, r) && After(g, r).calls != []
    ensures WellFormed(g)
  {
    ScheduleInv(g, r);
    var s := After(g, r);
    var e :| e in Enders(s);
    assert e in Closers(s);
    var c := Quiescence(g, s);
  }

  /** The vertex that owns such a slot waits forever. */
  lemma OrphanWaits(g: Graph, r: Run, v: nat, k: nat)
    requires Assembled(g) && Schedule(g, r) && v < g.N() && k < |g.deps[v]| && !IsSlot(g, v, k)
    ensures After(g, r).vs[v].phase.Waiting? && After(g, r).calls == []
  {
    ScheduleInv(g, r);
    var s := After(g, r);
    assert SlotInv(g, s, v, k) && VertexInv(g, s, v);
    assert k in EmptySlots(s.vs[v].slots);
    if s.calls != [] {
      DoneNeedsSenders(g, r);
    }
  }

  /** Such a graph never restarts, so every run can be carried on until nothing is left to do. */
  lemma {:induction false} MaximalRun(g: Graph, r: Run) returns (m: Run)
    requires Assembled(g) && !WellFormed(g) && Schedule(g, r)
    ensures Complete(g, m)
    decreases Remaining(After(g, r).vs, g.succs)
  {
    var s := After(g, r);
    if Stuck(g, s) {
      m := r;
    } else {
      var a :| Enabled(g, s, a);
      ScheduleInv(g, r);
      if a.Close? {
        assert a.v in Closers(s);
        var c := Quiescence(g, s);
      }
      StepConsumes(g, s, a);
      m := MaximalRun(g, Then(r, a));
    }
  }

  /** Every maximal run has called done once. */
  ghost predicate Finishes(g: Graph)
    requires Assembled(g)
  {
    forall r :: Complete(g, r) ==> |After(g, r).calls| == 1
  }

  /** An acyclic graph finishes exactly if every slot has a vertex that fills it. */
  lemma FinishesIff(g: Graph)
    requires Assembled(g) && Acyclic(Edges(g))
    ensures Finishes(g) <==> WellFormed(g)
  {
    if WellFormed(g) {
      forall r | Complete(g, r)
        ensures |After(g, r).calls| == 1
      {
        var c := CompleteRunIsDone(g, r);
      }
    } else {
      var m := MaximalRun(g, Start);
      if After(g, m).calls != [] {
        DoneNeedsSenders(g, m);
      }
    }
  }

  // ---------------------------------------------------------------- exactly once

  /** How often v was entered, and how many successors it told, since the round began. */
  ghost function Entries(g: Graph, r: Run, v: nat): nat
    requires Assembled(g) && Schedule(g, r)
  {
    match r
    case Start => 0
    case Then(before, a) =>
      if Restarts(g, After(g, before), a) then 0
      else Entries(g, before, v) + if a.Begin? && a.v == v then 1 else 0
  }

  ghost function Tellings(g: Graph, r: Run, v: nat): nat
    requires Assembled(g) && Schedule(g, r)
  {
    match r
    case Start => 0
    case Then(before, a) =>
      if Restarts(g, After(g, before), a) then 0
      else Tellings(g, before, v) + if a.Notify? && a.v == v then 1 else 0
  }

  predicate Entered(p: Phase) {
    p.Running? || Recorded(p)
  }

  function Passed(p: Phase): nat {
    if p.Notifying? then p.next else 0
  }

  /** Only entering v makes it entered, and only its own notifications count up. */
  lemma PhaseStep(g: Graph, s: State, a: Action, v: nat)
    requires Assembled(g) && Inv(g, s) && Enabled(g, s, a) && v < g.N()
    ensures Shape(g, Step(g, s, a))
    ensures var p, q := s.vs[v].phase, Step(g, s, a).vs[v].phase;
            if Restarts(g, s, a) then !Entered(q) && Passed(q) == 0
            else && (Entered(q) <==> (Entered(p) || (a.Begin? && a.v == v)))
                 && (a.Begin? && a.v == v ==> !Entered(p))
                 && Passed(q) == Passed(p) + if a.Notify? && a.v == v then 1 else 0
  {
    StepKeepsShape(g, s, a);
    if a.Notify? {
      NotifyFindsEmptySlot(g, s, a.v);
    }
    if a.Close? {
      assert VertexInv(g, s, v);
    }
  }

  lemma {:induction false} EntriesMatchPhase(g: Graph, r: Run, v: nat)
    requires Assembled(g) && Schedule(g, r) && v < g.N()
    ensures Entries(g, r, v) == if Entered(After(g, r).vs[v].phase) then 1 else 0
    ensures Tellings(g, r, v) == Passed(After(g, r).vs[v].phase)
  {
    match r
    case Start =>
    case Then(before, a) =>
      EntriesMatchPhase(g, before, v);
      ScheduleInv(g, before);
      PhaseStep(g, After(g, before), a, v);
  }

  /** In a complete round every vertex was entered exactly once and told each successor exactly once. */
  lemma ExactlyOnce(g: Graph, r: Run, v: nat)
    requires WellFormed(g) && Acyclic(Edges(g)) && Schedule(g, r) && v < g.N()
    ensures Entries(g, r, v) <= 1
    ensures Complete(g, r) ==> Entries(g, r, v) == 1 && Tellings(g, r, v) == |g.succs[v]|
  {
    EntriesMatchPhase(g, r, v);
    if Complete(g, r) {
      var c := CompleteRunIsDone(g, r);
    }
  }

  // ---------------------------------------------------------------- early exit

  predicate FlaggedFailure(g: Graph, a: Action) {
    a.Finish? && a.v < |g.options| && ExitsEarly(g, a.v, a.rc)
  }

  predicate HasFlaggedFailure(g: Graph, r: Run) {
    match r
    case Start => false
    case Then(before, a) => HasFlaggedFailure(g, before) || FlaggedFailure(g, a)
  }

  /** `p` is what had happened of `r` at some moment. */
  predicate Extends(r: Run, p: Run) {
    r == p || (r.Then? && Extends(r.before, p))
  }

  /** `p` ends with the first flagged failure of `r`. */
  predicate IsFirstFailure(g: Graph, r: Run, p: Run) {
    Extends(r, p) && p.Then? && FlaggedFailure(g, p.act) && !HasFlaggedFailure(g, p.before)
  }

  lemma EarlyStep(g: Graph, s: State, a: Action)
    requires Assembled(g) && Shape(g, s) && Enabled(g, s, a)
    ensures Step(g, s, a).early == if s.early == 0 && FlaggedFailure(g, a) then a.rc else s.early
    ensures FlaggedFailure(g, a) ==> a.rc != 0
  {
  }

  /** The recorded early-exit code is the code of the first flagged failure; 0 when there is none. */
  lemma {:induction false} EarlyCodeIsFirstFailure(g: Graph, r: Run) returns (p: Run)
    requires Assembled(g) && Schedule(g, r)
    ensures After(g, r).early == 0 <==> !HasFlaggedFailure(g, r)
    ensures After(g, r).early != 0 ==> IsFirstFailure(g, r, p) && p.act.rc == After(g, r).early
  {
    match r
    case Start => p := r;
    case Then(before, a) =>
      p := EarlyCodeIsFirstFailure(g, before);
      EarlyStep(g, After(g, before), a);
      if After(g, before).early == 0 {
        p := r;
      }
  }

  /** There is only one first failure. */
  lemma {:induction false} FirstFailureUnique(g: Graph, r: Run, p: Run, q: Run)
    requires IsFirstFailure(g, r, p) && IsFirstFailure(g, r, q)
    ensures p == q
  {
    if r == p && r != q {
      EarlierFailureShows(g, r.before, q);
    } else if r != p && r == q {
      EarlierFailureShows(g, r.before, p);
    } else if r != p {
      FirstFailureUnique(g, r.before, p, q);
    }
  }

  lemma {:induction false} EarlierFailureShows(g: Graph, r: Run, p: Run)
    requires Extends(r, p) && p.Then? && FlaggedFailure(g, p.act)
    ensures HasFlaggedFailure(g, r)
  {
    if r != p {
      EarlierFailureShows(g, r.before, p);
    }
  }

  /** Once a flagged vertex has failed, every vertex entered afterwards is skipped without running, even in
      later rounds of a while graph. */
  lemma EarlyExitSkips(g: Graph, r: Run, a: Action)
    requires Assembled(g) && Schedule(g, r) && HasFlaggedFailure(g, r) && Enabled(g, After(g, r), a) && a.Begin?
    ensures var x := Step(g, After(g, r), a).vs[a.v];
            x.phase == Finished && x.code == V_CODE_SKIP
            && x.result == if g.skipAsError then V_RESULT_ERR else V_RESULT_SKIP
  {
    var p := EarlyCodeIsFirstFailure(g, r);
  }

  /** Done receives the first recorded code, and 0 exactly when no flagged vertex failed. */
  lemma DoneReceivesFirstFailure(g: Graph, r: Run)
    requires WellFormed(g) && Acyclic(Edges(g)) && Complete(g, r)
    ensures |After(g, r).calls| == 1
    ensures After(g, r).calls[0] == 0 <==> !HasFlaggedFailure(g, r)
    ensures forall p :: IsFirstFailure(g, r, p) ==> After(g, r).calls[0] == p.act.rc
  {
    var c := CompleteRunIsDone(g, r);
    var q := EarlyCodeIsFirstFailure(g, r);
    forall p | IsFirstFailure(g, r, p)
      ensures After(g, r).calls[0] == p.act.rc
    {
      EarlierFailureShows(g, r, p);
      FirstFailureUnique(g, r, p, q);
    }
  }

  // ---------------------------------------------------------------- what is published

  /** A processor call that succeeded and had an output for d, set or not. */
  predicate WritesDatum(g: Graph, a: Action, d: DataId) {
    a.Finish? && a.v < |g.options| && Succeeds(g, a.v, a.rc) && d in a.outs
  }

  /** What the last such call of the run, in whatever round, had for d. */
  function LastOutput(g: Graph, r: Run, d: DataId): Option<Option<Value>> {
    match r
    case Start => None
    case Then(before, a) => if WritesDatum(g, a, d) then Some(a.outs[d]) else LastOutput(g, before, d)
  }

  /** A datum is there exactly if the last successful call that had an output for it had set it, and then it is that
      value: failed calls publish nothing, and no other step, restarts included, touches the data. */
  lemma {:induction false} TableIsLastOutput(g: Graph, r: Run, d: DataId)
    requires Assembled(g) && Schedule(g, r)
    ensures var table, last := After(g, r).table, LastOutput(g, r, d);
            && (d in table <==> last.Some? && last.value.Some?)
            && (d in table ==> last.value == Some(table[d]))
  {
    match r
    case Start =>
    case Then(before, a) =>
      TableIsLastOutput(g, before, d);
      ScheduleInv(g, before);
      if a.Finish? {
        FinishRecords(g, After(g, before), a.v, a.rc, a.outs);
      }
  }
}
