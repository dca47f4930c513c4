/** Task groups: graphs put together in code, with `Consequent` and `Alternative` as if and else. */
module Tasks {
  import opened Options
  import opened VertexResults
  import opened Digraph
  import opened Links
  import opened GraphDecl
  import opened GraphEdges
  import opened GraphBuild
  import opened CompiledGraph
  import opened Expectations
  import opened SetupGraph
  import opened RuntimeGraph
  import opened Protocol
  import opened Determinism
  import opened Branches
  import opened WhileGeneration

  function Insert(names: seq<string>, x: string): (r: seq<string>)
    ensures forall y :: y in r <==> y in names || y == x
  {
    if x in names then names else names + [x]
  }

  class Task {
    const id: string
    const processor: string
    const groupId: string
    var precede: seq<string>
    var succeed: seq<string>
    var consequent: seq<string>
    var alternative: seq<string>

    constructor (id: string, processor: string, groupId: string)
      ensures this.id == id && this.processor == processor && this.groupId == groupId
      ensures precede == succeed == consequent == alternative == []
    {
      this.id, this.processor, this.groupId := id, processor, groupId;
      precede, succeed, consequent, alternative := [], [], [], [];
    }

    /** This task names b as a successor of some kind. */
    predicate Names(b: Task)
      reads this
    {
      b.id in succeed || b.id in consequent || b.id in alternative
    }

    method Precede(task: Task, ghost group: set<Task>)
      requires this in group && task in group && BothEnds(group)
      modifies this`succeed, task`precede
      ensures succeed == Insert(old(succeed), task.id) && task.precede == Insert(old(task.precede), id)
      ensures BothEnds(group)
    {
      succeed := Insert(succeed, task.id);
      task.precede := Insert(task.precede, id);
      forall a, b | a in group && b in group
        ensures Ends(a, b)
      {
        assert old(Ends(a, b));
        assert a.id == id <==> a == this;
        assert b.id == task.id <==> b == task;
      }
    }

    method Succeed(task: Task, ghost group: set<Task>)
      requires this in group && task in group && BothEnds(group)
      modifies task`succeed, this`precede
      ensures task.succeed == Insert(old(task.succeed), id) && precede == Insert(old(precede), task.id)
      ensures BothEnds(group)
    {
      task.Precede(this, group);
    }

    method Consequent(task: Task, ghost group: set<Task>)
      requires this in group && task in group && BothEnds(group)
      modifies this`consequent, task`precede
      ensures consequent == Insert(old(consequent), task.id) && task.precede == Insert(old(task.precede), id)
      ensures BothEnds(group)
    {
      consequent := Insert(consequent, task.id);
      task.precede := Insert(task.precede, id);
      forall a, b | a in group && b in group
        ensures Ends(a, b)
      {
        assert old(Ends(a, b));
        assert a.id == id <==> a == this;
        assert b.id == task.id <==> b == task;
      }
    }

    method Alternative(task: Task, ghost group: set<Task>)
      requires this in group && task in group && BothEnds(group)
      modifies this`alternative, task`precede
      ensures alternative == Insert(old(alternative), task.id) && task.precede == Insert(old(task.precede), id)
      ensures BothEnds(group)
    {
      alternative := Insert(alternative, task.id);
      task.precede := Insert(task.precede, id);
      forall a, b | a in group && b in group
        ensures Ends(a, b)
      {
        assert old(Ends(a, b));
        assert a.id == id <==> a == this;
        assert b.id == task.id <==> b == task;
      }
    }
  }

  /** The vertex stands for the task: its links are the task's own, and it runs the task's processor, or the group that
      the task stands for when it has no processor. */
  ghost predicate Represents(d: Decl, t: Task, clusterId: string)
    reads t
  {
    && d.id == t.id && d.processor == t.processor
    && d.successor == t.succeed && d.deps == t.precede && d.consequent == t.consequent && d.alternative == t.alternative
    && (if t.processor == "" then d.cluster == clusterId && d.graph == t.groupId else d.cluster == d.graph == "")
    && d.successorOnOk == d.successorOnErr == d.depsOnOk == d.depsOnErr == d.expectDeps == d.select == []
    && d.cond == d.expectation == d.expectConfig == "" && !d.isStart && d.input == [] && d.output == []
  }

  /** The vertices stand for the tasks, one each, in order. */
  ghost predicate AllRepresent(decls: seq<Decl>, tasks: seq<Task>, clusterId: string)
    reads tasks
  {
    |decls| == |tasks| && forall i :: 0 <= i < |tasks| ==> Represents(decls[i], tasks[i], clusterId)
  }

  lemma RepresentedFromTasks(decls: seq<Decl>, tasks: seq<Task>, clusterId: string)
    requires AllRepresent(decls, tasks, clusterId) && BothEnds(set t | t in tasks)
    requires forall i, j :: 0 <= i < j < |tasks| ==> tasks[i] != tasks[j]
    ensures FromTasks(decls)
  {
    forall i, j | 0 <= i < |tasks| && 0 <= j < |tasks|
      ensures NamesSuccessor(decls[i], decls[j]) <==> decls[i].id in decls[j].deps
    {
      assert Ends(tasks[i], tasks[j]);
    }
  }

  /** Ids differ, and every link is recorded at both ends: each successor of any kind also has a plain
      dependency back. */
  ghost predicate BothEnds(group: set<Task>)
    reads group
  {
    && (forall a :: a in group ==> a.id != "")
    && (forall a, b :: a in group && b in group && a.id == b.id ==> a == b)
    && (forall a, b {:trigger Ends(a, b)} :: a in group && b in group ==> Ends(a, b))
  }

  ghost predicate Ends(a: Task, b: Task)
    reads a, b
  {
    a.Names(b) <==> a.id in b.precede
  }

  class TaskGroup {
    const id: string
    const clusterId: string
    var tasks: seq<Task>

    constructor (id: string, clusterId: string)
      ensures this.id == id && this.clusterId == clusterId && tasks == []
    {
      this.id, this.clusterId, tasks := id, clusterId, [];
    }

    method Add(task: Task)
      modifies this
      ensures tasks == old(tasks) + [task]
    {
      tasks := tasks + [task];
    }

    /** `BuildGraphByTaskGroup`. */
    method BuildGraph() returns (vertices: seq<Decl>)
      requires BothEnds(set t | t in tasks)
      requires forall i, j :: 0 <= i < j < |tasks| ==> tasks[i] != tasks[j]
      ensures AllRepresent(vertices, tasks, clusterId) && FromTasks(vertices)
    {
      vertices := [];
      for i := 0 to |tasks|
        invariant |vertices| == i && forall j :: 0 <= j < i ==> Represents(vertices[j], tasks[j], clusterId)
      {
        var t := tasks[i];
        var vertex := NO_DECL.(id := t.id, processor := t.processor);
        if vertex.processor == "" {
          vertex := vertex.(cluster := clusterId, graph := t.groupId);
        }
        vertex := vertex.(successor := t.succeed, deps := t.precede, consequent := t.consequent, alternative := t.alternative);
        vertices := vertices + [vertex];
      }
      RepresentedFromTasks(vertices, tasks, clusterId);
    }
  }

  predicate NamesSuccessor(a: Decl, b: Decl) {
    b.id in a.successor || b.id in a.consequent || b.id in a.alternative
  }

  predicate PlainTask(d: Decl) {
    && d.id != "" && d.expectation == "" && d.expectConfig == ""
    && d.depsOnOk == [] && d.depsOnErr == [] && d.successorOnOk == [] && d.successorOnErr == []
  }

  /** What a task group compiles from. */
  ghost predicate FromTasks(decls: seq<Decl>) {
    && (forall i :: 0 <= i < |decls| ==> PlainTask(decls[i]))
    && (forall i, j :: 0 <= i < j < |decls| ==> decls[i].id != decls[j].id)
    && (forall i, j :: 0 <= i < |decls| && 0 <= j < |decls| ==>
          (NamesSuccessor(decls[i], decls[j]) <==> decls[i].id in decls[j].deps))
  }

  // ---------------------------------------------------------------- what the branches expect

  /** An id of a task denotes that task. */
  lemma TaskNames(env: Env, decls: seq<Decl>, s: Symbols, names: seq<string>, p: nat)
    requires Compiled(env, decls, s) && FromTasks(decls) && p < |decls|
    ensures s.gens == []
    ensures Refers(s.nodes, names, p) <==> decls[p].id in names
  {
    NoExpectNoGenerated(s, decls);
    RefersIff(env, decls, s, names, p);
    assert Normalised(s, decls[p], s.decls[p]);
    DenotesIff(env, decls, s, decls[p].id, p);
    if decls[p].id in names {
      assert Denotes(s, decls[p].id, p);
    }
  }

  /** What the pair asks: the condition its branch lists, the branch a plain dependency. */
  lemma TaskAsks(env: Env, decls: seq<Decl>, s: Symbols, c: nat, b: nat)
    requires Compiled(env, decls, s) && FromTasks(decls) && c < |decls| && b < |decls| && c != b
    requires NamesSuccessor(decls[c], decls[b])
    ensures Asked(s, c, b) ==
            if b < c || decls[b].id in decls[c].successor then Some(V_RESULT_ALL)
            else if decls[b].id in decls[c].consequent then Some(V_RESULT_OK) else Some(V_RESULT_ERR)
  {
    assert Normalised(s, decls[c], s.decls[c]) && Normalised(s, decls[b], s.decls[b]);
    assert s.decls[c].successorOnOk == decls[c].consequent && s.decls[c].successorOnErr == decls[c].alternative;
    TaskNames(env, decls, s, decls[c].successor, b);
    TaskNames(env, decls, s, decls[c].consequent, b);
    TaskNames(env, decls, s, decls[c].alternative, b);
    TaskNames(env, decls, s, decls[b].deps, c);
  }

  /** A branch keeps its condition exactly if the condition task was added before it: the plain dependency
      that `Consequent` and `Alternative` also record wins otherwise, and the branch accepts any result. */
  lemma BranchExpectation(env: Env, decls: seq<Decl>, c: nat, b: nat)
    requires BuildLinks(env, decls).Some? && FromTasks(decls) && c < |decls| && b < |decls| && c != b
    requires NamesSuccessor(decls[c], decls[b]) && decls[b].id !in decls[c].successor
    ensures |BuildLinks(env, decls).value.links| == |decls|
    ensures var x := BuildLinks(env, decls).value.links[b];
            && (decls[b].id in decls[c].consequent ==> (HasExpectation(x, c, V_RESULT_OK) <==> c < b))
            && (decls[b].id !in decls[c].consequent ==> (HasExpectation(x, c, V_RESULT_ERR) <==> c < b))
            && (HasExpectation(x, c, V_RESULT_ALL) <==> b < c)
  {
    BuildIsCompiled(env, decls);
    BuildStages(env, decls);
    var s := BuildLinks(env, decls).value.sym;
    NoExpectNoGenerated(s, decls);
    TaskAsks(env, decls, s, c, b);
    EdgeExpectsFirstAsked(env, decls, c, b);
  }

  // ---------------------------------------------------------------- runs

  lemma SlotExpects(t: Table, settings: Settings, u: nat, v: nat, e: VertexResult) returns (k: nat)
    requires Consistent(t) && v < |t| && HasExpectation(t[v], u, e)
    ensures var g := RunGraph(t, Whole(|t|), settings);
            k < |g.deps[v]| && g.deps[v][k] == u && |g.expected[v]| > k && g.expected[v][k] == e
  {
    assert Dense(t[v]) && Ranged(t[v], |t|);
    k := t[v].idx[u];
    assert DepAt(t[v], k) == u;
    WholeAt(|t|, u);
    WholeAt(|t|, v);
  }

  /** A task group generates no conditions, so all of its tasks run. */
  lemma TasksRunWhole(env: Env, decls: seq<Decl>)
    requires Accepted(env, decls) && FromTasks(decls)
    ensures var b := BuildLinks(env, decls).value;
            OrderOf(env, decls) == Whole(|b.links|) && Consistent(b.links) && |b.links| > 0 && Acyclic(TableEdges(b.links))
  {
    NoExpectNoClash(env, decls);
    NoClashRunsWhole(env, decls);
  }

  /** No run of an accepted task group executes both branches of a condition added before them. */
  lemma VertexBranchesExclude(env: Env, decls: seq<Decl>, settings: Settings, r: Run, c: nat, x: nat, y: nat)
    requires Accepted(env, decls) && FromTasks(decls) && c < x < |decls| && c < y < |decls|
    requires Suits(settings, |decls|) && settings.whileVertex.None?
    requires decls[x].id in decls[c].consequent && decls[x].id !in decls[c].successor
    requires decls[y].id in decls[c].alternative && decls[y].id !in decls[c].consequent && decls[y].id !in decls[c].successor
    requires WellFormed(GraphOf(env, decls, settings)) && Schedule(GraphOf(env, decls, settings), r)
    ensures !(Ran(r, x) && Ran(r, y))
  {
    BranchExpectation(env, decls, c, x);
    BranchExpectation(env, decls, c, y);
    TasksRunWhole(env, decls);
    var t := BuildLinks(env, decls).value.links;
    var j := SlotExpects(t, settings, c, x, V_RESULT_OK);
    var k := SlotExpects(t, settings, c, y, V_RESULT_ERR);
    BranchesExclude(GraphOf(env, decls, settings), r, c, x, j, y, k);
  }

  lemma OnlySlotIs(t: Table, settings: Settings, c: nat, v: nat, e: VertexResult)
    requires Consistent(t) && v < |t| && HasExpectation(t[v], c, e) && forall u :: u in t[v].idx ==> u == c
    ensures var g := RunGraph(t, Whole(|t|), settings); g.deps[v] == [c] && g.expected[v] == [e]
  {
    assert Dense(t[v]) && Ranged(t[v], |t|);
    WholeAt(|t|, v);
    WholeAt(|t|, c);
    assert t[v].idx.Keys == {c};
    assert |t[v].idx| == |t[v].idx.Keys| == 1;
    assert DepAt(t[v], 0) == c;
  }

  /** The declaration gives v no other dependency than c. */
  ghost predicate OnlyAfter(env: Env, decls: seq<Decl>, c: nat, v: nat)
    requires BuildLinks(env, decls).Some?
  {
    var s := BuildLinks(env, decls).value.sym;
    |s.decls| == s.m == |decls| && forall u: nat :: u < s.Total() && Declared(s, decls, u, v) ==> u == c
  }

  lemma OnlyDependency(env: Env, decls: seq<Decl>, settings: Settings, c: nat, v: nat, e: VertexResult)
    requires Accepted(env, decls) && FromTasks(decls) && v < |BuildLinks(env, decls).value.links|
    requires HasExpectation(BuildLinks(env, decls).value.links[v], c, e) && OnlyAfter(env, decls, c, v)
    ensures var g := GraphOf(env, decls, settings);
            v < g.N() == |g.expected| && g.deps[v] == [c] && g.expected[v] == [e]
  {
    TasksRunWhole(env, decls);
    var t := BuildLinks(env, decls).value.links;
    assert Ranged(t[v], |t|);
    forall u | u in t[v].idx
      ensures u == c
    {
      EdgeIffDeclared(env, decls, u, v);
    }
    OnlySlotIs(t, settings, c, v, e);
  }

  /** And when the condition ran and is the only dependency of both, every complete run executes exactly one
      of them: the consequent if the condition's recorded code is 0, the alternative otherwise. */
  lemma VertexBranchesDecide(env: Env, decls: seq<Decl>, settings: Settings, r: Run, c: nat, x: nat, y: nat)
    requires Accepted(env, decls) && FromTasks(decls) && c < x < |decls| && c < y < |decls|
    requires Suits(settings, |decls|)
    requires decls[x].id in decls[c].consequent && decls[x].id !in decls[c].successor
    requires decls[y].id in decls[c].alternative && decls[y].id !in decls[c].consequent && decls[y].id !in decls[c].successor
    requires OnlyAfter(env, decls, c, x) && OnlyAfter(env, decls, c, y)
    requires WellFormed(GraphOf(env, decls, settings)) && SingleRound(GraphOf(env, decls, settings))
    requires Complete(GraphOf(env, decls, settings), r) && Ran(r, c) && Calm(r, x) && Calm(r, y)
    ensures var s := After(GraphOf(env, decls, settings), r);
            c < |s.vs| && (Ran(r, x) <==> s.vs[c].code == 0) && (Ran(r, y) <==> s.vs[c].code != 0)
  {
    BranchExpectation(env, decls, c, x);
    BranchExpectation(env, decls, c, y);
    TasksRunWhole(env, decls);
    WholeGraphRuns(BuildLinks(env, decls).value.links, settings);
    OnlyDependency(env, decls, settings, c, x, V_RESULT_OK);
    OnlyDependency(env, decls, settings, c, y, V_RESULT_ERR);
    ExactlyOneBranch(GraphOf(env, decls, settings), r, c, x, y);
  }

  // ---------------------------------------------------------------- what a group of tasks does

  /** The graph that this group runs as. */
  ghost predicate IsGroup(env: Env, tasks: seq<Task>, clusterId: string, decls: seq<Decl>)
    reads tasks
  {
    && AllRepresent(decls, tasks, clusterId) && BothEnds(set t | t in tasks)
    && (forall i, j :: 0 <= i < j < |tasks| ==> tasks[i] != tasks[j])
    && Accepted(env, decls)
  }

  /** No run of an accepted task group executes both `if` and `else` of a condition added before them. */
  lemma TaskBranchesExclude(env: Env, tasks: seq<Task>, clusterId: string, decls: seq<Decl>, settings: Settings, r: Run,
                            c: nat, x: nat, y: nat)
    requires IsGroup(env, tasks, clusterId, decls) && Suits(settings, |tasks|) && settings.whileVertex.None?
    requires c < x < |tasks| && c < y < |tasks|
    requires tasks[x].id in tasks[c].consequent && tasks[x].id !in tasks[c].succeed
    requires tasks[y].id in tasks[c].alternative && tasks[y].id !in tasks[c].consequent && tasks[y].id !in tasks[c].succeed
    requires WellFormed(GraphOf(env, decls, settings)) && Schedule(GraphOf(env, decls, settings), r)
    ensures !(Ran(r, x) && Ran(r, y))
  {
    RepresentedFromTasks(decls, tasks, clusterId);
    VertexBranchesExclude(env, decls, settings, r, c, x, y);
  }

  /** And when the condition ran and both branches come after nothing else, every complete run executes exactly one
      of them: the `if` task when the condition's recorded code is 0, the `else` task otherwise. */
  lemma TaskBranchesDecide(env: Env, tasks: seq<Task>, clusterId: string, decls: seq<Decl>, settings: Settings, r: Run,
                           c: nat, x: nat, y: nat)
    requires IsGroup(env, tasks, clusterId, decls) && Suits(settings, |tasks|) && c < x < |tasks| && c < y < |tasks|
    requires tasks[x].id in tasks[c].consequent && tasks[x].id !in tasks[c].succeed
    requires tasks[y].id in tasks[c].alternative && tasks[y].id !in tasks[c].consequent && tasks[y].id !in tasks[c].succeed
    requires OnlyAfter(env, decls, c, x) && OnlyAfter(env, decls, c, y)
    requires WellFormed(GraphOf(env, decls, settings)) && SingleRound(GraphOf(env, decls, settings))
    requires Complete(GraphOf(env, decls, settings), r) && Ran(r, c) && Calm(r, x) && Calm(r, y)
    ensures var s := After(GraphOf(env, decls, settings), r);
            c < |s.vs| && (Ran(r, x) <==> s.vs[c].code == 0) && (Ran(r, y) <==> s.vs[c].code != 0)
  {
    RepresentedFromTasks(decls, tasks, clusterId);
    VertexBranchesDecide(env, decls, settings, r, c, x, y);
  }
}
