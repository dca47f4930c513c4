/** Declarations on which the compiler and the executor do not do what one would expect of them. */
module Counterexamples {
  import opened Options
  import opened VertexResults
  import opened Digraph
  import opened Links
  import opened GraphDecl
  import opened GraphEdges
  import opened GraphListing
  import opened CycleSearch
  import opened GraphBuild
  import opened CompiledGraph
  import opened Acceptance
  import opened Expectations
  import opened SetupGraph
  import opened RuntimeGraph
  import opened Protocol
  import opened Determinism
  import opened Branches
  import opened Tasks
  import opened SmallBuilds

  // ---------------------------------------------------------------- a cycle behind the start vertex

  /** The build of a → b, b → c, c → b never returns when the cycle test starts at a, and rejects the graph when
      it starts at b or c: which of the two happens is up to the iteration order of a hash table. */
  lemma CycleMayGoUnreported(decls: seq<Decl>, fuel: nat, order: seq<nat>)
    requires decls == CycleBehind() && Enumerates(order, {0, 1, 2})
    ensures BuildCode(ENV, decls, fuel) == None
    ensures BuildLinks(ENV, decls).Some?
    ensures var b := BuildLinks(ENV, decls).value;
            && b.sym.nodes.Values == {0, 1, 2} && WellRanged(b.links) && InTable(order, |b.links|) && order != []
            && (order[0] == 0 ==> TestCircle(b.links, order, fuel) == None)
            && (order[0] != 0 && fuel > 0 ==> TestCircle(b.links, order, fuel) == Some(true))
  {
    CycleBuilds(decls);
    var b := BuildLinks(ENV, decls).value;
    CycleTests(b.links, order, fuel);
    var listing := ListedOrder(b);
    assert 0 in listing;
    CycleTests(b.links, listing, fuel);
  }

  // ---------------------------------------------------------------- an id that a condition takes over

  lemma ClashHasNoCycle(back: bool, b: Built)
    requires ClashBuilt(back, b)
    ensures !CycleBelow(b)
  {
    forall e | e in TableEdges(b.links)
      ensures ClashEdge(back, e.0, e.1)
    {
      assert LinkedTo(b.links, e.0, e.1);
    }
    ClimbingIsAcyclic(TableEdges(b.links), (p: nat) => if p == 2 then 0 else if p == 1 then 2 else if back then 3 else 1);
  }

  lemma ClashIsAccepted(back: bool, decls: seq<Decl>)
    requires decls == Clash(back)
    ensures Accepted(ENV, decls) && ClashBuilt(back, BuildLinks(ENV, decls).value) && |OrderOf(ENV, decls)| == 2
    ensures Replaced(ENV, decls, 0)
  {
    ClashBuilds(back, decls);
    ClashHasNoCycle(back, BuildLinks(ENV, decls).value);
    AcceptedIff(ENV, decls);
    ListedIff(ENV, decls, 0);
    OrderLists(ENV, decls);
    TwoOf(OrderOf(ENV, decls));
  }

  /** The build accepts the declaration, but the condition took the first vertex's place in the id table, so the
      first vertex gets no context.  Linked back, the set-up aborts at b's successor; linked forwards, b waits for
      two results, of which one never comes, and no run ever calls done. */
  lemma ClashIsAcceptedAndNeverDone(back: bool, decls: seq<Decl>, settings: Settings, r: Run)
    requires decls == Clash(back) && Suits(settings, 2)
    ensures Accepted(ENV, decls) && |OrderOf(ENV, decls)| == 2 && !NoClash(ENV, decls)
    ensures var b := BuildLinks(ENV, decls).value;
            !Apart(b) && !RunsToTheEnd(ENV, decls, settings) && (back <==> SetupAborts(b))
    ensures !back ==>
              && Assembled(GraphOf(ENV, decls, settings))
              && (Schedule(GraphOf(ENV, decls, settings), r) ==> After(GraphOf(ENV, decls, settings), r).calls == [])
  {
    ClashIsAccepted(back, decls);
    var b := BuildLinks(ENV, decls).value;
    assert Listed(b, 1) && Listed(b, 2) && !Listed(b, 0);
    if back {
      assert LinkedTo(b.links, 1, 0);
    } else {
      assert LinkedTo(b.links, 0, 1);
      AcceptedIsRunnable(ENV, decls, settings);
      if Schedule(GraphOf(ENV, decls, settings), r) {
        ClashNeverDone(ENV, decls, settings, r, 0, 1);
      }
    }
    AcceptedCompletesIff(ENV, decls, settings);
  }

  lemma TwoOf(order: seq<nat>)
    requires (forall x :: x in order <==> x in {1, 2}) && forall i, j :: 0 <= i < j < |order| ==> order[i] != order[j]
    ensures |order| == 2
  {
    assert 1 in order && 2 in order;
    assert forall i :: 0 <= i < |order| ==> order[i] in order;
    if |order| > 2 {
      assert order[0] in {1, 2} && order[1] in {1, 2} && order[2] in {1, 2};
    }
  }

  // ---------------------------------------------------------------- a condition that is heard second

  lemma ReaderNamed(s: Symbols)
    requires s == ReaderSymbols()
    ensures Named(s, 1, 0) == Some(V_RESULT_OK)
  {
    assert "v" in s.decls[1].successorOnOk;
    assert Refers(s.nodes, s.decls[1].successorOnOk, 0);
  }

  /** What u declares for v by name loses against what v's input implies. */
  lemma DataBeatsNamed(decls: seq<Decl>)
    requires decls == ReaderFirst()
    ensures BuildLinks(ENV, decls).Some?
    ensures var b := BuildLinks(ENV, decls).value;
            && |b.sym.decls| == b.sym.m == 2 && b.sym.gens == []
            && Named(b.sym, 1, 0) == Some(V_RESULT_OK) && AnyResultKept(b)
  {
    ReaderDeclares(decls);
    ReaderAsks(ReaderSymbols());
    ReaderNamed(ReaderSymbols());
    ConflictIsHeard(ReaderSymbols(), ConflictingRequests());
    ConflictBuilds(decls, ReaderSymbols(), ConflictingRequests());
  }

  lemma BranchIsTask(decls: seq<Decl>)
    requires decls == BranchFirst()
    ensures |decls| == 2 && FromTasks(decls) && NamesSuccessor(decls[1], decls[0])
  {
  }

  lemma BranchBuilds(decls: seq<Decl>)
    requires decls == BranchFirst()
    ensures BuildLinks(ENV, decls).Some? && AnyResultKept(BuildLinks(ENV, decls).value)
  {
    BranchDeclares(decls);
    BranchAsks(BranchSymbols());
    ConflictIsHeard(BranchSymbols(), ConflictingRequests());
    ConflictBuilds(decls, BranchSymbols(), ConflictingRequests());
  }

  lemma KeptHasNoCycle(b: Built)
    requires AnyResultKept(b)
    ensures !CycleBelow(b)
  {
    ClimbingIsAcyclic(TableEdges(b.links), (p: nat) => if p == 1 then 0 else 1);
  }

  lemma KeptIsAccepted(decls: seq<Decl>)
    requires decls != [] && BuildLinks(ENV, decls).Some? && AnyResultKept(BuildLinks(ENV, decls).value)
    ensures Accepted(ENV, decls)
  {
    KeptHasNoCycle(BuildLinks(ENV, decls).value);
    AcceptedIff(ENV, decls);
  }

  lemma KeptRuns(decls: seq<Decl>, settings: Settings, r: Run)
    requires FromTasks(decls) && Accepted(ENV, decls) && AnyResultKept(BuildLinks(ENV, decls).value) && Suits(settings, 2)
    ensures var g := GraphOf(ENV, decls, settings);
            && WellFormed(g) && g.N() == 2
            && (SingleRound(g) && Complete(g, r) && Calm(r, 0) ==> Ran(r, 0))
  {
    TasksRunWhole(ENV, decls);
    var t := BuildLinks(ENV, decls).value.links;
    WholeGraphRuns(t, settings);
    assert forall u :: u in t[0].idx ==> (u, 0) in TableEdges(t);
    OnlySlotIs(t, settings, 1, 0, V_RESULT_ALL);
    var g := GraphOf(ENV, decls, settings);
    if SingleRound(g) && Complete(g, r) && Calm(r, 0) {
      AnyResultRuns(g, r, 1, 0);
    }
  }

  /** The group is accepted, and every complete run in which nothing else keeps the branch from running executes it,
      whatever the condition returned. */
  lemma BranchLosesCondition(decls: seq<Decl>, settings: Settings, r: Run)
    requires decls == BranchFirst() && Suits(settings, 2)
    ensures |decls| == 2 && FromTasks(decls) && decls[0].id in decls[1].consequent
    ensures Accepted(ENV, decls) && AnyResultKept(BuildLinks(ENV, decls).value)
    ensures var g := GraphOf(ENV, decls, settings);
            WellFormed(g) && (SingleRound(g) && Complete(g, r) && Calm(r, 0) ==> Ran(r, 0))
  {
    BranchIsTask(decls);
    BranchBuilds(decls);
    KeptIsAccepted(decls);
    KeptRuns(decls, settings, r);
  }
}
