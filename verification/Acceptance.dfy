/** When `Graph::Build` accepts a declaration. */
module Acceptance {
  import opened Options
  import opened Digraph
  import opened Links
  import opened GraphDecl
  import opened GraphListing
  import opened CycleSearch
  import opened GraphBuild
  import opened CompiledGraph

  lemma ListedOrderIs(env: Env, decls: seq<Decl>, p: nat)
    requires BuildLinks(env, decls).Some?
    ensures p in ListedOrder(BuildLinks(env, decls).value) <==> Listed(BuildLinks(env, decls).value, p)
  {
    if Listed(BuildLinks(env, decls).value, p) {
      ListedInRange(env, decls, p);
    }
  }

  /** A path from a listed vertex runs into a cycle. */
  ghost predicate CycleBelow(b: Built) {
    exists p :: Listed(b, p) && MeetsCycle(TableEdges(b.links), p)
  }

  /** The build accepts exactly the nonempty declarations whose links can be made and verified and in which no
      path from a listed vertex runs into a cycle. */
  lemma AcceptedIff(env: Env, decls: seq<Decl>)
    ensures (exists fuel: nat :: BuildCode(env, decls, fuel) == Some(0)) <==>
            decls != [] && BuildLinks(env, decls).Some? && !CycleBelow(BuildLinks(env, decls).value)
    ensures BuildLinks(env, decls).Some? && !CycleBelow(BuildLinks(env, decls).value) ==>
              forall fuel: nat :: fuel >= |BuildLinks(env, decls).value.links| ==>
                BuildCode(env, decls, fuel) == Some(if decls == [] then -1 else 0)
  {
    if BuildLinks(env, decls).Some? {
      var b := BuildLinks(env, decls).value;
      BuiltRanged(env, decls);
      SuccessorEdgesAreEdges(b.links);
      forall p
        ensures p in ListedOrder(b) <==> Listed(b, p)
      {
        ListedOrderIs(env, decls, p);
      }
      forall fuel: nat | BuildCode(env, decls, fuel) == Some(0)
        ensures !CycleBelow(b)
      {
        TestCircleFailsIff(b.links, ListedOrder(b), fuel);
      }
      if !CycleBelow(b) {
        forall fuel: nat | fuel >= |b.links|
          ensures BuildCode(env, decls, fuel) == Some(if decls == [] then -1 else 0)
        {
          TestCircleFailsIff(b.links, ListedOrder(b), fuel);
        }
        assert BuildCode(env, decls, |b.links|) == Some(if decls == [] then -1 else 0);
      }
    }
  }

  /** An accepted graph has vertices, and none that the id table lists lies on a cycle. */
  lemma AcceptedHasNoCycle(env: Env, decls: seq<Decl>, fuel: nat, p: nat)
    requires BuildCode(env, decls, fuel) == Some(0)
    ensures decls != [] && BuildLinks(env, decls).Some?
    ensures var b := BuildLinks(env, decls).value; Listed(b, p) ==> !Reaches(TableEdges(b.links), p, p)
  {
    AcceptedIff(env, decls);
  }

  /** The cycle test of a build answers, in whatever order, exactly if no path from a listed vertex that avoids
      its direct predecessors runs into a cycle; an answering build returns 0 or -1 by whether a listed vertex
      lies on a cycle. */
  lemma BuildAnswers(env: Env, decls: seq<Decl>, fuel: nat)
    requires BuildLinks(env, decls).Some?
    ensures var b := BuildLinks(env, decls).value;
            && (BuildCode(env, decls, fuel).Some? ==>
                  BuildCode(env, decls, fuel).value ==
                  if decls == [] || exists p :: Listed(b, p) && Reaches(TableEdges(b.links), p, p) then -1 else 0)
            && ((forall t', order :: Reordered(b.links, t') && Enumerates(order, b.sym.nodes.Values) ==>
                   TestReturns(t', order)) <==>
                forall p :: Listed(b, p) ==> !MeetsCycle(Detours(TableEdges(b.links), p), p))
            && (fuel >= |b.links| && (forall p :: Listed(b, p) ==> !MeetsCycle(Detours(TableEdges(b.links), p), p)) ==>
                  BuildCode(env, decls, fuel).Some?)
  {
    var b := BuildLinks(env, decls).value;
    BuiltRanged(env, decls);
    SuccessorEdgesAreEdges(b.links);
    forall p
      ensures p in ListedOrder(b) <==> Listed(b, p)
    {
      ListedOrderIs(env, decls, p);
    }
    if TestCircle(b.links, ListedOrder(b), fuel).Some? {
      TestCircleIsExact(b.links, ListedOrder(b), fuel);
    }
    forall q | q in b.sym.nodes.Values
      ensures q < |b.links|
    {
      ListedInRange(env, decls, q);
    }
    TestCircleReturnsIff(b.links, b.sym.nodes.Values);
    if fuel >= |b.links| && forall p :: Listed(b, p) ==> !MeetsCycle(Detours(TableEdges(b.links), p), p) {
      TestCircleReturns(b.links, ListedOrder(b), fuel);
    }
  }

  /** Every vertex on a cycle of the graph is one of its positions. */
  lemma CycleInRange(t: Table, p: nat)
    requires Reaches(TableEdges(t), p, p)
    ensures p < |t|
  {
    var q :| PathBetween(TableEdges(t), p, p, q);
    assert (q[|q| - 2], q[|q| - 1]) in TableEdges(t);
  }

  /** Without a clash of ids, the accepted graphs are the acyclic ones. */
  lemma AcceptedIffAcyclic(env: Env, decls: seq<Decl>)
    requires NoClash(env, decls)
    ensures (exists fuel: nat :: BuildCode(env, decls, fuel) == Some(0)) <==>
            decls != [] && BuildLinks(env, decls).Some? && Acyclic(TableEdges(BuildLinks(env, decls).value.links))
    ensures BuildLinks(env, decls).Some? && Acyclic(TableEdges(BuildLinks(env, decls).value.links)) ==>
              forall fuel: nat :: fuel >= |BuildLinks(env, decls).value.links| ==>
                BuildCode(env, decls, fuel) == Some(if decls == [] then -1 else 0)
  {
    AcceptedIff(env, decls);
    if BuildLinks(env, decls).Some? {
      var b := BuildLinks(env, decls).value;
      BuiltRanged(env, decls);
      BuildStages(env, decls);
      if p :| Reaches(TableEdges(b.links), p, p) {
        CycleInRange(b.links, p);
        ListedIff(env, decls, p);
        assert MeetsCycle(TableEdges(b.links), p);
      }
    }
  }
}
