/** The cycle test of the C++ graph compiler.  The search keeps no visited set, so on a graph with cycles it
    may never return; `fuel` bounds its depth, and `None` stands for a search that went deeper. */
module CycleSearch {
  import opened Options
  import opened Digraph
  import opened Links

  ghost predicate WellRanged(t: Table) {
    forall p, i :: 0 <= p < |t| && 0 <= i < |t[p].succ| ==> t[p].succ[i] < |t|
  }

  ghost function SuccEdges(t: Table): set<(nat, nat)> {
    set p, v | 0 <= p < |t| && v in t[p].succ :: (p, v)
  }

  /** The successor sets and the dependency maps of a finished build hold the same edges. */
  lemma SuccessorEdgesAreEdges(t: Table)
    requires Consistent(t)
    ensures SuccEdges(t) == TableEdges(t)
  {
    forall u, v
      ensures (u, v) in SuccEdges(t) <==> (u, v) in TableEdges(t)
    {
      if 0 <= u < |t| && 0 <= v < |t| {
        assert Mirror(t, u, v);
      }
      if (u, v) in SuccEdges(t) {
        assert Ranged(t[u], |t|);
      }
      if (u, v) in TableEdges(t) {
        assert Ranged(t[v], |t|);
      }
    }
  }

  /** `FindVertexInSuccessors`: is v among the successors of p, or of their successors? */
  ghost function Search(t: Table, p: nat, v: nat, fuel: nat): Option<bool>
    requires WellRanged(t) && p < |t|
    decreases fuel, 1, 0
  {
    if v in t[p].succ then Some(true)
    else if t[p].succ == [] then Some(false)
    else if fuel == 0 then None
    else SearchAny(t, t[p].succ, v, fuel - 1)
  }

  ghost function SearchAny(t: Table, succ: seq<nat>, v: nat, fuel: nat): Option<bool>
    requires WellRanged(t) && forall i :: 0 <= i < |succ| ==> succ[i] < |t|
    decreases fuel, 2, |succ|
  {
    if succ == [] then Some(false)
    else
      match Search(t, succ[0], v, fuel)
      case Some(false) => SearchAny(t, succ[1..], v, fuel)
      case found => found
  }

  /** An answer is right: `true` exactly if p reaches v. */
  lemma {:induction false} SearchIsExact(t: Table, p: nat, v: nat, fuel: nat)
    requires WellRanged(t) && p < |t| && Search(t, p, v, fuel).Some?
    ensures Search(t, p, v, fuel).value <==> Reaches(SuccEdges(t), p, v)
    decreases fuel, 1, 0
  {
    var edges := SuccEdges(t);
    if v in t[p].succ {
      assert (p, v) in edges;
      EdgeReaches(edges, p, v);
    } else {
      if t[p].succ != [] {
        SearchAnyIsExact(t, t[p].succ, v, fuel - 1);
      }
      if Reaches(edges, p, v) {
        var w := FirstEdge(edges, p, v);
        assert w in t[p].succ;
      } else {
        forall w | w in t[p].succ
          ensures !Reaches(edges, w, v)
        {
          assert (p, w) in edges;
          EdgeReaches(edges, p, w);
          if Reaches(edges, w, v) {
            ReachesTransitive(edges, p, w, v);
          }
        }
      }
    }
  }

  lemma {:induction false} SearchAnyIsExact(t: Table, succ: seq<nat>, v: nat, fuel: nat)
    requires WellRanged(t) && (forall i :: 0 <= i < |succ| ==> succ[i] < |t|) && SearchAny(t, succ, v, fuel).Some?
    ensures SearchAny(t, succ, v, fuel).value <==> exists w :: w in succ && Reaches(SuccEdges(t), w, v)
    decreases fuel, 2, |succ|
  {
    if succ != [] {
      SearchIsExact(t, succ[0], v, fuel);
      assert forall w :: w in succ <==> w == succ[0] || w in succ[1..];
      if Search(t, succ[0], v, fuel) == Some(false) {
        SearchAnyIsExact(t, succ[1..], v, fuel);
      }
    }
  }

  // ---------------------------------------------------------------- when the search returns

  /** A path from p runs into a cycle. */
  ghost predicate MeetsCycle(edges: set<(nat, nat)>, p: nat) {
    exists w :: Reaches(edges, p, w) && Reaches(edges, w, w)
  }

  /** A next vertex on the way into a cycle. */
  ghost function Towards(edges: set<(nat, nat)>, p: nat): (x: nat)
    requires MeetsCycle(edges, p)
    ensures (p, x) in edges && MeetsCycle(edges, x)
  {
    MeetsFirst(edges, p);
    var x: nat :| (p, x) in edges && MeetsCycle(edges, x);
    x
  }

  lemma MeetsFirst(edges: set<(nat, nat)>, p: nat)
    requires MeetsCycle(edges, p)
    ensures exists x: nat :: (p, x) in edges && MeetsCycle(edges, x)
  {
    var w :| Reaches(edges, p, w) && Reaches(edges, w, w);
    var x := FirstEdge(edges, p, w);
    assert x == w || Reaches(edges, x, w);
    assert MeetsCycle(edges, x);
  }

  lemma MeetsFollows(edges: set<(nat, nat)>, p: nat, x: nat)
    requires (p, x) in edges && MeetsCycle(edges, x)
    ensures MeetsCycle(edges, p)
  {
    var w :| Reaches(edges, x, w) && Reaches(edges, w, w);
    EdgeReaches(edges, p, x);
    ReachesTransitive(edges, p, x, w);
  }

  /** The edges that a search for v follows: at a direct predecessor of v it stops. */
  ghost function Detours(edges: set<(nat, nat)>, v: nat): set<(nat, nat)> {
    set e | e in edges && (e.0, v) !in edges
  }

  /** The search returns once the fuel covers the depth below p, if no path that avoids the direct predecessors
      of v runs from p into a cycle. */
  lemma {:induction false} SearchReturns(t: Table, p: nat, v: nat, fuel: nat)
    requires WellRanged(t) && p < |t|
    requires var d := Detours(SuccEdges(t), v); !MeetsCycle(d, p) && fuel >= Depth(d, p)
    ensures Search(t, p, v, fuel).Some?
    decreases fuel, 1, 0
  {
    var d := Detours(SuccEdges(t), v);
    if t[p].succ != [] && v !in t[p].succ {
      forall w | w in t[p].succ
        ensures !MeetsCycle(d, w) && Depth(d, w) < Depth(d, p)
      {
        assert (p, w) in d;
        if MeetsCycle(d, w) {
          MeetsFollows(d, p, w);
        }
        EdgeReaches(d, p, w);
        DepthFalls(d, p, w);
      }
      assert t[p].succ[0] in t[p].succ;
      SearchAnyReturns(t, t[p].succ, v, fuel - 1);
    }
  }

  lemma {:induction false} SearchAnyReturns(t: Table, succ: seq<nat>, v: nat, fuel: nat)
    requires WellRanged(t) && forall i :: 0 <= i < |succ| ==> succ[i] < |t|
    requires var d := Detours(SuccEdges(t), v);
             forall i :: 0 <= i < |succ| ==> !MeetsCycle(d, succ[i]) && Depth(d, succ[i]) <= fuel
    ensures SearchAny(t, succ, v, fuel).Some?
    decreases fuel, 2, |succ|
  {
    if succ != [] {
      SearchReturns(t, succ[0], v, fuel);
      SearchAnyReturns(t, succ[1..], v, fuel);
    }
  }

  /** A search for a vertex that p does not reach explores everything below p, and never leaves a cycle. */
  lemma {:induction false} SearchDiverges(t: Table, p: nat, v: nat, fuel: nat)
    requires WellRanged(t) && p < |t| && MeetsCycle(SuccEdges(t), p) && !Reaches(SuccEdges(t), p, v)
    ensures Search(t, p, v, fuel).None?
    decreases fuel
  {
    var x := Towards(SuccEdges(t), p);
    assert x in t[p].succ;
    Below(t, p, v);
    if fuel > 0 {
      var i :| 0 <= i < |t[p].succ| && t[p].succ[i] == x;
      SearchDiverges(t, x, v, fuel - 1);
      SearchAnyDiverges(t, t[p].succ, v, fuel - 1, i);
    }
  }

  lemma Below(t: Table, p: nat, v: nat)
    requires WellRanged(t) && p < |t| && !Reaches(SuccEdges(t), p, v)
    ensures v !in t[p].succ && forall i :: 0 <= i < |t[p].succ| ==> !Reaches(SuccEdges(t), t[p].succ[i], v)
  {
    var edges := SuccEdges(t);
    forall w | w in t[p].succ
      ensures w != v && !Reaches(edges, w, v)
    {
      assert (p, w) in edges;
      EdgeReaches(edges, p, w);
      if Reaches(edges, w, v) {
        ReachesTransitive(edges, p, w, v);
      }
    }
  }

  lemma {:induction false} SearchAnyDiverges(t: Table, succ: seq<nat>, v: nat, fuel: nat, i: nat)
    requires WellRanged(t) && forall j :: 0 <= j < |succ| ==> succ[j] < |t| && !Reaches(SuccEdges(t), succ[j], v)
    requires i < |succ| && Search(t, succ[i], v, fuel).None?
    ensures SearchAny(t, succ, v, fuel).None?
    decreases i
  {
    if i > 0 {
      if Search(t, succ[0], v, fuel).Some? {
        SearchIsExact(t, succ[0], v, fuel);
      }
      SearchAnyDiverges(t, succ[1..], v, fuel, i - 1);
    }
  }

  /** A search finds nothing exactly if p does not reach v and no path from p runs into a cycle, whatever the
      order of the successors. */
  lemma FailsIff(t: Table, p: nat, v: nat, fuel: nat)
    requires WellRanged(t) && p < |t|
    ensures Search(t, p, v, fuel) == Some(false) ==> !Reaches(SuccEdges(t), p, v) && !MeetsCycle(SuccEdges(t), p)
    ensures fuel >= |t| && !Reaches(SuccEdges(t), p, v) && !MeetsCycle(SuccEdges(t), p) ==>
              Search(t, p, v, fuel) == Some(false)
  {
    if Search(t, p, v, fuel) == Some(false) {
      SearchIsExact(t, p, v, fuel);
      if MeetsCycle(SuccEdges(t), p) {
        SearchDiverges(t, p, v, fuel);
      }
    } else if fuel >= |t| && !Reaches(SuccEdges(t), p, v) && !MeetsCycle(SuccEdges(t), p) {
      if MeetsCycle(Detours(SuccEdges(t), v), p) {
        MeetsLess(SuccEdges(t), v, p);
      }
      DepthBound(t, p, v);
      SearchReturns(t, p, v, fuel);
      SearchIsExact(t, p, v, fuel);
    }
  }

  lemma MeetsLess(edges: set<(nat, nat)>, v: nat, p: nat)
    requires MeetsCycle(Detours(edges, v), p)
    ensures MeetsCycle(edges, p)
  {
    var d := Detours(edges, v);
    var w :| Reaches(d, p, w) && Reaches(d, w, w);
    ReachesMore(d, edges, p, w);
    ReachesMore(d, edges, w, w);
  }

  // ---------------------------------------------------------------- in every order

  /** The same graph with the successor sets iterated in another order. */
  ghost predicate Reordered(t: Table, t': Table) {
    |t'| == |t| && forall q :: 0 <= q < |t| ==> SameMembers(t[q].succ, t'[q].succ)
  }

  ghost predicate SameMembers(a: seq<nat>, b: seq<nat>) {
    multiset(a) == multiset(b)
  }

  lemma SameMembersAre(a: seq<nat>, b: seq<nat>, x: nat)
    requires SameMembers(a, b)
    ensures x in a <==> x in b
  {
    assert x in a <==> x in multiset(a);
    assert x in b <==> x in multiset(b);
  }

  lemma ReorderedIsSame(t: Table, t': Table)
    requires WellRanged(t) && Reordered(t, t')
    ensures WellRanged(t') && SuccEdges(t') == SuccEdges(t)
  {
    forall q, x | 0 <= q < |t|
      ensures x in t[q].succ <==> x in t'[q].succ
    {
      assert SameMembers(t[q].succ, t'[q].succ);
      SameMembersAre(t[q].succ, t'[q].succ, x);
    }
    forall q, i | 0 <= q < |t'| && 0 <= i < |t'[q].succ|
      ensures t'[q].succ[i] < |t'|
    {
      assert t'[q].succ[i] in t[q].succ;
    }
  }

  ghost predicate Returns(t: Table, p: nat, v: nat) {
    WellRanged(t) && p < |t| && exists fuel: nat :: Search(t, p, v, fuel).Some?
  }

  /** Successors in an order that leads the search for v astray: first one from which a cycle can be met. */
  ghost function Misled(t: Table, v: nat): Table {
    seq(|t|, q requires 0 <= q < |t| => t[q].(succ := Astray(t, v, q)))
  }

  ghost function Astray(t: Table, v: nat, q: nat): (succ: seq<nat>)
    requires q < |t|
    ensures SameMembers(t[q].succ, succ)
    ensures MeetsCycle(Detours(SuccEdges(t), v), q) ==>
              succ != [] && v !in succ && MeetsCycle(Detours(SuccEdges(t), v), succ[0])
  {
    if MeetsCycle(Detours(SuccEdges(t), v), q) then
      var x := Towards(Detours(SuccEdges(t), v), q);
      assert x in t[q].succ && v !in t[q].succ;
      SameMembersAre(t[q].succ, ToFront(t[q].succ, x), v);
      ToFront(t[q].succ, x)
    else t[q].succ
  }

  ghost function ToFront(s: seq<nat>, x: nat): (r: seq<nat>)
    requires x in s
    ensures SameMembers(s, r) && r != [] && r[0] == x
  {
    var i :| 0 <= i < |s| && s[i] == x;
    assert s == s[..i] + [x] + s[i + 1..];
    [x] + (s[..i] + s[i + 1..])
  }

  lemma {:induction false} MisledDiverges(t: Table, p: nat, v: nat, fuel: nat)
    requires WellRanged(t) && WellRanged(Misled(t, v)) && p < |t| && MeetsCycle(Detours(SuccEdges(t), v), p)
    ensures Search(Misled(t, v), p, v, fuel).None?
    decreases fuel
  {
    var succ := Misled(t, v)[p].succ;
    assert succ == Astray(t, v, p);
    if fuel > 0 {
      MisledDiverges(t, succ[0], v, fuel - 1);
      assert SearchAny(Misled(t, v), succ, v, fuel - 1).None?;
    }
  }

  lemma MisledIsReordered(t: Table, v: nat)
    requires WellRanged(t)
    ensures Reordered(t, Misled(t, v)) && WellRanged(Misled(t, v))
  {
    forall q | 0 <= q < |t|
      ensures SameMembers(t[q].succ, Misled(t, v)[q].succ)
    {
      assert Misled(t, v)[q].succ == Astray(t, v, q);
    }
    ReorderedIsSame(t, Misled(t, v));
  }

  /** The search for v below p returns, in whatever order the successor sets are iterated, exactly if no path
      from p that avoids the direct predecessors of v runs into a cycle. */
  lemma SearchReturnsIff(t: Table, p: nat, v: nat)
    requires WellRanged(t) && p < |t|
    ensures (forall t' :: Reordered(t, t') ==> Returns(t', p, v)) <==> !MeetsCycle(Detours(SuccEdges(t), v), p)
  {
    if MeetsCycle(Detours(SuccEdges(t), v), p) {
      MisledIsReordered(t, v);
      forall fuel: nat
        ensures Search(Misled(t, v), p, v, fuel).None?
      {
        MisledDiverges(t, p, v, fuel);
      }
      assert !Returns(Misled(t, v), p, v);
    } else {
      forall t' | Reordered(t, t')
        ensures Returns(t', p, v)
      {
        ReorderedIsSame(t, t');
        SearchReturns(t', p, v, Depth(Detours(SuccEdges(t'), v), p));
      }
    }
  }

  // ---------------------------------------------------------------- the cycle test

  /** The listed positions below n, in increasing order. */
  function Listing(listed: set<nat>, n: nat): (order: seq<nat>)
    ensures forall x :: x in order <==> x < n && x in listed
    ensures forall i, j :: 0 <= i < j < |order| ==> order[i] < order[j]
  {
    if n == 0 then []
    else
      var before := Listing(listed, n - 1);
      assert forall i :: 0 <= i < |before| ==> before[i] in before;
      if n - 1 in listed then before + [n - 1] else before
  }

  /** `TestCircle` over the id table in some order: does a listed vertex find itself among its successors?
      `None` when a search goes deeper than the fuel. */
  ghost function TestCircle(t: Table, order: seq<nat>, fuel: nat): Option<bool>
    requires WellRanged(t) && InTable(order, |t|)
  {
    if order == [] then Some(false)
    else
      match Search(t, order[0], order[0], fuel)
      case Some(false) => TestCircle(t, order[1..], fuel)
      case found => found
  }

  predicate InTable(order: seq<nat>, n: nat) {
    forall i :: 0 <= i < |order| ==> order[i] < n
  }

  /** When the cycle test answers, the answer is right for the listed vertices. */
  lemma {:induction false} TestCircleIsExact(t: Table, order: seq<nat>, fuel: nat)
    requires WellRanged(t) && InTable(order, |t|) && TestCircle(t, order, fuel).Some?
    ensures TestCircle(t, order, fuel).value <==> exists q :: q in order && Reaches(SuccEdges(t), q, q)
  {
    if order != [] {
      SearchIsExact(t, order[0], order[0], fuel);
      assert forall q :: q in order <==> q == order[0] || q in order[1..];
      if Search(t, order[0], order[0], fuel) == Some(false) {
        TestCircleIsExact(t, order[1..], fuel);
      }
    }
  }

  lemma {:induction false} TestCircleReturns(t: Table, order: seq<nat>, fuel: nat)
    requires WellRanged(t) && InTable(order, |t|) && fuel >= |t|
    requires forall q :: q in order ==> !MeetsCycle(Detours(SuccEdges(t), q), q)
    ensures TestCircle(t, order, fuel).Some?
  {
    if order != [] {
      DepthBound(t, order[0], order[0]);
      SearchReturns(t, order[0], order[0], fuel);
      TestCircleReturns(t, order[1..], fuel);
    }
  }

  /** The cycle test finds nothing exactly if no path from a listed vertex runs into a cycle. */
  lemma {:induction false} TestCircleFailsIff(t: Table, order: seq<nat>, fuel: nat)
    requires WellRanged(t) && InTable(order, |t|)
    ensures TestCircle(t, order, fuel) == Some(false) ==> forall q :: q in order ==> !MeetsCycle(SuccEdges(t), q)
    ensures fuel >= |t| && (forall q :: q in order ==> !MeetsCycle(SuccEdges(t), q)) ==>
              TestCircle(t, order, fuel) == Some(false)
  {
    if order != [] {
      FailsIff(t, order[0], order[0], fuel);
      TestCircleFailsIff(t, order[1..], fuel);
      assert Reaches(SuccEdges(t), order[0], order[0]) ==> MeetsCycle(SuccEdges(t), order[0]);
      assert forall q :: q in order <==> q == order[0] || q in order[1..];
    }
  }

  /** The listed vertices, each once. */
  ghost predicate Enumerates(order: seq<nat>, listed: set<nat>) {
    && (forall x :: x in order <==> x in listed)
    && (forall i, j :: 0 <= i < j < |order| ==> order[i] != order[j])
  }

  ghost predicate TestReturns(t: Table, order: seq<nat>) {
    WellRanged(t) && InTable(order, |t|) && exists fuel: nat :: TestCircle(t, order, fuel).Some?
  }

  /** The cycle test returns, in whatever order the id table and the successor sets are iterated, exactly if no
      path from a listed vertex that avoids its own direct predecessors runs into a cycle. */
  lemma TestCircleReturnsIff(t: Table, listed: set<nat>)
    requires WellRanged(t) && forall q :: q in listed ==> q < |t|
    ensures (forall t', order :: Reordered(t, t') && Enumerates(order, listed) ==> TestReturns(t', order)) <==>
            forall q :: q in listed ==> !MeetsCycle(Detours(SuccEdges(t), q), q)
  {
    if q :| q in listed && MeetsCycle(Detours(SuccEdges(t), q), q) {
      var others := Listing(listed - {q}, |t|);
      var order := [q] + others;
      assert forall i :: 0 <= i < |others| ==> others[i] in others;
      MisledIsReordered(t, q);
      forall fuel: nat
        ensures InTable(order, |t|) && TestCircle(Misled(t, q), order, fuel).None?
      {
        forall i | 0 <= i < |order|
          ensures order[i] < |t|
        {
          assert order[i] in order;
        }
        MisledDiverges(t, q, q, fuel);
      }
      assert !TestReturns(Misled(t, q), order);
    } else {
      forall t', order | Reordered(t, t') && Enumerates(order, listed)
        ensures TestReturns(t', order)
      {
        ReorderedIsSame(t, t');
        forall i | 0 <= i < |order|
          ensures order[i] < |t|
        {
          assert order[i] in order;
        }
        TestCircleReturns(t', order, |t|);
      }
    }
  }

  lemma DepthBound(t: Table, p: nat, v: nat)
    requires WellRanged(t)
    ensures Depth(Detours(SuccEdges(t), v), p) <= |t|
  {
    BoundedSet(Descendants(Detours(SuccEdges(t), v), p), |t|);
  }

  lemma {:induction false} BoundedSet(s: set<nat>, n: nat)
    requires forall x :: x in s ==> x < n
    ensures |s| <= n
  {
    if s != {} {
      if n - 1 in s {
        BoundedSet(s - {n - 1}, n - 1);
      } else {
        assert n > 0 by {
          var x :| x in s;
        }
        BoundedSet(s, n - 1);
      }
    }
  }
}
