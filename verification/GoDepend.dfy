/** How the Go graph compiler records dependencies: explicit declarations overwrite, implicit ones (from data)
    only fill in.  The vertices are built in the iteration order of a map, that is, in any order. */
module GoDepend {
  import opened Options

  type Id = string

  /** `succ`: ids of the successors; `idx`: the slot of each dependency; `expected`: what each slot expects. */
  datatype GoLinks = GoLinks(succ: set<Id>, idx: map<Id, nat>, expected: seq<int>)

  type Table = map<Id, GoLinks>

  /** One call `to.depend(from, expected, implicit)`. */
  datatype Call = Call(from: Id, to: Id, expected: int, implicit: bool)

  predicate Known(t: Table, c: Call) {
    c.from in t && c.to in t
  }

  /** The dependency's side of a call. */
  function AddDependency(x: GoLinks, c: Call): GoLinks {
    if c.from in x.idx then
      if c.implicit || x.idx[c.from] >= |x.expected| then x
      else x.(expected := x.expected[x.idx[c.from] := c.expected])
    else x.(idx := x.idx[c.from := |x.expected|], expected := x.expected + [c.expected])
  }

  function Depend(t: Table, c: Call): (t': Table)
    requires Known(t, c)
    ensures t'.Keys == t.Keys
  {
    if c.implicit && c.from in t[c.to].idx then t
    else
      var t1 := t[c.to := AddDependency(t[c.to], c)];
      t1[c.from := t1[c.from].(succ := t1[c.from].succ + {c.to})]
  }

  predicate AllKnown(t: Table, calls: seq<Call>) {
    calls == [] || (AllKnown(t, calls[..|calls| - 1]) && Known(t, calls[|calls| - 1]))
  }

  function DependAll(t: Table, calls: seq<Call>): (t': Table)
    requires AllKnown(t, calls)
    ensures t'.Keys == t.Keys
  {
    if calls == [] then t else Depend(DependAll(t, calls[..|calls| - 1]), calls[|calls| - 1])
  }

  function Empty(ids: set<Id>): Table {
    map v | v in ids :: GoLinks({}, map[], [])
  }

  // ---------------------------------------------------------------- what a pair ends up with

  /** An explicit call decides; an implicit one only counts when nothing was recorded before. */
  function Heard(prev: Option<int>, c: Call, u: Id, v: Id): Option<int> {
    if c.from != u || c.to != v then prev
    else if c.implicit && prev.Some? then prev else Some(c.expected)
  }

  function Final(calls: seq<Call>, u: Id, v: Id): Option<int> {
    if calls == [] then None else Heard(Final(calls[..|calls| - 1], u, v), calls[|calls| - 1], u, v)
  }

  /** The slots of a vertex are a bijection onto 0..n-1. */
  ghost predicate Dense(x: GoLinks) {
    && |x.expected| == |x.idx|
    && (forall u :: u in x.idx ==> x.idx[u] < |x.idx|)
    && (forall u, v :: u in x.idx && v in x.idx && x.idx[u] == x.idx[v] ==> u == v)
    && (forall k :: 0 <= k < |x.idx| ==> HasSlot(x, k))
  }

  ghost predicate HasSlot(x: GoLinks, k: nat) {
    exists u :: u in x.idx && x.idx[u] == k
  }

  /** The pair is linked exactly if `final` is present, at both ends, and its slot holds `final`. */
  ghost predicate PairIs(t: Table, u: Id, v: Id, final: Option<int>)
    requires u in t && v in t
  {
    && (u in t[v].idx <==> final.Some?) && (v in t[u].succ <==> final.Some?)
    && (final.Some? && t[v].idx[u] < |t[v].expected| ==> t[v].expected[t[v].idx[u]] == final.value)
  }

  lemma AddDependencyDense(x: GoLinks, c: Call)
    requires Dense(x)
    ensures Dense(AddDependency(x, c))
  {
    var y := AddDependency(x, c);
    if c.from !in x.idx {
      assert y.idx.Keys == x.idx.Keys + {c.from};
      forall k | 0 <= k < |y.idx|
        ensures HasSlot(y, k)
      {
        if k < |x.idx| {
          assert HasSlot(x, k);
          var w :| w in x.idx && x.idx[w] == k;
          assert w in y.idx && y.idx[w] == k;
        } else {
          assert c.from in y.idx && y.idx[c.from] == k;
        }
      }
    } else {
      forall k | 0 <= k < |y.idx|
        ensures HasSlot(y, k)
      {
        assert HasSlot(x, k);
      }
    }
  }

  /** The successors do not matter. */
  lemma SameSlots(x: GoLinks, y: GoLinks)
    requires Dense(x) && y.idx == x.idx && y.expected == x.expected
    ensures Dense(y)
  {
    forall k | 0 <= k < |y.idx|
      ensures HasSlot(y, k)
    {
      assert HasSlot(x, k);
    }
  }

  lemma DependKeepsDense(t: Table, c: Call, x: Id)
    requires Known(t, c) && x in t && Dense(t[x])
    ensures Dense(Depend(t, c)[x])
  {
    AddDependencyDense(t[x], c);
    SameSlots(if x == c.to then AddDependency(t[x], c) else t[x], Depend(t, c)[x]);
  }

  lemma DependPair(t: Table, c: Call, u: Id, v: Id, prev: Option<int>)
    requires Known(t, c) && u in t && v in t && Dense(t[v]) && PairIs(t, u, v, prev)
    ensures PairIs(Depend(t, c), u, v, Heard(prev, c, u, v))
  {
  }

  lemma {:induction false} BuiltDense(ids: set<Id>, calls: seq<Call>)
    requires AllKnown(Empty(ids), calls)
    ensures forall x :: x in ids ==> Dense(DependAll(Empty(ids), calls)[x])
  {
    if calls != [] {
      var before := DependAll(Empty(ids), calls[..|calls| - 1]);
      BuiltDense(ids, calls[..|calls| - 1]);
      forall x | x in ids
        ensures Dense(DependAll(Empty(ids), calls)[x])
      {
        DependKeepsDense(before, calls[|calls| - 1], x);
      }
    }
  }

  /** After any calls the pair holds what `Final` says. */
  lemma {:induction false} PairFinal(ids: set<Id>, calls: seq<Call>, u: Id, v: Id)
    requires AllKnown(Empty(ids), calls) && u in ids && v in ids
    ensures PairIs(DependAll(Empty(ids), calls), u, v, Final(calls, u, v))
  {
    if calls != [] {
      var before := calls[..|calls| - 1];
      PairFinal(ids, before, u, v);
      BuiltDense(ids, before);
      DependPair(DependAll(Empty(ids), before), calls[|calls| - 1], u, v, Final(before, u, v));
    }
  }

  // ---------------------------------------------------------------- build orders

  /** The last explicit expectation for the pair, and the first implicit one. */
  function LastExplicit(calls: seq<Call>, u: Id, v: Id): Option<int> {
    if calls == [] then None
    else
      var c := calls[|calls| - 1];
      if c.from == u && c.to == v && !c.implicit then Some(c.expected) else LastExplicit(calls[..|calls| - 1], u, v)
  }

  function FirstImplicit(calls: seq<Call>, u: Id, v: Id): Option<int> {
    if calls == [] then None
    else
      var c, earlier := calls[|calls| - 1], FirstImplicit(calls[..|calls| - 1], u, v);
      if earlier.None? && c.from == u && c.to == v && c.implicit then Some(c.expected) else earlier
  }

  lemma {:induction false} FinalIs(calls: seq<Call>, u: Id, v: Id)
    ensures Final(calls, u, v) == OrElse(LastExplicit(calls, u, v), FirstImplicit(calls, u, v))
  {
    if calls != [] {
      FinalIs(calls[..|calls| - 1], u, v);
    }
  }

  lemma {:induction false} LastExplicitAppend(a: seq<Call>, b: seq<Call>, u: Id, v: Id)
    ensures LastExplicit(a + b, u, v) == OrElse(LastExplicit(b, u, v), LastExplicit(a, u, v))
  {
    if b == [] {
      assert a + b == a;
    } else {
      assert (a + b)[..|a + b| - 1] == a + b[..|b| - 1];
      LastExplicitAppend(a, b[..|b| - 1], u, v);
    }
  }

  lemma {:induction false} FirstImplicitAppend(a: seq<Call>, b: seq<Call>, u: Id, v: Id)
    ensures FirstImplicit(a + b, u, v) == OrElse(FirstImplicit(a, u, v), FirstImplicit(b, u, v))
  {
    if b == [] {
      assert a + b == a;
    } else {
      assert (a + b)[..|a + b| - 1] == a + b[..|b| - 1];
      FirstImplicitAppend(a, b[..|b| - 1], u, v);
    }
  }

  /** What each vertex asks for when it is built. */
  type Asks = map<Id, seq<Call>>

  /** A vertex only makes calls about itself, and only its own data asks implicitly. */
  ghost predicate Own(asks: Asks) {
    forall p, i :: p in asks && 0 <= i < |asks[p]| ==>
      (asks[p][i].to == p || asks[p][i].from == p) && (asks[p][i].implicit ==> asks[p][i].to == p)
  }

  function Calls(asks: Asks, order: seq<Id>): seq<Call>
    requires forall i :: 0 <= i < |order| ==> order[i] in asks
  {
    if order == [] then [] else Calls(asks, order[..|order| - 1]) + asks[order[|order| - 1]]
  }

  ghost predicate IsOrder(asks: Asks, order: seq<Id>) {
    && (forall i :: 0 <= i < |order| ==> order[i] in asks)
    && (forall p :: p in asks ==> p in order)
    && (forall i, j :: 0 <= i < j < |order| ==> order[i] != order[j])
  }

  /** p is built before q. */
  ghost predicate Precedes(order: seq<Id>, p: Id, q: Id) {
    exists i, j :: 0 <= i < j < |order| && order[i] == p && order[j] == q
  }

  lemma {:induction false} SilentVertex(calls: seq<Call>, p: Id, u: Id, v: Id)
    requires forall i :: 0 <= i < |calls| ==> calls[i].to == p || calls[i].from == p
    requires forall i :: 0 <= i < |calls| ==> calls[i].implicit ==> calls[i].to == p
    ensures p != u && p != v ==> LastExplicit(calls, u, v).None?
    ensures p != v ==> FirstImplicit(calls, u, v).None?
  {
    if calls != [] {
      SilentVertex(calls[..|calls| - 1], p, u, v);
    }
  }

  function ExplicitOf(asks: Asks, p: Id, u: Id, v: Id): Option<int>
    requires p in asks
  {
    LastExplicit(asks[p], u, v)
  }

  /** What the vertices built so far have asked of u → v. */
  ghost predicate HeardSoFar(asks: Asks, order: seq<Id>, calls: seq<Call>, u: Id, v: Id)
    requires u in asks && v in asks
  {
    var x, y := ExplicitOf(asks, u, u, v), ExplicitOf(asks, v, u, v);
    && FirstImplicit(calls, u, v) == (if v in order then FirstImplicit(asks[v], u, v) else None)
    && LastExplicit(calls, u, v) ==
       if u in order && v in order then
         if Precedes(order, v, u) then OrElse(x, y) else OrElse(y, x)
       else if u in order then x else if v in order then y else None
  }

  lemma PrecedesGrows(order: seq<Id>, p: Id, u: Id, v: Id)
    requires p !in order
    ensures Precedes(order + [p], v, u) <==> Precedes(order, v, u) || (v in order && p == u)
  {
    var next := order + [p];
    if Precedes(order, v, u) {
      var i, j :| 0 <= i < j < |order| && order[i] == v && order[j] == u;
      assert next[i] == v && next[j] == u;
    }
    if v in order && p == u {
      var i :| 0 <= i < |order| && order[i] == v;
      assert next[i] == v && next[|order|] == u;
    }
  }

  lemma HeardStep(asks: Asks, order: seq<Id>, calls: seq<Call>, p: Id, u: Id, v: Id)
    requires u in asks && v in asks && u != v && p in asks && p !in order && Own(asks)
    requires HeardSoFar(asks, order, calls, u, v)
    ensures HeardSoFar(asks, order + [p], calls + asks[p], u, v)
  {
    LastExplicitAppend(calls, asks[p], u, v);
    FirstImplicitAppend(calls, asks[p], u, v);
    SilentVertex(asks[p], p, u, v);
    PrecedesGrows(order, p, u, v);
    assert forall x :: x in order + [p] <==> x in order || x == p;
    if Precedes(order, v, u) {
      assert u in order && v in order;
    }
  }

  lemma {:induction false} HeardByAll(asks: Asks, order: seq<Id>, u: Id, v: Id)
    requires u in asks && v in asks && u != v && Own(asks)
    requires forall i :: 0 <= i < |order| ==> order[i] in asks
    requires forall i, j :: 0 <= i < j < |order| ==> order[i] != order[j]
    ensures HeardSoFar(asks, order, Calls(asks, order), u, v)
  {
    if order != [] {
      var before, p := order[..|order| - 1], order[|order| - 1];
      HeardByAll(asks, before, u, v);
      HeardStep(asks, before, Calls(asks, before), p, u, v);
      assert order == before + [p];
    }
  }

  /** What an order makes of the pair: the end built later is heard last. */
  lemma FinalInOrder(asks: Asks, order: seq<Id>, u: Id, v: Id)
    requires u in asks && v in asks && u != v && Own(asks) && IsOrder(asks, order)
    ensures var x, y := ExplicitOf(asks, u, u, v), ExplicitOf(asks, v, u, v);
            Final(Calls(asks, order), u, v) ==
            OrElse(if Precedes(order, v, u) then OrElse(x, y) else OrElse(y, x), FirstImplicit(asks[v], u, v))
  {
    FinalIs(Calls(asks, order), u, v);
    HeardByAll(asks, order, u, v);
  }

  /** Explicit beats implicit in every order: when all explicit declarations of the pair agree on e, the edge
      expects e whatever the data dependencies ask. */
  lemma ExplicitWins(asks: Asks, order: seq<Id>, u: Id, v: Id, e: int)
    requires u in asks && v in asks && u != v && Own(asks) && IsOrder(asks, order)
    requires ExplicitOf(asks, u, u, v).Some? || ExplicitOf(asks, v, u, v).Some?
    requires ExplicitOf(asks, u, u, v).Some? ==> ExplicitOf(asks, u, u, v).value == e
    requires ExplicitOf(asks, v, u, v).Some? ==> ExplicitOf(asks, v, u, v).value == e
    ensures Final(Calls(asks, order), u, v) == Some(e)
  {
    FinalInOrder(asks, order, u, v);
  }

  /** Whether there is an edge never depends on the order. */
  lemma EdgesIgnoreOrder(asks: Asks, o: seq<Id>, o': seq<Id>, u: Id, v: Id)
    requires u in asks && v in asks && u != v && Own(asks) && IsOrder(asks, o) && IsOrder(asks, o')
    ensures Final(Calls(asks, o), u, v).Some? <==> Final(Calls(asks, o'), u, v).Some?
  {
    FinalInOrder(asks, o, u, v);
    FinalInOrder(asks, o', u, v);
  }

  /** The two ends do not contradict each other. */
  predicate EndsAgree(asks: Asks, u: Id, v: Id)
    requires u in asks && v in asks
  {
    var x, y := ExplicitOf(asks, u, u, v), ExplicitOf(asks, v, u, v);
    x.None? || y.None? || x == y
  }

  /** What the edge expects is independent of the order exactly if the last explicit declarations of its two
      ends agree, or one end declares nothing. */
  lemma ExpectationIgnoresOrderIff(asks: Asks, u: Id, v: Id)
    requires u in asks && v in asks && u != v && Own(asks)
    ensures (forall o, o' :: IsOrder(asks, o) && IsOrder(asks, o') ==>
               Final(Calls(asks, o), u, v) == Final(Calls(asks, o'), u, v)) <==> EndsAgree(asks, u, v)
  {
    forall o | IsOrder(asks, o)
      ensures var x, y := ExplicitOf(asks, u, u, v), ExplicitOf(asks, v, u, v);
              Final(Calls(asks, o), u, v) ==
              OrElse(if Precedes(o, v, u) then OrElse(x, y) else OrElse(y, x), FirstImplicit(asks[v], u, v))
    {
      FinalInOrder(asks, o, u, v);
    }
    var a := OrderWith(asks, u, v);
    var b := OrderWith(asks, v, u);
    assert a[0] == u && a[1] == v && b[0] == v && b[1] == u;
    assert Precedes(b, v, u);
    assert !Precedes(a, v, u);
  }

  /** There is an order that starts with p and q. */
  lemma OrderWith(asks: Asks, p: Id, q: Id) returns (order: seq<Id>)
    requires p in asks && q in asks && p != q
    ensures IsOrder(asks, order) && |order| >= 2 && order[0] == p && order[1] == q
  {
    var rest := Enumerate(asks.Keys - {p, q});
    order := [p, q] + rest;
    forall i | 0 <= i < |order|
      ensures order[i] in asks
    {
      assert i >= 2 ==> order[i] == rest[i - 2] && rest[i - 2] in rest;
    }
    forall x | x in asks
      ensures x in order
    {
      assert x == order[0] || x == order[1] || x in rest;
    }
  }

  lemma Enumerate(s: set<Id>) returns (order: seq<Id>)
    ensures forall x :: x in order <==> x in s
    ensures forall i, j :: 0 <= i < j < |order| ==> order[i] != order[j]
  {
    order := [];
    var rest := s;
    while rest != {}
      invariant rest <= s && forall x :: x in order <==> x in s && x !in rest
      invariant forall i, j :: 0 <= i < j < |order| ==> order[i] != order[j]
      decreases rest
    {
      var x :| x in rest;
      rest := rest - {x};
      order := order + [x];
    }
  }
}
