/** The dependency links of a graph under construction: what a sequence of `Depend` calls leaves behind.
    Vertices are named by their position. */
module Links {
  import opened Options
  import opened VertexResults

  /** `succ`: the successor set, in iteration order.  `idx`: the slot of each dependency.  `expected`: the
      mask of each slot. */
  datatype VertexLinks = VertexLinks(succ: seq<nat>, idx: map<nat, nat>, expected: seq<VertexResult>)

  type Table = seq<VertexLinks>

  /** One call `to->Depend(from, expected)`. */
  datatype Request = Request(from: nat, to: nat, expected: VertexResult)

  const NO_LINKS := VertexLinks([], map[], [])

  function Empty(n: nat): Table {
    seq(n, _ => NO_LINKS)
  }

  predicate InRange(reqs: seq<Request>, n: nat) {
    forall r :: r in reqs ==> r.from < n && r.to < n
  }

  function AddSuccessor(x: VertexLinks, v: nat): VertexLinks {
    if v in x.succ then x else x.(succ := x.succ + [v])
  }

  /** A dependency already present keeps its slot and its first expectation. */
  function AddDependency(x: VertexLinks, u: nat, e: VertexResult): VertexLinks {
    if u in x.idx then x else x.(idx := x.idx[u := |x.idx|], expected := x.expected + [e])
  }

  function Depend(t: Table, r: Request): Table
    requires r.from < |t| && r.to < |t|
  {
    var told := t[r.from := AddSuccessor(t[r.from], r.to)];
    told[r.to := AddDependency(told[r.to], r.from, r.expected)]
  }

  function DependAll(t: Table, reqs: seq<Request>): (t': Table)
    requires InRange(reqs, |t|)
    ensures |t'| == |t|
  {
    if reqs == [] then t
    else
      assert reqs[|reqs| - 1] in reqs;
      Depend(DependAll(t, reqs[..|reqs| - 1]), reqs[|reqs| - 1])
  }

  /** The place of x in a list without repetitions; the length of the list for what it does not hold. */
  function IndexOf<T(==)>(order: seq<T>, x: T): (i: nat)
    ensures if x in order then i < |order| && order[i] == x else i == |order|
  {
    if order == [] then 0
    else if order[0] == x then 0
    else 1 + IndexOf(order[1..], x)
  }

  // ---------------------------------------------------------------- the invariant

  /** The slots of x are a bijection between its dependencies and 0..n-1. */
  ghost predicate Dense(x: VertexLinks) {
    && |x.expected| == |x.idx|
    && (forall u :: u in x.idx ==> x.idx[u] < |x.idx|)
    && (forall u, v :: u in x.idx && v in x.idx && x.idx[u] == x.idx[v] ==> u == v)
    && (forall k :: 0 <= k < |x.idx| ==> HasSlot(x, k))
  }

  ghost predicate HasSlot(x: VertexLinks, k: nat) {
    exists u :: u in x.idx && x.idx[u] == k
  }

  ghost predicate Mirror(t: Table, u: nat, v: nat)
    requires u < |t| && v < |t|
  {
    v in t[u].succ <==> u in t[v].idx
  }

  ghost predicate Ranged(x: VertexLinks, n: nat) {
    && (forall v :: v in x.succ ==> v < n)
    && (forall u :: u in x.idx ==> u < n)
    && (forall i, j :: 0 <= i < j < |x.succ| ==> x.succ[i] != x.succ[j])
  }

  /** Successor sets are exactly the inverse of dependency maps, and slots are dense. */
  ghost predicate Consistent(t: Table) {
    && (forall v :: 0 <= v < |t| ==> Dense(t[v]))
    && (forall v :: 0 <= v < |t| ==> Ranged(t[v], |t|))
    && (forall u, v {:trigger Mirror(t, u, v)} :: 0 <= u < |t| && 0 <= v < |t| ==> Mirror(t, u, v))
  }

  lemma AddDependencyDense(x: VertexLinks, u: nat, e: VertexResult)
    requires Dense(x)
    ensures Dense(AddDependency(x, u, e))
  {
    var y := AddDependency(x, u, e);
    if u !in x.idx {
      assert y.idx.Keys == x.idx.Keys + {u};
      forall k | 0 <= k < |y.idx|
        ensures HasSlot(y, k)
      {
        if k < |x.idx| {
          assert HasSlot(x, k);
          var w :| w in x.idx && x.idx[w] == k;
          assert w in y.idx && y.idx[w] == k;
        } else {
          assert u in y.idx && y.idx[u] == k;
        }
      }
    }
  }

  lemma DenseIgnoresSuccessors(x: VertexLinks, v: nat)
    requires Dense(x)
    ensures Dense(AddSuccessor(x, v))
  {
    forall k | 0 <= k < |x.idx|
      ensures HasSlot(AddSuccessor(x, v), k)
    {
      assert HasSlot(x, k);
    }
  }

  /** What one call changes, vertex by vertex. */
  lemma DependEffect(t: Table, r: Request, v: nat)
    requires r.from < |t| && r.to < |t| && v < |t|
    ensures var x, y := t[v], Depend(t, r)[v];
            && y.succ == (if v == r.from then AddSuccessor(x, r.to).succ else x.succ)
            && y.idx == (if v == r.to then AddDependency(x, r.from, r.expected).idx else x.idx)
            && y.expected == (if v == r.to then AddDependency(x, r.from, r.expected).expected else x.expected)
  {
  }

  lemma DependDense(t: Table, r: Request, v: nat)
    requires Consistent(t) && r.from < |t| && r.to < |t| && v < |t|
    ensures Dense(Depend(t, r)[v])
  {
    assert Dense(t[v]);
    DenseIgnoresSuccessors(t[v], r.to);
    AddDependencyDense(t[v], r.from, r.expected);
    AddDependencyDense(AddSuccessor(t[v], r.to), r.from, r.expected);
  }

  lemma DependMirror(t: Table, r: Request, u: nat, v: nat)
    requires r.from < |t| && r.to < |t| && u < |t| && v < |t| && Mirror(t, u, v)
    ensures Mirror(Depend(t, r), u, v)
  {
    DependEffect(t, r, u);
    DependEffect(t, r, v);
  }

  lemma DependRanged(t: Table, r: Request, v: nat)
    requires r.from < |t| && r.to < |t| && v < |t| && Ranged(t[v], |t|)
    ensures Ranged(Depend(t, r)[v], |t|)
  {
    DependEffect(t, r, v);
  }

  lemma DependConsistent(t: Table, r: Request)
    requires Consistent(t) && r.from < |t| && r.to < |t|
    ensures Consistent(Depend(t, r))
  {
    var t' := Depend(t, r);
    forall v | 0 <= v < |t'|
      ensures Dense(t'[v]) && Ranged(t'[v], |t'|)
    {
      DependDense(t, r, v);
      DependRanged(t, r, v);
    }
    forall u, v | 0 <= u < |t'| && 0 <= v < |t'|
      ensures Mirror(t', u, v)
    {
      assert Mirror(t, u, v);
      DependMirror(t, r, u, v);
    }
  }

  lemma EmptyConsistent(n: nat)
    ensures Consistent(Empty(n))
  {
  }

  lemma {:induction false} DependAllConsistent(t: Table, reqs: seq<Request>)
    requires Consistent(t) && InRange(reqs, |t|)
    ensures Consistent(DependAll(t, reqs))
  {
    if reqs != [] {
      assert reqs[|reqs| - 1] in reqs;
      DependAllConsistent(t, reqs[..|reqs| - 1]);
      DependConsistent(DependAll(t, reqs[..|reqs| - 1]), reqs[|reqs| - 1]);
    }
  }

  // ---------------------------------------------------------------- edges and expectations

  /** The expectation of the first request from u to v. */
  function First(reqs: seq<Request>, u: nat, v: nat): Option<VertexResult> {
    if reqs == [] then None
    else
      var r, earlier := reqs[|reqs| - 1], First(reqs[..|reqs| - 1], u, v);
      if earlier.Some? then earlier
      else if r.from == u && r.to == v then Some(r.expected) else None
  }

  lemma {:induction false} FirstOfAppend(a: seq<Request>, b: seq<Request>, u: nat, v: nat)
    ensures First(a + b, u, v) == if First(a, u, v).Some? then First(a, u, v) else First(b, u, v)
  {
    if b == [] {
      assert a + b == a;
    } else {
      assert (a + b)[..|a + b| - 1] == a + b[..|b| - 1];
      FirstOfAppend(a, b[..|b| - 1], u, v);
    }
  }

  ghost predicate Has(reqs: seq<Request>, u: nat, v: nat) {
    exists e :: Request(u, v, e) in reqs
  }

  lemma {:induction false} FirstIffHas(reqs: seq<Request>, u: nat, v: nat)
    ensures First(reqs, u, v).Some? <==> Has(reqs, u, v)
  {
    if reqs != [] {
      var before, r := reqs[..|reqs| - 1], reqs[|reqs| - 1];
      FirstIffHas(before, u, v);
      if Has(before, u, v) {
        var e :| Request(u, v, e) in before;
        assert Request(u, v, e) in reqs;
      } else if r.from == u && r.to == v {
        assert Request(u, v, r.expected) in reqs;
      }
    }
  }

  ghost predicate HasExpectation(x: VertexLinks, u: nat, e: VertexResult) {
    u in x.idx && x.idx[u] < |x.expected| && x.expected[x.idx[u]] == e
  }

  /** One call seen from one pair: the first expectation of an edge stays. */
  lemma DependPair(t: Table, r: Request, u: nat, v: nat)
    requires r.from < |t| && r.to < |t| && u < |t| && v < |t| && Dense(t[v])
    ensures u in Depend(t, r)[v].idx <==> u in t[v].idx || (r.from == u && r.to == v)
    ensures forall e :: HasExpectation(t[v], u, e) ==> HasExpectation(Depend(t, r)[v], u, e)
    ensures u !in t[v].idx && r.from == u && r.to == v ==> HasExpectation(Depend(t, r)[v], u, r.expected)
  {
    DependEffect(t, r, v);
  }

  lemma BuiltConsistent(n: nat, reqs: seq<Request>)
    requires InRange(reqs, n)
    ensures Consistent(DependAll(Empty(n), reqs))
  {
    EmptyConsistent(n);
    DependAllConsistent(Empty(n), reqs);
  }

  /** u is a dependency of v exactly if it was requested, and then with the expectation of the first request. */
  ghost predicate PairBuilt(t: Table, first: Option<VertexResult>, u: nat, v: nat)
    requires v < |t|
  {
    (u in t[v].idx <==> first.Some?) && (first.Some? ==> HasExpectation(t[v], u, first.value))
  }

  lemma {:induction false} EdgeIffRequested(n: nat, reqs: seq<Request>, u: nat, v: nat)
    requires InRange(reqs, n) && u < n && v < n
    ensures PairBuilt(DependAll(Empty(n), reqs), First(reqs, u, v), u, v)
  {
    if reqs != [] {
      var before, r := reqs[..|reqs| - 1], reqs[|reqs| - 1];
      assert r in reqs;
      EdgeIffRequested(n, before, u, v);
      BuiltConsistent(n, before);
      DependPair(DependAll(Empty(n), before), r, u, v);
    }
  }

  ghost function TableEdges(t: Table): set<(nat, nat)> {
    set v, u | 0 <= v < |t| && u in t[v].idx :: (u, v)
  }

  ghost predicate LinkedTo(t: Table, u: nat, v: nat) {
    u < |t| && v < |t| && u in t[v].idx
  }

  lemma LinkedIs(t: Table, u: nat, v: nat)
    requires Consistent(t)
    ensures u < |t| ==> (v in t[u].succ <==> LinkedTo(t, u, v))
    ensures v < |t| ==> (u in t[v].idx <==> LinkedTo(t, u, v))
  {
    if u < |t| {
      assert Ranged(t[u], |t|);
    }
    if v < |t| {
      assert Ranged(t[v], |t|);
    }
    if u < |t| && v < |t| {
      assert Mirror(t, u, v);
    }
  }

  lemma PairIffHas(n: nat, rs: seq<Request>, u: nat, v: nat)
    requires InRange(rs, n) && u < n && v < n
    ensures u in DependAll(Empty(n), rs)[v].idx <==> Has(rs, u, v)
  {
    EdgeIffRequested(n, rs, u, v);
    FirstIffHas(rs, u, v);
  }
}
