/** Data contexts: slots, a parent and children, and the look-up that searches them all.  Contexts are named by
    their position in `all`, the contexts that exist. */
module DataContext {
  import opened Options
  import opened Digraph
  import opened DataStore

  class GraphDataContext {
    var slots: seq<Slot>
    var table: map<Key, nat>
    var cells: seq<nat>
    var noCreation: bool
    var parent: Option<nat>
    var children: seq<Option<nat>>

    constructor ()
      ensures View() == EMPTY_STORE && WellFormed(View()) && parent == None && children == []
    {
      slots, table, cells, noCreation, parent, children := [], map[], [], false, None, [];
    }

    function View(): Store
      reads this
    {
      Store(slots, table, cells, noCreation)
    }

    method RegisterData(k: Key) returns (idx: nat)
      requires WellFormed(View())
      modifies this
      ensures (View(), idx) == Register(old(View()), k) && WellFormed(View())
      ensures parent == old(parent) && children == old(children)
    {
      ApplyKeepsWellFormed(View(), RegisterOp(k));
      if k !in table {
        idx := |cells|;
        cells := cells + [|slots|];
        table := table[k := |slots|];
        slots := slots + [Slot(None, None, idx)];
      } else {
        idx := slots[table[k]].idx;
      }
    }

    method Set(k: Key, v: Option<Value>, idx: int) returns (ok: bool)
      requires WellFormed(View())
      modifies this
      ensures (View(), ok) == Put(old(View()), k, idx, v) && WellFormed(View())
      ensures parent == old(parent) && children == old(children)
    {
      ApplyKeepsWellFormed(View(), SetOp(k, idx, v));
      var at := Lookup(View(), k, idx);
      if at.Some? {
        slots := slots[at.value := Write(slots[at.value], k, v)];
        return true;
      }
      if noCreation {
        return false;
      }
      table := table[k := |slots|];
      slots := slots + [Write(Slot(None, None, 0), k, v)];
      return true;
    }

    /** Write the raw and the shared pointer of a slot. */
    method Overwrite(at: nat, val: Option<Value>, sval: Option<Value>)
      requires WellFormed(View()) && at < |slots|
      modifies this`slots
      ensures View() == Apply(old(View()), OverwriteOp(at, val, sval)) && WellFormed(View())
    {
      ApplyKeepsWellFormed(View(), OverwriteOp(at, val, sval));
      slots := slots[at := slots[at].(val := val, sval := sval)];
    }

    method DisableEntryCreation()
      requires WellFormed(View())
      modifies this
      ensures View() == Apply(old(View()), DisableOp) && WellFormed(View())
      ensures parent == old(parent) && children == old(children)
    {
      ApplyKeepsWellFormed(View(), DisableOp);
      noCreation := true;
    }

    /** Clear the slots of the array, unlink the parent and the children. */
    method Reset()
      requires WellFormed(View())
      modifies this
      ensures View() == ResetStore(old(View())) && WellFormed(View())
      ensures parent == None && |children| == |old(children)| && forall i :: 0 <= i < |children| ==> children[i] == None
    {
      ApplyKeepsWellFormed(View(), ResetOp);
      for i := 0 to |cells|
        invariant cells == old(cells) && table == old(table) && |slots| == |old(slots)|
        invariant parent == old(parent) && children == old(children)
        invariant forall p :: 0 <= p < |slots| ==>
                    slots[p] == if p in cells[..i] then Cleared(old(slots)[p]) else old(slots)[p]
      {
        slots := slots[cells[i] := Cleared(slots[cells[i]])];
        assert cells[..i + 1] == cells[..i] + [cells[i]];
      }
      assert cells[..|cells|] == cells;
      parent := None;
      for i := 0 to |children|
        invariant |children| == |old(children)| && forall j :: 0 <= j < i ==> children[j] == None
        invariant slots == ResetStore(old(View())).slots && table == old(table) && cells == old(cells) && parent == None
      {
        children := children[i := None];
      }
      noCreation := false;
    }

    method SetParent(p: Option<nat>)
      modifies this`parent
      ensures parent == p
    {
      parent := p;
    }

    method ReserveChildCapacity(n: nat)
      modifies this`children
      ensures |children| == if |old(children)| < n then n else |old(children)|
      ensures old(children) <= children && forall i :: |old(children)| <= i < |children| ==> children[i] == None
    {
      while |children| < n
        invariant old(children) <= children && |children| <= if |old(children)| < n then n else |old(children)|
        invariant forall i :: |old(children)| <= i < |children| ==> children[i] == None
      {
        children := children + [None];
      }
    }

    /** Ignored beyond the reserved capacity. */
    method SetChild(c: nat, idx: nat)
      modifies this`children
      ensures children == if idx < |old(children)| then old(children)[idx := Some(c)] else old(children)
    {
      if idx < |children| {
        children := children[idx := Some(c)];
      }
    }

    ghost predicate LinksTo(d: nat)
      reads this
    {
      parent == Some(d) || Some(d) in children
    }
  }

  // ---------------------------------------------------------------- links

  ghost predicate Sound(all: seq<GraphDataContext>)
    reads all
  {
    && (forall c :: 0 <= c < |all| ==> WellFormed(all[c].View()))
    && (forall c: nat, d: nat :: c < |all| && all[c].LinksTo(d) ==> d < |all|)
  }

  ghost function Positions(n: nat): (s: set<nat>)
    ensures forall i: nat :: i in s <==> i < n
  {
    if n == 0 then {} else Positions(n - 1) + {n - 1}
  }

  ghost function LinkEdges(all: seq<GraphDataContext>): set<(nat, nat)>
    reads all
  {
    set c, d | c in Positions(|all|) && d in Positions(|all|) && all[c].LinksTo(d) :: (c, d)
  }

  /** d is c, or a chain of parent and child links leads there. */
  ghost predicate Reachable(all: seq<GraphDataContext>, c: nat, d: nat)
    reads all
  {
    d == c || Reaches(LinkEdges(all), c, d)
  }

  type Look<T> = (nat, Store) -> Option<T>

  /** What the search finds in context c: a value of the key (`Get`), or its slot (`GetValue`). */
  function FoundAt<T>(all: seq<GraphDataContext>, c: nat, look: Look<T>): Option<T>
    requires c < |all|
    reads all
  {
    look(c, all[c].View())
  }

  // ---------------------------------------------------------------- the search

  datatype GetOptions = GetOptions(withParent: bool, withDi: bool, withChildren: bool)

  const DEFAULT_OPTIONS := GetOptions(true, true, true)

  /** The set of visited contexts that the recursive calls share. */
  class Excludes {
    var ids: set<nat>
    ghost var order: seq<nat>

    constructor ()
      ensures ids == {} && order == []
    {
      ids, order := {}, [];
    }

    /** The contexts were visited in this order, each once. */
    ghost predicate Valid()
      reads this
    {
      && (forall c :: c in order <==> c in ids)
      && (forall i, j :: 0 <= i < j < |order| ==> order[i] != order[j])
    }

    method Insert(c: nat)
      requires Valid() && c !in ids
      modifies this
      ensures Valid() && ids == old(ids) + {c} && order == old(order) + [c]
    {
      ids := ids + {c};
      order := order + [c];
    }
  }

  /** What is known of the contexts that an unsuccessful search below c visited: c's links lead to them, they
      hold nothing under k, and, in a full search, they link only to visited contexts. */
  ghost predicate Visited<T>(all: seq<GraphDataContext>, c: nat, look: Look<T>, d: nat, after: set<nat>, full: bool)
    reads all
  {
    && d < |all| && Reachable(all, c, d) && FoundAt(all, d, look).None?
    && (full ==> forall e :: all[d].LinksTo(e) ==> e in after)
  }

  ghost predicate Searched<T>(all: seq<GraphDataContext>, c: nat, look: Look<T>, before: set<nat>, after: set<nat>, full: bool)
    reads all
  {
    before <= after && forall d :: d in after && d !in before ==> Visited(all, c, look, d, after, full)
  }

  /** The value is held by a context within reach of c that was not seen before, or by the container. */
  ghost predicate Source<T>(all: seq<GraphDataContext>, c: nat, look: Look<T>, di: Option<T>, seen: set<nat>, v: T)
    reads all
  {
    || (exists d: nat :: d < |all| && d !in seen && Reachable(all, c, d) && FoundAt(all, d, look) == Some(v))
    || di == Some(v)
  }

  /** A line of ancestors from c on, none of them seen before, of which the last is the first to hold something. */
  ghost predicate NearestHolder<T>(all: seq<GraphDataContext>, c: nat, look: Look<T>, seen: set<nat>, line: seq<nat>)
    reads all
  {
    && line != [] && line[0] == c
    && (forall i :: 0 <= i < |line| ==> line[i] < |all| && line[i] !in seen)
    && (forall i, j :: 0 <= i < j < |line| ==> line[i] != line[j])
    && (forall i :: 0 <= i < |line| - 1 ==> all[line[i]].parent == Some(line[i + 1]) && FoundAt(all, line[i], look).None?)
    && FoundAt(all, line[|line| - 1], look).Some?
  }

  /** The same beyond c, which itself need not be empty. */
  ghost predicate NearestAbove<T>(all: seq<GraphDataContext>, c: nat, look: Look<T>, seen: set<nat>, line: seq<nat>)
    requires c < |all|
    reads all
  {
    line != [] && all[c].parent == Some(line[0]) && NearestHolder(all, line[0], look, seen, line)
  }

  /** The first child of c is the i-th; it was not seen before and holds something. */
  ghost predicate FirstChild<T>(all: seq<GraphDataContext>, c: nat, look: Look<T>, seen: set<nat>, i: int)
    requires c < |all|
    reads all
  {
    && 0 <= i < |all[c].children| && all[c].children[i].Some? && (forall j :: 0 <= j < i ==> all[c].children[j].None?)
    && all[c].children[i].value < |all| && all[c].children[i].value !in seen
    && FoundAt(all, all[c].children[i].value, look).Some?
  }

  /** r is what the nearest ancestor above c holds, if any does. */
  ghost predicate FromNearest<T>(all: seq<GraphDataContext>, c: nat, look: Look<T>, seen: set<nat>, r: Option<T>)
    requires c < |all|
    reads all
  {
    forall line :: NearestAbove(all, c, look, seen, line) ==> r == FoundAt(all, line[|line| - 1], look)
  }

  /** r is what the first child of c holds, if it does. */
  ghost predicate FromFirstChild<T>(all: seq<GraphDataContext>, c: nat, look: Look<T>, seen: set<nat>, r: Option<T>)
    requires c < |all|
    reads all
  {
    forall i :: FirstChild(all, c, look, seen, i) ==> r == FoundAt(all, all[c].children[i].value, look)
  }

  /** What the search beyond c prefers: what the nearest ancestor holds; without a parent, what the container holds;
      and without that, what the first child holds. */
  ghost predicate Prefers<T>(all: seq<GraphDataContext>, c: nat, look: Look<T>, opt: GetOptions, di: Option<T>, seen: set<nat>,
                             r: Option<T>)
    requires c < |all|
    reads all
  {
    && (opt.withParent ==> FromNearest(all, c, look, seen, r))
    && (all[c].parent.None? && opt.withDi && di.Some? ==> r == di)
    && (all[c].parent.None? && di.None? && opt.withChildren ==> FromFirstChild(all, c, look, seen, r))
  }

  /** The line of ancestors goes on above c. */
  lemma NearestGoesOn<T>(all: seq<GraphDataContext>, c: nat, look: Look<T>, seen: set<nat>, line: seq<nat>)
    requires NearestHolder(all, c, look, seen, line) && FoundAt(all, c, look).None?
    ensures c < |all| && NearestAbove(all, c, look, seen + {c}, line[1..]) && line[1..][|line[1..]| - 1] == line[|line| - 1]
  {
  }

  lemma LinkReaches(all: seq<GraphDataContext>, c: nat, e: nat, d: nat)
    requires c < |all| && e < |all| && all[c].LinksTo(e) && Reachable(all, e, d)
    ensures Reachable(all, c, d)
  {
    assert (c, e) in LinkEdges(all);
    EdgeReaches(LinkEdges(all), c, e);
    if d != e {
      ReachesTransitive(LinkEdges(all), c, e, d);
    }
  }

  /** A search below a link of c extends the search below c. */
  lemma SearchExtends<T>(all: seq<GraphDataContext>, c: nat, e: nat, look: Look<T>,
                         before: set<nat>, mid: set<nat>, after: set<nat>, full: bool)
    requires c < |all| && e < |all| && all[c].LinksTo(e) && c in before
    requires Searched(all, c, look, before, mid, full) && Searched(all, e, look, mid, after, full)
    ensures Searched(all, c, look, before, after, full)
  {
    forall d | d in after && d !in before
      ensures Visited(all, c, look, d, after, full)
    {
      if d in mid {
        assert Visited(all, c, look, d, mid, full);
      } else {
        assert Visited(all, e, look, d, after, full);
        LinkReaches(all, c, e, d);
      }
    }
  }

  lemma SourceExtends<T>(all: seq<GraphDataContext>, c: nat, e: nat, look: Look<T>, di: Option<T>,
                         before: set<nat>, mid: set<nat>, v: T)
    requires c < |all| && e < |all| && all[c].LinksTo(e) && before <= mid && Source(all, e, look, di, mid, v)
    ensures Source(all, c, look, di, before, v)
  {
    if di != Some(v) {
      var d: nat :| d < |all| && d !in mid && Reachable(all, e, d) && FoundAt(all, d, look) == Some(v);
      LinkReaches(all, c, e, d);
    }
  }

  /** What `Get` reads in the context itself. */
  function Own(s: Store, k: Key, idx: int): Option<Value> {
    var at := Lookup(s, k, idx);
    if at.Some? && at.value < |s.slots| then Read(s.slots[at.value], k) else None
  }

  predicate Full(opt: GetOptions) {
    opt.withParent && opt.withChildren
  }

  /** `Get` from another context, by key: its own slot, or else the search beyond it. */
  method GetFrom<T>(all: seq<GraphDataContext>, c: nat, look: Look<T>, opt: GetOptions, di: Option<T>, excludes: Excludes)
    returns (r: Option<T>)
    requires Sound(all) && c < |all| && excludes.Valid() && excludes.ids <= Positions(|all|) && c !in excludes.ids
    modifies excludes
    ensures excludes.Valid() && old(excludes.ids) <= excludes.ids <= Positions(|all|)
    ensures r.Some? ==> Source(all, c, look, di, old(excludes.ids), r.value)
    ensures r.None? ==> c in excludes.ids && Searched(all, c, look, old(excludes.ids), excludes.ids, Full(opt))
    ensures r.None? && opt.withDi ==> di.None?
    ensures forall line :: opt.withParent && NearestHolder(all, c, look, old(excludes.ids), line) ==>
              r == FoundAt(all, line[|line| - 1], look)
    ensures FoundAt(all, c, look).Some? ==> r == FoundAt(all, c, look)
    decreases Positions(|all|) - excludes.ids, 2
  {
    r := look(c, all[c].View());
    if r.Some? {
      assert Reachable(all, c, c) && FoundAt(all, c, look) == r;
      return;
    }
    ghost var before := excludes.ids;
    r := GetBeyond(all, c, look, opt, di, excludes);
    forall line | opt.withParent && NearestHolder(all, c, look, before, line)
      ensures r == FoundAt(all, line[|line| - 1], look)
    {
      NearestGoesOn(all, c, look, before, line);
    }
    if r.None? {
      assert FoundAt(all, c, look).None?;
      forall d | d in excludes.ids && d !in before
        ensures Visited(all, c, look, d, excludes.ids, Full(opt))
      {
        if d != c {
          assert Visited(all, c, look, d, excludes.ids, Full(opt));
        }
      }
    }
  }

  /** The part of `Get` after the context's own slot: the parent's side, then the container, then the children;
      a context already visited is not entered again. */
  method GetBeyond<T>(all: seq<GraphDataContext>, c: nat, look: Look<T>, opt: GetOptions, di: Option<T>, excludes: Excludes)
    returns (r: Option<T>)
    requires Sound(all) && c < |all| && excludes.Valid() && excludes.ids <= Positions(|all|) && c !in excludes.ids
    modifies excludes
    ensures excludes.Valid() && old(excludes.ids) + {c} <= excludes.ids <= Positions(|all|)
    ensures r.Some? ==> Source(all, c, look, di, old(excludes.ids) + {c}, r.value)
    ensures r.None? ==> Searched(all, c, look, old(excludes.ids) + {c}, excludes.ids, Full(opt))
    ensures r.None? && Full(opt) ==> forall e :: all[c].LinksTo(e) ==> e in excludes.ids
    ensures r.None? && opt.withDi ==> di.None?
    ensures Prefers(all, c, look, opt, di, old(excludes.ids) + {c}, r)
    decreases Positions(|all|) - excludes.ids, 1
  {
    excludes.Insert(c);
    r := GetInOrder(all, c, look, opt, di, excludes);
  }

  method GetInOrder<T>(all: seq<GraphDataContext>, c: nat, look: Look<T>, opt: GetOptions, di: Option<T>, excludes: Excludes)
    returns (r: Option<T>)
    requires Sound(all) && c < |all| && excludes.Valid() && excludes.ids <= Positions(|all|) && c in excludes.ids
    modifies excludes
    ensures excludes.Valid() && old(excludes.ids) <= excludes.ids <= Positions(|all|)
    ensures r.Some? ==> Source(all, c, look, di, old(excludes.ids), r.value)
    ensures r.None? ==> Searched(all, c, look, old(excludes.ids), excludes.ids, Full(opt))
    ensures r.None? && Full(opt) ==> forall e :: all[c].LinksTo(e) ==> e in excludes.ids
    ensures r.None? && opt.withDi ==> di.None?
    ensures Prefers(all, c, look, opt, di, old(excludes.ids), r)
    decreases Positions(|all|) - excludes.ids, 6
  {
    ghost var before := excludes.ids;
    r := None;
    if opt.withParent && all[c].parent.Some? {
      r := GetFromParent(all, c, look, opt, di, excludes);
      if r.Some? {
        return;
      }
    }
    r := GetAfterParent(all, c, look, opt, di, excludes, before);
  }

  /** Without anything above c: the container, then the children. */
  method GetAfterParent<T>(all: seq<GraphDataContext>, c: nat, look: Look<T>, opt: GetOptions, di: Option<T>, excludes: Excludes,
                           ghost before: set<nat>) returns (r: Option<T>)
    requires Sound(all) && c < |all| && excludes.Valid() && excludes.ids <= Positions(|all|) && c in before
    requires Searched(all, c, look, before, excludes.ids, Full(opt))
    requires opt.withParent && all[c].parent.Some? ==> all[c].parent.value in excludes.ids
    requires opt.withParent ==> FromNearest(all, c, look, before, None)
    requires all[c].parent.None? ==> excludes.ids == before
    modifies excludes
    ensures excludes.Valid() && old(excludes.ids) <= excludes.ids <= Positions(|all|)
    ensures r.Some? ==> Source(all, c, look, di, before, r.value)
    ensures r.None? ==> Searched(all, c, look, before, excludes.ids, Full(opt))
    ensures r.None? && Full(opt) ==> forall e :: all[c].LinksTo(e) ==> e in excludes.ids
    ensures r.None? && opt.withDi ==> di.None?
    ensures Prefers(all, c, look, opt, di, before, r)
    decreases Positions(|all|) - excludes.ids, 5
  {
    r := None;
    if opt.withDi && di.Some? {
      r := di;
    } else if opt.withChildren {
      r := GetFromChildren(all, c, look, Full(opt), di, excludes, before);
    }
    NoneAbove(all, c, look, before, r);
  }

  /** Nobody above c holds anything. */
  lemma NoneAbove<T>(all: seq<GraphDataContext>, c: nat, look: Look<T>, seen: set<nat>, r: Option<T>)
    requires c < |all|
    ensures FromNearest(all, c, look, seen, None) ==> FromNearest(all, c, look, seen, r)
  {
  }

  method GetFromParent<T>(all: seq<GraphDataContext>, c: nat, look: Look<T>, opt: GetOptions, di: Option<T>, excludes: Excludes)
    returns (r: Option<T>)
    requires Sound(all) && c < |all| && excludes.Valid() && c in excludes.ids && excludes.ids <= Positions(|all|)
    requires opt.withParent && all[c].parent.Some?
    modifies excludes
    ensures excludes.Valid() && old(excludes.ids) <= excludes.ids <= Positions(|all|)
    ensures r.Some? ==> Source(all, c, look, di, old(excludes.ids), r.value)
    ensures r.None? ==> all[c].parent.value in excludes.ids && Searched(all, c, look, old(excludes.ids), excludes.ids, Full(opt))
    ensures FromNearest(all, c, look, old(excludes.ids), r)
    decreases Positions(|all|) - excludes.ids, 3
  {
    var p := all[c].parent.value;
    assert all[c].LinksTo(p);
    ghost var before := excludes.ids;
    r := None;
    if p !in excludes.ids {
      r := GetFrom(all, p, look, GetOptions(true, false, opt.withChildren), di, excludes);
      if r.Some? {
        SourceExtends(all, c, p, look, di, before, before, r.value);
      } else {
        SearchExtends(all, c, p, look, before, before, excludes.ids, Full(opt));
      }
    }
  }

  /** The first i children were tried in vain, in a search that had visited `seen` before them. */
  ghost predicate Tried<T>(all: seq<GraphDataContext>, c: nat, look: Look<T>, full: bool, before: set<nat>, seen: set<nat>,
                           ids: set<nat>, i: nat)
    requires c < |all| && i <= |all[c].children|
    reads all
  {
    && seen <= ids <= Positions(|all|) && Searched(all, c, look, before, ids, full)
    && (forall j :: 0 <= j < i && all[c].children[j].Some? ==> all[c].children[j].value in ids)
    && ((forall j :: 0 <= j < i ==> all[c].children[j].None?) ==> ids == seen)
    && NoneFirst(all, c, look, seen, i)
  }

  method GetFromChildren<T>(all: seq<GraphDataContext>, c: nat, look: Look<T>, full: bool, di: Option<T>, excludes: Excludes,
                         ghost before: set<nat>) returns (r: Option<T>)
    requires Sound(all) && c < |all| && excludes.Valid() && excludes.ids <= Positions(|all|)
    requires c in before && Searched(all, c, look, before, excludes.ids, full)
    modifies excludes
    ensures excludes.Valid() && old(excludes.ids) <= excludes.ids <= Positions(|all|)
    ensures r.Some? ==> Source(all, c, look, di, before, r.value)
    ensures r.None? ==> Searched(all, c, look, before, excludes.ids, full)
    ensures r.None? ==> forall e :: Some(e) in all[c].children ==> e in excludes.ids
    ensures FromFirstChild(all, c, look, old(excludes.ids), r)
    decreases Positions(|all|) - excludes.ids, 4
  {
    ghost var seen := excludes.ids;
    r := None;
    for i := 0 to |all[c].children|
      invariant excludes.Valid() && Tried(all, c, look, full, before, seen, excludes.ids, i)
    {
      r := TryChild(all, c, i, look, full, di, excludes, before, seen);
      if r.Some? {
        return;
      }
    }
    r := None;
  }

  lemma TriedNext<T>(all: seq<GraphDataContext>, c: nat, look: Look<T>, full: bool, before: set<nat>, seen: set<nat>,
                     ids: set<nat>, after: set<nat>, i: nat)
    requires c < |all| && i < |all[c].children| && Tried(all, c, look, full, before, seen, ids, i)
    requires ids <= after <= Positions(|all|) && Searched(all, c, look, before, after, full)
    requires if all[c].children[i].Some? then all[c].children[i].value in after else after == ids
    requires !FirstChild(all, c, look, seen, i)
    ensures Tried(all, c, look, full, before, seen, after, i + 1)
  {
    forall j | FirstChild(all, c, look, seen, j)
      ensures i + 1 <= j
    {
      assert j != i;
    }
    if forall j :: 0 <= j < i + 1 ==> all[c].children[j].None? {
      assert all[c].children[i].None?;
    }
  }

  method TryChild<T>(all: seq<GraphDataContext>, c: nat, i: nat, look: Look<T>, full: bool, di: Option<T>, excludes: Excludes,
                     ghost before: set<nat>, ghost seen: set<nat>) returns (r: Option<T>)
    requires Sound(all) && c < |all| && i < |all[c].children| && excludes.Valid() && c in before
    requires Tried(all, c, look, full, before, seen, excludes.ids, i)
    modifies excludes
    ensures excludes.Valid() && old(excludes.ids) <= excludes.ids <= Positions(|all|)
    ensures r.Some? ==> Source(all, c, look, di, before, r.value) && FromFirstChild(all, c, look, seen, r)
    ensures r.None? ==> Tried(all, c, look, full, before, seen, excludes.ids, i + 1)
    decreases Positions(|all|) - excludes.ids, 3, 1
  {
    r := None;
    if all[c].children[i].Some? {
      var e := all[c].children[i].value;
      assert all[c].LinksTo(e);
      if e !in excludes.ids {
        ghost var ids := excludes.ids;
        r := GetFromChild(all, c, e, look, full, di, excludes, before);
        if r.Some? {
          OnlyThisChild(all, c, look, seen, i, r);
        } else {
          TriedNext(all, c, look, full, before, seen, ids, excludes.ids, i);
        }
        return;
      }
    }
    TriedNext(all, c, look, full, before, seen, excludes.ids, excludes.ids, i);
  }

  /** None of the first i children decides. */
  ghost predicate NoneFirst<T>(all: seq<GraphDataContext>, c: nat, look: Look<T>, seen: set<nat>, i: nat)
    requires c < |all|
    reads all
  {
    forall j :: FirstChild(all, c, look, seen, j) ==> i <= j
  }

  lemma OnlyThisChild<T>(all: seq<GraphDataContext>, c: nat, look: Look<T>, seen: set<nat>, i: nat, r: Option<T>)
    requires c < |all| && i < |all[c].children| && all[c].children[i].Some? && all[c].children[i].value < |all|
    requires NoneFirst(all, c, look, seen, i)
    requires FoundAt(all, all[c].children[i].value, look).Some? ==> r == FoundAt(all, all[c].children[i].value, look)
    ensures FromFirstChild(all, c, look, seen, r)
  {
    forall j | FirstChild(all, c, look, seen, j)
      ensures r == FoundAt(all, all[c].children[j].value, look)
    {
    }
  }

  method GetFromChild<T>(all: seq<GraphDataContext>, c: nat, e: nat, look: Look<T>, full: bool, di: Option<T>, excludes: Excludes,
                      ghost before: set<nat>) returns (r: Option<T>)
    requires Sound(all) && c < |all| && excludes.Valid() && excludes.ids <= Positions(|all|)
    requires c in before && Searched(all, c, look, before, excludes.ids, full) && all[c].LinksTo(e) && e !in excludes.ids
    modifies excludes
    ensures excludes.Valid() && old(excludes.ids) <= excludes.ids <= Positions(|all|)
    ensures r.Some? ==> Source(all, c, look, di, before, r.value)
    ensures r.None? ==> e in excludes.ids && Searched(all, c, look, before, excludes.ids, full)
    ensures FoundAt(all, e, look).Some? ==> r == FoundAt(all, e, look)
    decreases Positions(|all|) - excludes.ids, 3, 0
  {
    ghost var mid := excludes.ids;
    r := GetFrom(all, e, look, DEFAULT_OPTIONS, di, excludes);
    if r.Some? {
      SourceExtends(all, c, e, look, di, before, mid, r.value);
    } else {
      Weaken(all, e, look, mid, excludes.ids, full);
      SearchExtends(all, c, e, look, before, mid, excludes.ids, full);
    }
  }

  lemma Weaken<T>(all: seq<GraphDataContext>, c: nat, look: Look<T>, before: set<nat>, after: set<nat>, full: bool)
    requires Searched(all, c, look, before, after, true)
    ensures Searched(all, c, look, before, after, full)
  {
    forall d | d in after && d !in before
      ensures Visited(all, c, look, d, after, full)
    {
      assert Visited(all, c, look, d, after, true);
    }
  }

  /** Everything within reach of c lies in a set that the links do not leave. */
  lemma {:induction false} PathStaysInside(all: seq<GraphDataContext>, inside: set<nat>, p: seq<nat>)
    requires IsPath(LinkEdges(all), p) && p[0] in inside
    requires forall d, e :: d in inside && d < |all| && all[d].LinksTo(e) ==> e in inside
    ensures p[|p| - 1] in inside
  {
    assert (p[0], p[1]) in LinkEdges(all);
    if |p| > 2 {
      PathStaysInside(all, inside, p[1..]);
    }
  }

  lemma ReachedIsVisited<T>(all: seq<GraphDataContext>, c: nat, look: Look<T>, d: nat, inside: set<nat>)
    requires c < |all| && d < |all| && Reachable(all, c, d) && d != c
    requires c in inside && Searched(all, c, look, {c}, inside, true) && forall e :: all[c].LinksTo(e) ==> e in inside
    ensures FoundAt(all, d, look).None?
  {
    forall x, e | x in inside && x < |all| && all[x].LinksTo(e)
      ensures e in inside
    {
      assert x != c ==> Visited(all, c, look, x, inside, true);
    }
    var p :| PathBetween(LinkEdges(all), c, d, p);
    PathStaysInside(all, inside, p);
    assert Visited(all, c, look, d, inside, true);
  }

  ghost predicate NothingBeyond<T>(all: seq<GraphDataContext>, c: nat, look: Look<T>)
    reads all
  {
    forall d: nat :: d < |all| && Reachable(all, c, d) && d != c ==> FoundAt(all, d, look).None?
  }

  lemma SearchedInVain<T>(all: seq<GraphDataContext>, c: nat, look: Look<T>, inside: set<nat>)
    requires c < |all| && c in inside && Searched(all, c, look, {c}, inside, true)
    requires forall e :: all[c].LinksTo(e) ==> e in inside
    ensures NothingBeyond(all, c, look)
  {
    forall d: nat | d < |all| && Reachable(all, c, d) && d != c
      ensures FoundAt(all, d, look).None?
    {
      ReachedIsVisited(all, c, look, d, inside);
    }
  }

  /** The search beyond c with default options and nothing visited before.  It terminates on any links, cyclic
      ones included, and enters each context at most once (`Excludes`). */
  method SearchFrom<T>(all: seq<GraphDataContext>, c: nat, look: Look<T>, di: Option<T>)
    returns (r: Option<T>)
    requires Sound(all) && c < |all|
    ensures r.Some? ==> Source(all, c, look, di, {c}, r.value)
    ensures r.None? ==> di.None?
    ensures Prefers(all, c, look, DEFAULT_OPTIONS, di, {c}, r)
    ensures r.None? ==> NothingBeyond(all, c, look)
  {
    var excludes := new Excludes();
    excludes.Insert(c);
    r := SearchWith(all, c, look, di, excludes);
  }

  method SearchWith<T>(all: seq<GraphDataContext>, c: nat, look: Look<T>, di: Option<T>, excludes: Excludes)
    returns (r: Option<T>)
    requires Sound(all) && c < |all| && excludes.Valid() && excludes.ids == {c}
    modifies excludes
    ensures r.Some? ==> Source(all, c, look, di, {c}, r.value)
    ensures r.None? ==> di.None?
    ensures Prefers(all, c, look, DEFAULT_OPTIONS, di, {c}, r)
    ensures r.None? ==> NothingBeyond(all, c, look)
  {
    r := GetInOrder(all, c, look, DEFAULT_OPTIONS, di, excludes);
    if r.None? {
      SearchedInVain(all, c, look, excludes.ids);
    }
  }

  function ValueOf(k: Key): Look<Value> {
    (d: nat, s: Store) => Held(s, k)
  }

  /** Slot `slot` of context `ctx`. */
  datatype Location = Location(ctx: nat, slot: nat)

  function SlotOf(k: Key): Look<Location> {
    (d: nat, s: Store) => if k in s.table then Some(Location(d, s.table[k])) else None
  }

  /** `Get` with default options.  What the slot holds to which the index or the key leads comes first.  Otherwise
      it returns what another context within reach or the container holds under the key, and null exactly when
      none of them holds anything. */
  method Get(all: seq<GraphDataContext>, c: nat, k: Key, idx: int, di: map<Key, Value>) returns (r: Option<Value>)
    requires Sound(all) && c < |all|
    ensures Own(all[c].View(), k, idx).Some? ==> r == Own(all[c].View(), k, idx)
    ensures Own(all[c].View(), k, idx).None? && r.Some? ==>
              Source(all, c, ValueOf(k), if k in di then Some(di[k]) else None, {c}, r.value)
    ensures Own(all[c].View(), k, idx).None? ==>
              Prefers(all, c, ValueOf(k), DEFAULT_OPTIONS, if k in di then Some(di[k]) else None, {c}, r)
    ensures r.None? <==> && Own(all[c].View(), k, idx).None? && k !in di
                         && forall d: nat :: d < |all| && Reachable(all, c, d) && d != c ==> Held(all[d].View(), k).None?
  {
    r := Own(all[c].View(), k, idx);
    if r.Some? {
      return;
    }
    r := SearchFrom(all, c, ValueOf(k), if k in di then Some(di[k]) else None);
    if r.None? {
      forall d: nat | d < |all| && Reachable(all, c, d) && d != c
        ensures Held(all[d].View(), k).None?
      {
        assert FoundAt(all, d, ValueOf(k)).None?;
      }
    }
  }

  /** By the key, or by the index that a registration returned, the context's own slot is the key's. */
  lemma OwnIsHeld(s: Store, k: Key, idx: int)
    requires WellFormed(s) && (idx == -1 || (Backed(s, k) && idx == s.slots[s.table[k]].idx))
    ensures Own(s, k, idx) == Held(s, k)
  {
  }

  // ---------------------------------------------------------------- moving data

  /** The slot that a search for the key of a move may lead to: the context's own slot of that key, or else one
      of another context within reach. */
  ghost predicate Leads(all: seq<GraphDataContext>, c: nat, k: Key, at: Location)
    requires c < |all|
    reads all
  {
    && at.ctx < |all| && Reachable(all, c, at.ctx) && k in all[at.ctx].table && all[at.ctx].table[k] == at.slot
    && (k in all[c].table ==> at.ctx == c)
  }

  /** No context within reach has a slot for the key. */
  ghost predicate Lacks(all: seq<GraphDataContext>, c: nat, k: Key)
    reads all
  {
    forall d: nat :: d < |all| && Reachable(all, c, d) ==> k !in all[d].table
  }

  /** `GetValue`: the slot of the key, wherever it is within reach. */
  method GetValue(all: seq<GraphDataContext>, c: nat, k: Key) returns (r: Option<Location>)
    requires Sound(all) && c < |all|
    ensures r.Some? ==> Leads(all, c, k, r.value)
    ensures r.None? <==> Lacks(all, c, k)
    ensures k !in all[c].table ==> Prefers(all, c, SlotOf(k), DEFAULT_OPTIONS, None, {c}, r)
  {
    if k in all[c].table {
      assert Reachable(all, c, c);
      return Some(Location(c, all[c].table[k]));
    }
    r := SearchFrom(all, c, SlotOf(k), None);
    if r.None? {
      forall d: nat | d < |all| && Reachable(all, c, d)
        ensures k !in all[d].table
      {
        assert d != c ==> FoundAt(all, d, SlotOf(k)).None?;
      }
    }
  }

  ghost function Views(all: seq<GraphDataContext>): (r: seq<Store>)
    reads all
    ensures |r| == |all|
  {
    seq(|all|, d requires 0 <= d < |all| reads all => all[d].View())
  }

  /** The slot holds what the other held; the other is empty. */
  ghost function Moved(views: seq<Store>, from: Location, to: Location): seq<Store>
    requires IsSlotOf(views, from) && IsSlotOf(views, to)
  {
    var x := views[from.ctx].slots[from.slot];
    var copied := views[to.ctx := Apply(views[to.ctx], OverwriteOp(to.slot, x.val, x.sval))];
    copied[from.ctx := Apply(copied[from.ctx], OverwriteOp(from.slot, None, None))]
  }

  ghost predicate IsSlotOf(views: seq<Store>, at: Location) {
    at.ctx < |views| && at.slot < |views[at.ctx].slots|
  }

  ghost predicate Distinct(all: seq<GraphDataContext>) {
    forall i, j :: 0 <= i < j < |all| ==> all[i] != all[j]
  }

  method OverwriteAt(all: seq<GraphDataContext>, at: Location, val: Option<Value>, sval: Option<Value>)
    requires Sound(all) && Distinct(all) && IsSlotOf(Views(all), at)
    modifies all
    ensures Sound(all)
    ensures Views(all) == old(Views(all))[at.ctx := Apply(old(Views(all))[at.ctx], OverwriteOp(at.slot, val, sval))]
  {
    assert Views(all)[at.ctx] == all[at.ctx].View();
    all[at.ctx].Overwrite(at.slot, val, sval);
    forall d | 0 <= d < |all| && d != at.ctx
      ensures all[d].View() == old(all[d].View())
    {
      assert all[d] != all[at.ctx];
    }
    forall c: nat, d: nat | c < |all| && all[c].LinksTo(d)
      ensures d < |all|
    {
      assert old(all[c].LinksTo(d));
    }
  }

  lemma SlotStays(views: seq<Store>, to: Location, val: Option<Value>, sval: Option<Value>, at: Location)
    requires IsSlotOf(views, to) && IsSlotOf(views, at)
    ensures IsSlotOf(views[to.ctx := Apply(views[to.ctx], OverwriteOp(to.slot, val, sval))], at)
  {
  }

  method MoveSlot(all: seq<GraphDataContext>, from: Location, to: Location)
    requires Sound(all) && Distinct(all) && IsSlotOf(Views(all), from) && IsSlotOf(Views(all), to)
    modifies all
    ensures Sound(all) && Views(all) == Moved(old(Views(all)), from, to)
  {
    var slot := all[from.ctx].slots[from.slot];
    ghost var views := Views(all);
    assert slot == views[from.ctx].slots[from.slot];
    OverwriteAt(all, to, slot.val, slot.sval);
    ghost var copied := views[to.ctx := Apply(views[to.ctx], OverwriteOp(to.slot, slot.val, slot.sval))];
    assert Views(all) == copied;
    SlotStays(views, to, slot.val, slot.sval, from);
    OverwriteAt(all, from, None, None);
    assert Views(all) == copied[from.ctx := Apply(copied[from.ctx], OverwriteOp(from.slot, None, None))];
  }

  lemma LeadsToSlot(all: seq<GraphDataContext>, c: nat, k: Key, at: Location)
    requires Sound(all) && c < |all| && Leads(all, c, k, at)
    ensures IsSlotOf(Views(all), at)
  {
    assert WellFormed(all[at.ctx].View()) && Views(all)[at.ctx] == all[at.ctx].View();
  }

  /** Both searches of a move, before anything changes. */
  method FindBoth(all: seq<GraphDataContext>, c: nat, from: Key, to: Key) returns (x: Option<Location>, y: Option<Location>)
    requires Sound(all) && c < |all|
    ensures x.Some? <==> !Lacks(all, c, from)
    ensures y.Some? <==> !Lacks(all, c, to)
    ensures x.Some? ==> Leads(all, c, from, x.value) && IsSlotOf(Views(all), x.value)
    ensures y.Some? ==> Leads(all, c, to, y.value) && IsSlotOf(Views(all), y.value)
  {
    x := GetValue(all, c, from);
    y := GetValue(all, c, to);
    if x.Some? {
      LeadsToSlot(all, c, from, x.value);
    }
    if y.Some? {
      LeadsToSlot(all, c, to, y.value);
    }
  }

  /** `Move`: -1 when no context within reach has a slot for one of the keys; otherwise the value goes from one
      slot to the other. */
  method Move(all: seq<GraphDataContext>, c: nat, from: Key, to: Key) returns (rc: int, ghost src: Location, ghost dst: Location)
    requires Sound(all) && Distinct(all) && c < |all|
    modifies all
    ensures Sound(all)
    ensures rc == if old(Lacks(all, c, from)) || old(Lacks(all, c, to)) then -1 else 0
    ensures rc == -1 ==> Views(all) == old(Views(all))
    ensures rc == 0 ==> old(Leads(all, c, from, src)) && old(Leads(all, c, to, dst))
    ensures rc == 0 ==>
              && IsSlotOf(old(Views(all)), src) && IsSlotOf(old(Views(all)), dst)
              && Views(all) == Moved(old(Views(all)), src, dst)
  {
    src, dst := Location(0, 0), Location(0, 0);
    var x, y := FindBoth(all, c, from, to);
    if x.None? || y.None? {
      return -1, src, dst;
    }
    src, dst := x.value, y.value;
    MoveSlot(all, x.value, y.value);
    rc := 0;
  }

  /** A move hands the value over, within one context or across two, and leaves every other slot alone.  To the
      same slot it loses the value. */
  lemma MovedIs(views: seq<Store>, from: Location, to: Location, at: Location)
    requires IsSlotOf(views, from) && IsSlotOf(views, to) && IsSlotOf(views, at)
    ensures var after := Moved(views, from, to);
            && IsSlotOf(after, at) && after[at.ctx].table == views[at.ctx].table && after[at.ctx].cells == views[at.ctx].cells
            && var x, y := views[from.ctx].slots[from.slot], after[at.ctx].slots[at.slot];
               && (at == from ==> y.val == None && y.sval == None)
               && (at == to && at != from ==> y.val == x.val && y.sval == x.sval)
               && (at != from && at != to ==> y == views[at.ctx].slots[at.slot])
  {
  }
}
