/** Parameter objects and their chain of parents.  Objects are named by their position in `all`. */
module ParamsChain {
  import opened Options

  type Value(==, 0, !new)

  type Parents = seq<Option<nat>>

  /** `walk` is what following parents from c visits first. */
  ghost predicate IsWalk(parents: Parents, c: nat, walk: seq<nat>) {
    && walk != [] && walk[0] == c
    && (forall i :: 0 <= i < |walk| ==> walk[i] < |parents|)
    && (forall i :: 0 <= i < |walk| - 1 ==> parents[walk[i]] == Some(walk[i + 1]))
  }

  /** `chain` is all that following parents from c visits; it ends at an object without a parent. */
  ghost predicate IsChain(parents: Parents, c: nat, chain: seq<nat>) {
    IsWalk(parents, c, chain) && parents[chain[|chain| - 1]] == None
  }

  /** A look-up stops at the end of the walk: the name is there, or no parent.  The chain behind may be cyclic. */
  ghost predicate Answers(parents: Parents, tables: seq<map<string, Value>>, c: nat, walk: seq<nat>, name: string) {
    && IsWalk(parents, c, walk) && |tables| == |parents|
    && (parents[walk[|walk| - 1]] == None || name in tables[walk[|walk| - 1]])
  }

  /** `SetParent(p)` stops on the walk: there is nothing to attach, p is met, or an object has no parent. */
  ghost predicate Settles(parents: Parents, c: nat, walk: seq<nat>, p: Option<nat>) {
    && IsWalk(parents, c, walk)
    && (p.None? || p.value in walk || parents[walk[|walk| - 1]] == None || parents[walk[|walk| - 1]] == p)
  }

  /** Look-ups from c come to an end. */
  ghost predicate Finite(parents: Parents, c: nat) {
    exists chain :: IsChain(parents, c, chain)
  }

  /** `Get` along a chain: the nearest object that has the name. */
  function Find(tables: seq<map<string, Value>>, chain: seq<nat>, name: string): Option<Value> {
    if chain == [] then None
    else if chain[0] < |tables| && name in tables[chain[0]] then Some(tables[chain[0]][name])
    else Find(tables, chain[1..], name)
  }

  /** The i-th object of the chain is the first that has the name. */
  ghost predicate NearestWith(tables: seq<map<string, Value>>, chain: seq<nat>, name: string, i: int) {
    && 0 <= i < |chain| && chain[i] < |tables| && name in tables[chain[i]]
    && forall j :: 0 <= j < i ==> !(chain[j] < |tables| && name in tables[chain[j]])
  }

  lemma {:induction false} FindIsNearest(tables: seq<map<string, Value>>, chain: seq<nat>, name: string)
    ensures forall i :: NearestWith(tables, chain, name, i) ==> Find(tables, chain, name) == Some(tables[chain[i]][name])
    ensures Find(tables, chain, name).Some? <==> exists i :: 0 <= i < |chain| && chain[i] < |tables| && name in tables[chain[i]]
  {
    if chain != [] {
      FindIsNearest(tables, chain[1..], name);
      forall i | 0 < i && NearestWith(tables, chain, name, i)
        ensures NearestWith(tables, chain[1..], name, i - 1)
      {
        assert forall j :: 0 <= j < i - 1 ==> chain[1..][j] == chain[j + 1];
      }
      assert forall i :: 0 < i < |chain| ==> chain[i] == chain[1..][i - 1];
    }
  }

  /** What `SetParent(p)` on the first object of `chain` leaves behind. */
  function Attach(parents: Parents, chain: seq<nat>, p: Option<nat>): Parents
    requires chain != [] && forall i :: 0 <= i < |chain| ==> chain[i] < |parents|
  {
    if p.None? then parents[chain[0] := None]
    else if p.value in chain then parents
    else parents[chain[|chain| - 1] := p]
  }

  // ---------------------------------------------------------------- the methods

  class Params {
    var table: map<string, Value>
    var parent: Option<nat>

    constructor ()
      ensures table == map[] && parent == None
    {
      table, parent := map[], None;
    }

    method Put(name: string, v: Value)
      modifies this`table
      ensures table == old(table)[name := v]
    {
      table := table[name := v];
    }
  }

  ghost predicate Distinct(all: seq<Params>) {
    forall i, j :: 0 <= i < j < |all| ==> all[i] != all[j]
  }

  ghost function ParentsOf(all: seq<Params>): Parents
    reads all
  {
    seq(|all|, i requires 0 <= i < |all| reads all => all[i].parent)
  }

  ghost function TablesOf(all: seq<Params>): seq<map<string, Value>>
    reads all
  {
    seq(|all|, i requires 0 <= i < |all| reads all => all[i].table)
  }

  lemma WalkTail(parents: Parents, c: nat, walk: seq<nat>)
    requires IsWalk(parents, c, walk) && |walk| > 1
    ensures parents[c] == Some(walk[1]) && IsWalk(parents, walk[1], walk[1..])
  {
  }

  lemma ChainTail(parents: Parents, c: nat, chain: seq<nat>)
    requires IsChain(parents, c, chain) && |chain| > 1
    ensures parents[c] == Some(chain[1]) && IsChain(parents, chain[1], chain[1..])
  {
  }

  /** `SetParent`.  The walk exists exactly when the recursion comes to an end, which it does on every chain that
      ends (`ChainSettles`) and on a cyclic one that holds p. */
  method SetParent(all: seq<Params>, c: nat, p: Option<nat>, ghost walk: seq<nat>)
    requires Distinct(all) && Settles(ParentsOf(all), c, walk, p)
    modifies set i | 0 <= i < |all| :: all[i]`parent
    ensures ParentsOf(all) == Attach(old(ParentsOf(all)), walk, p)
    decreases |walk|
  {
    ghost var parents := ParentsOf(all);
    assert parents[c] == all[c].parent;
    if p.None? {
      all[c].parent := None;
      return;
    }
    if p.value == c {
      return;
    }
    assert |walk| > 1 ==> parents[walk[0]] == Some(walk[1]);
    if all[c].parent.None? {
      all[c].parent := p;
      assert walk == [c];
      assert ParentsOf(all) == parents[c := p];
    } else if all[c].parent != p {
      WalkTail(parents, c, walk);
      SetParent(all, all[c].parent.value, p, walk[1..]);
    }
  }

  /** `Get`.  The walk exists exactly when the look-up comes to an end. */
  method Get(all: seq<Params>, c: nat, name: string, ghost walk: seq<nat>) returns (r: Option<Value>)
    requires Answers(ParentsOf(all), TablesOf(all), c, walk, name)
    ensures r == Find(TablesOf(all), walk, name)
    ensures forall i :: NearestWith(TablesOf(all), walk, name, i) ==> r == Some(TablesOf(all)[walk[i]][name])
    ensures r.None? <==> forall i :: 0 <= i < |walk| ==> name !in TablesOf(all)[walk[i]]
    decreases |walk|
  {
    assert TablesOf(all)[c] == all[c].table && ParentsOf(all)[c] == all[c].parent;
    FindIsNearest(TablesOf(all), walk, name);
    if name in all[c].table {
      return Some(all[c].table[name]);
    }
    if all[c].parent.Some? {
      WalkTail(ParentsOf(all), c, walk);
      r := Get(all, all[c].parent.value, name, walk[1..]);
    } else {
      r := None;
    }
  }

  method Contains(all: seq<Params>, c: nat, name: string, ghost walk: seq<nat>) returns (r: bool)
    requires Answers(ParentsOf(all), TablesOf(all), c, walk, name)
    ensures r <==> Find(TablesOf(all), walk, name).Some?
    ensures r <==> exists i :: 0 <= i < |walk| && name in TablesOf(all)[walk[i]]
    decreases |walk|
  {
    assert TablesOf(all)[c] == all[c].table && ParentsOf(all)[c] == all[c].parent;
    FindIsNearest(TablesOf(all), walk, name);
    if name in all[c].table {
      return true;
    }
    if all[c].parent.Some? {
      WalkTail(ParentsOf(all), c, walk);
      r := Contains(all, all[c].parent.value, name, walk[1..]);
    } else {
      r := false;
    }
  }

  /** Every chain that ends answers every look-up and settles every `SetParent`. */
  lemma ChainAnswers(parents: Parents, tables: seq<map<string, Value>>, c: nat, chain: seq<nat>, name: string, p: Option<nat>)
    requires IsChain(parents, c, chain) && |tables| == |parents|
    ensures Answers(parents, tables, c, chain, name) && Settles(parents, c, chain, p)
  {
  }

  /** The walk from c, n steps long. */
  ghost predicate Goes(parents: Parents, c: nat, n: nat)
    decreases n
  {
    c < |parents| && (n == 0 || (parents[c].Some? && Goes(parents, parents[c].value, n - 1)))
  }

  /** A look-up ends exactly if its walk ends or meets the name: when no walk answers, the walk goes on past any
      length, and the name is on none of its objects. */
  lemma {:induction false} UnansweredGoesOn(parents: Parents, tables: seq<map<string, Value>>, c: nat, name: string, n: nat)
    requires c < |parents| == |tables| && (forall i :: 0 <= i < |parents| && parents[i].Some? ==> parents[i].value < |parents|)
    requires forall walk :: !Answers(parents, tables, c, walk, name)
    ensures name !in tables[c] && Goes(parents, c, n)
    decreases n
  {
    assert !Answers(parents, tables, c, [c], name);
    if n > 0 {
      var d := parents[c].value;
      forall walk
        ensures !Answers(parents, tables, d, walk, name)
      {
        if Answers(parents, tables, d, walk, name) {
          assert Answers(parents, tables, c, [c] + walk, name);
        }
      }
      UnansweredGoesOn(parents, tables, d, name, n - 1);
    }
  }

  // ---------------------------------------------------------------- what SetParent does to chains

  lemma {:induction false} ChainIsUnique(parents: Parents, c: nat, a: seq<nat>, b: seq<nat>)
    requires IsChain(parents, c, a) && IsChain(parents, c, b)
    ensures a == b
    decreases |a|
  {
    assert |a| > 1 ==> parents[a[0]] == Some(a[1]);
    assert |b| > 1 ==> parents[b[0]] == Some(b[1]);
    if |a| > 1 {
      ChainTail(parents, c, a);
      ChainTail(parents, c, b);
      ChainIsUnique(parents, a[1], a[1..], b[1..]);
      assert a == [a[0]] + a[1..] && b == [b[0]] + b[1..];
    }
  }

  lemma {:induction false} ChainFrom(parents: Parents, c: nat, chain: seq<nat>, i: nat)
    requires IsChain(parents, c, chain) && i < |chain|
    ensures IsChain(parents, chain[i], chain[i..])
  {
  }

  /** A chain never meets an object twice. */
  lemma ChainIsDistinct(parents: Parents, c: nat, chain: seq<nat>, i: nat, j: nat)
    requires IsChain(parents, c, chain) && i < j < |chain|
    ensures chain[i] != chain[j]
  {
    ChainFrom(parents, c, chain, i);
    ChainFrom(parents, c, chain, j);
    if chain[i] == chain[j] {
      ChainIsUnique(parents, chain[i], chain[i..], chain[j..]);
    }
  }

  function Last(chain: seq<nat>): nat
    requires chain != []
  {
    chain[|chain| - 1]
  }

  /** Attaching p's chain below the last object of a chain: the two follow each other. */
  lemma Joined(parents: Parents, d: nat, chain: seq<nat>, p: nat, ps: seq<nat>)
    requires IsChain(parents, d, chain) && IsChain(parents, p, ps) && Last(chain) !in ps
    ensures IsChain(parents[Last(chain) := Some(p)], d, chain + ps)
  {
    var next, whole := parents[Last(chain) := Some(p)], chain + ps;
    forall i | 0 <= i < |whole| - 1
      ensures next[whole[i]] == Some(whole[i + 1])
    {
      if i < |chain| - 1 {
        ChainIsDistinct(parents, d, chain, i, |chain| - 1);
      } else if i >= |chain| {
        assert whole[i] == ps[i - |chain|] && whole[i + 1] == ps[i + 1 - |chain|];
      }
    }
    assert whole[|whole| - 1] == ps[|ps| - 1];
  }

  /** Each object of `loop` has the next one, cyclically, as parent. */
  ghost predicate IsLoop(parents: Parents, loop: seq<nat>) {
    loop != [] && forall i :: 0 <= i < |loop| ==> loop[i] < |parents| && parents[loop[i]] == Some(After(loop, i))
  }

  function After(loop: seq<nat>, i: nat): nat
    requires i < |loop|
  {
    if i + 1 == |loop| then loop[0] else loop[i + 1]
  }

  /** An object on a loop has no end. */
  lemma {:induction false} LoopHasNoEnd(parents: Parents, loop: seq<nat>, c: nat, chain: seq<nat>)
    requires IsLoop(parents, loop) && c in loop && IsChain(parents, c, chain)
    ensures false
    decreases |chain|
  {
    var i :| 0 <= i < |loop| && loop[i] == c;
    ChainTail(parents, c, chain);
    LoopHasNoEnd(parents, loop, chain[1], chain[1..]);
  }

  lemma {:induction false} LeadsToLoop(parents: Parents, loop: seq<nat>, way: seq<nat>, chain: seq<nat>)
    requires IsLoop(parents, loop) && |way| > 0 && Last(way) in loop && IsChain(parents, way[0], chain)
    requires forall i :: 0 <= i < |way| - 1 ==> way[i] < |parents| && parents[way[i]] == Some(way[i + 1])
    ensures false
    decreases |way|
  {
    if |way| == 1 {
      LoopHasNoEnd(parents, loop, way[0], chain);
    } else {
      assert parents[way[0]] == Some(way[1]);
      ChainTail(parents, way[0], chain);
      LeadsToLoop(parents, loop, way[1..], chain[1..]);
    }
  }

  /** When p's chain leads back to the last object of the receiver's chain, attaching p closes a loop. */
  lemma AttachCloses(parents: Parents, c: nat, chain: seq<nat>, p: nat, ps: seq<nat>)
    requires IsChain(parents, c, chain) && IsChain(parents, p, ps) && Last(chain) in ps
    ensures !Finite(parents[Last(chain) := Some(p)], c)
  {
    var next := parents[Last(chain) := Some(p)];
    SameEnd(parents, Last(chain), p, ps);
    ClosedLoop(parents, p, ps);
    forall i | 0 <= i < |chain| - 1
      ensures next[chain[i]] == Some(chain[i + 1])
    {
      ChainIsDistinct(parents, c, chain, i, |chain| - 1);
    }
    forall end | IsChain(next, c, end)
      ensures false
    {
      LeadsToLoop(next, ps, chain, end);
    }
  }

  lemma SameEnd(parents: Parents, root: nat, p: nat, ps: seq<nat>)
    requires IsChain(parents, p, ps) && root in ps && root < |parents| && parents[root] == None
    ensures Last(ps) == root
  {
    var k :| 0 <= k < |ps| && ps[k] == root;
    ChainFrom(parents, p, ps, k);
    ChainIsUnique(parents, root, ps[k..], [root]);
  }

  /** Giving the last object of a chain its first as parent makes a loop. */
  lemma ClosedLoop(parents: Parents, p: nat, ps: seq<nat>)
    requires IsChain(parents, p, ps)
    ensures IsLoop(parents[Last(ps) := Some(p)], ps)
  {
    forall i | 0 <= i < |ps|
      ensures parents[Last(ps) := Some(p)][ps[i]] == Some(After(ps, i))
    {
      if i < |ps| - 1 {
        ChainIsDistinct(parents, p, ps, i, |ps| - 1);
      }
    }
  }

  /** `SetParent(p)` keeps look-ups finite exactly unless p is new to the receiver's chain and p's own chain
      leads back to its last object. */
  lemma SetParentIsSafeIff(parents: Parents, c: nat, chain: seq<nat>, p: nat, ps: seq<nat>)
    requires IsChain(parents, c, chain) && IsChain(parents, p, ps)
    ensures Finite(Attach(parents, chain, Some(p)), c) <==> p in chain || Last(chain) !in ps
  {
    if p in chain {
      assert IsChain(Attach(parents, chain, Some(p)), c, chain);
    } else if Last(chain) !in ps {
      Joined(parents, c, chain, p, ps);
    } else {
      AttachCloses(parents, c, chain, p, ps);
    }
  }

  /** A safe `SetParent` keeps every other chain finite too. */
  lemma OtherChainsStayFinite(parents: Parents, c: nat, chain: seq<nat>, p: nat, ps: seq<nat>, d: nat)
    requires IsChain(parents, c, chain) && IsChain(parents, p, ps) && (p in chain || Last(chain) !in ps) && Finite(parents, d)
    ensures Finite(Attach(parents, chain, Some(p)), d)
  {
    var ds :| IsChain(parents, d, ds);
    if p !in chain {
      var next := Attach(parents, chain, Some(p));
      if Last(ds) == Last(chain) {
        Joined(parents, d, ds, p, ps);
      } else {
        forall i | 0 <= i < |ds|
          ensures ds[i] != Last(chain)
        {
          assert i < |ds| - 1 ==> parents[ds[i]] == Some(ds[i + 1]);
        }
        assert IsChain(next, d, ds);
      }
    }
  }

  lemma {:induction false} FindAppend(tables: seq<map<string, Value>>, a: seq<nat>, b: seq<nat>, name: string)
    ensures Find(tables, a + b, name) == if Find(tables, a, name).Some? then Find(tables, a, name) else Find(tables, b, name)
  {
    if a == [] {
      assert a + b == b;
    } else {
      assert (a + b)[1..] == a[1..] + b;
      FindAppend(tables, a[1..], b, name);
    }
  }

  /** After a safe `SetParent(p)` a name means what it meant before, or else what it means to p; `Contains`
      agrees; and a second `SetParent(p)` changes nothing. */
  lemma SetParentInherits(parents: Parents, tables: seq<map<string, Value>>, c: nat, chain: seq<nat>, p: nat, ps: seq<nat>, name: string)
    returns (after: seq<nat>)
    requires IsChain(parents, c, chain) && IsChain(parents, p, ps) && (p in chain || Last(chain) !in ps)
    ensures var next := Attach(parents, chain, Some(p));
            && IsChain(next, c, after)
            && Find(tables, after, name) ==
               (if Find(tables, chain, name).Some? then Find(tables, chain, name) else Find(tables, ps, name))
            && Attach(next, after, Some(p)) == next
  {
    if p in chain {
      after := chain;
      var k :| 0 <= k < |chain| && chain[k] == p;
      ChainFrom(parents, c, chain, k);
      ChainIsUnique(parents, p, chain[k..], ps);
      assert chain == chain[..k] + ps;
      FindAppend(tables, chain[..k], ps, name);
    } else {
      after := chain + ps;
      Joined(parents, c, chain, p, ps);
      FindAppend(tables, chain, ps, name);
      assert after[|chain|] == p;
    }
  }

  /** Two objects, each the other's parent: a look-up of a missing name never ends. */
  lemma MutualParentsLoop()
    ensures var parents: Parents := [Some(1), None];
            IsChain(parents, 1, [1]) && IsChain(parents, 0, [0, 1]) && !Finite(Attach(parents, [1], Some(0)), 1)
  {
    var parents: Parents := [Some(1), None];
    AttachCloses(parents, 1, [1], 0, [0, 1]);
  }
}
