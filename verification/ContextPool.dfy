/** The pools of cluster contexts: acquiring for a top-level execution or for a subgraph vertex, release closures,
    and the recursive release.  Contexts, data contexts and vertices are named by numbers. */
module ContextPool {
  import opened Options

  type Id = nat

  /** Where a cluster context is.  `Armed(d)`: in use, to be released by the closure of data context d.
      `Posted`: its release is queued at the reset worker.  `HeldBy(v)`: it runs the subgraph of vertex v. */
  datatype Place = Pooled | Armed(d: Id) | Posted | HeldBy(v: Id)

  type Places = seq<Place>

  /** The cluster context that a vertex belongs to. */
  type Owner = Id -> Id

  /** Entry i is x; contexts are numbered as they are made, so i may be the next number. */
  function Put<T>(s: seq<T>, i: nat, x: T): (r: seq<T>)
    requires i <= |s|
    ensures |r| == (if i < |s| then |s| else |s| + 1) && r[i] == x
    ensures forall j :: 0 <= j < |s| && j != i ==> r[j] == s[j]
  {
    if i < |s| then s[i := x] else s + [x]
  }

  // ---------------------------------------------------------------- the lists agree with the places

  predicate InPool(home: seq<string>, pool: map<string, seq<Id>>, c: Id)
    requires c < |home|
  {
    home[c] in pool && c in pool[home[c]]
  }

  /** Each pool lists exactly the pooled contexts of its cluster, each once. */
  ghost predicate PoolSound(home: seq<string>, pool: map<string, seq<Id>>, place: Places) {
    && |home| == |place|
    && (forall k, i :: k in pool && 0 <= i < |pool[k]| ==> pool[k][i] < |home| && home[pool[k][i]] == k)
    && (forall k, i, j :: k in pool && 0 <= i < j < |pool[k]| ==> pool[k][i] != pool[k][j])
    && (forall c {:trigger InPool(home, pool, c)} :: 0 <= c < |home| ==> (InPool(home, pool, c) <==> place[c] == Pooled))
  }

  predicate IsArmed(closures: map<Id, Id>, place: Places, c: Id)
    requires c < |place| && place[c].Armed?
  {
    place[c].d in closures && closures[place[c].d] == c
  }

  ghost predicate ClosuresSound(closures: map<Id, Id>, place: Places) {
    && (forall d :: d in closures ==> closures[d] < |place| && place[closures[d]] == Armed(d))
    && (forall c {:trigger IsArmed(closures, place, c)} :: 0 <= c < |place| && place[c].Armed? ==> IsArmed(closures, place, c))
  }

  ghost predicate PostedSound(posted: seq<Id>, place: Places) {
    && (forall i :: 0 <= i < |posted| ==> posted[i] < |place| && place[posted[i]] == Posted)
    && (forall i, j :: 0 <= i < j < |posted| ==> posted[i] != posted[j])
    && (forall c {:trigger c in posted} :: 0 <= c < |place| && place[c] == Posted ==> c in posted)
  }

  /** The vertex that holds c holds it indeed, and belongs to a context in use that was acquired before c. */
  ghost predicate WellHeld(owner: Owner, subs: map<Id, Id>, place: Places, stamp: seq<nat>, c: Id)
    requires c < |place| && place[c].HeldBy?
  {
    var v := place[c].v;
    && v in subs && subs[v] == c
    && owner(v) < |place| && place[owner(v)] != Pooled && Age(stamp, owner(v)) < Age(stamp, c)
  }

  /** Vertices hold exactly the contexts placed with them. */
  ghost predicate SubsSound(owner: Owner, subs: map<Id, Id>, place: Places, stamp: seq<nat>) {
    && (forall v :: v in subs ==> subs[v] < |place| && place[subs[v]] == HeldBy(v))
    && (forall c {:trigger WellHeld(owner, subs, place, stamp, c)} :: 0 <= c < |place| && place[c].HeldBy? ==> WellHeld(owner, subs, place, stamp, c))
  }

  /** No vertex of c holds a context. */
  ghost predicate Bare(owner: Owner, subs: map<Id, Id>, c: Id) {
    forall v :: v in subs ==> owner(v) != c
  }

  /** Each context lists its vertices. */
  ghost predicate Listing(vertices: Id -> seq<Id>, owner: Owner) {
    forall c, v {:trigger v in vertices(c)} :: v in vertices(c) <==> owner(v) == c
  }

  lemma OwnVertex(vertices: Id -> seq<Id>, owner: Owner, c: Id, i: nat)
    requires Listing(vertices, owner) && i < |vertices(c)|
    ensures owner(vertices(c)[i]) == c
  {
    assert vertices(c)[i] in vertices(c);
  }

  // ---------------------------------------------------------------- chains of holders

  function Age(stamp: seq<nat>, x: Id): nat {
    if x < |stamp| then stamp[x] else 0
  }

  /** A chain of holders leads from x to c. */
  ghost predicate Under(owner: Owner, place: Places, stamp: seq<nat>, x: Id, c: Id)
    decreases Age(stamp, x)
  {
    && x < |place| && place[x].HeldBy? && Age(stamp, owner(place[x].v)) < Age(stamp, x)
    && (owner(place[x].v) == c || Under(owner, place, stamp, owner(place[x].v), c))
  }

  lemma {:induction false} UnderClimbs(owner: Owner, place: Places, stamp: seq<nat>, x: Id, c: Id)
    requires Under(owner, place, stamp, x, c)
    ensures Age(stamp, c) < Age(stamp, x)
    decreases Age(stamp, x)
  {
    if owner(place[x].v) != c {
      UnderClimbs(owner, place, stamp, owner(place[x].v), c);
    }
  }

  /** Some contexts went back to their pools, nothing else changed. */
  ghost predicate OnlyPooled(before: Places, after: Places) {
    |before| == |after| && forall x :: 0 <= x < |before| ==> after[x] == before[x] || after[x] == Pooled
  }

  lemma {:induction false} UnderBefore(owner: Owner, before: Places, after: Places, stamp: seq<nat>, x: Id, c: Id)
    requires OnlyPooled(before, after) && Under(owner, after, stamp, x, c)
    ensures Under(owner, before, stamp, x, c)
    decreases Age(stamp, x)
  {
    assert after[x] == before[x];
    if owner(after[x].v) != c {
      UnderBefore(owner, before, after, stamp, owner(after[x].v), c);
    }
  }

  lemma {:induction false} UnderTransitive(owner: Owner, place: Places, stamp: seq<nat>, x: Id, s: Id, c: Id)
    requires Under(owner, place, stamp, x, s) && Under(owner, place, stamp, s, c)
    ensures Under(owner, place, stamp, x, c)
    decreases Age(stamp, x)
  {
    if owner(place[x].v) != s {
      UnderTransitive(owner, place, stamp, owner(place[x].v), s, c);
    }
  }

  /** When no vertex of c holds anything any more, all that was under c is pooled. */
  lemma {:induction false} EmptiedBelow(owner: Owner, before: Places, after: Places, subs: map<Id, Id>, stamp: seq<nat>, x: Id, c: Id)
    requires SubsSound(owner, subs, after, stamp) && OnlyPooled(before, after) && Bare(owner, subs, c)
    requires Under(owner, before, stamp, x, c)
    ensures after[x] == Pooled
    decreases Age(stamp, x)
  {
    if after[x] != Pooled {
      assert WellHeld(owner, subs, after, stamp, x);
      if owner(before[x].v) != c {
        EmptiedBelow(owner, before, after, subs, stamp, owner(before[x].v), c);
      }
    }
  }

  lemma {:induction false} HoldsSomething(owner: Owner, subs: map<Id, Id>, place: Places, stamp: seq<nat>, x: Id, c: Id)
    requires SubsSound(owner, subs, place, stamp) && Under(owner, place, stamp, x, c)
    ensures !Bare(owner, subs, c)
    decreases Age(stamp, x)
  {
    assert WellHeld(owner, subs, place, stamp, x);
    if owner(place[x].v) != c {
      HoldsSomething(owner, subs, place, stamp, owner(place[x].v), c);
    }
  }

  /** Nothing is below a context whose vertices hold nothing. */
  lemma NothingUnder(owner: Owner, subs: map<Id, Id>, place: Places, stamp: seq<nat>, c: Id)
    requires SubsSound(owner, subs, place, stamp) && Bare(owner, subs, c)
    ensures forall x :: !Under(owner, place, stamp, x, c)
  {
    forall x
      ensures !Under(owner, place, stamp, x, c)
    {
      if Under(owner, place, stamp, x, c) {
        HoldsSomething(owner, subs, place, stamp, x, c);
      }
    }
  }

  /** What is below a context held by a vertex of c is below c, and c itself is not. */
  lemma Below(owner: Owner, before: Places, place: Places, stamp: seq<nat>, s: Id, v: Id)
    requires OnlyPooled(before, place) && s < |place| && place[s] == HeldBy(v) && Age(stamp, owner(v)) < Age(stamp, s)
    ensures Under(owner, before, stamp, s, owner(v)) && owner(v) != s && !Under(owner, place, stamp, owner(v), s)
    ensures forall x :: Under(owner, place, stamp, x, s) ==> Under(owner, before, stamp, x, owner(v))
  {
    assert before[s] == HeldBy(v);
    forall x | Under(owner, place, stamp, x, s)
      ensures Under(owner, before, stamp, x, owner(v)) && x != owner(v)
    {
      UnderBefore(owner, before, place, stamp, x, s);
      UnderTransitive(owner, before, stamp, x, s, owner(v));
      UnderClimbs(owner, place, stamp, x, s);
    }
  }

  // ---------------------------------------------------------------- frames

  lemma ClosuresKept(closures: map<Id, Id>, place: Places, c: Id, to: Place)
    requires ClosuresSound(closures, place) && c <= |place| && (c < |place| ==> !place[c].Armed?) && !to.Armed?
    ensures ClosuresSound(closures, Put(place, c, to))
  {
    var after := Put(place, c, to);
    forall x | 0 <= x < |after| && after[x].Armed?
      ensures IsArmed(closures, after, x)
    {
      assert IsArmed(closures, place, x);
    }
  }

  lemma PostedKept(posted: seq<Id>, place: Places, c: Id, to: Place)
    requires PostedSound(posted, place) && c <= |place| && (c < |place| ==> place[c] != Posted) && to != Posted
    ensures PostedSound(posted, Put(place, c, to))
  {
  }

  /** A context that is not held changes place. */
  lemma SubsFrame(owner: Owner, subs: map<Id, Id>, place: Places, stamp: seq<nat>, c: Id, to: Place)
    requires SubsSound(owner, subs, place, stamp) && c < |place| && !place[c].HeldBy? && !to.HeldBy?
    requires to == Pooled ==> Bare(owner, subs, c)
    ensures SubsSound(owner, subs, place[c := to], stamp)
  {
    var after := place[c := to];
    forall x | 0 <= x < |after| && after[x].HeldBy?
      ensures WellHeld(owner, subs, after, stamp, x)
    {
      assert WellHeld(owner, subs, place, stamp, x);
    }
  }

  lemma OwnerInUse(owner: Owner, subs: map<Id, Id>, place: Places, stamp: seq<nat>, v: Id)
    requires SubsSound(owner, subs, place, stamp) && v in subs
    ensures owner(v) < |place| && place[owner(v)] != Pooled
  {
    assert WellHeld(owner, subs, place, stamp, subs[v]);
  }

  /** Context c is pooled, or new. */
  predicate Spare(place: Places, c: Id) {
    c <= |place| && (c < |place| ==> place[c] == Pooled)
  }

  /** The context that the next call takes: the one that has been in the cluster's pool for longest, or a new one
      if the pool is empty. */
  function NextOf(home: seq<string>, pool: map<string, seq<Id>>, k: string): Id {
    if k in pool && pool[k] != [] then pool[k][0] else |home|
  }

  /** The pools after it. */
  function Dequeued(pool: map<string, seq<Id>>, k: string): map<string, seq<Id>> {
    if k in pool && pool[k] != [] then pool[k := pool[k][1..]] else pool
  }

  /** The vertices of such a context hold nothing. */
  lemma SpareIsBare(owner: Owner, subs: map<Id, Id>, place: Places, stamp: seq<nat>, c: Id)
    requires SubsSound(owner, subs, place, stamp) && Spare(place, c)
    ensures Bare(owner, subs, c)
  {
    forall v | v in subs
      ensures owner(v) != c
    {
      OwnerInUse(owner, subs, place, stamp, v);
    }
  }

  // ---------------------------------------------------------------- acquiring

  lemma TakeFirst(home: seq<string>, pool: map<string, seq<Id>>, place: Places, k: string, to: Place)
    requires PoolSound(home, pool, place) && k in pool && pool[k] != [] && to != Pooled
    ensures var c := pool[k][0];
            && c < |home| && home[c] == k && place[c] == Pooled
            && PoolSound(home, pool[k := pool[k][1..]], Put(place, c, to))
  {
    var c, next := pool[k][0], pool[k := pool[k][1..]];
    assert InPool(home, pool, c);
    assert pool[k] == [c] + pool[k][1..];
    forall x | 0 <= x < |home|
      ensures InPool(home, next, x) <==> Put(place, c, to)[x] == Pooled
    {
      assert InPool(home, pool, x) <==> place[x] == Pooled;
    }
  }

  lemma AddNew(home: seq<string>, pool: map<string, seq<Id>>, place: Places, k: string, to: Place)
    requires PoolSound(home, pool, place) && to != Pooled
    ensures PoolSound(home + [k], pool, Put(place, |home|, to))
  {
    var next := home + [k];
    forall x | 0 <= x < |next|
      ensures InPool(next, pool, x) <==> Put(place, |home|, to)[x] == Pooled
    {
      if x < |home| {
        assert InPool(home, pool, x) <==> place[x] == Pooled;
      }
    }
  }

  /** A context that is not in the pool goes to the pool of its cluster. */
  lemma EnqueueSound(home: seq<string>, pool: map<string, seq<Id>>, place: Places, c: Id)
    requires PoolSound(home, pool, place) && c < |home| && place[c] != Pooled
    ensures PoolSound(home, Enqueued(home, pool, c), place[c := Pooled])
  {
    assert !InPool(home, pool, c);
    forall x | 0 <= x < |home|
      ensures InPool(home, Enqueued(home, pool, c), x) <==> place[c := Pooled][x] == Pooled
    {
      assert InPool(home, pool, x) <==> place[x] == Pooled;
    }
  }

  lemma PrefillPool(home: seq<string>, pool: map<string, seq<Id>>, place: Places, k: string)
    requires PoolSound(home, pool, place)
    ensures PoolSound(home + [k], Enqueued(home + [k], pool, |home|), Put(place, |home|, Pooled))
  {
    AddNew(home, pool, place, k, Posted);
    EnqueueSound(home + [k], pool, Put(place, |home|, Posted), |home|);
    assert Put(place, |home|, Posted)[|home| := Pooled] == Put(place, |home|, Pooled);
  }

  function Enqueued(home: seq<string>, pool: map<string, seq<Id>>, c: Id): map<string, seq<Id>>
    requires c < |home|
  {
    pool[home[c] := (if home[c] in pool then pool[home[c]] else []) + [c]]
  }

  /** A pool is a queue: a returned context does not go before those that wait, so taking and returning commute while
      the pool is not empty; a context that returns to an empty pool is the next one that is taken. */
  lemma FirstInFirstOut(home: seq<string>, pool: map<string, seq<Id>>, c: Id)
    requires c < |home|
    ensures var k, next := home[c], Enqueued(home, pool, c);
            if k in pool && pool[k] != []
            then NextOf(home, next, k) == NextOf(home, pool, k)
                 && Dequeued(next, k) == Enqueued(home, Dequeued(pool, k), c)
            else NextOf(home, next, k) == c && NextOf(home, Dequeued(next, k), k) == |home|
  {
    var k, next := home[c], Enqueued(home, pool, c);
    if k in pool && pool[k] != [] {
      assert next[k][1..] == pool[k][1..] + [c];
    } else {
      assert next[k][1..] == [];
    }
  }

  lemma ArmClosures(closures: map<Id, Id>, place: Places, c: Id, d: Id)
    requires ClosuresSound(closures, place) && d !in closures && Spare(place, c)
    ensures ClosuresSound(closures[d := c], Put(place, c, Armed(d))) && |closures[d := c]| == |closures| + 1
  {
    var after := Put(place, c, Armed(d));
    forall x | 0 <= x < |after| && after[x].Armed?
      ensures IsArmed(closures[d := c], after, x)
    {
      assert x != c ==> IsArmed(closures, place, x);
    }
  }

  /** A spare context is taken, by a closure or in advance. */
  lemma TakenSubs(owner: Owner, subs: map<Id, Id>, place: Places, stamp: seq<nat>, c: Id, to: Place, clock: nat)
    requires SubsSound(owner, subs, place, stamp) && |stamp| == |place| && Spare(place, c) && !to.HeldBy?
    ensures SubsSound(owner, subs, Put(place, c, to), Put(stamp, c, clock))
  {
    SpareIsBare(owner, subs, place, stamp, c);
    var after := Put(place, c, to);
    forall x | 0 <= x < |after| && after[x].HeldBy?
      ensures WellHeld(owner, subs, after, Put(stamp, c, clock), x)
    {
      assert WellHeld(owner, subs, place, stamp, x);
    }
  }

  /** A spare context is taken by a vertex of a context in use. */
  lemma HeldSubs(owner: Owner, subs: map<Id, Id>, place: Places, stamp: seq<nat>, c: Id, v: Id, clock: nat)
    requires SubsSound(owner, subs, place, stamp) && |stamp| == |place| && Spare(place, c) && v !in subs
    requires owner(v) < |place| && place[owner(v)] != Pooled && Age(stamp, owner(v)) < clock
    ensures SubsSound(owner, subs[v := c], Put(place, c, HeldBy(v)), Put(stamp, c, clock))
  {
    SpareIsBare(owner, subs, place, stamp, c);
    var after := Put(place, c, HeldBy(v));
    forall x | 0 <= x < |after| && after[x].HeldBy?
      ensures WellHeld(owner, subs[v := c], after, Put(stamp, c, clock), x)
    {
      assert x != c ==> WellHeld(owner, subs, place, stamp, x);
    }
  }

  // ---------------------------------------------------------------- releasing

  /** The context armed on d is the one its closure releases. */
  lemma ArmedOn(closures: map<Id, Id>, place: Places, d: Id)
    requires ClosuresSound(closures, place)
    ensures forall x :: 0 <= x < |place| && place[x] == Armed(d) ==> d in closures && closures[d] == x
  {
    forall x | 0 <= x < |place| && place[x] == Armed(d)
      ensures d in closures && closures[d] == x
    {
      assert IsArmed(closures, place, x);
    }
  }

  lemma Rearmed(closures: map<Id, Id>, d: Id, c: Id)
    ensures (closures - {d})[d := c] == closures[d := c]
  {
  }

  lemma PoolUntouched(home: seq<string>, pool: map<string, seq<Id>>, place: Places, c: Id, to: Place)
    requires PoolSound(home, pool, place) && c < |place| && place[c] != Pooled && to != Pooled
    ensures PoolSound(home, pool, Put(place, c, to))
  {
    forall x | 0 <= x < |home|
      ensures InPool(home, pool, x) <==> Put(place, c, to)[x] == Pooled
    {
      assert InPool(home, pool, x) <==> place[x] == Pooled;
    }
  }

  lemma FireClosures(closures: map<Id, Id>, place: Places, d: Id)
    requires ClosuresSound(closures, place) && d in closures
    ensures ClosuresSound(closures - {d}, place[closures[d] := Posted]) && |closures - {d}| == |closures| - 1
  {
    var after := place[closures[d] := Posted];
    assert (closures - {d}).Keys == closures.Keys - {d};
    assert |closures - {d}| == |closures.Keys - {d}|;
    forall x | 0 <= x < |after| && after[x].Armed?
      ensures IsArmed(closures - {d}, after, x)
    {
      assert IsArmed(closures, place, x);
    }
  }

  lemma FirePosted(posted: seq<Id>, place: Places, c: Id)
    requires PostedSound(posted, place) && c < |place| && place[c].Armed?
    ensures PostedSound(posted + [c], place[c := Posted])
  {
    forall x | 0 <= x < |place| && place[c := Posted][x] == Posted
      ensures x in posted + [c]
    {
      assert x != c ==> x in posted;
    }
  }

  /** A vertex lets go of the context it holds. */
  lemma LetGo(owner: Owner, subs: map<Id, Id>, place: Places, stamp: seq<nat>, v: Id)
    requires SubsSound(owner, subs, place, stamp) && v in subs && Bare(owner, subs, subs[v])
    ensures SubsSound(owner, subs - {v}, place[subs[v] := Pooled], stamp)
  {
    var c := subs[v];
    var after := place[c := Pooled];
    forall x | 0 <= x < |after| && after[x].HeldBy?
      ensures WellHeld(owner, subs - {v}, after, stamp, x)
    {
      assert WellHeld(owner, subs, place, stamp, x);
      assert owner(place[x].v) != c;
    }
  }

  lemma PostedDone(posted: seq<Id>, place: Places)
    requires PostedSound(posted, place) && posted != []
    ensures PostedSound(posted[1..], place[posted[0] := Pooled])
  {
    forall c | 0 <= c < |place| && place[posted[0] := Pooled][c] == Posted
      ensures c in posted[1..]
    {
      assert c in posted && posted == [posted[0]] + posted[1..];
    }
  }

  /** The reset of one vertex of c, seen from the start of the reset of c. */
  lemma ComposedPlaces(owner: Owner, before: Places, place0: Places, place1: Places, stamp: seq<nat>, c: Id, v: Id, s: Id)
    requires |before| == |place1| && c < |before| && s < |before|
    requires OnlyPooled(before, place0) && place0[c] == before[c] != Pooled && place0[s] == HeldBy(v)
    requires forall x :: 0 <= x < |before| && place0[x] != before[x] ==> Under(owner, before, stamp, x, c)
    requires Under(owner, before, stamp, s, c) && c != s && !Under(owner, place0, stamp, c, s)
    requires forall x :: Under(owner, place0, stamp, x, s) ==> Under(owner, before, stamp, x, c)
    requires forall x :: 0 <= x < |before| ==> place1[x] == if Under(owner, place0, stamp, x, s) then Pooled else place0[x]
    ensures OnlyPooled(before, place1[s := Pooled]) && place1[s := Pooled][c] == before[c]
    ensures forall x :: 0 <= x < |before| && place1[s := Pooled][x] != before[x] ==> Under(owner, before, stamp, x, c)
  {
  }

  lemma {:induction false} NoneInUse(owner: Owner, closures: map<Id, Id>, posted: seq<Id>, subs: map<Id, Id>,
                                     place: Places, stamp: seq<nat>, c: Id)
    requires ClosuresSound(closures, place) && PostedSound(posted, place) && SubsSound(owner, subs, place, stamp)
    requires closures == map[] && posted == [] && c < |place|
    ensures place[c] == Pooled
    decreases Age(stamp, c)
  {
    assert place[c].Armed? ==> IsArmed(closures, place, c);
    assert c !in posted;
    if place[c].HeldBy? {
      assert WellHeld(owner, subs, place, stamp, c);
      NoneInUse(owner, closures, posted, subs, place, stamp, owner(place[c].v));
    }
  }

  // ---------------------------------------------------------------- the store

  class GraphStore {
    /** The vertices of each context, and the context of each vertex. */
    const vertices: Id -> seq<Id>
    const owner: Owner
    /** The cluster each context belongs to, and the context each subgraph vertex holds. */
    var home: seq<string>
    var subs: map<Id, Id>
    var pool: map<string, seq<Id>>
    var closures: map<Id, Id>
    var posted: seq<Id>
    var running: nat
    ghost var place: Places
    ghost var stamp: seq<nat>
    ghost var clock: nat
    ghost var acquired: nat
    ghost var fired: nat
    ghost var released: nat

    constructor (vertices: Id -> seq<Id>, owner: Owner)
      requires Listing(vertices, owner)
      ensures this.vertices == vertices && this.owner == owner
      ensures Valid() && home == [] && closures == map[] && posted == [] && running == acquired == 0
    {
      this.vertices, this.owner := vertices, owner;
      home, subs, pool, closures, posted, running := [], map[], map[], map[], [], 0;
      place, stamp, clock, acquired, fired, released := [], [], 0, 0, 0, 0;
    }

    /** Every context is in exactly one place, and the counters count. */
    ghost predicate Valid()
      reads this
    {
      Placed() && Counted()
    }

    ghost predicate Placed()
      reads this
    {
      && PoolSound(home, pool, place) && ClosuresSound(closures, place) && PostedSound(posted, place)
      && SubsSound(owner, subs, place, stamp) && Dated() && Listing(vertices, owner)
    }

    /** Each acquisition's closure is armed, or has fired, once; each fired release is queued or done. */
    ghost predicate Counted()
      reads this
    {
      acquired == fired + |closures| && fired == released + |posted| && running == acquired - released
    }

    ghost predicate Dated()
      reads this
    {
      |stamp| == |home| && forall c :: 0 <= c < |stamp| ==> stamp[c] < clock
    }

    /** `GetContext`: the longest pooled context of the cluster, or a new one; it goes to place `to`. */
    method GetContext(k: string, ghost to: Place) returns (c: Id)
      requires PoolSound(home, pool, place) && Dated() && to != Pooled
      modifies this`home, this`pool, this`place, this`stamp, this`clock
      ensures PoolSound(home, pool, place) && Dated() && Spare(old(place), c) && clock == old(clock) + 1
      ensures c == NextOf(old(home), old(pool), k) && pool == Dequeued(old(pool), k)
      ensures c == |old(home)| <==> k !in old(pool) || old(pool)[k] == []
      ensures home == Put(old(home), c, k) && place == Put(old(place), c, to) && stamp == Put(old(stamp), c, old(clock))
    {
      if k in pool && pool[k] != [] {
        c := pool[k][0];
        TakeFirst(home, pool, place, k, to);
        pool := pool[k := pool[k][1..]];
        assert home == Put(home, c, k);
      } else {
        c := |home|;
        AddNew(home, pool, place, k, to);
        home := home + [k];
      }
      place, stamp, clock := Put(place, c, to), Put(stamp, c, clock), clock + 1;
    }

    /** The pool of a cluster is filled in advance. */
    method Prefill(k: string) returns (c: Id)
      requires Placed()
      modifies this`home, this`pool, this`place, this`stamp, this`clock
      ensures Placed() && c == |old(place)| && place == Put(old(place), c, Pooled) && home == old(home) + [k]
    {
      c := |home|;
      PrefillPool(home, pool, place, k);
      ClosuresKept(closures, place, c, Pooled);
      PostedKept(posted, place, c, Pooled);
      TakenSubs(owner, subs, place, stamp, c, Pooled, clock);
      home := home + [k];
      pool := Enqueued(home, pool, c);
      place, stamp, clock := Put(place, c, Pooled), Put(stamp, c, clock), clock + 1;
    }

    /** `Execute` up to the start of the graph: without an executor, a data context or a cluster of that name it
        calls done with -1 and changes nothing.  Otherwise it acquires a context and arms its release on the data
        context; a closure armed there before fires now. */
    method Execute(hasExecutor: bool, data: Option<Id>, k: string, clusters: set<string>) returns (ctx: Option<Id>)
      requires Valid()
      modifies this
      ensures Valid() && (ctx.Some? <==> hasExecutor && data.Some? && k in clusters)
      ensures ctx.None? ==> unchanged(this)
      ensures ctx.Some? ==>
                && ctx.value < |home| && home[ctx.value] == k && closures == old(closures)[data.value := ctx.value]
                && Spare(old(place), ctx.value) && place[ctx.value] == Armed(data.value)
                && ctx.value == NextOf(old(home), old(pool), k) && pool == Dequeued(old(pool), k)
                && acquired == old(acquired) + 1 && running == old(running) + 1 && released == old(released)
                && fired == old(fired) + if data.value in old(closures) then 1 else 0
      ensures ctx.Some? ==> |old(place)| <= |place|
      ensures ctx.Some? ==> forall x :: 0 <= x < |old(place)| && x != ctx.value ==>
                place[x] == if old(place)[x] == Armed(data.value) then Posted else old(place)[x]
    {
      ctx := None;
      if !hasExecutor || data.None? || k !in clusters {
        return;
      }
      var c := Acquire(data.value, k);
      ctx := Some(c);
    }

    /** Firing only posts, so it commutes with the acquisition. */
    method Acquire(d: Id, k: string) returns (c: Id)
      requires Valid()
      modifies this
      ensures Valid() && c < |home| && home[c] == k && closures == old(closures)[d := c] && Spare(old(place), c)
      ensures c == NextOf(old(home), old(pool), k) && pool == Dequeued(old(pool), k)
      ensures |old(place)| <= |place| && place[c] == Armed(d)
      ensures forall x :: 0 <= x < |old(place)| && x != c ==>
                place[x] == if old(place)[x] == Armed(d) then Posted else old(place)[x]
      ensures acquired == old(acquired) + 1 && running == old(running) + 1 && released == old(released)
      ensures fired == old(fired) + if d in old(closures) then 1 else 0
    {
      ghost var before := closures;
      Destroy(d);
      c := Arm(d, k);
      Rearmed(before, d, c);
    }

    method Arm(d: Id, k: string) returns (c: Id)
      requires Valid() && d !in closures
      modifies this
      ensures Valid() && c < |home| && home[c] == k && closures == old(closures)[d := c] && Spare(old(place), c)
      ensures c == NextOf(old(home), old(pool), k) && pool == Dequeued(old(pool), k)
      ensures place == Put(old(place), c, Armed(d))
      ensures acquired == old(acquired) + 1 && running == old(running) + 1 && released == old(released) && fired == old(fired)
    {
      c := TakeAndArm(d, k);
      running := running + 1;
      acquired := acquired + 1;
    }

    method TakeAndArm(d: Id, k: string) returns (c: Id)
      requires Placed() && d !in closures
      modifies this`home, this`pool, this`place, this`stamp, this`clock, this`closures
      ensures Placed() && c < |home| && home[c] == k && closures == old(closures)[d := c] && Spare(old(place), c)
      ensures c == NextOf(old(home), old(pool), k) && pool == Dequeued(old(pool), k)
      ensures place == Put(old(place), c, Armed(d)) && |closures| == |old(closures)| + 1
    {
      ghost var before, age := place, stamp;
      c := GetContext(k, Armed(d));
      ArmClosures(closures, before, c, d);
      PostedKept(posted, before, c, Armed(d));
      TakenSubs(owner, subs, before, age, c, Armed(d), old(clock));
      closures := closures[d := c];
    }

    /** The closure of a data context, if armed, fires: when the data context is destroyed, or given another. */
    method Destroy(d: Id)
      requires Valid()
      modifies this`closures, this`posted, this`place, this`fired
      ensures Valid() && closures == old(closures) - {d} && |place| == |old(place)|
      ensures forall x :: 0 <= x < |place| ==> place[x] == if old(place)[x] == Armed(d) then Posted else old(place)[x]
      ensures fired == old(fired) + if d in old(closures) then 1 else 0
    {
      ArmedOn(closures, place, d);
      if d in closures {
        Fire(d);
      }
    }

    /** The release closure posts the context to the reset worker; it fires at most once, being gone afterwards. */
    method Fire(d: Id)
      requires Valid() && d in closures
      modifies this`closures, this`posted, this`place, this`fired
      ensures Valid() && closures == old(closures) - {d} && posted == old(posted) + [old(closures)[d]]
      ensures old(closures)[d] < |old(place)| && old(place)[old(closures)[d]] == Armed(d)
      ensures place == old(place)[old(closures)[d] := Posted] && fired == old(fired) + 1
    {
      Post(d);
      fired := fired + 1;
    }

    method Post(d: Id)
      requires Placed() && d in closures
      modifies this`closures, this`posted, this`place
      ensures Placed() && closures == old(closures) - {d} && |closures| == |old(closures)| - 1
      ensures old(closures)[d] < |old(place)| && old(place)[old(closures)[d]] == Armed(d)
      ensures posted == old(posted) + [old(closures)[d]] && place == old(place)[old(closures)[d] := Posted]
    {
      var c := closures[d];
      FireClosures(closures, place, d);
      FirePosted(posted, place, c);
      PoolUntouched(home, pool, place, c, Posted);
      SubsFrame(owner, subs, place, stamp, c, Posted);
      closures := closures - {d};
      posted := posted + [c];
      place := place[c := Posted];
    }

    /** `VertexContext::Execute`: a subgraph vertex acquires a context once and keeps it until its reset. */
    method AcquireSubgraph(v: Id, k: string) returns (c: Id)
      requires Placed() && owner(v) < |place| && place[owner(v)] != Pooled
      modifies this`home, this`subs, this`pool, this`place, this`stamp, this`clock
      ensures Placed() && v in subs && subs[v] == c && c < |place| && place[c] == HeldBy(v)
      ensures v in old(subs) ==> subs == old(subs) && place == old(place)
      ensures v !in old(subs) ==> c < |home| && home[c] == k && Spare(old(place), c) && place == Put(old(place), c, HeldBy(v))
    {
      if v in subs {
        return subs[v];
      }
      ghost var before, age := place, stamp;
      c := GetContext(k, HeldBy(v));
      HeldSubs(owner, subs, before, age, c, v, old(clock));
      ClosuresKept(closures, before, c, HeldBy(v));
      PostedKept(posted, before, c, HeldBy(v));
      subs := subs[v := c];
    }

    /** Only contexts below c went back to their pools, and only vertices of c or below let go. */
    ghost predicate ResetSoFar(c: Id, before: Places, held: map<Id, Id>)
      reads this
    {
      && Placed() && OnlyPooled(before, place) && c < |place| && place[c] == before[c] != Pooled
      && (forall x :: 0 <= x < |place| && place[x] != before[x] ==> Under(owner, before, stamp, x, c))
      && OnlyBelow(owner, before, stamp, c, held, subs)
    }

    /** `Reset` of a context: each of its vertices resets and releases the subgraph context it holds. */
    method ResetContext(c: Id)
      requires Placed() && c < |place| && place[c] != Pooled
      modifies this`pool, this`subs, this`place
      ensures Placed() && Bare(owner, subs, c) && OnlyPooled(old(place), place) && place[c] == old(place)[c]
      ensures forall x :: 0 <= x < |place| ==> place[x] == if Under(owner, old(place), stamp, x, c) then Pooled else old(place)[x]
      ensures OnlyBelow(owner, old(place), stamp, c, old(subs), subs)
      decreases clock - Age(stamp, c), 3
    {
      ghost var before, held := place, subs;
      ResetVertices(c, before, held);
      forall v | v in subs
        ensures owner(v) != c
      {
        assert v in vertices(c) <==> owner(v) == c;
        assert forall j :: 0 <= j < |vertices(c)| ==> vertices(c)[j] != v;
      }
      forall x | 0 <= x < |place|
        ensures place[x] == if Under(owner, before, stamp, x, c) then Pooled else before[x]
      {
        if Under(owner, before, stamp, x, c) {
          EmptiedBelow(owner, before, place, subs, stamp, x, c);
        }
      }
    }

    /** The first i vertices of c are reset. */
    ghost predicate ResetUpTo(c: Id, i: nat, before: Places, held: map<Id, Id>)
      reads this
    {
      i <= |vertices(c)| && ResetSoFar(c, before, held) && forall j :: 0 <= j < i ==> vertices(c)[j] !in subs
    }

    method ResetVertices(c: Id, ghost before: Places, ghost held: map<Id, Id>)
      requires ResetUpTo(c, 0, before, held)
      modifies this`pool, this`subs, this`place
      ensures ResetUpTo(c, |vertices(c)|, before, held)
      decreases clock - Age(stamp, c), 2
    {
      var i := 0;
      while i < |vertices(c)|
        invariant i <= |vertices(c)| && ResetUpTo(c, i, before, held)
      {
        ResetTurn(c, i, before, held);
        i := i + 1;
      }
    }

    method ResetTurn(c: Id, i: nat, ghost before: Places, ghost held: map<Id, Id>)
      requires ResetUpTo(c, i, before, held) && i < |vertices(c)|
      modifies this`pool, this`subs, this`place
      ensures ResetUpTo(c, i + 1, before, held)
      decreases clock - Age(stamp, c), 1
    {
      if vertices(c)[i] in subs {
        OwnVertex(vertices, owner, c, i);
        ResetVertex(c, vertices(c)[i], before, held);
      }
    }

    /** `VertexContext::Reset`: reset the subgraph's context, release it, forget it. */
    method ResetVertex(c: Id, v: Id, ghost before: Places, ghost held: map<Id, Id>)
      requires ResetSoFar(c, before, held) && v in subs && owner(v) == c
      modifies this`pool, this`subs, this`place
      ensures ResetSoFar(c, before, held) && v !in subs && subs.Keys <= old(subs).Keys
      decreases clock - Age(stamp, c), 0
    {
      var s := subs[v];
      ghost var place0, subs0 := place, subs;
      assert WellHeld(owner, subs, place, stamp, s);
      Below(owner, before, place0, stamp, s, v);
      ResetContext(s);
      ghost var place1, subs1 := place, subs;
      ReleaseHeld(v);
      ComposedPlaces(owner, before, place0, place1, stamp, c, v, s);
      ComposedSubs(owner, before, place0, stamp, c, v, s, held, subs0, subs1);
    }

    /** Release the context that v holds, whose own vertices hold nothing. */
    method ReleaseHeld(v: Id)
      requires Placed() && v in subs && Bare(owner, subs, subs[v])
      modifies this`pool, this`subs, this`place
      ensures Placed() && subs == old(subs) - {v} && place == old(place)[old(subs)[v] := Pooled]
      decreases clock - Age(stamp, subs[v]), 5
    {
      var s := subs[v];
      NothingUnder(owner, subs, place, stamp, s);
      ghost var mid := ReleaseContext(s);
      assert mid == old(place) && subs == old(subs);
      LetGo(owner, subs, mid, stamp, v);
      ClosuresKept(closures, mid, s, Pooled);
      PostedKept(posted, mid, s, Pooled);
      subs := subs - {v};
    }

    /** `ReleaseContext`: reset once more, and hand the context to the pool of its cluster; the caller takes it
        off its own list. */
    method ReleaseContext(c: Id) returns (ghost mid: Places)
      requires Placed() && c < |place| && place[c] != Pooled
      modifies this`pool, this`subs, this`place
      ensures PoolSound(home, pool, place) && ClosuresSound(closures, mid) && PostedSound(posted, mid)
      ensures SubsSound(owner, subs, mid, stamp) && Bare(owner, subs, c)
      ensures OnlyPooled(old(place), mid) && place == mid[c := Pooled] && mid[c] == old(place)[c]
      ensures forall x :: 0 <= x < |mid| ==> mid[x] == if Under(owner, old(place), stamp, x, c) then Pooled else old(place)[x]
      ensures OnlyBelow(owner, old(place), stamp, c, old(subs), subs)
      decreases clock - Age(stamp, c), 4
    {
      ResetContext(c);
      mid := place;
      EnqueueSound(home, pool, place, c);
      pool := Enqueued(home, pool, c);
      place := place[c := Pooled];
    }

    /** The reset worker takes one posted release: the context and everything it holds, however deep, goes back
        to the pools; nothing else moves. */
    method RunPosted() returns (c: Id)
      requires Valid() && posted != []
      modifies this`pool, this`subs, this`place, this`posted, this`running, this`released
      ensures Valid() && c == old(posted)[0] && |place| == |old(place)| && posted == old(posted)[1..]
      ensures forall x :: 0 <= x < |place| ==>
                place[x] == if x == c || Under(owner, old(place), stamp, x, c) then Pooled else old(place)[x]
      ensures released == old(released) + 1 && running == old(running) - 1
    {
      c := ReleasePosted();
      running := running - 1;
      released := released + 1;
    }

    method ReleasePosted() returns (c: Id)
      requires Placed() && posted != []
      modifies this`pool, this`subs, this`place, this`posted
      ensures Placed() && c == old(posted)[0] && |place| == |old(place)| && posted == old(posted)[1..]
      ensures forall x :: 0 <= x < |place| ==>
                place[x] == if x == c || Under(owner, old(place), stamp, x, c) then Pooled else old(place)[x]
    {
      c := posted[0];
      ghost var mid := ReleaseContext(c);
      SubsFrame(owner, subs, mid, stamp, c, Pooled);
      ClosuresKept(closures, mid, c, Pooled);
      PostedDone(posted, mid);
      posted := posted[1..];
    }

    /** When every data context is gone and the reset worker has nothing left, every context is back in its
        pool, every acquisition has fired and been released exactly once, and no graph is counted as running. */
    lemma Drained(c: Id)
      requires Valid() && closures == map[] && posted == [] && c < |place|
      ensures place[c] == Pooled && Bare(owner, subs, c) && InPool(home, pool, c)
      ensures running == 0 && acquired == fired == released
    {
      NoneInUse(owner, closures, posted, subs, place, stamp, c);
      SpareIsBare(owner, subs, place, stamp, c);
    }
  }

  /** Vertices only let go, and only those of c or of a context below c. */
  ghost predicate OnlyBelow(owner: Owner, place: Places, stamp: seq<nat>, c: Id, before: map<Id, Id>, after: map<Id, Id>) {
    && (forall v :: v in after ==> v in before && after[v] == before[v])
    && (forall v :: v in before && owner(v) != c && !Under(owner, place, stamp, owner(v), c) ==> v in after)
  }

  lemma ComposedSubs(owner: Owner, before: Places, place0: Places, stamp: seq<nat>, c: Id, v: Id, s: Id,
                     held: map<Id, Id>, subs0: map<Id, Id>, subs1: map<Id, Id>)
    requires owner(v) == c && Under(owner, before, stamp, s, c)
    requires forall x :: Under(owner, place0, stamp, x, s) ==> Under(owner, before, stamp, x, c)
    requires OnlyBelow(owner, before, stamp, c, held, subs0) && OnlyBelow(owner, place0, stamp, s, subs0, subs1)
    ensures OnlyBelow(owner, before, stamp, c, held, subs1 - {v})
  {
  }
}
