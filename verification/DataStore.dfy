/** The slots of one data context: an array of registered slots and a hash table over all slots, and when the
    two agree.  A slot is named by its position in the order of allocation. */
module DataStore {
  import opened Options

  type Value(==, 0, !new)

  /** Name and type of a datum; `shared` tells types held by shared pointer. */
  datatype Key = Key(name: string, typeId: nat, shared: bool)

  /** `val` is the raw pointer, `sval` the shared pointer that owns it; `None` is null.  `idx` is the position in
      the array that the slot was given, 0 if none was. */
  datatype Slot = Slot(val: Option<Value>, sval: Option<Value>, idx: nat)

  datatype Store = Store(slots: seq<Slot>, table: map<Key, nat>, cells: seq<nat>, noCreation: bool)

  const EMPTY_STORE := Store([], map[], [], false)

  /** Keys have slots of their own; the array lists slots that carry their own position, and every other slot
      carries 0. */
  ghost predicate WellFormed(s: Store) {
    && (forall k :: k in s.table ==> s.table[k] < |s.slots|)
    && (forall k, l :: k in s.table && l in s.table && s.table[k] == s.table[l] ==> k == l)
    && (forall i :: 0 <= i < |s.cells| ==> s.cells[i] < |s.slots| && s.slots[s.cells[i]].idx == i)
    && (forall p :: 0 <= p < |s.slots| ==> s.slots[p].idx == 0 || InArray(s, p))
  }

  predicate InArray(s: Store, p: nat)
    requires p < |s.slots|
  {
    s.slots[p].idx < |s.cells| && s.cells[s.slots[p].idx] == p
  }

  /** `GetDataValue`: an index inside the array decides, or else the table. */
  function Lookup(s: Store, k: Key, idx: int): Option<nat> {
    if 0 <= idx < |s.cells| then Some(s.cells[idx])
    else if k in s.table then Some(s.table[k]) else None
  }

  function Read(x: Slot, k: Key): Option<Value> {
    if k.shared then x.sval else x.val
  }

  /** What the store holds under k. */
  function Held(s: Store, k: Key): Option<Value> {
    if k in s.table && s.table[k] < |s.slots| then Read(s.slots[s.table[k]], k) else None
  }

  /** The key's slot is in the array, at the position it was given. */
  predicate Backed(s: Store, k: Key) {
    k in s.table && s.table[k] < |s.slots| && InArray(s, s.table[k])
  }

  // ---------------------------------------------------------------- operations

  /** `RegisterData`: the new store and the index it returns. */
  function Register(s: Store, k: Key): (Store, nat) {
    if k in s.table then (s, if s.table[k] < |s.slots| then s.slots[s.table[k]].idx else 0)
    else
      (s.(slots := s.slots + [Slot(None, None, |s.cells|)], table := s.table[k := |s.slots|], cells := s.cells + [|s.slots|]),
       |s.cells|)
  }

  function Write(x: Slot, k: Key, v: Option<Value>): Slot {
    if k.shared then x.(val := v, sval := v) else x.(val := v)
  }

  /** `Set`: write the slot found, with null too; create one, outside the array, when there is none and that is
      allowed. */
  function Put(s: Store, k: Key, idx: int, v: Option<Value>): (Store, bool) {
    var at := Lookup(s, k, idx);
    if at.Some? then
      (if at.value < |s.slots| then s.(slots := s.slots[at.value := Write(s.slots[at.value], k, v)]) else s, true)
    else if s.noCreation then (s, false)
    else (s.(slots := s.slots + [Write(Slot(None, None, 0), k, v)], table := s.table[k := |s.slots|]), true)
  }

  function Cleared(x: Slot): Slot {
    x.(val := None, sval := None)
  }

  /** `Move` between two slots of one store: copy, then clear the source. */
  function Transfer(s: Store, from: nat, to: nat): Store
    requires from < |s.slots| && to < |s.slots|
  {
    var copied := s.slots[to := s.slots[to].(val := s.slots[from].val, sval := s.slots[from].sval)];
    s.(slots := copied[from := Cleared(copied[from])])
  }

  function Move(s: Store, from: Key, to: Key): (Store, int) {
    if from in s.table && to in s.table && s.table[from] < |s.slots| && s.table[to] < |s.slots|
    then (Transfer(s, s.table[from], s.table[to]), 0) else (s, -1)
  }

  /** `Reset` clears the slots of the array and allows creation again. */
  function ResetStore(s: Store): Store {
    s.(noCreation := false,
       slots := seq(|s.slots|, i requires 0 <= i < |s.slots| => if i in s.cells then Cleared(s.slots[i]) else s.slots[i]))
  }

  /** `OverwriteOp` is what a move between two contexts does to one of them. */
  datatype Op =
    | RegisterOp(key: Key)
    | SetOp(key: Key, idx: int, v: Option<Value>)
    | MoveOp(from: Key, to: Key)
    | OverwriteOp(at: nat, val: Option<Value>, sval: Option<Value>)
    | DisableOp
    | ResetOp

  function Apply(s: Store, op: Op): Store {
    match op
    case RegisterOp(k) => Register(s, k).0
    case SetOp(k, idx, v) => Put(s, k, idx, v).0
    case MoveOp(from, to) => Move(s, from, to).0
    case OverwriteOp(at, val, sval) =>
      if at < |s.slots| then s.(slots := s.slots[at := s.slots[at].(val := val, sval := sval)]) else s
    case DisableOp => s.(noCreation := true)
    case ResetOp => ResetStore(s)
  }

  function ApplyAll(s: Store, ops: seq<Op>): Store {
    if ops == [] then s else Apply(ApplyAll(s, ops[..|ops| - 1]), ops[|ops| - 1])
  }

  /** This operation makes a slot outside the array. */
  predicate Creates(s: Store, op: Op) {
    op.SetOp? && Lookup(s, op.key, op.idx).None? && !s.noCreation
  }

  // ---------------------------------------------------------------- what every operation keeps

  lemma AddKeepsWellFormed(s: Store, k: Key, x: Slot, inArray: bool)
    requires WellFormed(s) && k !in s.table && x.idx == if inArray then |s.cells| else 0
    ensures WellFormed(s.(slots := s.slots + [x], table := s.table[k := |s.slots|],
                          cells := if inArray then s.cells + [|s.slots|] else s.cells))
  {
    var t := s.(slots := s.slots + [x], table := s.table[k := |s.slots|],
                cells := if inArray then s.cells + [|s.slots|] else s.cells);
    forall p | 0 <= p < |t.slots|
      ensures t.slots[p].idx == 0 || InArray(t, p)
    {
      if p < |s.slots| && t.slots[p].idx != 0 {
        assert InArray(s, p);
      }
    }
  }

  /** Only what slots hold differs, and whether creation is allowed. */
  ghost predicate SameShape(s: Store, t: Store) {
    && |t.slots| == |s.slots| && t.table == s.table && t.cells == s.cells
    && forall p :: 0 <= p < |s.slots| ==> t.slots[p].idx == s.slots[p].idx
  }

  lemma ShapeKeepsWellFormed(s: Store, t: Store)
    requires WellFormed(s) && SameShape(s, t)
    ensures WellFormed(t)
  {
    forall p | 0 <= p < |t.slots|
      ensures t.slots[p].idx == 0 || InArray(t, p)
    {
      assert s.slots[p].idx == 0 || InArray(s, p);
    }
  }

  predicate AddsSlot(s: Store, op: Op) {
    Creates(s, op) || (op.RegisterOp? && op.key !in s.table)
  }

  lemma WriteKeepsShape(s: Store, at: nat, x: Slot)
    requires at < |s.slots| && x.idx == s.slots[at].idx
    ensures SameShape(s, s.(slots := s.slots[at := x]))
  {
  }

  lemma OthersKeepShape(s: Store, op: Op)
    requires WellFormed(s) && !AddsSlot(s, op)
    ensures SameShape(s, Apply(s, op))
  {
    match op
    case RegisterOp(_) =>
    case SetOp(k, idx, v) =>
      var at := Lookup(s, k, idx);
      if at.Some? {
        WriteKeepsShape(s, at.value, Write(s.slots[at.value], k, v));
      }
    case MoveOp(from, to) =>
    case OverwriteOp(at, val, sval) =>
      if at < |s.slots| {
        WriteKeepsShape(s, at, s.slots[at].(val := val, sval := sval));
      }
    case DisableOp =>
    case ResetOp =>
  }

  lemma ApplyKeepsWellFormed(s: Store, op: Op)
    requires WellFormed(s)
    ensures WellFormed(Apply(s, op))
  {
    if Creates(s, op) {
      AddKeepsWellFormed(s, op.key, Write(Slot(None, None, 0), op.key, op.v), false);
    } else if AddsSlot(s, op) {
      AddKeepsWellFormed(s, op.key, Slot(None, None, |s.cells|), true);
    } else {
      OthersKeepShape(s, op);
      ShapeKeepsWellFormed(s, Apply(s, op));
    }
  }

  /** A registered key keeps its slot, its index, and the agreement of both look-ups, whatever happens. */
  lemma BackedStays(s: Store, op: Op, k: Key)
    requires WellFormed(s) && Backed(s, k)
    ensures var t := Apply(s, op);
            && Backed(t, k) && t.table[k] == s.table[k] && t.slots[t.table[k]].idx == s.slots[s.table[k]].idx
            && Lookup(t, k, t.slots[t.table[k]].idx) == Lookup(t, k, -1) == Some(t.table[k])
  {
    if !AddsSlot(s, op) {
      OthersKeepShape(s, op);
    }
  }

  lemma {:induction false} BackedForever(s: Store, ops: seq<Op>, k: Key)
    requires WellFormed(s) && Backed(s, k)
    ensures var t := ApplyAll(s, ops);
            && WellFormed(t) && Backed(t, k) && t.slots[t.table[k]].idx == s.slots[s.table[k]].idx
            && Lookup(t, k, s.slots[s.table[k]].idx) == Lookup(t, k, -1) == Some(s.table[k])
  {
    if ops != [] {
      var before := ApplyAll(s, ops[..|ops| - 1]);
      BackedForever(s, ops[..|ops| - 1], k);
      ApplyKeepsWellFormed(before, ops[|ops| - 1]);
      BackedStays(before, ops[|ops| - 1], k);
    }
  }

  /** Right after a registration the returned index leads to the key's slot exactly unless an earlier `Set`
      created that slot outside a nonempty array. */
  lemma RegisteredIndexIff(s: Store, k: Key)
    requires WellFormed(s)
    ensures var (t, idx) := Register(s, k);
            k in t.table && (Lookup(t, k, idx) == Some(t.table[k]) <==> k !in s.table || Backed(s, k) || s.cells == [])
  {
  }

  /** No operation so far has created a slot outside the array. */
  ghost predicate NoneCreated(s: Store, ops: seq<Op>) {
    forall i :: 0 <= i < |ops| ==> !Creates(ApplyAll(s, ops[..i]), ops[i])
  }

  lemma ApplyKeepsBacked(s: Store, op: Op)
    requires WellFormed(s) && !Creates(s, op) && forall k :: k in s.table ==> Backed(s, k)
    ensures forall k :: k in Apply(s, op).table ==> Backed(Apply(s, op), k)
  {
    forall k | k in Apply(s, op).table
      ensures Backed(Apply(s, op), k)
    {
      if k in s.table {
        BackedStays(s, op, k);
      }
    }
  }

  lemma {:induction false} AllBacked(ops: seq<Op>)
    requires NoneCreated(EMPTY_STORE, ops)
    ensures WellFormed(ApplyAll(EMPTY_STORE, ops))
    ensures forall k :: k in ApplyAll(EMPTY_STORE, ops).table ==> Backed(ApplyAll(EMPTY_STORE, ops), k)
  {
    if ops != [] {
      var init, op := ops[..|ops| - 1], ops[|ops| - 1];
      assert forall i :: 0 <= i < |init| ==> init[..i] == ops[..i] && init[i] == ops[i];
      assert !Creates(ApplyAll(EMPTY_STORE, ops[..|init|]), ops[|init|]);
      AllBacked(init);
      var s := ApplyAll(EMPTY_STORE, init);
      ApplyKeepsWellFormed(s, op);
      ApplyKeepsBacked(s, op);
    }
  }

  /** As long as every registration comes before any creating `Set`, the index that a registration returns and
      the key itself lead to the same slot after any later operations, creating ones included. */
  lemma IndexAgreesWithTable(before: seq<Op>, k: Key, after: seq<Op>)
    requires NoneCreated(EMPTY_STORE, before)
    ensures var (s, idx) := Register(ApplyAll(EMPTY_STORE, before), k);
            var t := ApplyAll(s, after);
            k in t.table && Lookup(t, k, idx) == Lookup(t, k, -1) == Some(t.table[k])
  {
    AllBacked(before);
    var b := ApplyAll(EMPTY_STORE, before);
    var (s, idx) := Register(b, k);
    ApplyKeepsWellFormed(b, RegisterOp(k));
    assert Backed(s, k);
    BackedForever(s, after, k);
  }

  /** Otherwise they part: a key created by `Set` and registered after another one gets the other's index. */
  lemma CreatedBeforeRegistered(j: Key, k: Key, v: Option<Value>)
    requires j != k
    ensures var s := ApplyAll(EMPTY_STORE, [SetOp(k, -1, v), RegisterOp(j)]);
            var (t, idx) := Register(s, k);
            Lookup(t, k, idx) == Lookup(t, j, -1) != Lookup(t, k, -1)
  {
    var a := Apply(EMPTY_STORE, SetOp(k, -1, v));
    var ops := [SetOp(k, -1, v), RegisterOp(j)];
    assert ops[..1] == [SetOp(k, -1, v)] && ops[..1][..0] == [];
    assert ApplyAll(EMPTY_STORE, ops[..1]) == a;
    assert ApplyAll(EMPTY_STORE, ops) == Apply(a, RegisterOp(j));
  }

  /** A reset empties every registered key; a key created by `Set` survives with its value. */
  lemma ResetEmptiesIff(s: Store, k: Key)
    requires WellFormed(s) && k in s.table
    ensures WellFormed(ResetStore(s)) && ResetStore(s).table == s.table && ResetStore(s).cells == s.cells
    ensures !ResetStore(s).noCreation
    ensures Held(ResetStore(s), k).None? <==> s.table[k] in s.cells || Held(s, k).None?
  {
  }

  // ---------------------------------------------------------------- one run on a recycled store

  /** What can be read, by key. */
  function Contents(s: Store): map<Key, Value> {
    map k | k in s.table && Held(s, k).Some? :: Held(s, k).value
  }

  /** The operations of a run: creation is disabled before it, and only a reset allows it again. */
  predicate RunOps(ops: seq<Op>) {
    forall i :: 0 <= i < |ops| ==> !ops[i].ResetOp?
  }

  /** The run so far has not created a slot, and no registration of it made a known key registered. */
  ghost predicate RunInv(setup: Store, s: Store) {
    && WellFormed(s) && s.noCreation
    && (forall k :: k in s.table ==> Backed(s, k) || (k in setup.table && !Backed(setup, k)))
    && (forall k :: k in setup.table ==> k in s.table && s.table[k] == setup.table[k])
  }

  lemma RunStep(setup: Store, s: Store, op: Op)
    requires RunInv(setup, s) && !op.ResetOp?
    ensures !Creates(s, op) && RunInv(setup, Apply(s, op))
  {
    var t := Apply(s, op);
    ApplyKeepsWellFormed(s, op);
    if !AddsSlot(s, op) {
      OthersKeepShape(s, op);
    }
    forall k | k in t.table
      ensures Backed(t, k) || (k in setup.table && !Backed(setup, k))
    {
      if k in s.table && Backed(s, k) {
        BackedStays(s, op, k);
      }
    }
  }

  lemma NoneCreatedNext(s: Store, ops: seq<Op>)
    requires ops != [] && NoneCreated(s, ops[..|ops| - 1]) && !Creates(ApplyAll(s, ops[..|ops| - 1]), ops[|ops| - 1])
    ensures NoneCreated(s, ops)
  {
    var init := ops[..|ops| - 1];
    forall i | 0 <= i < |ops|
      ensures !Creates(ApplyAll(s, ops[..i]), ops[i])
    {
      if i < |init| {
        assert init[..i] == ops[..i] && init[i] == ops[i];
      }
    }
  }

  lemma {:induction false} RunKeeps(setup: Store, s: Store, ops: seq<Op>)
    requires RunInv(setup, s) && RunOps(ops)
    ensures RunInv(setup, ApplyAll(s, ops)) && NoneCreated(s, ops)
  {
    if ops != [] {
      var init := ops[..|ops| - 1];
      RunKeeps(setup, s, init);
      RunStep(setup, ApplyAll(s, init), ops[|ops| - 1]);
      NoneCreatedNext(s, ops);
    }
  }

  lemma AfterRun(setup: Store, s: Store, k: Key)
    requires RunInv(setup, s) && k in s.table && Held(ResetStore(s), k).Some?
    ensures k in setup.table && !Backed(setup, k)
  {
    ResetEmptiesIff(s, k);
  }

  lemma RunBegins(setup: Store)
    requires WellFormed(setup)
    ensures RunInv(setup, Apply(setup, DisableOp))
  {
    ApplyKeepsWellFormed(setup, DisableOp);
  }

  /** `DisableEntryCreation` before a run keeps it from creating slots, whatever it does; after the reset that
      follows, the only data left are those that a `Set` created before the run beside the registered ones.  When
      it created none, the recycled store is empty. */
  lemma RunThenReset(setup: seq<Op>, run: seq<Op>)
    requires RunOps(run)
    ensures var before := ApplyAll(EMPTY_STORE, setup);
            var started := Apply(before, DisableOp);
            var after := ResetStore(ApplyAll(started, run));
            && NoneCreated(started, run)
            && (forall k :: k in Contents(after) ==> k in before.table && !Backed(before, k))
            && (NoneCreated(EMPTY_STORE, setup) ==> Contents(after) == map[])
  {
    var before := ApplyAll(EMPTY_STORE, setup);
    SetupIsWellFormed(setup);
    RunBegins(before);
    RunKeeps(before, Apply(before, DisableOp), run);
    var s := ApplyAll(Apply(before, DisableOp), run);
    forall k | k in Contents(ResetStore(s))
      ensures k in before.table && !Backed(before, k)
    {
      AfterRun(before, s, k);
    }
    if NoneCreated(EMPTY_STORE, setup) {
      AllBacked(setup);
      assert Contents(ResetStore(s)).Keys == {};
    }
  }

  lemma {:induction false} SetupIsWellFormed(ops: seq<Op>)
    ensures WellFormed(ApplyAll(EMPTY_STORE, ops))
  {
    if ops != [] {
      SetupIsWellFormed(ops[..|ops| - 1]);
      ApplyKeepsWellFormed(ApplyAll(EMPTY_STORE, ops[..|ops| - 1]), ops[|ops| - 1]);
    }
  }

  // ---------------------------------------------------------------- what moves and sets do to the contents

  /** A move hands the value over: afterwards `to` holds what `from` held and `from` holds nothing, unless both
      are the same key, when the value is lost; no other key changes. */
  lemma MoveTransfers(s: Store, from: Key, to: Key, other: Key)
    requires WellFormed(s) && from in s.table && to in s.table
    ensures var (t, rc) := Move(s, from, to);
            && rc == 0 && WellFormed(t) && t.table == s.table && Held(t, from).None?
            && (from != to ==> var x, y := s.slots[s.table[from]], t.slots[t.table[to]]; y.val == x.val && y.sval == x.sval)
            && (other != from && other != to ==> Held(t, other) == Held(s, other))
  {
    ApplyKeepsWellFormed(s, MoveOp(from, to));
  }

  /** What `other` holds after v was set through k into a slot that is also its own: a raw pointer is written
      always, a shared pointer only by a key of a shared type. */
  function HeldAfterWrite(s: Store, k: Key, v: Option<Value>, other: Key): Option<Value> {
    if k.shared || !other.shared then v else Held(s, other)
  }

  /** `Set` succeeds exactly if there is a slot or one may be created.  It writes the slot that the index leads to,
      whoever owns it, or else the slot of the key, and no other. */
  lemma SetStores(s: Store, k: Key, idx: int, v: Option<Value>, other: Key)
    requires WellFormed(s)
    ensures var (t, ok) := Put(s, k, idx, v);
            && WellFormed(t)
            && (ok <==> 0 <= idx < |s.cells| || k in s.table || !s.noCreation)
            && Held(t, other) ==
               (if other in s.table && Lookup(s, k, idx) == Some(s.table[other]) then HeldAfterWrite(s, k, v, other)
                else if ok && Lookup(s, k, idx).None? && other == k then v
                else Held(s, other))
  {
    ApplyKeepsWellFormed(s, SetOp(k, idx, v));
    var at := Lookup(s, k, idx);
    if at.Some? {
      assert at.value < |s.slots|;
    }
  }

  /** By a registered key's own index, or by the key alone, the contents change at that key and nowhere else; a null
      empties it. */
  lemma SetUpdatesContents(s: Store, k: Key, idx: int, v: Option<Value>)
    requires WellFormed(s)
    requires idx == -1 || (Backed(s, k) && idx == s.slots[s.table[k]].idx)
    ensures var (t, ok) := Put(s, k, idx, v);
            && (ok <==> k in s.table || !s.noCreation)
            && Contents(t) == if ok then Written(Contents(s), map[k := v]) else Contents(s)
  {
    var (t, ok) := Put(s, k, idx, v);
    forall other
      ensures Held(t, other) == if ok && other == k then v else Held(s, other)
    {
      SetUpdatesAt(s, k, idx, v, other);
    }
    ContentsAre(s, t, k, v, ok);
  }

  lemma SetUpdatesAt(s: Store, k: Key, idx: int, v: Option<Value>, other: Key)
    requires WellFormed(s)
    requires idx == -1 || (Backed(s, k) && idx == s.slots[s.table[k]].idx)
    ensures var (t, ok) := Put(s, k, idx, v); Held(t, other) == if ok && other == k then v else Held(s, other)
  {
    SetStores(s, k, idx, v, other);
  }

  lemma ContentsAre(s: Store, t: Store, k: Key, v: Option<Value>, ok: bool)
    requires forall other :: Held(t, other) == if ok && other == k then v else Held(s, other)
    ensures Contents(t) == if ok then Written(Contents(s), map[k := v]) else Contents(s)
  {
    forall other
      ensures other in Contents(t) <==> if ok && other == k then v.Some? else other in Contents(s)
    {
      assert Held(t, other) == if ok && other == k then v else Held(s, other);
    }
  }
}
