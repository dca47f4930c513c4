/** How a processor's fields are published after it has run: the loop behind the `outs` of a run's actions. */
module ProcessorOutputs {
  import opened Options
  import opened Variables
  import opened DataStore

  /** An output field: the key it is declared with, the index that `Setup` gave it, -1 for none, and what it holds
      when the processor has run. */
  datatype Output = Output(key: Key, idx: int, value: Option<Value>)

  /** The key under which an output is published: a variable stands for its value, and for nothing when unset. */
  function PublishedKey(vars: Vars, k: Key): Option<Key> {
    if !IsVar(vars, k.name) then Some(k)
    else if VarOf(vars, k.name) != "" then Some(k.(name := VarOf(vars, k.name))) else None
  }

  /** The sets that publish the outputs, in order, none of which a run forbids. */
  function EmitOps(vars: Vars, outputs: seq<Output>): (ops: seq<Op>)
    ensures RunOps(ops)
  {
    if outputs == [] then []
    else
      var o, before := outputs[|outputs| - 1], EmitOps(vars, outputs[..|outputs| - 1]);
      match PublishedKey(vars, o.key)
      case None => before
      case Some(k) => before + [SetOp(k, o.idx, o.value)]
  }

  lemma EmitNext(vars: Vars, outputs: seq<Output>, i: nat, s: Store)
    requires i < |outputs|
    ensures var t, o := ApplyAll(s, EmitOps(vars, outputs[..i])), outputs[i];
            ApplyAll(s, EmitOps(vars, outputs[..i + 1])) ==
            match PublishedKey(vars, o.key) case None => t case Some(k) => Put(t, k, o.idx, o.value).0
  {
    assert outputs[..i + 1][..i] == outputs[..i];
    var ops, o := EmitOps(vars, outputs[..i]), outputs[i];
    match PublishedKey(vars, o.key)
    case None =>
    case Some(k) => assert (ops + [SetOp(k, o.idx, o.value)])[..|ops|] == ops;
  }

  /** `CollectOutputs`: set the slot of each field, with null if the field is not set; an unset variable and a set
      that finds no slot are only logged. */
  method CollectOutputs(vars: Vars, outputs: seq<Output>, s: Store) returns (s': Store)
    ensures s' == ApplyAll(s, EmitOps(vars, outputs))
  {
    s' := s;
    for i := 0 to |outputs|
      invariant s' == ApplyAll(s, EmitOps(vars, outputs[..i]))
    {
      EmitNext(vars, outputs, i, s);
      var o := outputs[i];
      var name := o.key.name;
      if IsVar(vars, name) {
        name := VarOf(vars, name);
        if name == "" {
          continue;
        }
      }
      s' := Put(s', o.key.(name := name), o.idx, o.value).0;
    }
    assert outputs[..|outputs|] == outputs;
  }

  /** What `Setup` gave the output: no index if its name begins with '$', or else the index of its own slot. */
  predicate IsPlaced(s: Store, o: Output) {
    if o.key.name != "" && o.key.name[0] == '$' then o.idx == -1
    else Backed(s, o.key) && o.idx == s.slots[s.table[o.key]].idx
  }

  /** The data context of a run, in which creation is disabled, and outputs as they were set up. */
  ghost predicate Collectable(s: Store, outputs: seq<Output>) {
    WellFormed(s) && s.noCreation && forall o :: o in outputs ==> IsPlaced(s, o)
  }

  /** The output resolves to the key of a slot that exists. */
  predicate Reaches(vars: Vars, s: Store, o: Output, k: Key) {
    PublishedKey(vars, o.key) == Some(k) && k in s.table
  }

  /** What is written where: an output that reaches no slot is dropped, a later one overwrites an earlier. */
  function PublishedBy(vars: Vars, s: Store, outputs: seq<Output>): map<Key, Option<Value>> {
    if outputs == [] then map[]
    else
      var o, before := outputs[|outputs| - 1], PublishedBy(vars, s, outputs[..|outputs| - 1]);
      match PublishedKey(vars, o.key)
      case Some(k) => if k in s.table then before[k := o.value] else before
      case None => before
  }

  lemma WrittenTwice<K, V>(m: map<K, V>, writes: map<K, Option<V>>, k: K, v: Option<V>)
    ensures Written(Written(m, writes), map[k := v]) == Written(m, writes[k := v])
  {
  }

  lemma EmitOne(s: Store, u: Store, k: Key, o: Output)
    requires WellFormed(u) && u.noCreation && SameShape(s, u)
    requires o.idx == -1 || (Backed(s, k) && o.idx == s.slots[s.table[k]].idx)
    ensures var t := Apply(u, SetOp(k, o.idx, o.value));
            && WellFormed(t) && t.noCreation && SameShape(s, t)
            && Contents(t) == if k in s.table then Written(Contents(u), map[k := o.value]) else Contents(u)
  {
    var op := SetOp(k, o.idx, o.value);
    OthersKeepShape(u, op);
    ApplyKeepsWellFormed(u, op);
    SetUpdatesContents(u, k, o.idx, o.value);
  }

  /** Collecting creates no slot and changes the contents by the writes that reach one, as `Finish` changes the
      table by its `outs`. */
  lemma {:induction false} CollectedContents(vars: Vars, s: Store, outputs: seq<Output>)
    requires Collectable(s, outputs)
    ensures var t := ApplyAll(s, EmitOps(vars, outputs));
            && WellFormed(t) && t.noCreation && SameShape(s, t)
            && Contents(t) == Written(Contents(s), PublishedBy(vars, s, outputs))
  {
    if outputs == [] {
      assert Contents(s) == Written(Contents(s), map[]);
    } else {
      var init, o := outputs[..|outputs| - 1], outputs[|outputs| - 1];
      CollectedContents(vars, s, init);
      assert o in outputs && IsPlaced(s, o);
      match PublishedKey(vars, o.key)
      case None =>
      case Some(k) =>
        var ops := EmitOps(vars, init);
        EmitOne(s, ApplyAll(s, ops), k, o);
        assert (ops + [SetOp(k, o.idx, o.value)])[..|ops|] == ops;
        WrittenTwice(Contents(s), PublishedBy(vars, s, init), k, o.value);
    }
  }

  ghost predicate LastToReach(vars: Vars, s: Store, outputs: seq<Output>, i: int, k: Key) {
    && 0 <= i < |outputs| && Reaches(vars, s, outputs[i], k)
    && forall j :: i < j < |outputs| ==> !Reaches(vars, s, outputs[j], k)
  }

  lemma {:induction false} LastPublishes(vars: Vars, s: Store, outputs: seq<Output>, k: Key)
    ensures k in PublishedBy(vars, s, outputs) <==> exists i :: LastToReach(vars, s, outputs, i, k)
    ensures forall i :: LastToReach(vars, s, outputs, i, k) ==> PublishedBy(vars, s, outputs)[k] == outputs[i].value
  {
    if outputs != [] {
      var init, last := outputs[..|outputs| - 1], |outputs| - 1;
      LastPublishes(vars, s, init, k);
      if Reaches(vars, s, outputs[last], k) {
        assert LastToReach(vars, s, outputs, last, k);
      } else {
        forall i
          ensures LastToReach(vars, s, outputs, i, k) <==> LastToReach(vars, s, init, i, k)
        {
        }
      }
    }
  }

  /** After collecting, k holds w exactly if the last field that resolves to the existing slot of k carries w, or if
      there is no such field and k held w before. */
  lemma CollectedIff(vars: Vars, s: Store, outputs: seq<Output>, k: Key, w: Value)
    requires Collectable(s, outputs)
    ensures Held(ApplyAll(s, EmitOps(vars, outputs)), k) == Some(w) <==>
            || (exists i :: LastToReach(vars, s, outputs, i, k) && outputs[i].value == Some(w))
            || (Held(s, k) == Some(w) && forall i :: 0 <= i < |outputs| ==> !Reaches(vars, s, outputs[i], k))
  {
    var t := ApplyAll(s, EmitOps(vars, outputs));
    CollectedContents(vars, s, outputs);
    LastPublishes(vars, s, outputs, k);
    assert Held(t, k) == Some(w) <==> k in Contents(t) && Contents(t)[k] == w;
    assert Held(s, k) == Some(w) <==> k in Contents(s) && Contents(s)[k] == w;
    NoneReaches(vars, s, outputs, k);
  }

  lemma NoneReaches(vars: Vars, s: Store, outputs: seq<Output>, k: Key)
    ensures (exists i :: LastToReach(vars, s, outputs, i, k)) <==>
            exists i :: 0 <= i < |outputs| && Reaches(vars, s, outputs[i], k)
  {
    if i :| 0 <= i < |outputs| && Reaches(vars, s, outputs[i], k) {
      var last := i;
      for j := i + 1 to |outputs|
        invariant i <= last < j && Reaches(vars, s, outputs[last], k)
        invariant forall h :: last < h < j ==> !Reaches(vars, s, outputs[h], k)
      {
        if Reaches(vars, s, outputs[j], k) {
          last := j;
        }
      }
      assert LastToReach(vars, s, outputs, last, k);
    }
  }

  // ---------------------------------------------------------------- data that are not published

  /** x is set to "d". */
  function SetToD(): Vars {
    Some((name: string) => if name == "x" then "d" else "")
  }

  function KeyOf(name: string): Key {
    Key(name, 0, true)
  }

  /** The data context of a run of a graph in which this one datum was registered. */
  function RunWith(name: string): Store {
    Apply(Apply(EMPTY_STORE, RegisterOp(KeyOf(name))), DisableOp)
  }

  lemma RunWithIs(name: string)
    ensures RunWith(name) == Store([Slot(None, None, 0)], map[KeyOf(name) := 0], [0], true) && WellFormed(RunWith(name))
  {
  }

  lemma ResolvesToD()
    ensures PublishedKey(SetToD(), KeyOf("$x")) == Some(KeyOf("d")) && PublishedKey(SetToD(), KeyOf("d")) == Some(KeyOf("d"))
  {
    assert "$x"[1..] == "x";
  }

  /** An output "$x" and a reader of "$x", both with x set to "d": the reader registered "$x" and nothing registered
      "d", so what the output holds is dropped. */
  lemma UnregisteredNameIsDropped(s: Store, o: Output, v: Value)
    requires s == RunWith("$x") && o == Output(KeyOf("$x"), -1, Some(v))
    ensures Collectable(s, [o]) && Contents(ApplyAll(s, EmitOps(SetToD(), [o]))) == map[]
  {
    RunWithIs("$x");
    ResolvesToD();
    DropsOne(SetToD(), s, o);
  }

  lemma DropsOne(vars: Vars, s: Store, o: Output)
    requires WellFormed(s) && s.noCreation && IsPlaced(s, o) && Contents(s) == map[]
    requires PublishedKey(vars, o.key).Some? && PublishedKey(vars, o.key).value !in s.table
    ensures Collectable(s, [o]) && Contents(ApplyAll(s, EmitOps(vars, [o]))) == map[]
  {
    CollectedContents(vars, s, [o]);
    assert [o][..0] == [];
    assert PublishedBy(vars, s, [o]) == map[];
  }

  lemma PublishNext(vars: Vars, s: Store, before: seq<Output>, o: Output, k: Key)
    requires Reaches(vars, s, o, k)
    ensures PublishedBy(vars, s, before + [o]) == PublishedBy(vars, s, before)[k := o.value]
  {
    assert (before + [o])[..|before|] == before;
  }

  lemma OneWritten(vars: Vars, s: Store, outputs: seq<Output>, k: Key, v: Option<Value>)
    requires Collectable(s, outputs) && Contents(s) == map[] && PublishedBy(vars, s, outputs) == map[k := v]
    ensures Contents(ApplyAll(s, EmitOps(vars, outputs))) == NonNull(map[k := v])
  {
    CollectedContents(vars, s, outputs);
  }

  /** Of two outputs for one slot the second decides, also when it is not set. */
  lemma SecondDecides(vars: Vars, s: Store, a: Output, b: Output, k: Key)
    requires Collectable(s, [a] + [b]) && Contents(s) == map[] && Reaches(vars, s, a, k) && Reaches(vars, s, b, k)
    ensures Contents(ApplyAll(s, EmitOps(vars, [a]))) == NonNull(map[k := a.value])
    ensures Contents(ApplyAll(s, EmitOps(vars, [a] + [b]))) == NonNull(map[k := b.value])
  {
    PublishNext(vars, s, [], a, k);
    PublishNext(vars, s, [a], b, k);
    assert [] + [a] == [a];
    assert forall o :: o in [a] ==> o in [a] + [b];
    OneWritten(vars, s, [a], k, a.value);
    OneWritten(vars, s, [a] + [b], k, b.value);
  }

  lemma SecondEmpties(vars: Vars, s: Store, a: Output, b: Output, k: Key, v: Value)
    requires Collectable(s, [a] + [b]) && Contents(s) == map[] && Reaches(vars, s, a, k) && Reaches(vars, s, b, k)
    requires a.value == Some(v) && b.value == None
    ensures Contents(ApplyAll(s, EmitOps(vars, [a]))) == map[k := v]
    ensures Contents(ApplyAll(s, EmitOps(vars, [a] + [b]))) == map[]
  {
    SecondDecides(vars, s, a, b, k);
  }

  lemma BothReachD(s: Store, a: Output, b: Output, v: Value)
    requires s == RunWith("d") && a == Output(KeyOf("d"), 0, Some(v)) && b == Output(KeyOf("$x"), -1, None)
    ensures Collectable(s, [a] + [b]) && Contents(s) == map[]
    ensures Reaches(SetToD(), s, a, KeyOf("d")) && Reaches(SetToD(), s, b, KeyOf("d"))
  {
    RunWithIs("d");
    ResolvesToD();
    assert IsPlaced(s, a) && IsPlaced(s, b);
  }

  /** An output "d" that is set and an output "$x" that is not, with x set to "d": the second empties the slot that
      the first has filled. */
  lemma NullEmptiesSlot(s: Store, a: Output, b: Output, v: Value)
    requires s == RunWith("d") && a == Output(KeyOf("d"), 0, Some(v)) && b == Output(KeyOf("$x"), -1, None)
    ensures Collectable(s, [a] + [b])
    ensures Contents(ApplyAll(s, EmitOps(SetToD(), [a]))) == map[KeyOf("d") := v]
    ensures Contents(ApplyAll(s, EmitOps(SetToD(), [a] + [b]))) == map[]
  {
    BothReachD(s, a, b, v);
    SecondEmpties(SetToD(), s, a, b, KeyOf("d"), v);
  }
}
