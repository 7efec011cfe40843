/**
 * `make_hashable` from frugal.util: a copy of a Python value in which
 * lists become tuples, sets become frozensets and dicts become frozensets
 * of (key, value) pairs, converted recursively. Every other value,
 * tuples and frozensets included, is returned as it is.
 */
module Util {

  /** The Python values `make_hashable` distinguishes. */
  datatype Value =
    | Int(i: int)
    | Str(s: string)
    | List(items: seq<Value>)
    | Tuple(items: seq<Value>)
    | Set(elems: set<Value>)
    | FrozenSet(elems: set<Value>)
    | Dict(entries: map<Value, Value>)

  /** Python's mutable collections, the three `make_hashable` converts. */
  predicate IsMutable(v: Value)
  {
    v.List? || v.Set? || v.Dict?
  }

  /** True iff `hash(v)` succeeds: no list, set or dict at any depth. */
  predicate Hashable(v: Value)
  {
    match v
    case Int(_) => true
    case Str(_) => true
    case List(_) => false
    case Set(_) => false
    case Dict(_) => false
    case Tuple(items) => forall i :: 0 <= i < |items| ==> Hashable(items[i])
    case FrozenSet(elems) => forall x :: x in elems ==> Hashable(x)
  }

  /**
   * Every tuple and frozenset inside `v` (outside any other tuple or
   * frozenset) already holds only hashable values. Python itself demands
   * this of frozenset members; for tuples it is the condition under which
   * `make_hashable` delivers a hashable result.
   */
  predicate ImmutablePartsHashable(v: Value)
  {
    match v
    case Int(_) => true
    case Str(_) => true
    case List(items) => forall i :: 0 <= i < |items| ==> ImmutablePartsHashable(items[i])
    case Set(elems) => forall x :: x in elems ==> ImmutablePartsHashable(x)
    case Dict(entries) =>
      forall k :: k in entries ==> ImmutablePartsHashable(k) && ImmutablePartsHashable(entries[k])
    case Tuple(_) => Hashable(v)
    case FrozenSet(_) => Hashable(v)
  }

  /** The pair a dict entry becomes. */
  function EntryPair(k: Value, v: Value): Value
  {
    Tuple([k, v])
  }

  /** frugal.util.make_hashable, as written. */
  function MakeHashable(v: Value): (r: Value)
    ensures !IsMutable(r)
    ensures !IsMutable(v) ==> r == v
    ensures v.List? ==> r.Tuple? && |r.items| == |v.items|
    ensures v.List? ==> forall i :: 0 <= i < |v.items| ==> r.items[i] == MakeHashable(v.items[i])
    ensures v.Set? ==> r.FrozenSet?
    ensures v.Set? ==> forall x :: x in v.elems ==> MakeHashable(x) in r.elems
    ensures v.Set? ==> forall y :: y in r.elems ==> exists x :: x in v.elems && y == MakeHashable(x)
    ensures v.Dict? ==> r.FrozenSet?
    ensures v.Dict? ==> forall k :: k in v.entries ==>
      EntryPair(MakeHashable(k), MakeHashable(v.entries[k])) in r.elems
    ensures v.Dict? ==> forall y :: y in r.elems ==>
      (exists k :: k in v.entries && y == EntryPair(MakeHashable(k), MakeHashable(v.entries[k])))
  {
    match v
    case List(items) => Tuple(seq(|items|, i requires 0 <= i < |items| => MakeHashable(items[i])))
    case Set(elems) => FrozenSet(set x | x in elems :: MakeHashable(x))
    case Dict(entries) =>
      FrozenSet(set k | k in entries :: EntryPair(MakeHashable(k), MakeHashable(entries[k])))
    case _ => v
  }

  /** The result is hashable whenever the tuples and frozensets of the input are. */
  lemma {:induction false} MakeHashableIsHashable(v: Value)
    requires ImmutablePartsHashable(v)
    ensures Hashable(MakeHashable(v))
  {
    match v
    case List(items) =>
      forall i | 0 <= i < |items| ensures Hashable(MakeHashable(items[i])) {
        MakeHashableIsHashable(items[i]);
      }
    case Set(elems) =>
      forall x | x in elems ensures Hashable(MakeHashable(x)) {
        MakeHashableIsHashable(x);
      }
    case Dict(entries) =>
      forall k | k in entries
        ensures Hashable(EntryPair(MakeHashable(k), MakeHashable(entries[k])))
      {
        MakeHashableIsHashable(k);
        MakeHashableIsHashable(entries[k]);
      }
    case _ =>
  }

  /** Converting twice is converting once: the result falls into the unchanged branch. */
  lemma MakeHashableIdempotent(v: Value)
    ensures MakeHashable(MakeHashable(v)) == MakeHashable(v)
  {
  }

  /** A tuple holding a list is returned as it is, and so stays unhashable. */
  lemma MakeHashableKeepsListInTuple()
    ensures var v := Tuple([List([Int(1)])]);
      MakeHashable(v) == v && !Hashable(MakeHashable(v))
  {
    var v := Tuple([List([Int(1)])]);
    assert !Hashable(v.items[0]);
  }

  /** A hashable value is its own conversion, at every depth. */
  lemma HashableUnchanged(v: Value)
    requires Hashable(v)
    ensures MakeHashable(v) == v
  {
  }

  /**
   * A dict whose keys are hashable (as Python requires) becomes a
   * frozenset with exactly one pair per entry.
   */
  lemma MakeHashableDictSize(entries: map<Value, Value>)
    requires forall k :: k in entries ==> Hashable(k)
    ensures |MakeHashable(Dict(entries)).elems| == |entries|
  {
    var r := MakeHashable(Dict(entries)).elems;
    var f := (k: Value) requires k in entries => EntryPair(MakeHashable(k), MakeHashable(entries[k]));
    forall k | k in entries ensures f(k).items[0] == k {
      HashableUnchanged(k);
    }
    assert r == set k | k in entries.Keys :: f(k);
    ImageOfInjective(entries.Keys, f);
    assert |entries.Keys| == |entries|;
  }

  /** The image of a set under a function that its first tuple component inverts. */
  lemma {:induction false} ImageOfInjective(keys: set<Value>, f: Value --> Value)
    requires forall k :: k in keys ==> f.requires(k) && f(k).Tuple? && |f(k).items| > 0 && f(k).items[0] == k
    ensures |set k | k in keys :: f(k)| == |keys|
  {
    if keys != {} {
      var k :| k in keys;
      var rest := keys - {k};
      ImageOfInjective(rest, f);
      var image := set j | j in keys :: f(j);
      var restImage := set j | j in rest :: f(j);
      assert image == restImage + {f(k)};
      assert f(k) !in restImage;
    }
  }

  /**
   * make_hashable with tuples and frozensets converted as well, so that
   * the result is hashable for every input.
   */
  function MakeHashableDeep(v: Value): (r: Value)
    ensures !IsMutable(r)
  {
    match v
    case List(items) => Tuple(seq(|items|, i requires 0 <= i < |items| => MakeHashableDeep(items[i])))
    case Tuple(items) => Tuple(seq(|items|, i requires 0 <= i < |items| => MakeHashableDeep(items[i])))
    case Set(elems) => FrozenSet(set x | x in elems :: MakeHashableDeep(x))
    case FrozenSet(elems) => FrozenSet(set x | x in elems :: MakeHashableDeep(x))
    case Dict(entries) =>
      FrozenSet(set k | k in entries :: EntryPair(MakeHashableDeep(k), MakeHashableDeep(entries[k])))
    case _ => v
  }

  lemma {:induction false} MakeHashableDeepIsHashable(v: Value)
    ensures Hashable(MakeHashableDeep(v))
  {
    match v
    case List(items) =>
      forall i | 0 <= i < |items| ensures Hashable(MakeHashableDeep(items[i])) {
        MakeHashableDeepIsHashable(items[i]);
      }
    case Tuple(items) =>
      forall i | 0 <= i < |items| ensures Hashable(MakeHashableDeep(items[i])) {
        MakeHashableDeepIsHashable(items[i]);
      }
    case Set(elems) =>
      forall x | x in elems ensures Hashable(MakeHashableDeep(x)) {
        MakeHashableDeepIsHashable(x);
      }
    case FrozenSet(elems) =>
      forall x | x in elems ensures Hashable(MakeHashableDeep(x)) {
        MakeHashableDeepIsHashable(x);
      }
    case Dict(entries) =>
      forall k | k in entries
        ensures Hashable(EntryPair(MakeHashableDeep(k), MakeHashableDeep(entries[k])))
      {
        MakeHashableDeepIsHashable(k);
        MakeHashableDeepIsHashable(entries[k]);
      }
    case _ =>
  }

  /** The deep conversion leaves hashable values as they are. */
  lemma {:induction false} MakeHashableDeepFixesHashable(v: Value)
    requires Hashable(v)
    ensures MakeHashableDeep(v) == v
  {
    match v
    case Tuple(items) =>
      forall i | 0 <= i < |items| ensures MakeHashableDeep(items[i]) == items[i] {
        MakeHashableDeepFixesHashable(items[i]);
      }
      assert MakeHashableDeep(v).items == items;
    case FrozenSet(elems) =>
      forall x | x in elems ensures MakeHashableDeep(x) == x {
        MakeHashableDeepFixesHashable(x);
      }
      assert MakeHashableDeep(v).elems == elems;
    case _ =>
  }

  lemma MakeHashableDeepIdempotent(v: Value)
    ensures MakeHashableDeep(MakeHashableDeep(v)) == MakeHashableDeep(v)
  {
    MakeHashableDeepIsHashable(v);
    MakeHashableDeepFixesHashable(MakeHashableDeep(v));
  }

  /** On the inputs for which the original is already right, both agree. */
  lemma {:induction false} MakeHashableDeepAgrees(v: Value)
    requires ImmutablePartsHashable(v)
    ensures MakeHashableDeep(v) == MakeHashable(v)
  {
    match v
    case List(items) =>
      forall i | 0 <= i < |items| ensures MakeHashableDeep(items[i]) == MakeHashable(items[i]) {
        MakeHashableDeepAgrees(items[i]);
      }
      assert MakeHashableDeep(v).items == MakeHashable(v).items;
    case Set(elems) =>
      forall x | x in elems ensures MakeHashableDeep(x) == MakeHashable(x) {
        MakeHashableDeepAgrees(x);
      }
      assert MakeHashableDeep(v).elems == MakeHashable(v).elems;
    case Dict(entries) =>
      forall k | k in entries
        ensures MakeHashableDeep(k) == MakeHashable(k)
        ensures MakeHashableDeep(entries[k]) == MakeHashable(entries[k])
      {
        MakeHashableDeepAgrees(k);
        MakeHashableDeepAgrees(entries[k]);
      }
      assert MakeHashableDeep(v).elems == MakeHashable(v).elems;
    case Tuple(_) =>
      MakeHashableDeepFixesHashable(v);
    case FrozenSet(_) =>
      MakeHashableDeepFixesHashable(v);
    case _ =>
  }
}
