/** Keys that are handed out, dropped and handed out again: `IdMap` (fpp_core/src/map.rs). */
module Handles {

  /** The items by key, the next key never used, and the stack of keys that were dropped. */
  datatype Ids<V> = Ids(store: map<nat, V>, current: nat, dropped: seq<nat>) {

    /** Live and dropped keys partition the keys below `current`, and none is dropped twice. */
    ghost predicate Valid() {
      && (forall k: nat :: k in store || k in dropped <==> k < current)
      && (forall k :: k in store ==> k !in dropped)
      && AreDistinct(dropped)
      && |store.Keys| + |dropped| == current
    }

    function NextKey(): nat {
      if dropped == [] then current else dropped[|dropped| - 1]
    }

    function Push(v: V): Ids<V> {
      Ids(store[NextKey() := v],
          if dropped == [] then current + 1 else current,
          if dropped == [] then [] else dropped[..|dropped| - 1])
    }

    function Drop(keys: seq<nat>): Ids<V> {
      Ids(store - Elements(keys), current, dropped + keys)
    }
  }

  /** No key is handed out while it is in use. */
  lemma PushIsFresh<V>(ids: Ids<V>, v: V)
    requires ids.Valid()
    ensures ids.NextKey() !in ids.store
    ensures ids.Push(v).Valid()
  {
    var key, next := ids.NextKey(), ids.Push(v);
    assert next.store.Keys == ids.store.Keys + {key};
    if ids.dropped == [] {
      assert key !in ids.store;
    } else {
      LastIsApart(ids.dropped);
      assert key in ids.dropped;
      assert forall k: nat :: k in next.store <==> k in ids.store || k == key;
    }
  }

  lemma LastIsApart(keys: seq<nat>)
    requires keys != [] && AreDistinct(keys)
    ensures var rest, last := keys[..|keys| - 1], keys[|keys| - 1];
            AreDistinct(rest) && last !in rest && forall k: nat :: k in keys <==> k in rest || k == last
  {
    assert keys == keys[..|keys| - 1] + [keys[|keys| - 1]];
  }

  ghost predicate AreDistinct(keys: seq<nat>) {
    forall i, j :: 0 <= i < j < |keys| ==> keys[i] != keys[j]
  }

  /** Whether each key can be dropped. */
  ghost predicate AreLive<V>(keys: seq<nat>, ids: Ids<V>) {
    AreDistinct(keys) && forall k :: k in keys ==> k in ids.store.Keys
  }

  function Elements(keys: seq<nat>): (s: set<nat>)
    ensures forall k :: k in s <==> k in keys
  {
    set k | k in keys
  }

  lemma {:induction false} DistinctSize(keys: seq<nat>)
    requires AreDistinct(keys)
    ensures |Elements(keys)| == |keys|
  {
    if keys != [] {
      var init, last := keys[..|keys| - 1], keys[|keys| - 1];
      DistinctSize(init);
      assert keys == init + [last];
      assert last !in init;
      assert Elements(keys) == Elements(init) + {last};
    }
  }

  lemma RemovalSize(all: set<nat>, keys: set<nat>)
    requires keys <= all
    ensures |all - keys| == |all| - |keys|
  {
    assert all == keys + (all - keys);
  }

  lemma AppendDistinct(a: seq<nat>, b: seq<nat>)
    requires AreDistinct(a) && AreDistinct(b) && forall k :: k in b ==> k !in a
    ensures AreDistinct(a + b)
  {
    forall i, j | 0 <= i < j < |a + b|
      ensures (a + b)[i] != (a + b)[j]
    {
      if i < |a| <= j {
        assert (a + b)[j] == b[j - |a|] && b[j - |a|] in b;
        assert a[i] in a;
      }
    }
  }

  lemma DropIsValid<V>(ids: Ids<V>, keys: seq<nat>)
    requires ids.Valid() && AreLive(keys, ids)
    ensures ids.Drop(keys).Valid()
    ensures |ids.Drop(keys).store.Keys| == |ids.store.Keys| - |keys|
  {
    hide AreDistinct;
    DistinctSize(keys);
    RemovalSize(ids.store.Keys, Elements(keys));
    assert ids.Drop(keys).store.Keys == ids.store.Keys - Elements(keys);
    AppendDistinct(ids.dropped, keys);
    ValidWhen(ids, keys);
  }

  lemma ValidWhen<V>(ids: Ids<V>, keys: seq<nat>)
    requires ids.Valid() && AreLive(keys, ids)
    requires AreDistinct(ids.dropped + keys)
    requires |ids.Drop(keys).store.Keys| == |ids.store.Keys| - |keys|
    ensures ids.Drop(keys).Valid()
  {
    assert forall k :: k in ids.dropped + keys <==> k in ids.dropped || k in keys;
  }

  // ---- Every run --------------------------------------------------------------------

  datatype Op<V> = Add(v: V) | Remove(keys: seq<nat>)

  function Run<V>(ops: seq<Op<V>>): Ids<V> {
    if ops == [] then
      Ids(map[], 0, [])
    else
      var ids := Run(ops[..|ops| - 1]);
      match ops[|ops| - 1]
      case Add(v) => ids.Push(v)
      case Remove(keys) => ids.Drop(keys)
  }

  /** Whether only items that are held are removed, each once. */
  ghost predicate IsLegal<V>(ops: seq<Op<V>>) {
    ops != [] ==>
      && IsLegal(ops[..|ops| - 1])
      && (ops[|ops| - 1].Remove? ==> AreLive(ops[|ops| - 1].keys, Run(ops[..|ops| - 1])))
  }

  /** The most items ever held at once. */
  function Peak<V>(ops: seq<Op<V>>): nat {
    if ops == [] then
      0
    else
      var before := Peak(ops[..|ops| - 1]);
      if before < |Run(ops).store.Keys| then |Run(ops).store.Keys| else before
  }

  /** The keys stay packed: over every run, as many keys have been made as were ever needed at once. */
  lemma {:induction false} KeysArePacked<V>(ops: seq<Op<V>>)
    requires IsLegal(ops)
    ensures Run(ops).Valid() && Run(ops).current == Peak(ops)
  {
    hide Ids.Valid;
    if ops == [] {
      NothingHeld<V>();
    } else {
      var init, ids := ops[..|ops| - 1], Run(ops[..|ops| - 1]);
      KeysArePacked(init);
      HeldIsBounded(init);
      match ops[|ops| - 1]
      case Add(v) =>
        PushIsFresh(ids, v);
        PushSize(ids, v);
      case Remove(keys) =>
        DropIsValid(ids, keys);
    }
  }

  lemma NothingHeld<V>()
    ensures Run<V>([]).Valid()
  {
  }

  lemma HeldIsBounded<V>(ops: seq<Op<V>>)
    ensures |Run(ops).store.Keys| <= Peak(ops)
  {
    if ops == [] {
      assert Run(ops).store.Keys == {};
    }
  }

  lemma PushSize<V>(ids: Ids<V>, v: V)
    requires ids.Valid()
    ensures |ids.Push(v).store.Keys| == |ids.store.Keys| + 1
    ensures ids.Push(v).current == if ids.current < |ids.store.Keys| + 1 then ids.current + 1 else ids.current
  {
    PushIsFresh(ids, v);
    assert ids.Push(v).store.Keys == ids.store.Keys + {ids.NextKey()};
  }

  // ---- The map ------------------------------------------------------------------------

  class IdMap<V> {
    var store: map<nat, V>
    var current: nat
    var dropped: seq<nat>

    ghost function View(): Ids<V>
      reads this
    {
      Ids(store, current, dropped)
    }

    constructor ()
      ensures View() == Ids(map[], 0, []) && View().Valid()
    {
      store, current, dropped := map[], 0, [];
    }

    method NewKey() returns (key: nat)
      modifies `current, `dropped
      ensures key == old(View()).NextKey()
      ensures current == if old(dropped) == [] then old(current) + 1 else old(current)
      ensures dropped == if old(dropped) == [] then [] else old(dropped)[..|old(dropped)| - 1]
    {
      if dropped == [] {
        key := current;
        current := current + 1;
      } else {
        key := dropped[|dropped| - 1];
        dropped := dropped[..|dropped| - 1];
      }
    }

    /** The map never panics over a key that is in use. */
    method Push(v: V) returns (key: nat)
      requires View().Valid()
      modifies this
      ensures View() == old(View()).Push(v) && View().Valid()
      ensures key == old(View()).NextKey() && key !in old(store)
    {
      PushIsFresh(View(), v);
      key := NewKey();
      assert key !in store;
      store := store[key := v];
    }

    method PushWith(f: nat -> V) returns (key: nat)
      requires View().Valid()
      modifies this
      ensures View() == old(View()).Push(f(key)) && View().Valid()
      ensures key == old(View()).NextKey() && key !in old(store)
    {
      PushIsFresh(View(), f(View().NextKey()));
      key := NewKey();
      assert key !in store;
      store := store[key := f(key)];
    }

    /** The items are visited in an unspecified order, in which their keys are dropped. */
    method ExtractIf(p: (nat, V) -> bool) returns (keys: seq<nat>)
      requires View().Valid()
      modifies this
      ensures View() == old(View()).Drop(keys) && View().Valid()
      ensures AreDistinct(keys)
      ensures forall k :: k in keys <==> k in old(store) && p(k, old(store)[k])
    {
      keys := [];
      var all, unvisited := store, store.Keys;
      while unvisited != {}
        invariant unvisited <= all.Keys
        invariant AreDistinct(keys)
        invariant forall k: nat :: k in keys <==> k in all && k !in unvisited && p(k, all[k])
        decreases unvisited
      {
        var k :| k in unvisited;
        unvisited := unvisited - {k};
        if p(k, all[k]) {
          keys := keys + [k];
        }
      }
      assert forall k: nat :: k in keys <==> k in all && p(k, all[k]);
      DropIsValid(View(), keys);
      store, dropped := store - Elements(keys), dropped + keys;
    }
  }
}
