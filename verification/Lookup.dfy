/** Maps built from lists by key, where a later entry replaces an earlier one with the same key. */
module Lookup {
  import opened Bytes

  /** Where `key` stands last. */
  function LastIndex<K(==)>(keys: seq<K>, key: K): (r: Option<nat>)
    ensures r.None? <==> key !in keys
    ensures r.Some? ==> r.value < |keys| && keys[r.value] == key
    ensures r.Some? ==> forall j :: r.value < j < |keys| ==> keys[j] != key
  {
    if keys == [] then None
    else if keys[|keys| - 1] == key then Some(|keys| - 1)
    else LastIndex(keys[..|keys| - 1], key)
  }

  function Find<K(==), V>(keys: seq<K>, values: seq<V>, key: K): Option<V>
    requires |keys| == |values|
  {
    var i := LastIndex(keys, key);
    if i.Some? then Some(values[i.value]) else None
  }

  ghost predicate Indexes<K(!new), V>(byKey: map<K, V>, keys: seq<K>, values: seq<V>) {
    |keys| == |values| && forall key :: if key in byKey then Find(keys, values, key) == Some(byKey[key])
                                        else Find(keys, values, key).None?
  }

  /** presetInputIndexByID and presetMapByID */
  method IndexBy<K(==,!new), V>(keys: seq<K>, values: seq<V>) returns (byKey: map<K, V>)
    requires |keys| == |values|
    ensures Indexes(byKey, keys, values)
  {
    byKey := map[];
    for i := 0 to |keys|
      invariant Indexes(byKey, keys[..i], values[..i])
    {
      OneMore(byKey, keys, values, i);
      byKey := byKey[keys[i] := values[i]];
    }
    assert keys[..|keys|] == keys && values[..|values|] == values;
  }

  lemma {:induction false} OneMore<K(!new), V>(byKey: map<K, V>, keys: seq<K>, values: seq<V>, i: nat)
    requires i < |keys| == |values| && Indexes(byKey, keys[..i], values[..i])
    ensures Indexes(byKey[keys[i] := values[i]], keys[..i + 1], values[..i + 1])
  {
    var after := byKey[keys[i] := values[i]];
    assert keys[..i + 1][..i] == keys[..i];
    forall key
      ensures if key in after then Find(keys[..i + 1], values[..i + 1], key) == Some(after[key])
              else Find(keys[..i + 1], values[..i + 1], key).None?
    {
    }
  }

  /** No key stands twice. */
  predicate Distinct<K(==)>(keys: seq<K>) {
    forall i, j :: 0 <= i < j < |keys| ==> keys[i] != keys[j]
  }

  lemma {:induction false} SameIndex<K>(keys: seq<K>, i: nat, j: nat)
    requires Distinct(keys) && i < |keys| && j < |keys| && keys[i] == keys[j]
    ensures i == j
  {
  }

  lemma {:induction false} DistinctSnoc<K>(keys: seq<K>, key: K)
    ensures Distinct(keys + [key]) <==> Distinct(keys) && key !in keys
  {
    var more := keys + [key];
    assert forall i :: 0 <= i < |keys| ==> more[i] == keys[i];
    assert more[|keys|] == key;
    if key in keys {
      var i :| 0 <= i < |keys| && keys[i] == key;
      assert more[i] == more[|keys|];
    }
  }

  lemma {:induction false} FindsOwn<K, V>(keys: seq<K>, values: seq<V>, i: nat)
    requires i < |keys| == |values| && Distinct(keys)
    ensures Find(keys, values, keys[i]) == Some(values[i])
  {
  }
}
