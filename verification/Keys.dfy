/** Maps filled by assignment in list order: the last occurrence of a key wins. */
module Keys {
  import opened Base

  function FirstIndexOf<K(==)>(keys: seq<K>, key: K): (r: Option<nat>)
    ensures r.None? <==> key !in keys
    ensures r.Some? ==> r.value < |keys| && keys[r.value] == key && forall j :: 0 <= j < r.value ==> keys[j] != key
  {
    if keys == [] then None
    else if keys[0] == key then Some(0)
    else
      match FirstIndexOf(keys[1..], key)
      case None => None
      case Some(i) => Some(i + 1)
  }

  function LastIndexOf<K(==)>(keys: seq<K>, key: K): (r: Option<nat>)
    ensures r.None? <==> key !in keys
    ensures r.Some? ==> r.value < |keys| && keys[r.value] == key && forall j :: r.value < j < |keys| ==> keys[j] != key
  {
    if keys == [] then None
    else if keys[|keys| - 1] == key then Some(|keys| - 1)
    else LastIndexOf(keys[..|keys| - 1], key)
  }

  /** `m[keys[i]] = vals[i]` for i = 0, 1, ... */
  function LastMap<K(==), V>(keys: seq<K>, vals: seq<V>): map<K, V>
    requires |keys| == |vals|
  {
    if keys == [] then map[]
    else LastMap(keys[..|keys| - 1], vals[..|keys| - 1])[keys[|keys| - 1] := vals[|keys| - 1]]
  }

  lemma {:induction false} LastMapAppend<K, V>(keys: seq<K>, vals: seq<V>, key: K, val: V)
    requires |keys| == |vals|
    ensures LastMap(keys + [key], vals + [val]) == LastMap(keys, vals)[key := val]
  {
    assert (keys + [key])[..|keys|] == keys;
    assert (vals + [val])[..|keys|] == vals;
  }

  lemma {:induction false} LastMapLookup<K, V>(keys: seq<K>, vals: seq<V>, key: K)
    requires |keys| == |vals|
    ensures key in LastMap(keys, vals) <==> key in keys
    ensures key in keys ==> LastMap(keys, vals)[key] == vals[LastIndexOf(keys, key).value]
  {
    if keys != [] {
      LastMapLookup(keys[..|keys| - 1], vals[..|keys| - 1], key);
    }
  }

  /** `m[keys[i]] = i`. */
  function IndexMap<K(==)>(keys: seq<K>): map<K, int> {
    LastMap(keys, seq(|keys|, i => i))
  }

  lemma IndexMapAppend<K>(keys: seq<K>, key: K)
    ensures IndexMap(keys + [key]) == IndexMap(keys)[key := |keys|]
  {
    assert seq(|keys| + 1, i => i) == seq(|keys|, i => i) + [|keys|];
    LastMapAppend(keys, seq(|keys|, i => i), key, |keys|);
  }

  /** The index map holds the last occurrence; it is also the first one exactly when the key is not repeated. */
  lemma {:induction false} IndexMapLookup<K>(keys: seq<K>, key: K)
    ensures key in IndexMap(keys) <==> key in keys
    ensures key in keys ==> IndexMap(keys)[key] == LastIndexOf(keys, key).value
    ensures key in keys ==>
              (IndexMap(keys)[key] == FirstIndexOf(keys, key).value <==> Once(keys, key))
  {
    LastMapLookup(keys, seq(|keys|, i => i), key);
  }

  ghost predicate Once<K>(keys: seq<K>, key: K) {
    && key in keys
    && forall i, j :: 0 <= i < |keys| && 0 <= j < |keys| && keys[i] == key && keys[j] == key ==> i == j
  }

  ghost predicate Distinct<K>(keys: seq<K>) {
    forall i, j :: 0 <= i < |keys| && 0 <= j < |keys| && keys[i] == keys[j] ==> i == j
  }

  /** The last occurrence is the one behind which there is no other. */
  lemma {:induction false} LastOccurrence<K>(keys: seq<K>, key: K, i: nat)
    requires i < |keys| && keys[i] == key && forall j :: i < j < |keys| ==> keys[j] != key
    ensures LastIndexOf(keys, key) == Some(i)
  {
  }

  lemma {:induction false} FirstIsLast<K>(keys: seq<K>, key: K)
    requires key in keys
    ensures FirstIndexOf(keys, key) == LastIndexOf(keys, key) <==> Once(keys, key)
  {
  }

  lemma {:induction false} DistinctLookup<K, V>(keys: seq<K>, vals: seq<V>, i: nat)
    requires |keys| == |vals| && i < |keys| && Distinct(keys)
    ensures keys[i] in LastMap(keys, vals) && LastMap(keys, vals)[keys[i]] == vals[i]
  {
    LastMapLookup(keys, vals, keys[i]);
  }
}
