/**
 * A JavaScript `Map` as its list of entries in insertion order, the order in
 * which `values()` and `for ... of` visit it. `Set` and `Delete` are `map.set`
 * and `map.delete`; `ToMap` forgets the order. `Distinct` is
 * `Array.from(new Set(xs))`, where equality of the element type stands for
 * JavaScript's SameValueZero (identity for objects).
 */
module JsMap {

  /** Index of the entry whose key is k, or |e| when there is none. */
  function Find<K(==), V>(e: seq<(K, V)>, k: K): (i: nat)
    ensures i <= |e|
    ensures i < |e| ==> e[i].0 == k
    ensures forall j :: 0 <= j < i ==> e[j].0 != k
  {
    if e == [] then 0
    else if e[0].0 == k then 0
    else 1 + Find(e[1..], k)
  }

  /** `map.has(k)` */
  predicate Has<K(==), V>(e: seq<(K, V)>, k: K) {
    Find(e, k) < |e|
  }

  /** A Map never holds two entries with the same key. */
  predicate UniqueKeys<K(==), V>(e: seq<(K, V)>) {
    forall i, j :: 0 <= i < |e| && 0 <= j < |e| && i != j ==> e[i].0 != e[j].0
  }

  /** The key-to-value function the entries denote. */
  function ToMap<K(==), V>(e: seq<(K, V)>): map<K, V> {
    if e == [] then map[] else ToMap(e[1..])[e[0].0 := e[0].1]
  }

  /** The keys in insertion order. */
  function Keys<K(==), V>(e: seq<(K, V)>): seq<K> {
    if e == [] then [] else [e[0].0] + Keys(e[1..])
  }

  /** `map.values()`, in insertion order. */
  function Values<K(==), V>(e: seq<(K, V)>): seq<V> {
    if e == [] then [] else [e[0].1] + Values(e[1..])
  }

  /** `map.set(k, v)`: an existing key keeps its place and takes the new value; a new key goes last. */
  function Set<K(==), V>(e: seq<(K, V)>, k: K, v: V): seq<(K, V)> {
    var i := Find(e, k);
    if i < |e| then e[i := (k, v)] else e + [(k, v)]
  }

  /** `map.delete(k)`: removes the entry of k, if there is one. */
  function Delete<K(==), V>(e: seq<(K, V)>, k: K): seq<(K, V)> {
    var i := Find(e, k);
    if i < |e| then e[..i] + e[i + 1..] else e
  }

  predicate NoDuplicates<T(==)>(s: seq<T>) {
    forall i, j :: 0 <= i < |s| && 0 <= j < |s| && i != j ==> s[i] != s[j]
  }

  /** `Array.from(new Set(s))`: every element of s once, at the place of its first occurrence. */
  function Distinct<T(==)>(s: seq<T>): (r: seq<T>)
    ensures NoDuplicates(r)
    ensures forall i :: 0 <= i < |s| ==> s[i] in r
    ensures forall i :: 0 <= i < |r| ==> r[i] in s
    ensures |r| <= |s|
  {
    if s == [] then []
    else
      var init := s[..|s| - 1];
      assert s == init + [s[|s| - 1]];
      var d := Distinct(init);
      if s[|s| - 1] in d then d else d + [s[|s| - 1]]
  }

  lemma {:induction false} HasIffInMap<K, V>(e: seq<(K, V)>, k: K)
    ensures Has(e, k) <==> k in ToMap(e)
  {
    if e != [] && e[0].0 != k {
      HasIffInMap(e[1..], k);
    }
  }

  /** Unlike a plain `map`, the keys of a Map are its entries' keys. */
  lemma {:induction false} ToMapKeys<K, V>(e: seq<(K, V)>)
    ensures ToMap(e).Keys == set i | 0 <= i < |e| :: e[i].0
  {
    if e != [] {
      ToMapKeys(e[1..]);
      var rest := set i | 0 <= i < |e[1..]| :: e[1..][i].0;
      assert (set i | 0 <= i < |e| :: e[i].0) == rest + {e[0].0} by {
        forall x | x in rest ensures x in (set i | 0 <= i < |e| :: e[i].0) {
          var i :| 0 <= i < |e[1..]| && e[1..][i].0 == x;
          assert e[i + 1].0 == x;
        }
      }
    }
  }

  /** With unique keys, every entry is what the map holds for its key. */
  lemma {:induction false} ToMapAt<K, V>(e: seq<(K, V)>, i: nat)
    requires UniqueKeys(e) && i < |e|
    ensures e[i].0 in ToMap(e) && ToMap(e)[e[i].0] == e[i].1
  {
    if i > 0 {
      UniqueKeysTail(e);
      ToMapAt(e[1..], i - 1);
      assert e[0].0 != e[i].0;
    }
  }

  /** `keys()` and `values()` list the entries' keys and values, one per entry, in insertion order. */
  lemma {:induction false} KeysAndValues<K, V>(e: seq<(K, V)>)
    ensures |Keys(e)| == |e| && |Values(e)| == |e|
    ensures forall i :: 0 <= i < |e| ==> Keys(e)[i] == e[i].0 && Values(e)[i] == e[i].1
  {
    if e != [] {
      KeysAndValues(e[1..]);
    }
  }

  /** `set` updates the key-to-value function at k and nothing else. */
  lemma {:induction false} SetToMap<K, V>(e: seq<(K, V)>, k: K, v: V)
    ensures ToMap(Set(e, k, v)) == ToMap(e)[k := v]
  {
    if e != [] && e[0].0 != k {
      SetToMap(e[1..], k, v);
      assert Find(e, k) == 1 + Find(e[1..], k);
      assert Set(e, k, v) == [e[0]] + Set(e[1..], k, v);
      assert (ToMap(e[1..])[k := v])[e[0].0 := e[0].1] == (ToMap(e[1..])[e[0].0 := e[0].1])[k := v];
    }
  }

  /** `set` keeps the order of the keys, appending k when it is new. */
  lemma {:induction false} SetKeys<K, V>(e: seq<(K, V)>, k: K, v: V)
    ensures Keys(Set(e, k, v)) == if Has(e, k) then Keys(e) else Keys(e) + [k]
  {
    if e == [] {
    } else if e[0].0 == k {
      assert Set(e, k, v) == [(k, v)] + e[1..];
    } else {
      SetKeys(e[1..], k, v);
      assert Find(e, k) == 1 + Find(e[1..], k);
      assert Set(e, k, v) == [e[0]] + Set(e[1..], k, v);
    }
  }

  lemma SetUniqueKeys<K, V>(e: seq<(K, V)>, k: K, v: V)
    requires UniqueKeys(e)
    ensures UniqueKeys(Set(e, k, v))
  {
  }

  lemma UniqueKeysTail<K, V>(e: seq<(K, V)>)
    requires UniqueKeys(e) && e != []
    ensures UniqueKeys(e[1..])
  {
    forall a, b | 0 <= a < |e[1..]| && 0 <= b < |e[1..]| && a != b
      ensures e[1..][a].0 != e[1..][b].0
    {
      assert e[1..][a] == e[a + 1] && e[1..][b] == e[b + 1];
    }
  }

  lemma DeleteUniqueKeys<K, V>(e: seq<(K, V)>, k: K)
    requires UniqueKeys(e)
    ensures UniqueKeys(Delete(e, k))
  {
    var i := Find(e, k);
    if i < |e| {
      var d := e[..i] + e[i + 1..];
      assert forall a :: 0 <= a < i ==> d[a] == e[a];
      assert forall a :: i <= a < |d| ==> d[a] == e[a + 1];
    }
  }

  lemma DeleteCons<K, V>(e: seq<(K, V)>, k: K)
    requires e != [] && e[0].0 != k
    ensures Delete(e, k) == [e[0]] + Delete(e[1..], k)
  {
    var i := Find(e[1..], k);
    assert Find(e, k) == 1 + i;
    if i < |e[1..]| {
      assert e[..i + 1] == [e[0]] + e[1..][..i];
      assert e[i + 2..] == e[1..][i + 1..];
    }
  }

  /** `delete` removes k from the key-to-value function and nothing else. */
  lemma {:induction false} DeleteToMap<K, V>(e: seq<(K, V)>, k: K)
    requires UniqueKeys(e)
    ensures UniqueKeys(Delete(e, k))
    ensures ToMap(Delete(e, k)) == ToMap(e) - {k}
  {
    DeleteUniqueKeys(e, k);
    if e != [] {
      UniqueKeysTail(e);
      if e[0].0 == k {
        assert Delete(e, k) == e[1..];
        HasIffInMap(e[1..], k);
        assert k !in ToMap(e[1..]);
      } else {
        DeleteToMap(e[1..], k);
        DeleteCons(e, k);
      }
    }
  }

  /** Deleting a key that is not there leaves the Map as it was. */
  lemma DeleteAbsent<K, V>(e: seq<(K, V)>, k: K)
    requires !Has(e, k)
    ensures Delete(e, k) == e
  {
  }

  /** With unique keys, the distinct values are exactly the values the map holds. */
  lemma {:induction false} DistinctValuesAreOnline<K, V>(e: seq<(K, V)>)
    requires UniqueKeys(e)
    ensures forall x :: x in Distinct(Values(e)) <==> x in ToMap(e).Values
  {
    KeysAndValues(e);
    forall x ensures x in Values(e) <==> x in ToMap(e).Values {
      if x in Values(e) {
        var i :| 0 <= i < |Values(e)| && Values(e)[i] == x;
        ToMapAt(e, i);
      }
      if x in ToMap(e).Values {
        var k :| k in ToMap(e) && ToMap(e)[k] == x;
        ToMapKeys(e);
        var i :| 0 <= i < |e| && e[i].0 == k;
        ToMapAt(e, i);
        assert Values(e)[i] == x;
      }
    }
  }

  /** When no value repeats (objects that are all different), the broadcast is the values in insertion order. */
  lemma {:induction false} DistinctOfDistinct<T>(s: seq<T>)
    requires NoDuplicates(s)
    ensures Distinct(s) == s
  {
    if s != [] {
      var init := s[..|s| - 1];
      DistinctOfDistinct(init);
      assert s[|s| - 1] !in init;
      assert s == init + [s[|s| - 1]];
    }
  }
}
