/**
 * Python dictionaries: association lists that keep insertion order, where
 * assigning to an existing key updates its value in place.
 */
module Ordered {

  import opened Wrappers

  type Dict<K, V> = seq<(K, V)>

  function Keys<K, V>(d: Dict<K, V>): (r: seq<K>)
    ensures |r| == |d| && forall i :: 0 <= i < |d| ==> r[i] == d[i].0
  {
    seq(|d|, i requires 0 <= i < |d| => d[i].0)
  }

  function Values<K, V>(d: Dict<K, V>): (r: seq<V>)
    ensures |r| == |d| && forall i :: 0 <= i < |d| ==> r[i] == d[i].1
  {
    seq(|d|, i requires 0 <= i < |d| => d[i].1)
  }

  predicate HasKey<K(==), V>(d: Dict<K, V>, k: K)
  {
    k in Keys(d)
  }

  /** `d.get(k)`: the value stored under the first entry with key `k`. */
  function Get<K(==), V>(d: Dict<K, V>, k: K): (r: Option<V>)
    ensures r.Some? <==> HasKey(d, k)
    ensures r.Some? ==> exists i :: 0 <= i < |d| && d[i] == (k, r.value)
  {
    if d == [] then None
    else if d[0].0 == k then Some(d[0].1)
    else
      var r := Get(d[1..], k);
      assert Keys(d) == [d[0].0] + Keys(d[1..]);
      if r.Some? then
        assert exists i :: 0 <= i < |d[1..]| && d[1..][i] == (k, r.value);
        r
      else r
  }

  function GetOr<K(==), V>(d: Dict<K, V>, k: K, default: V): V
  {
    match Get(d, k)
    case Some(v) => v
    case None => default
  }

  /** `d[k] = v`: an existing key keeps its position, a new key goes last. */
  function Put<K(==), V>(d: Dict<K, V>, k: K, v: V): (r: Dict<K, V>)
    ensures Keys(r) == if HasKey(d, k) then Keys(d) else Keys(d) + [k]
  {
    if d == [] then [(k, v)]
    else if d[0].0 == k then [(k, v)] + d[1..]
    else
      assert Keys(d) == [d[0].0] + Keys(d[1..]);
      var r := [d[0]] + Put(d[1..], k, v);
      assert Keys(r) == [d[0].0] + Keys(Put(d[1..], k, v));
      r
  }

  lemma {:induction false} GetPutSame<K, V>(d: Dict<K, V>, k: K, v: V)
    ensures Get(Put(d, k, v), k) == Some(v)
  {
    if d != [] && d[0].0 != k {
      GetPutSame(d[1..], k, v);
      assert Put(d, k, v)[1..] == Put(d[1..], k, v);
    }
  }

  lemma {:induction false} GetPutOther<K, V>(d: Dict<K, V>, k: K, v: V, k': K)
    requires k' != k
    ensures Get(Put(d, k, v), k') == Get(d, k')
  {
    if d != [] && d[0].0 != k {
      GetPutOther(d[1..], k, v, k');
      assert Put(d, k, v)[1..] == Put(d[1..], k, v);
    } else if d != [] {
      assert Put(d, k, v)[1..] == d[1..];
    }
  }

  /** `d.update(other)`: every entry of `other`, in order, assigned into `d`. */
  function Update<K(==), V>(d: Dict<K, V>, other: Dict<K, V>): Dict<K, V>
    decreases |other|
  {
    if other == [] then d else Update(Put(d, other[0].0, other[0].1), other[1..])
  }

  /** No key appears twice, as in every Python dictionary. */
  predicate Distinct<K(==), V>(d: Dict<K, V>)
  {
    forall i, j :: 0 <= i < j < |d| ==> d[i].0 != d[j].0
  }

  /** After `d.update(other)` the keys of `other` read their value from `other`. */
  lemma {:induction false} UpdateOverrides<K, V>(d: Dict<K, V>, other: Dict<K, V>, k: K)
    requires Distinct(other)
    ensures Get(Update(d, other), k) == if HasKey(other, k) then Get(other, k) else Get(d, k)
    decreases |other|
  {
    if other != [] {
      var k0, v0 := other[0].0, other[0].1;
      var rest := other[1..];
      assert Keys(other) == [k0] + Keys(rest);
      assert Distinct(rest);
      assert Update(d, other) == Update(Put(d, k0, v0), rest);
      UpdateOverrides(Put(d, k0, v0), rest, k);
      if k == k0 {
        GetPutSame(d, k0, v0);
        assert !HasKey(rest, k);
      } else {
        GetPutOther(d, k0, v0, k);
      }
    }
  }

  /** After `d[k] = v` every entry is an entry of `d` or the new one. */
  lemma {:induction false} PutEntries<K, V>(d: Dict<K, V>, k: K, v: V)
    ensures forall i :: 0 <= i < |Put(d, k, v)| ==> Put(d, k, v)[i] in d || Put(d, k, v)[i] == (k, v)
  {
    if d != [] && d[0].0 != k {
      PutEntries(d[1..], k, v);
    }
  }

  /** `{k: f(k) for k in keys}` */
  function Tabulate<K, V>(keys: seq<K>, f: K -> V): (r: Dict<K, V>)
    ensures Keys(r) == keys
    ensures forall i :: 0 <= i < |r| ==> r[i].1 == f(keys[i])
  {
    if keys == [] then []
    else Tabulate(keys[..|keys| - 1], f) + [(keys[|keys| - 1], f(keys[|keys| - 1]))]
  }

  /** A tabulated dictionary reads back `f(k)` for every listed key and nothing for the others. */
  lemma TabulateGet<K, V>(keys: seq<K>, f: K -> V, k: K)
    ensures Get(Tabulate(keys, f), k) == if k in keys then Some(f(k)) else None
  {
    var d := Tabulate(keys, f);
    if k in keys {
      var i :| 0 <= i < |d| && d[i] == (k, Get(d, k).value);
    }
  }

  /** Looking a key up after one more entry: earlier entries win. */
  lemma {:induction false} GetAppend<K, V>(d: Dict<K, V>, k: K, v: V, key: K)
    ensures Get(d + [(k, v)], key) == if HasKey(d, key) then Get(d, key) else if k == key then Some(v) else None
  {
    if d != [] {
      assert (d + [(k, v)])[1..] == d[1..] + [(k, v)];
      assert Keys(d) == [d[0].0] + Keys(d[1..]);
      GetAppend(d[1..], k, v, key);
    }
  }
}
