/**
 * An insertion-ordered dictionary, as Python's `dict` and JavaScript's `Map` are:
 * a sequence of key/value entries with pairwise distinct keys. Assigning to a key
 * that is present replaces its value where it stands; a new key goes at the end.
 */
module Dicts {
  import opened Wrappers

  type Dict<K, V> = seq<(K, V)>

  function Keys<K, V>(d: Dict<K, V>): (ks: seq<K>)
    ensures |ks| == |d| && forall i :: 0 <= i < |d| ==> ks[i] == d[i].0
  {
    if d == [] then [] else [d[0].0] + Keys(d[1..])
  }

  predicate UniqueKeys<K(==), V>(d: Dict<K, V>) {
    forall i, j :: 0 <= i < j < |d| ==> d[i].0 != d[j].0
  }

  predicate HasKey<K(==), V>(d: Dict<K, V>, k: K) {
    exists i :: 0 <= i < |d| && d[i].0 == k
  }

  /** Value of the first entry with key `k` (`dict.get(k)`). */
  function Get<K(==), V>(d: Dict<K, V>, k: K): (r: Option<V>)
    ensures r.None? <==> !HasKey(d, k)
    ensures r.Some? ==> exists i :: 0 <= i < |d| && d[i] == (k, r.value)
  {
    if d == [] then None
    else if d[0].0 == k then Some(d[0].1)
    else
      var r := Get(d[1..], k);
      assert r.Some? ==> exists i :: 0 <= i < |d[1..]| && d[1..][i] == (k, r.value);
      r
  }

  /** `d[k] = v`: replace the value in place when `k` is present, else append. */
  function Set<K(==), V>(d: Dict<K, V>, k: K, v: V): (r: Dict<K, V>)
    ensures HasKey(d, k) ==> |r| == |d|
    ensures !HasKey(d, k) ==> r == d + [(k, v)]
  {
    if d == [] then [(k, v)]
    else if d[0].0 == k then [(k, v)] + d[1..]
    else [d[0]] + Set(d[1..], k, v)
  }

  lemma {:induction false} GetSet<K, V>(d: Dict<K, V>, k: K, v: V, k': K)
    ensures Get(Set(d, k, v), k') == if k' == k then Some(v) else Get(d, k')
  {
    if d != [] && d[0].0 != k {
      GetSet(d[1..], k, v, k');
    }
  }

  /** With distinct keys, assigning to a present key overwrites exactly its entry. */
  lemma {:induction false} SetAt<K, V>(d: Dict<K, V>, k: K, v: V, j: nat)
    requires UniqueKeys(d) && j < |d| && d[j].0 == k
    ensures Set(d, k, v) == d[j := (k, v)]
  {
    if j > 0 {
      assert d[0].0 != k;
      SetAt(d[1..], k, v, j - 1);
      assert d[j := (k, v)] == [d[0]] + d[1..][j - 1 := (k, v)];
    }
  }

  /** Assigning keeps the keys distinct and adds exactly `k` to the key set. */
  lemma SetKeepsUnique<K, V>(d: Dict<K, V>, k: K, v: V)
    requires UniqueKeys(d)
    ensures UniqueKeys(Set(d, k, v))
    ensures forall k' :: HasKey(Set(d, k, v), k') <==> HasKey(d, k') || k' == k
  {
    var r := Set(d, k, v);
    if HasKey(d, k) {
      var j :| 0 <= j < |d| && d[j].0 == k;
      SetAt(d, k, v, j);
      assert forall i :: 0 <= i < |d| ==> r[i].0 == d[i].0;
    } else {
      assert r[|d|].0 == k;
      forall k' | HasKey(r, k') ensures HasKey(d, k') || k' == k {
        var i :| 0 <= i < |r| && r[i].0 == k';
        if i < |d| {
          assert d[i].0 == k';
        }
      }
      forall k' | HasKey(d, k') ensures HasKey(r, k') {
        var i :| 0 <= i < |d| && d[i].0 == k';
        assert r[i].0 == k';
      }
    }
  }

  /** Assigning the value a key already has changes nothing. */
  lemma {:induction false} SetSame<K, V>(d: Dict<K, V>, k: K, v: V)
    requires Get(d, k) == Some(v)
    ensures Set(d, k, v) == d
  {
    if d[0].0 != k {
      SetSame(d[1..], k, v);
    }
  }

  /** Assigning the same entry twice is the same as assigning it once. */
  lemma SetTwice<K, V>(d: Dict<K, V>, k: K, v: V)
    ensures Set(Set(d, k, v), k, v) == Set(d, k, v)
  {
    GetSet(d, k, v, k);
    SetSame(Set(d, k, v), k, v);
  }

  /** After an assignment every entry is an old entry or the assigned one. */
  lemma {:induction false} SetEntries<K, V>(d: Dict<K, V>, k: K, v: V)
    ensures forall e :: e in Set(d, k, v) ==> e in d || e == (k, v)
  {
    if d != [] && d[0].0 != k {
      SetEntries(d[1..], k, v);
    }
  }

  /** Looking up in a dictionary extended by a new key at its end. */
  lemma GetLast<K, V>(d: Dict<K, V>, k: K, v: V, key: K)
    requires !HasKey(d, k)
    ensures Get(d + [(k, v)], key) == if key == k then Some(v) else Get(d, key)
  {
    GetSet(d, k, v, key);
  }

  /** With distinct keys, the value found for an entry's key is that entry's value. */
  lemma GetEntry<K, V>(d: Dict<K, V>, i: nat)
    requires UniqueKeys(d) && i < |d|
    ensures Get(d, d[i].0) == Some(d[i].1)
  {
    var j :| 0 <= j < |d| && d[j] == (d[i].0, Get(d, d[i].0).value);
  }
}
