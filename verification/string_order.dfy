/**
 * Python's ordering of strings (code point by code point, a proper prefix first)
 * and `sorted(d.items())` over a dictionary, whose keys are distinct so that the
 * items are ordered by key alone.
 */
module StringOrder {
  import opened Dicts

  /** `a <= b` in Python's string order. */
  predicate LessEq(a: string, b: string) {
    a == [] || (b != [] && (a[0] < b[0] || (a[0] == b[0] && LessEq(a[1..], b[1..]))))
  }

  lemma {:induction false} LessEqTotal(a: string, b: string)
    ensures LessEq(a, b) || LessEq(b, a)
  {
    if a != [] && b != [] && a[0] == b[0] {
      LessEqTotal(a[1..], b[1..]);
    }
  }

  lemma {:induction false} LessEqTrans(a: string, b: string, c: string)
    requires LessEq(a, b) && LessEq(b, c)
    ensures LessEq(a, c)
  {
    if a != [] && b != [] && c != [] && a[0] == b[0] && b[0] == c[0] {
      LessEqTrans(a[1..], b[1..], c[1..]);
    }
  }

  lemma {:induction false} LessEqAntisym(a: string, b: string)
    requires LessEq(a, b) && LessEq(b, a)
    ensures a == b
  {
    if a != [] && b != [] {
      LessEqAntisym(a[1..], b[1..]);
      assert a == [a[0]] + a[1..];
      assert b == [b[0]] + b[1..];
    }
  }

  predicate SortedByKey<V>(s: seq<(string, V)>) {
    forall i, j :: 0 <= i < j < |s| ==> LessEq(s[i].0, s[j].0)
  }

  /** Insert `x` into a key-sorted sequence, after every entry whose key is not above it. */
  function Insert<V>(x: (string, V), s: seq<(string, V)>): (r: seq<(string, V)>)
    requires SortedByKey(s)
    ensures |r| == |s| + 1
    ensures SortedByKey(r)
    ensures multiset(r) == multiset(s) + multiset{x}
    ensures forall i :: 0 <= i < |r| ==> r[i] == x || r[i] in s
  {
    if s == [] then [x]
    else if LessEq(x.0, s[0].0) then
      assert forall j :: 0 < j < |s| ==> LessEq(x.0, s[j].0) by {
        forall j | 0 < j < |s| ensures LessEq(x.0, s[j].0) {
          LessEqTrans(x.0, s[0].0, s[j].0);
        }
      }
      ConsSorted(x, s);
      [x] + s
    else
      var t := Insert(x, s[1..]);
      LessEqTotal(x.0, s[0].0);
      assert s == [s[0]] + s[1..];
      assert forall i :: 0 <= i < |t| ==> LessEq(s[0].0, t[i].0);
      ConsSorted(s[0], t);
      [s[0]] + t
  }

  /** An entry whose key is not above any key of a sorted sequence can go in front. */
  lemma ConsSorted<V>(h: (string, V), t: seq<(string, V)>)
    requires SortedByKey(t) && forall i :: 0 <= i < |t| ==> LessEq(h.0, t[i].0)
    ensures SortedByKey([h] + t)
  {
    var r := [h] + t;
    forall i, j | 0 <= i < j < |r| ensures LessEq(r[i].0, r[j].0) {
      assert r[j] == t[j - 1];
      if i > 0 {
        assert r[i] == t[i - 1];
      }
    }
  }

  /** `sorted(d.items())`: the entries in ascending key order, nothing added or lost. */
  function SortByKey<V>(s: seq<(string, V)>): (r: seq<(string, V)>)
    ensures |r| == |s|
    ensures SortedByKey(r)
    ensures multiset(r) == multiset(s)
  {
    if s == [] then []
    else
      assert s == [s[0]] + s[1..];
      Insert(s[0], SortByKey(s[1..]))
  }

  // ---------------------------------------------------------------- rank

  /** `a < b` in Python's string order. */
  predicate Below(a: string, b: string) {
    LessEq(a, b) && a != b
  }

  /** The number of entries whose key sorts strictly before `k`. */
  function CountBelow<V>(s: seq<(string, V)>, k: string): (n: nat)
    ensures n <= |s|
  {
    if s == [] then 0 else (if Below(s[0].0, k) then 1 else 0) + CountBelow(s[1..], k)
  }

  lemma {:induction false} CountBelowAppend<V>(a: seq<(string, V)>, b: seq<(string, V)>, k: string)
    ensures CountBelow(a + b, k) == CountBelow(a, k) + CountBelow(b, k)
  {
    if a == [] {
      assert a + b == b;
    } else {
      assert (a + b)[0] == a[0] && (a + b)[1..] == a[1..] + b;
      CountBelowAppend(a[1..], b, k);
    }
  }

  /** Reordering the entries does not change how many sort before `k`. */
  lemma {:induction false} CountBelowPerm<V>(a: seq<(string, V)>, b: seq<(string, V)>, k: string)
    requires multiset(a) == multiset(b)
    ensures CountBelow(a, k) == CountBelow(b, k)
    decreases |a|
  {
    if a == [] {
      assert |b| == |multiset(b)| == 0;
    } else {
      var j := MatchTail(a, b);
      var x, rest := a[0], b[..j] + b[j + 1..];
      CountBelowPerm(a[1..], rest, k);
      var one := if Below(x.0, k) then 1 else 0;
      assert CountBelow(a, k) == one + CountBelow(rest, k);
      assert b == b[..j] + ([x] + b[j + 1..]);
      CountBelowAppend(b[..j], [x] + b[j + 1..], k);
      assert CountBelow([x] + b[j + 1..], k) == one + CountBelow(b[j + 1..], k) by {
        assert ([x] + b[j + 1..])[1..] == b[j + 1..];
      }
      CountBelowAppend(b[..j], b[j + 1..], k);
    }
  }

  /** The first entry of `a` sits somewhere in its permutation `b`, and the rests are permutations too. */
  lemma MatchTail<T>(a: seq<T>, b: seq<T>) returns (j: nat)
    requires a != [] && multiset(a) == multiset(b)
    ensures j < |b| && b[j] == a[0]
    ensures multiset(a[1..]) == multiset(b[..j] + b[j + 1..])
  {
    assert a[0] in multiset(b);
    j :| 0 <= j < |b| && b[j] == a[0];
    RemoveAt(b, j);
    assert a == [a[0]] + a[1..];
    assert multiset(a[1..]) == multiset(a) - multiset{a[0]};
  }

  /** Dropping the entry at `j` removes one copy of it. */
  lemma RemoveAt<T>(b: seq<T>, j: nat)
    requires j < |b|
    ensures multiset(b[..j] + b[j + 1..]) == multiset(b) - multiset{b[j]}
  {
    assert b == b[..j] + [b[j]] + b[j + 1..];
  }

  /** Entries that all sort before `k` are all counted, entries that none do are not. */
  lemma {:induction false} CountBelowAll<V>(s: seq<(string, V)>, k: string, below: bool)
    requires forall i :: 0 <= i < |s| ==> Below(s[i].0, k) == below
    ensures CountBelow(s, k) == if below then |s| else 0
  {
    if s != [] {
      CountBelowAll(s[1..], k, below);
    }
  }

  /** In a key-sorted sequence with distinct keys, an entry's position is the number of keys before it. */
  lemma SortedRank<V>(s: seq<(string, V)>, i: nat)
    requires SortedByKey(s) && UniqueKeys(s) && i < |s|
    ensures CountBelow(s, s[i].0) == i
  {
    var k := s[i].0;
    assert s == s[..i] + s[i..];
    CountBelowAppend(s[..i], s[i..], k);
    CountBelowAll(s[..i], k, true);
    forall j | 0 <= j < |s[i..]| ensures !Below(s[i..][j].0, k) {
      if Below(s[i + j].0, k) {
        LessEqAntisym(s[i + j].0, k);
      }
    }
    CountBelowAll(s[i..], k, false);
  }

  /** Inserting an entry whose key is new keeps keys distinct. */
  lemma {:induction false} InsertUnique<V>(x: (string, V), s: seq<(string, V)>)
    requires SortedByKey(s) && UniqueKeys(s) && forall e :: e in s ==> e.0 != x.0
    ensures UniqueKeys(Insert(x, s))
  {
    if s != [] && !LessEq(x.0, s[0].0) {
      InsertUnique(x, s[1..]);
      var t := Insert(x, s[1..]);
      assert forall i :: 0 <= i < |t| ==> t[i].0 != s[0].0;
    }
  }

  /** Sorting keeps keys distinct. */
  lemma {:induction false} SortUnique<V>(s: seq<(string, V)>)
    requires UniqueKeys(s)
    ensures UniqueKeys(SortByKey(s))
  {
    if s != [] {
      SortUnique(s[1..]);
      var t := SortByKey(s[1..]);
      assert forall e :: e in t ==> e in multiset(s[1..]);
      InsertUnique(s[0], t);
    }
  }
}
