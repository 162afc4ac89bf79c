/** Slices of sequences used by the list helpers of the source. */
module Seqs {

  /** The first `n` elements, or all of them when there are fewer (`s[:n]`, `s.slice(0, n)`). */
  function Prefix<T>(s: seq<T>, n: nat): (r: seq<T>)
    ensures |r| == if |s| <= n then |s| else n
    ensures r == s[..|r|]
  {
    if |s| <= n then s else s[..n]
  }

  /** Regrouping a concatenation, for loops that append a computed piece to what they built. */
  lemma ConcatAssoc<T>(a: seq<T>, b: seq<T>, c: seq<T>)
    ensures a + b + c == a + (b + c)
  {
  }

  /** The elements that pass the test, in order (`filter`). */
  function Filter<T>(f: T -> bool, s: seq<T>): (r: seq<T>)
    ensures |r| <= |s|
  {
    if s == [] then [] else (if f(s[0]) then [s[0]] else []) + Filter(f, s[1..])
  }

  /** An element is kept iff it is in the sequence and passes the test. */
  lemma {:induction false} FilterIff<T>(f: T -> bool, s: seq<T>, x: T)
    ensures x in Filter(f, s) <==> x in s && f(x)
  {
    if s != [] {
      FilterIff(f, s[1..], x);
      assert s == [s[0]] + s[1..];
    }
  }

  /** Filtering keeps the order: it distributes over concatenation. */
  lemma {:induction false} FilterAppend<T>(f: T -> bool, a: seq<T>, b: seq<T>)
    ensures Filter(f, a + b) == Filter(f, a) + Filter(f, b)
  {
    if a != [] {
      assert (a + b)[1..] == a[1..] + b;
      FilterAppend(f, a[1..], b);
    } else {
      assert a + b == b;
    }
  }

  /** When every element passes, filtering keeps the whole sequence. */
  lemma {:induction false} FilterAll<T>(f: T -> bool, s: seq<T>)
    requires forall i :: 0 <= i < |s| ==> f(s[i])
    ensures Filter(f, s) == s
  {
    if s != [] {
      FilterAll(f, s[1..]);
      assert s == [s[0]] + s[1..];
    }
  }
}
