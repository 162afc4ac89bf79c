/**
 * String operations shared by the Python and JavaScript parts of the system, on
 * `string` = `seq<char>`. Case mapping and whitespace are ASCII: Python's
 * `upper`/`lower`/`strip` and JavaScript's `toUpperCase`/`toLowerCase`/`trim`
 * agree on ASCII text, and that is the alphabet modelled here.
 */
module Text {

  // ---------------------------------------------------------------- characters

  predicate IsWhitespace(c: char) {
    c == ' ' || c == '\t' || c == '\n' || c == '\r' || c == '\U{000B}' || c == '\U{000C}'
  }

  predicate IsDigit(c: char) {
    '0' <= c <= '9'
  }

  function LowerChar(c: char): char {
    if 'A' <= c <= 'Z' then (c as int + 32) as char else c
  }

  function UpperChar(c: char): char {
    if 'a' <= c <= 'z' then (c as int - 32) as char else c
  }

  // ---------------------------------------------------------------- case mapping

  /** ASCII lower-casing, character by character. */
  function Lower(s: string): (r: string)
    ensures |r| == |s|
    ensures forall i :: 0 <= i < |s| ==> r[i] == LowerChar(s[i])
  {
    if s == [] then [] else [LowerChar(s[0])] + Lower(s[1..])
  }

  /** ASCII upper-casing, character by character. */
  function Upper(s: string): (r: string)
    ensures |r| == |s|
    ensures forall i :: 0 <= i < |s| ==> r[i] == UpperChar(s[i])
  {
    if s == [] then [] else [UpperChar(s[0])] + Upper(s[1..])
  }

  lemma UpperAppend(a: string, b: string)
    ensures Upper(a + b) == Upper(a) + Upper(b)
  {
    assert forall i :: 0 <= i < |a + b| ==> Upper(a + b)[i] == (Upper(a) + Upper(b))[i];
  }

  lemma UpperConcat3(a: string, b: string, c: string)
    ensures Upper(a + b + c) == Upper(a) + Upper(b) + Upper(c)
  {
    UpperAppend(a, b);
    UpperAppend(a + b, c);
  }

  // ---------------------------------------------------------------- prefixes, substrings

  predicate StartsWith(s: string, p: string) {
    |p| <= |s| && s[..|p|] == p
  }

  predicate EndsWith(s: string, p: string) {
    |p| <= |s| && s[|s| - |p|..] == p
  }

  /** `t` occurs in `s` as a contiguous substring (Python `t in s`, JS `s.includes(t)`). */
  predicate Contains(s: string, t: string)
    decreases |s|
  {
    StartsWith(s, t) || (|s| > 0 && Contains(s[1..], t))
  }

  /** `t` occurs in `s` starting at position `i`. */
  predicate OccursAt(s: string, t: string, i: int) {
    0 <= i && i + |t| <= |s| && s[i..i + |t|] == t
  }

  /** An occurrence at any position makes `Contains` hold. */
  lemma {:induction false} ContainsAt(s: string, t: string, i: nat)
    requires OccursAt(s, t, i)
    ensures Contains(s, t)
    decreases i
  {
    if i > 0 {
      var u := s[1..];
      assert u[i - 1..i - 1 + |t|] == s[i..i + |t|];
      assert OccursAt(u, t, i - 1);
      ContainsAt(u, t, i - 1);
    } else {
      assert s[..|t|] == s[0..0 + |t|];
    }
  }

  /** `Contains` always has a position where the occurrence starts. */
  lemma {:induction false} ContainsWitness(s: string, t: string)
    requires Contains(s, t)
    ensures exists i :: OccursAt(s, t, i)
    decreases |s|
  {
    if StartsWith(s, t) {
      assert OccursAt(s, t, 0);
    } else {
      ContainsWitness(s[1..], t);
      var i :| OccursAt(s[1..], t, i);
      assert s[1..][i..i + |t|] == s[i + 1..i + 1 + |t|];
      assert OccursAt(s, t, i + 1);
    }
  }

  /** `Contains` holds exactly when there is a position where `t` starts in `s`. */
  lemma ContainsIff(s: string, t: string)
    ensures Contains(s, t) <==> exists i :: OccursAt(s, t, i)
  {
    if Contains(s, t) {
      ContainsWitness(s, t);
    }
    forall i | OccursAt(s, t, i)
      ensures Contains(s, t)
    {
      ContainsAt(s, t, i);
    }
  }

  lemma ContainsSelf(t: string)
    ensures Contains(t, t)
  {
    assert StartsWith(t, t);
  }

  /** A string that contains `a + t + b` contains `t`. */
  lemma ContainsInfix(a: string, t: string, b: string)
    ensures Contains(a + t + b, t)
  {
    assert (a + t + b)[|a|..|a| + |t|] == t;
    ContainsAt(a + t + b, t, |a|);
  }

  /** A string cannot contain a text one of whose characters it lacks. */
  lemma MissingCharNotContained(s: string, t: string, c: char)
    requires c in t && c !in s
    ensures !Contains(s, t)
  {
    if Contains(s, t) {
      ContainedCharsOccur(s, t, c);
    }
  }

  lemma ContainedCharsOccur(s: string, t: string, c: char)
    requires Contains(s, t) && c in t
    ensures c in s
  {
    ContainsWitness(s, t);
    var i :| OccursAt(s, t, i);
    var k :| 0 <= k < |t| && t[k] == c;
    assert s[i + k] == c;
  }

  /** The empty string occurs in every string. */
  lemma ContainsEmpty(s: string)
    ensures Contains(s, "")
  {
    assert StartsWith(s, "");
  }

  lemma {:induction false} ContainsLower(s: string, t: string)
    requires Contains(s, t)
    ensures Contains(Lower(s), Lower(t))
  {
    ContainsIff(s, t);
    var i :| OccursAt(s, t, i);
    assert Lower(s)[i..i + |t|] == Lower(t);
    ContainsAt(Lower(s), Lower(t), i);
  }

  /** `any(k in s for k in keywords)`. */
  predicate AnyKeyword(s: string, keywords: seq<string>) {
    keywords != [] && (Contains(s, keywords[0]) || AnyKeyword(s, keywords[1..]))
  }

  lemma {:induction false} AnyKeywordIff(s: string, keywords: seq<string>)
    ensures AnyKeyword(s, keywords) <==> exists k :: k in keywords && Contains(s, k)
  {
    if keywords != [] {
      AnyKeywordIff(s, keywords[1..]);
      if Contains(s, keywords[0]) {
        assert keywords[0] in keywords;
      } else if k :| k in keywords && Contains(s, k) {
        assert k in keywords[1..];
      }
    }
  }

  // ---------------------------------------------------------------- whitespace

  function TrimStart(s: string): (r: string)
    ensures |r| <= |s| && r == s[|s| - |r|..]
    ensures r == [] || !IsWhitespace(r[0])
    ensures forall i :: 0 <= i < |s| - |r| ==> IsWhitespace(s[i])
  {
    if s != [] && IsWhitespace(s[0]) then TrimStart(s[1..]) else s
  }

  function TrimEnd(s: string): (r: string)
    ensures |r| <= |s| && r == s[..|r|]
    ensures r == [] || !IsWhitespace(r[|r| - 1])
    ensures forall i :: |r| <= i < |s| ==> IsWhitespace(s[i])
  {
    if s != [] && IsWhitespace(s[|s| - 1]) then TrimEnd(s[..|s| - 1]) else s
  }

  /** Python `str.strip()` / JavaScript `String.prototype.trim()`. */
  function Strip(s: string): (r: string)
    ensures |r| <= |s|
    ensures r == [] || (!IsWhitespace(r[0]) && !IsWhitespace(r[|r| - 1]))
  {
    TrimEnd(TrimStart(s))
  }

  /** Text with no whitespace at either end is its own strip. */
  lemma StripUnpadded(s: string)
    requires s != [] && !IsWhitespace(s[0]) && !IsWhitespace(s[|s| - 1])
    ensures Strip(s) == s
  {
  }

  predicate AllWhitespace(w: string) {
    forall i :: 0 <= i < |w| ==> IsWhitespace(w[i])
  }

  lemma {:induction false} TrimStartPadded(w: string, s: string)
    requires AllWhitespace(w)
    ensures TrimStart(w + s) == TrimStart(s)
    decreases |w|
  {
    if w != [] {
      assert (w + s)[1..] == w[1..] + s;
      TrimStartPadded(w[1..], s);
    } else {
      assert w + s == s;
    }
  }

  lemma {:induction false} TrimEndPadded(s: string, w: string)
    requires AllWhitespace(w)
    ensures TrimEnd(s + w) == TrimEnd(s)
    decreases |w|
  {
    if w != [] {
      assert (s + w)[..|s + w| - 1] == s + w[..|w| - 1];
      TrimEndPadded(s, w[..|w| - 1]);
    } else {
      assert s + w == s;
    }
  }

  lemma {:induction false} TrimStartOfTrimEnd(s: string)
    ensures TrimStart(TrimEnd(s)) == TrimEnd(TrimStart(s))
    decreases |s|
  {
    if s != [] && IsWhitespace(s[0]) {
      if TrimEnd(s) == [] {
        assert TrimEnd(s[1..]) == [];
        TrimStartOfTrimEnd(s[1..]);
      } else {
        assert TrimEnd(s)[1..] == TrimEnd(s[1..]) by {
          TrimEndDropFirst(s);
        }
        TrimStartOfTrimEnd(s[1..]);
      }
    }
  }

  lemma {:induction false} TrimEndDropFirst(s: string)
    requires s != [] && TrimEnd(s) != []
    ensures TrimEnd(s)[1..] == TrimEnd(s[1..])
    decreases |s|
  {
    if IsWhitespace(s[|s| - 1]) {
      var p := s[..|s| - 1];
      assert p[1..] == s[1..][..|s[1..]| - 1];
      TrimEndDropFirst(p);
    }
  }

  /** Surrounding whitespace does not change what `Strip` returns. */
  lemma StripPadded(w1: string, s: string, w2: string)
    requires AllWhitespace(w1) && AllWhitespace(w2)
    ensures Strip(w1 + s + w2) == Strip(s)
  {
    calc {
      Strip(w1 + s + w2);
      { assert w1 + s + w2 == w1 + (s + w2); }
      TrimEnd(TrimStart(w1 + (s + w2)));
      { TrimStartPadded(w1, s + w2); }
      TrimEnd(TrimStart(s + w2));
      { TrimStartOfTrimEnd(s + w2); }
      TrimStart(TrimEnd(s + w2));
      { TrimEndPadded(s, w2); }
      TrimStart(TrimEnd(s));
      { TrimStartOfTrimEnd(s); }
      Strip(s);
    }
  }

  /** Trailing whitespace is trimmed only after the last non-blank character of `a`. */
  lemma {:induction false} TrimEndAfter(a: string, b: string)
    requires a != [] && !IsWhitespace(a[|a| - 1])
    ensures TrimEnd(a + b) == a + TrimEnd(b)
    decreases |b|
  {
    if b == [] {
      assert a + b == a;
    } else if IsWhitespace(b[|b| - 1]) {
      assert (a + b)[..|a + b| - 1] == a + b[..|b| - 1];
      TrimEndAfter(a, b[..|b| - 1]);
    }
  }

  /** Stripping only removes characters: what is left occurs in the text. */
  lemma StripWithin(s: string, c: char)
    requires c in Strip(s)
    ensures c in s
  {
    var t := TrimStart(s);
    var j :| 0 <= j < |Strip(s)| && Strip(s)[j] == c;
    assert t[j] == c;
    assert s[|s| - |t| + j] == c;
  }

  /** Trimming the front keeps every character that is not whitespace. */
  lemma TrimStartKeeps(s: string, i: nat)
    requires i < |s| && !IsWhitespace(s[i])
    ensures |s| - |TrimStart(s)| <= i && TrimStart(s)[i - (|s| - |TrimStart(s)|)] == s[i]
  {
  }

  /** Trimming the back keeps every character that is not whitespace. */
  lemma TrimEndKeeps(s: string, i: nat)
    requires i < |s| && !IsWhitespace(s[i])
    ensures i < |TrimEnd(s)| && TrimEnd(s)[i] == s[i]
  {
  }

  /** Only whitespace is stripped, so any other character survives. */
  lemma StripKeeps(s: string, c: char)
    requires !IsWhitespace(c) && c in s
    ensures c in Strip(s)
  {
    var i :| 0 <= i < |s| && s[i] == c;
    TrimStartKeeps(s, i);
    var t := TrimStart(s);
    var j := i - (|s| - |t|);
    TrimEndKeeps(t, j);
    assert Strip(s)[j] == c;
  }

  lemma {:induction false} UpperTrimStart(s: string)
    ensures Upper(TrimStart(s)) == TrimStart(Upper(s))
    decreases |s|
  {
    if s != [] {
      var u := Upper(s);
      assert u[0] == UpperChar(s[0]);
      assert IsWhitespace(u[0]) == IsWhitespace(s[0]);
      if IsWhitespace(s[0]) {
        assert u[1..] == Upper(s[1..]);
        assert TrimStart(u) == TrimStart(u[1..]);
        UpperTrimStart(s[1..]);
      } else {
        assert TrimStart(u) == u;
      }
    }
  }

  lemma {:induction false} UpperTrimEnd(s: string)
    ensures Upper(TrimEnd(s)) == TrimEnd(Upper(s))
    decreases |s|
  {
    if s != [] && IsWhitespace(s[|s| - 1]) {
      assert Upper(s)[..|s| - 1] == Upper(s[..|s| - 1]);
      UpperTrimEnd(s[..|s| - 1]);
    } else if s != [] {
      assert Upper(s)[|s| - 1] == UpperChar(s[|s| - 1]);
    }
  }

  /** Upper-casing and stripping commute (the two orders used by the two SQL gates). */
  lemma UpperStrip(s: string)
    ensures Upper(Strip(s)) == Strip(Upper(s))
  {
    UpperTrimEnd(TrimStart(s));
    UpperTrimStart(s);
  }

  // ---------------------------------------------------------------- splitting and joining

  function CountChar(s: string, c: char): (n: nat)
    ensures n <= |s|
    ensures n == 0 <==> c !in s
  {
    if s == [] then 0 else (if s[0] == c then 1 else 0) + CountChar(s[1..], c)
  }

  /** Index of the first `c` in `s`, or `|s|` when there is none. */
  function IndexOf(s: string, c: char): (k: nat)
    ensures k <= |s|
    ensures c !in s[..k]
    ensures k < |s| ==> s[k] == c
    ensures k == |s| <==> c !in s
  {
    if s == [] then 0 else if s[0] == c then 0 else 1 + IndexOf(s[1..], c)
  }

  /** The first `c` of `a + [c] + b` is the one after `a` when `a` has none. */
  lemma {:induction false} IndexOfAfter(a: string, c: char, b: string)
    requires c !in a
    ensures IndexOf(a + [c] + b, c) == |a|
  {
    if a != [] {
      IndexOfAfter(a[1..], c, b);
      assert (a + [c] + b)[1..] == a[1..] + [c] + b;
    }
  }

  /** Python `s.split(c)` / JavaScript `s.split(c)` for a one-character separator. */
  function Split(s: string, c: char): (parts: seq<string>)
    ensures |parts| == CountChar(s, c) + 1
    ensures forall i :: 0 <= i < |parts| ==> c !in parts[i]
    decreases |s|
  {
    var k := IndexOf(s, c);
    if k == |s| then [s]
    else
      var rest := Split(s[k + 1..], c);
      CountAfterFirst(s, c);
      assert forall i :: 1 <= i < |rest| + 1 ==> ([s[..k]] + rest)[i] == rest[i - 1];
      [s[..k]] + rest
  }

  lemma {:induction false} CountAfterFirst(s: string, c: char)
    requires IndexOf(s, c) < |s|
    ensures CountChar(s, c) == 1 + CountChar(s[IndexOf(s, c) + 1..], c)
  {
    if s[0] != c {
      CountAfterFirst(s[1..], c);
      assert s[1..][IndexOf(s[1..], c) + 1..] == s[IndexOf(s, c) + 1..];
    }
  }

  function Join(parts: seq<string>, sep: string): string {
    if parts == [] then "" else if |parts| == 1 then parts[0] else parts[0] + sep + Join(parts[1..], sep)
  }

  /** Joining two non-empty runs of parts puts one separator between them. */
  lemma {:induction false} JoinAppend(a: seq<string>, b: seq<string>, sep: string)
    requires a != [] && b != []
    ensures Join(a + b, sep) == Join(a, sep) + sep + Join(b, sep)
  {
    if |a| > 1 {
      assert (a + b)[1..] == a[1..] + b;
      JoinAppend(a[1..], b, sep);
      var x, y := Join(a[1..], sep), Join(b, sep);
      assert a[0] + sep + (x + sep + y) == a[0] + sep + x + sep + y;
    } else {
      assert (a + b)[1..] == b;
    }
  }

  /** One step of `Split`: the text up to the first separator, then the split of the rest. */
  lemma SplitStep(s: string, c: char)
    requires c in s
    ensures Split(s, c) == [s[..IndexOf(s, c)]] + Split(s[IndexOf(s, c) + 1..], c)
  {
  }

  /** One step of `Join`: the first part, the separator, then the join of the rest. */
  lemma JoinStep(parts: seq<string>, sep: string)
    requires |parts| > 1
    ensures Join(parts, sep) == parts[0] + sep + Join(parts[1..], sep)
  {
  }

  /** Parts without the separator are split back out of their join. */
  lemma {:induction false} SplitJoin(parts: seq<string>, c: char)
    requires parts != [] && forall i :: 0 <= i < |parts| ==> c !in parts[i]
    ensures Split(Join(parts, [c]), c) == parts
  {
    if |parts| > 1 {
      var first, rest := parts[0], Join(parts[1..], [c]);
      var s := first + [c] + rest;
      JoinStep(parts, [c]);
      IndexOfAfter(first, c, rest);
      assert s[|first|] == c;
      SplitStep(s, c);
      assert s[..|first|] == first;
      assert s[|first| + 1..] == rest;
      SplitJoin(parts[1..], c);
      assert parts == [first] + parts[1..];
    } else {
      assert c !in parts[0];
    }
  }

  /** Splitting and joining again with the same separator gives back the text. */
  lemma {:induction false} JoinSplit(s: string, c: char)
    ensures Join(Split(s, c), [c]) == s
    decreases |s|
  {
    var k := IndexOf(s, c);
    if k < |s| {
      var head, tail := s[..k], s[k + 1..];
      JoinSplitStep(s, c);
      assert Join(Split(tail, c), [c]) == tail by {
        JoinSplit(tail, c);
      }
      assert s == head + [c] + tail;
    } else {
      assert Split(s, c) == [s];
    }
  }

  lemma JoinSplitStep(s: string, c: char)
    requires c in s
    ensures Join(Split(s, c), [c]) == s[..IndexOf(s, c)] + [c] + Join(Split(s[IndexOf(s, c) + 1..], c), [c])
  {
    var k := IndexOf(s, c);
    var tail := s[k + 1..];
    SplitStep(s, c);
    var parts := [s[..k]] + Split(tail, c);
    assert parts[0] == s[..k] && parts[1..] == Split(tail, c);
    JoinStep(parts, [c]);
  }

  /** Text before the first `c` (all of `s` when `c` does not occur): `s.split(c, 1)[0]`. */
  function Before(s: string, c: char): (r: string)
    ensures c !in r && StartsWith(s, r)
  {
    s[..IndexOf(s, c)]
  }

  /** Text after the first `c` (empty when `c` does not occur): `s.split(c, 1)[1]`. */
  function After(s: string, c: char): (r: string)
    ensures c in s ==> s == Before(s, c) + [c] + r
  {
    var k := IndexOf(s, c);
    if k < |s| then s[k + 1..] else ""
  }

  /** Splitting `a + [c] + b` at its first `c` gives back `a` and `b` when `a` has none. */
  lemma BeforeAfterOf(a: string, c: char, b: string)
    requires c !in a
    ensures Before(a + [c] + b, c) == a && After(a + [c] + b, c) == b
  {
    var s := a + [c] + b;
    IndexOfAfter(a, c, b);
    assert s[..|a|] == a;
    assert s[|a| + 1..] == b;
  }

  // ---------------------------------------------------------------- numbers

  function DigitChar(d: nat): char
    requires d < 10
  {
    ('0' as int + d) as char
  }

  /** Decimal text of a natural number (Python `str(n)`, JavaScript `String(n)`). */
  function NatToString(n: nat): (r: string)
    ensures |r| >= 1
    ensures forall i :: 0 <= i < |r| ==> IsDigit(r[i])
    ensures |r| == 1 <==> n < 10
  {
    if n < 10 then [DigitChar(n)] else NatToString(n / 10) + [DigitChar(n % 10)]
  }

  function IntToString(n: int): (r: string)
    ensures n >= 0 ==> r == NatToString(n)
  {
    if n < 0 then "-" + NatToString(-n) else NatToString(n)
  }

  /** Two naturals with the same decimal text are equal. */
  lemma {:induction false} NatToStringInjective(m: nat, n: nat)
    requires NatToString(m) == NatToString(n)
    ensures m == n
    decreases m
  {
    var s := NatToString(m);
    if m >= 10 {
      assert n >= 10;
      assert s[|s| - 1] == DigitChar(m % 10) == DigitChar(n % 10);
      assert NatToString(m / 10) == s[..|s| - 1] == NatToString(n / 10);
      NatToStringInjective(m / 10, n / 10);
    }
  }

  /** Value of a run of decimal digits. */
  function DigitsValue(s: string): nat
    requires forall i :: 0 <= i < |s| ==> IsDigit(s[i])
  {
    if s == [] then 0
    else
      assert IsDigit(s[|s| - 1]);
      DigitsValue(s[..|s| - 1]) * 10 + (s[|s| - 1] as int - '0' as int)
  }

  lemma {:induction false} DigitsValueOfNatToString(n: nat)
    ensures DigitsValue(NatToString(n)) == n
  {
    if n >= 10 {
      var s := NatToString(n);
      assert s[..|s| - 1] == NatToString(n / 10);
      DigitsValueOfNatToString(n / 10);
    }
  }

  /** The characters of `s` that are decimal digits, in order (JS `s.replace(/[^0-9]/g, '')`). */
  function DigitsOnly(s: string): (r: string)
    ensures |r| <= |s|
    ensures forall i :: 0 <= i < |r| ==> IsDigit(r[i])
  {
    if s == [] then [] else (if IsDigit(s[0]) then [s[0]] else []) + DigitsOnly(s[1..])
  }

  // ---------------------------------------------------------------- replacing

  /** Replace every non-overlapping occurrence of `pat`, scanning left to right (a global regex replace). */
  function ReplaceAll(s: string, pat: string, rep: string): string
    requires |pat| > 0
    decreases |s|
  {
    if |s| < |pat| then s
    else if s[..|pat|] == pat then rep + ReplaceAll(s[|pat|..], pat, rep)
    else [s[0]] + ReplaceAll(s[1..], pat, rep)
  }

  /** Without an occurrence of the pattern there is nothing to replace. */
  lemma {:induction false} ReplaceAllAbsent(s: string, pat: string, rep: string)
    requires |pat| > 0 && !Contains(s, pat)
    ensures ReplaceAll(s, pat, rep) == s
    decreases |s|
  {
    if |s| >= |pat| {
      assert !StartsWith(s, pat);
      ReplaceAllAbsent(s[1..], pat, rep);
    }
  }

  /** No occurrence of `pat` in `s` starts before position `k` and ends after it. */
  predicate NoCrossing(s: string, k: int, pat: string) {
    forall j :: 0 <= j < k < j + |pat| ==> !OccursAt(s, pat, j)
  }

  /** Dropping a prefix of `d` characters keeps the cut free of crossings. */
  lemma NoCrossingTail(s: string, k: int, pat: string, d: nat)
    requires NoCrossing(s, k, pat) && d <= k && d <= |s|
    ensures NoCrossing(s[d..], k - d, pat)
  {
    var t := s[d..];
    forall j | 0 <= j < k - d < j + |pat|
      ensures !OccursAt(t, pat, j)
    {
      assert !OccursAt(s, pat, j + d);
      if j + |pat| <= |t| {
        assert t[j..j + |pat|] == s[j + d..j + d + |pat|];
      }
    }
  }

  /** A prefix of the front part is a prefix of the whole. */
  lemma StartsWithAppend(a: string, b: string, p: string)
    ensures StartsWith(a, p) ==> StartsWith(a + b, p)
  {
    if StartsWith(a, p) {
      assert (a + b)[..|p|] == a[..|p|];
    }
  }

  /** At an occurrence the scan writes the replacement and jumps past it. */
  lemma ReplaceAllMatch(s: string, pat: string, rep: string)
    requires |pat| > 0 && StartsWith(s, pat)
    ensures ReplaceAll(s, pat, rep) == rep + ReplaceAll(s[|pat|..], pat, rep)
  {
  }

  /** Elsewhere the scan keeps one character and moves on. */
  lemma ReplaceAllSkip(s: string, pat: string, rep: string)
    requires |pat| > 0 && |s| > 0 && !StartsWith(s, pat)
    ensures ReplaceAll(s, pat, rep) == [s[0]] + ReplaceAll(s[1..], pat, rep)
  {
    if |s| < |pat| {
      assert ReplaceAll(s[1..], pat, rep) == s[1..];
      assert s == [s[0]] + s[1..];
    }
  }

  /**
   * Replacing works piece by piece across a cut that no occurrence of the
   * pattern crosses: the left-to-right scan reaches the cut exactly.
   */
  lemma {:induction false} ReplaceAllSplit(a: string, b: string, pat: string, rep: string)
    requires |pat| > 0 && NoCrossing(a + b, |a|, pat)
    ensures ReplaceAll(a + b, pat, rep) == ReplaceAll(a, pat, rep) + ReplaceAll(b, pat, rep)
    decreases |a|, 1
  {
    if a == [] {
      assert a + b == b;
    } else if StartsWith(a + b, pat) {
      ReplaceAllSplitMatch(a, b, pat, rep);
    } else {
      ReplaceAllSplitSkip(a, b, pat, rep);
    }
  }

  /** The split when the scan finds an occurrence at the start. */
  lemma {:induction false} ReplaceAllSplitMatch(a: string, b: string, pat: string, rep: string)
    requires |pat| > 0 && |a| > 0 && NoCrossing(a + b, |a|, pat) && StartsWith(a + b, pat)
    ensures ReplaceAll(a + b, pat, rep) == ReplaceAll(a, pat, rep) + ReplaceAll(b, pat, rep)
    decreases |a|, 0
  {
    var s := a + b;
    assert OccursAt(s, pat, 0);
    assert |a| >= |pat|;
    assert StartsWith(a, pat) by {
      assert a[..|pat|] == s[..|pat|];
    }
    var a' := a[|pat|..];
    assert s[|pat|..] == a' + b;
    NoCrossingTail(s, |a|, pat, |pat|);
    ReplaceAllSplit(a', b, pat, rep);
    ReplaceAllMatch(s, pat, rep);
    ReplaceAllMatch(a, pat, rep);
    assert rep + (ReplaceAll(a', pat, rep) + ReplaceAll(b, pat, rep))
        == (rep + ReplaceAll(a', pat, rep)) + ReplaceAll(b, pat, rep);
  }

  /** The split when the scan keeps the first character. */
  lemma {:induction false} ReplaceAllSplitSkip(a: string, b: string, pat: string, rep: string)
    requires |pat| > 0 && |a| > 0 && NoCrossing(a + b, |a|, pat) && !StartsWith(a + b, pat)
    ensures ReplaceAll(a + b, pat, rep) == ReplaceAll(a, pat, rep) + ReplaceAll(b, pat, rep)
    decreases |a|, 0
  {
    var s := a + b;
    var a' := a[1..];
    assert s[1..] == a' + b;
    NoCrossingTail(s, |a|, pat, 1);
    ReplaceAllSplit(a', b, pat, rep);
    StartsWithAppend(a, b, pat);
    ReplaceAllSkip(s, pat, rep);
    ReplaceAllSkip(a, pat, rep);
    var ra', rb := ReplaceAll(a', pat, rep), ReplaceAll(b, pat, rep);
    assert ReplaceAll(s[1..], pat, rep) == ra' + rb;
    assert s[0] == a[0];
    assert [s[0]] + (ra' + rb) == ([a[0]] + ra') + rb;
  }

  /** Replace the first occurrence of `pat` only (JavaScript `s.replace(str, rep)`). */
  function ReplaceFirst(s: string, pat: string, rep: string): string
    decreases |s|
  {
    if StartsWith(s, pat) then rep + s[|pat|..]
    else if s == [] then s
    else [s[0]] + ReplaceFirst(s[1..], pat, rep)
  }
}
