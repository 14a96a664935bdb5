/** Character classes and string operations shared by the loaders, the store
    and the engine: Python's whitespace set, `str.strip`, single-character
    `str.replace(c, "")`, slicing with Python's index rules, decimal rendering
    and the code-point order Python uses to compare strings. */
module Text {

  /** The characters for which Python's `str.isspace()` holds. The same set is
      what `\s` matches in a `str` regular expression, and what `str.strip()`
      with no argument removes. */
  predicate IsSpace(c: char) {
    || c == ' '
    || ('\t' <= c <= '\r')
    || ('\U{1c}' <= c <= '\U{1f}')
    || c == '\U{85}'
    || c == '\U{a0}'
    || c == '\U{1680}'
    || ('\U{2000}' <= c <= '\U{200a}')
    || c == '\U{2028}'
    || c == '\U{2029}'
    || c == '\U{202f}'
    || c == '\U{205f}'
    || c == '\U{3000}'
  }

  /** ASCII decimal digit (`\d` restricted to ASCII). */
  predicate IsDigit(c: char) {
    '0' <= c <= '9'
  }

  predicate IsAsciiUpper(c: char) {
    'A' <= c <= 'Z'
  }

  predicate IsAsciiLower(c: char) {
    'a' <= c <= 'z'
  }

  predicate IsAsciiLetter(c: char) {
    IsAsciiUpper(c) || IsAsciiLower(c)
  }

  predicate AllSpace(s: string) {
    forall k :: 0 <= k < |s| ==> IsSpace(s[k])
  }

  predicate AllDigits(s: string) {
    forall k :: 0 <= k < |s| ==> IsDigit(s[k])
  }

  /** A string is stripped when it neither starts nor ends with whitespace. */
  predicate IsStripped(s: string) {
    s == [] || (!IsSpace(s[0]) && !IsSpace(s[|s| - 1]))
  }

  function LowerChar(c: char): (r: char)
    ensures !IsAsciiUpper(r)
    ensures IsAsciiLower(c) || IsAsciiUpper(c) <==> IsAsciiLower(r)
    ensures !IsAsciiLetter(c) ==> r == c
  {
    if IsAsciiUpper(c) then (c as int - 'A' as int + 'a' as int) as char else c
  }

  /** Case-insensitive equality of two characters, as IGNORECASE applies it to
      an ASCII letter of a pattern. */
  predicate SameLetterIgnoringCase(c: char, p: char) {
    LowerChar(c) == LowerChar(p)
  }

  /** `s` starts with `prefix` compared letter by letter ignoring ASCII case. */
  predicate StartsWithIgnoringCase(s: string, prefix: string) {
    |prefix| <= |s| && forall k :: 0 <= k < |prefix| ==> SameLetterIgnoringCase(s[k], prefix[k])
  }

  /** `str.lower()` on ASCII letters; every other character is kept. */
  function Lower(s: string): (r: string)
    ensures |r| == |s|
    ensures forall k :: 0 <= k < |r| ==> r[k] == LowerChar(s[k])
  {
    seq(|s|, k requires 0 <= k < |s| => LowerChar(s[k]))
  }

  // ---------------------------------------------------------------------
  // str.strip()

  /** The first index at or after `i` that does not hold whitespace. */
  function LeadingEnd(s: string, i: nat): (j: nat)
    requires i <= |s|
    ensures i <= j <= |s|
    ensures forall k :: i <= k < j ==> IsSpace(s[k])
    ensures j == |s| || !IsSpace(s[j])
    decreases |s| - i
  {
    if i < |s| && IsSpace(s[i]) then LeadingEnd(s, i + 1) else i
  }

  /** The start of the run of whitespace that ends at `j`. */
  function TrailingStart(s: string, j: nat): (i: nat)
    requires j <= |s|
    ensures i <= j
    ensures forall k :: i <= k < j ==> IsSpace(s[k])
    ensures i == 0 || !IsSpace(s[i - 1])
  {
    if j > 0 && IsSpace(s[j - 1]) then TrailingStart(s, j - 1) else j
  }

  /** `str.lstrip()`: drops the leading whitespace. */
  function TrimStart(s: string): (r: string)
    ensures |r| <= |s| && r == s[|s| - |r|..]
    ensures r == [] || !IsSpace(r[0])
    ensures forall k :: 0 <= k < |s| - |r| ==> IsSpace(s[k])
  {
    s[LeadingEnd(s, 0)..]
  }

  /** `str.rstrip()`: drops the trailing whitespace. */
  function TrimEnd(s: string): (r: string)
    ensures |r| <= |s| && r == s[..|r|]
    ensures r == [] || !IsSpace(r[|r| - 1])
    ensures forall k :: |r| <= k < |s| ==> IsSpace(s[k])
  {
    s[..TrailingStart(s, |s|)]
  }

  lemma {:induction false} LeadingEndIs(s: string, i: nat, n: nat)
    requires i <= n <= |s|
    requires forall k :: i <= k < n ==> IsSpace(s[k])
    requires n == |s| || !IsSpace(s[n])
    ensures LeadingEnd(s, i) == n
    decreases n - i
  {
    if i < n {
      LeadingEndIs(s, i + 1, n);
    }
  }

  lemma {:induction false} TrailingStartIs(s: string, j: nat, n: nat)
    requires n <= j <= |s|
    requires forall k :: n <= k < j ==> IsSpace(s[k])
    requires n == 0 || !IsSpace(s[n - 1])
    ensures TrailingStart(s, j) == n
    decreases j - n
  {
    if n < j {
      TrailingStartIs(s, j - 1, n);
    }
  }

  /** lstrip drops exactly a maximal whitespace prefix. */
  lemma TrimStartIs(s: string, n: nat)
    requires n <= |s|
    requires forall k :: 0 <= k < n ==> IsSpace(s[k])
    requires n == |s| || !IsSpace(s[n])
    ensures TrimStart(s) == s[n..]
  {
    LeadingEndIs(s, 0, n);
  }

  /** rstrip drops exactly a maximal whitespace suffix. */
  lemma TrimEndIs(s: string, n: nat)
    requires n <= |s|
    requires forall k :: n <= k < |s| ==> IsSpace(s[k])
    requires n == 0 || !IsSpace(s[n - 1])
    ensures TrimEnd(s) == s[..n]
  {
    TrailingStartIs(s, |s|, n);
  }

  /** `str.strip()`. */
  function Strip(s: string): (r: string)
  {
    TrimEnd(TrimStart(s))
  }

  /** Strip removes whitespace from both ends and nothing else: its result is
      the part of the input between an all-space prefix and an all-space
      suffix, and it neither starts nor ends with whitespace. */
  lemma StripShape(s: string)
    ensures IsStripped(Strip(s))
    ensures |Strip(s)| <= |s|
    ensures var a := |s| - |TrimStart(s)|;
      && a + |Strip(s)| <= |s|
      && Strip(s) == s[a..a + |Strip(s)|]
      && (forall k :: 0 <= k < a ==> IsSpace(s[k]))
      && (forall k :: a + |Strip(s)| <= k < |s| ==> IsSpace(s[k]))
  {
    StripIsStripped(s);
    StripSlice(s);
  }

  lemma StripIsStripped(s: string)
    ensures IsStripped(Strip(s))
  {
    var t := TrimStart(s);
    var r := TrimEnd(t);
    if r != [] {
      assert r[0] == t[0];
    }
  }

  lemma StripSlice(s: string)
    ensures var a := |s| - |TrimStart(s)|;
      && a + |Strip(s)| <= |s|
      && Strip(s) == s[a..a + |Strip(s)|]
      && (forall k :: 0 <= k < a ==> IsSpace(s[k]))
      && (forall k :: a + |Strip(s)| <= k < |s| ==> IsSpace(s[k]))
  {
    StripIsSlice(s);
    StripDropsSpaceSuffix(s);
  }

  lemma StripIsSlice(s: string)
    ensures var a := |s| - |TrimStart(s)|;
      a + |Strip(s)| <= |s| && Strip(s) == s[a..a + |Strip(s)|]
  {
    var t := TrimStart(s);
    var r := TrimEnd(t);
    var a := |s| - |t|;
    assert t == s[a..];
    assert r == t[..|r|];
  }

  lemma StripDropsSpaceSuffix(s: string)
    ensures var a := |s| - |TrimStart(s)|;
      forall k :: a + |Strip(s)| <= k < |s| ==> IsSpace(s[k])
  {
    var t := TrimStart(s);
    var a := |s| - |t|;
    forall k | a + |Strip(s)| <= k < |s| ensures IsSpace(s[k]) {
      assert s[k] == t[k - a];
    }
  }

  /** The reference characterisation of strip: whenever `s` splits into an
      all-space prefix, a stripped middle and an all-space suffix, strip
      returns that middle. */
  lemma {:induction false} StripUnique(p: string, m: string, q: string)
    requires AllSpace(p) && AllSpace(q) && IsStripped(m)
    ensures Strip(p + m + q) == m
  {
    AppendAssociative(p, m, q);
    TrimStartOfSpacePrefix(p, m + q);
    if m == [] {
      EmptyMiddle(m, q);
    } else {
      StrippedMiddle(m, q);
    }
  }

  lemma AppendAssociative<T>(p: seq<T>, m: seq<T>, q: seq<T>)
    ensures p + m + q == p + (m + q)
  {
  }

  lemma EmptyMiddle(m: string, q: string)
    requires m == [] && AllSpace(q)
    ensures TrimEnd(TrimStart(m + q)) == m
  {
    assert m + q == q;
    TrimStartAllSpace(q);
  }

  lemma StrippedMiddle(m: string, q: string)
    requires m != [] && IsStripped(m) && AllSpace(q)
    ensures TrimEnd(TrimStart(m + q)) == m
  {
    assert (m + q)[0] == m[0];
    TrimStartIs(m + q, 0);
    assert (m + q)[0..] == m + q;
    TrimEndOfSpaceSuffix(m, q);
  }

  lemma TrimStartOfSpacePrefix(p: string, rest: string)
    requires AllSpace(p)
    ensures TrimStart(p + rest) == TrimStart(rest)
  {
    var s := p + rest;
    var n := |rest| - |TrimStart(rest)|;
    forall k | 0 <= k < |p| + n ensures IsSpace(s[k]) {
      if k >= |p| {
        assert s[k] == rest[k - |p|];
      }
    }
    if |p| + n < |s| {
      assert s[|p| + n] == rest[n];
    }
    TrimStartIs(s, |p| + n);
    assert s[|p| + n..] == rest[n..];
  }

  lemma TrimStartAllSpace(s: string)
    requires AllSpace(s)
    ensures TrimStart(s) == []
  {
    TrimStartIs(s, |s|);
  }

  lemma TrimEndOfSpaceSuffix(m: string, q: string)
    requires AllSpace(q)
    requires m == [] || !IsSpace(m[|m| - 1])
    ensures TrimEnd(m + q) == m
  {
    var s := m + q;
    forall k | |m| <= k < |s| ensures IsSpace(s[k]) {
      assert s[k] == q[k - |m|];
    }
    if m != [] {
      assert s[|m| - 1] == m[|m| - 1];
    }
    TrimEndIs(s, |m|);
    assert s[..|m|] == m;
  }

  /** Stripping twice is stripping once. */
  lemma StripIdempotent(s: string)
    ensures Strip(Strip(s)) == Strip(s)
  {
    StripIsStripped(s);
    StrippedIsFixed(Strip(s));
  }

  /** A stripped string is its own strip. */
  lemma StrippedIsFixed(m: string)
    requires IsStripped(m)
    ensures Strip(m) == m
  {
    TrimStartIs(m, 0);
    assert m[0..] == m;
    TrimEndIs(m, |m|);
    assert m[..|m|] == m;
  }

  /** Strip yields the empty string exactly when every character is whitespace. */
  lemma StripEmptyIff(s: string)
    ensures Strip(s) == [] <==> AllSpace(s)
  {
    StripShape(s);
    var a := |s| - |TrimStart(s)|;
    if Strip(s) == [] {
      forall k | 0 <= k < |s| ensures IsSpace(s[k]) {
      }
    } else {
      assert !IsSpace(Strip(s)[0]);
      assert Strip(s)[0] == s[a];
    }
  }

  /** A string holding any non-space character does not strip to empty. */
  lemma VisibleNotBlank(s: string, k: int)
    requires 0 <= k < |s| && !IsSpace(s[k])
    ensures Strip(s) != []
  {
    StripEmptyIff(s);
  }

  // ---------------------------------------------------------------------
  // str.replace(c, "") for a single character c

  /** Every occurrence of `c` removed, the other characters kept in order. */
  lemma {:induction false} RemoveCharConcat(a: string, b: string, c: char)
    ensures RemoveChar(a + b, c) == RemoveChar(a, c) + RemoveChar(b, c)
  {
    if a != [] {
      assert (a + b)[1..] == a[1..] + b;
      assert (a + b)[0] == a[0];
      RemoveCharConcat(a[1..], b, c);
    } else {
      assert a + b == b;
    }
  }

  function RemoveChar(s: string, c: char): (r: string)
    ensures c !in r
    ensures |r| <= |s|
    ensures c !in s ==> r == s
    ensures forall x :: x != c ==> multiset(r)[x] == multiset(s)[x]
  {
    if s == [] then []
    else
      var rest := RemoveChar(s[1..], c);
      assert s == [s[0]] + s[1..];
      if s[0] == c then rest else [s[0]] + rest
  }

  // ---------------------------------------------------------------------
  // Python slicing and indexing

  /** The position Python uses for a slice bound `i` on a sequence of
      length `n`: negative bounds count from the end, and out-of-range
      bounds are clamped. */
  function SliceBound(i: int, n: nat): (r: nat)
    ensures r <= n
    ensures 0 <= i <= n ==> r == i
    ensures i > n ==> r == n
    ensures -(n as int) <= i < 0 ==> r == i + n as int
    ensures i < -(n as int) ==> r == 0
  {
    if i < 0 then (if i + n < 0 then 0 else i + n) else if i > n then n else i
  }

  /** `s[i:j]` with Python's rules; an empty slice when the bounds cross. */
  function PySlice<T>(s: seq<T>, i: int, j: int): (r: seq<T>)
    ensures var a, b := SliceBound(i, |s|), SliceBound(j, |s|);
      r == if a < b then s[a..b] else []
  {
    var a, b := SliceBound(i, |s|), SliceBound(j, |s|);
    if a < b then s[a..b] else []
  }

  // ---------------------------------------------------------------------
  // Rendering and comparing

  function DigitChar(d: nat): (c: char)
    requires d < 10
    ensures IsDigit(c)
  {
    ('0' as int + d) as char
  }

  function DigitValue(c: char): (d: nat)
    requires IsDigit(c)
    ensures d < 10 && DigitChar(d) == c
  {
    c as int - '0' as int
  }

  /** `str(n)` for a non-negative integer: its decimal digits, without
      leading zeros. */
  function NatToString(n: nat): (r: string)
    ensures |r| > 0 && AllDigits(r)
    ensures r[0] == '0' ==> n == 0
  {
    if n < 10 then [DigitChar(n)] else NatToString(n / 10) + [DigitChar(n % 10)]
  }

  /** The value of a string of decimal digits. */
  function DigitsValue(s: string): nat
    requires AllDigits(s)
  {
    if s == [] then 0 else 10 * DigitsValue(s[..|s| - 1]) + DigitValue(s[|s| - 1])
  }

  /** Reading back the decimal rendering gives the number. */
  lemma {:induction false} NatToStringRoundTrip(n: nat)
    ensures DigitsValue(NatToString(n)) == n
  {
    var r := NatToString(n);
    if n >= 10 {
      NatToStringRoundTrip(n / 10);
      assert r[..|r| - 1] == NatToString(n / 10);
    }
  }

  /** `str(n)` for any integer. */
  function IntToString(n: int): (r: string)
    ensures |r| > 0
    ensures n < 0 <==> r[0] == '-'
  {
    if n < 0 then "-" + NatToString(-n) else NatToString(n)
  }

  /** `a < b` on Python strings: lexicographic by code point, a proper
      prefix first. */
  predicate StrLess(a: string, b: string) {
    if a == [] then b != []
    else if b == [] then false
    else if a[0] != b[0] then a[0] < b[0]
    else StrLess(a[1..], b[1..])
  }

  /** `a <= b` on Python strings. */
  predicate StrLessEq(a: string, b: string) {
    !StrLess(b, a)
  }

  lemma {:induction false} StrLessIrreflexive(a: string)
    ensures !StrLess(a, a)
  {
    if a != [] {
      StrLessIrreflexive(a[1..]);
    }
  }

  lemma {:induction false} StrLessTrichotomy(a: string, b: string)
    ensures StrLess(a, b) || StrLess(b, a) || a == b
  {
    if a != [] && b != [] && a[0] == b[0] {
      StrLessTrichotomy(a[1..], b[1..]);
      if a[1..] == b[1..] {
        assert a == [a[0]] + a[1..] && b == [b[0]] + b[1..];
      }
    }
  }

  lemma {:induction false} StrLessTransitive(a: string, b: string, c: string)
    requires StrLess(a, b) && StrLess(b, c)
    ensures StrLess(a, c)
  {
    if a != [] && b != [] && c != [] && a[0] == b[0] && b[0] == c[0] {
      StrLessTransitive(a[1..], b[1..], c[1..]);
    }
  }

  /** `sep.join(parts)`. */
  function Join(sep: string, parts: seq<string>): (r: string)
    ensures parts == [] ==> r == []
    ensures |parts| == 1 ==> r == parts[0]
  {
    if parts == [] then []
    else if |parts| == 1 then parts[0]
    else Join(sep, parts[..|parts| - 1]) + sep + parts[|parts| - 1]
  }

  lemma JoinTwo(sep: string, a: string, b: string)
    ensures Join(sep, [a, b]) == a + sep + b
  {
    assert [a, b][..1] == [a];
  }

  lemma JoinThree(sep: string, a: string, b: string, c: string)
    ensures Join(sep, [a, b, c]) == a + sep + b + sep + c
  {
    assert [a, b, c][..2] == [a, b];
    JoinTwo(sep, a, b);
  }

  /** A join is empty only if every part is. */
  lemma {:induction false} JoinEmpty(sep: string, parts: seq<string>)
    requires Join(sep, parts) == []
    ensures forall k :: 0 <= k < |parts| ==> parts[k] == []
  {
    if |parts| > 1 {
      JoinEmpty(sep, parts[..|parts| - 1]);
      forall k | 0 <= k < |parts| ensures parts[k] == [] {
        if k < |parts| - 1 {
          assert parts[k] == parts[..|parts| - 1][k];
        }
      }
    }
  }

  predicate EndsWith(s: string, suffix: string) {
    |suffix| <= |s| && s[|s| - |suffix|..] == suffix
  }

  predicate StartsWith(s: string, prefix: string) {
    |prefix| <= |s| && s[..|prefix|] == prefix
  }

  lemma StartsWithExtended(s: string, prefix: string, t: string)
    requires StartsWith(s, prefix)
    ensures StartsWith(s + t, prefix)
  {
    assert (s + t)[..|prefix|] == s[..|prefix|];
  }

  lemma ConcatStartsWith(s: string, t: string)
    ensures StartsWith(s + t, s)
  {
    assert (s + t)[..|s|] == s;
  }

  lemma StartsWithTransitive(s: string, t: string, prefix: string)
    requires StartsWith(s, t) && StartsWith(t, prefix)
    ensures StartsWith(s, prefix)
  {
    assert s[..|prefix|] == s[..|t|][..|prefix|];
  }

  /** Two prefixes of one string agree wherever both are defined. */
  lemma PrefixesAgree(s: string, p: string, q: string, k: nat)
    requires StartsWith(s, p) && StartsWith(s, q) && k < |p| && k < |q|
    ensures p[k] == q[k]
  {
    assert p[k] == s[..|p|][k];
    assert q[k] == s[..|q|][k];
  }
}
