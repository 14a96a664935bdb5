/** Python's `list.sort(key=...)` and list comprehensions with a condition,
    as pure functions over sequences. `list.sort` is a stable sort; it is
    modelled by a stable insertion sort, whose output is the same. */
module Sorting {

  /** `[x for x in s if p(x)]`. */
  function Filter<T>(s: seq<T>, p: T -> bool): (r: seq<T>)
    ensures |r| <= |s|
    ensures forall k :: 0 <= k < |r| ==> r[k] in s && p(r[k])
    ensures forall k :: 0 <= k < |s| && p(s[k]) ==> s[k] in r
  {
    if s == [] then []
    else
      assert s == [s[0]] + s[1..];
      (if p(s[0]) then [s[0]] else []) + Filter(s[1..], p)
  }

  lemma {:induction false} FilterConcat<T>(a: seq<T>, b: seq<T>, p: T -> bool)
    ensures Filter(a + b, p) == Filter(a, p) + Filter(b, p)
  {
    if a == [] {
      assert a + b == b;
    } else {
      assert (a + b)[0] == a[0];
      assert (a + b)[1..] == a[1..] + b;
      FilterConcat(a[1..], b, p);
    }
  }

  /** A filter keeps everything exactly when every element passes. */
  lemma {:induction false} FilterAll<T>(s: seq<T>, p: T -> bool)
    requires forall k :: 0 <= k < |s| ==> p(s[k])
    ensures Filter(s, p) == s
  {
    if s != [] {
      FilterAll(s[1..], p);
      assert s == [s[0]] + s[1..];
    }
  }

  ghost predicate TotalPreorder<T(!new)>(le: (T, T) -> bool) {
    && (forall a, b :: le(a, b) || le(b, a))
    && (forall a, b, c :: le(a, b) && le(b, c) ==> le(a, c))
  }

  predicate SortedBy<T>(s: seq<T>, le: (T, T) -> bool) {
    forall i, j :: 0 <= i < j < |s| ==> le(s[i], s[j])
  }

  /** The elements that `le` ranks equal to `v`. */
  function EquivalentTo<T>(le: (T, T) -> bool, v: T): T -> bool {
    x => le(x, v) && le(v, x)
  }

  /** Places `x` in front of the first element it may precede. */
  function Insert<T>(x: T, s: seq<T>, le: (T, T) -> bool): (r: seq<T>)
    ensures |r| == |s| + 1
    ensures multiset(r) == multiset(s) + multiset{x}
  {
    if s == [] || le(x, s[0]) then [x] + s
    else
      assert s == [s[0]] + s[1..];
      [s[0]] + Insert(x, s[1..], le)
  }

  /** Stable insertion sort: the first element is inserted into the sorted
      rest in front of every element it ties with. */
  function SortBy<T>(s: seq<T>, le: (T, T) -> bool): (r: seq<T>)
    ensures |r| == |s|
    ensures multiset(r) == multiset(s)
  {
    if s == [] then []
    else
      assert s == [s[0]] + s[1..];
      Insert(s[0], SortBy(s[1..], le), le)
  }

  lemma {:induction false} InsertSorted<T(!new)>(x: T, s: seq<T>, le: (T, T) -> bool)
    requires TotalPreorder(le) && SortedBy(s, le)
    ensures SortedBy(Insert(x, s, le), le)
  {
    if s != [] && !le(x, s[0]) {
      var rest := Insert(x, s[1..], le);
      assert SortedBy(s[1..], le) by {
        forall i, j | 0 <= i < j < |s[1..]| ensures le(s[1..][i], s[1..][j]) {
          assert s[1..][i] == s[i + 1] && s[1..][j] == s[j + 1];
        }
      }
      InsertSorted(x, s[1..], le);
      assert le(s[0], x);
      forall k | 0 <= k < |rest| ensures le(s[0], rest[k]) {
        assert rest[k] in multiset(rest);
        assert rest[k] == x || rest[k] in multiset(s[1..]);
        if rest[k] != x {
          var j :| 0 <= j < |s[1..]| && s[1..][j] == rest[k];
          assert s[j + 1] == rest[k];
        }
      }
      var r := [s[0]] + rest;
      forall i, j | 0 <= i < j < |r| ensures le(r[i], r[j]) {
        if i > 0 {
          assert r[i] == rest[i - 1] && r[j] == rest[j - 1];
        }
      }
    }
  }

  /** The sort's output is ordered by `le`. */
  lemma {:induction false} SortBySorted<T(!new)>(s: seq<T>, le: (T, T) -> bool)
    requires TotalPreorder(le)
    ensures SortedBy(SortBy(s, le), le)
  {
    if s != [] {
      SortBySorted(s[1..], le);
      InsertSorted(s[0], SortBy(s[1..], le), le);
    }
  }

  lemma {:induction false} InsertKeepsTies<T(!new)>(x: T, s: seq<T>, le: (T, T) -> bool, v: T)
    requires TotalPreorder(le)
    ensures var p := EquivalentTo(le, v);
      Filter(Insert(x, s, le), p) == (if p(x) then [x] else []) + Filter(s, p)
  {
    var p := EquivalentTo(le, v);
    if s == [] || le(x, s[0]) {
      FilterCons(x, s, p);
    } else {
      var y := s[0];
      var rest := Insert(x, s[1..], le);
      assert Insert(x, s, le) == [y] + rest;
      FilterCons(y, rest, p);
      InsertKeepsTies(x, s[1..], le, v);
      FilterCons(y, s[1..], p);
      assert [y] + s[1..] == s;
      TiesAreOrdered(le, v, x, y);
      SwapSingletons(x, y, p(x), p(y), Filter(s[1..], p));
    }
  }

  /** Two elements that tie with `v` may precede one another. */
  lemma TiesAreOrdered<T(!new)>(le: (T, T) -> bool, v: T, x: T, y: T)
    requires TotalPreorder(le) && !le(x, y)
    ensures !(EquivalentTo(le, v)(x) && EquivalentTo(le, v)(y))
  {
    assert le(x, v) && le(v, y) ==> le(x, y);
  }

  lemma SwapSingletons<T>(x: T, y: T, px: bool, py: bool, f: seq<T>)
    requires !(px && py)
    ensures (if py then [y] else []) + ((if px then [x] else []) + f)
         == (if px then [x] else []) + ((if py then [y] else []) + f)
  {
  }

  lemma FilterCons<T>(x: T, s: seq<T>, p: T -> bool)
    ensures Filter([x] + s, p) == (if p(x) then [x] else []) + Filter(s, p)
  {
    assert ([x] + s)[0] == x && ([x] + s)[1..] == s;
  }

  /** Stability: the elements that tie with any `v` come out in the order
      they went in. */
  lemma {:induction false} SortByStable<T(!new)>(s: seq<T>, le: (T, T) -> bool, v: T)
    requires TotalPreorder(le)
    ensures Filter(SortBy(s, le), EquivalentTo(le, v)) == Filter(s, EquivalentTo(le, v))
  {
    if s != [] {
      SortByStable(s[1..], le, v);
      InsertKeepsTies(s[0], SortBy(s[1..], le), le, v);
    }
  }

  /** A filter keeps the elements in the order they had: a key that
      increases along `s` increases along the filtered sequence. */
  lemma {:induction false} FilterKeepsIncreasing<T>(s: seq<T>, p: T -> bool, key: T -> int)
    requires forall a, b :: 0 <= a < b < |s| ==> key(s[a]) < key(s[b])
    ensures forall a, b :: 0 <= a < b < |Filter(s, p)| ==> key(Filter(s, p)[a]) < key(Filter(s, p)[b])
  {
    if s != [] {
      var tail := s[1..];
      forall a, b | 0 <= a < b < |tail| ensures key(tail[a]) < key(tail[b]) {
        assert tail[a] == s[a + 1] && tail[b] == s[b + 1];
      }
      FilterKeepsIncreasing(tail, p, key);
      var ft := Filter(tail, p);
      forall k | 0 <= k < |ft| ensures key(s[0]) < key(ft[k]) {
        var j :| 0 <= j < |tail| && tail[j] == ft[k];
        assert s[j + 1] == tail[j];
      }
      FilterCons(s[0], tail, p);
      assert [s[0]] + tail == s;
    }
  }

  /** No element occurs twice. */
  predicate Distinct<T(==)>(s: seq<T>) {
    forall a, b :: 0 <= a < b < |s| ==> s[a] != s[b]
  }

  lemma {:induction false} DistinctOccursOnce<T>(s: seq<T>, x: T)
    requires Distinct(s)
    ensures multiset(s)[x] <= 1
  {
    if s != [] {
      var t := s[1..];
      assert s == [s[0]] + t;
      forall a, b | 0 <= a < b < |t| ensures t[a] != t[b] {
        assert t[a] == s[a + 1] && t[b] == s[b + 1];
      }
      DistinctOccursOnce(t, x);
      if x == s[0] {
        forall k | 0 <= k < |t| ensures t[k] != x {
          assert t[k] == s[k + 1];
        }
        assert x !in t;
      }
    }
  }

  lemma OccursTwice<T>(s: seq<T>, a: nat, b: nat)
    requires a < b < |s| && s[a] == s[b]
    ensures multiset(s)[s[a]] >= 2
  {
    assert s == s[..b] + [s[b]] + s[b + 1..];
    assert s[..b][a] == s[a];
  }

  /** A permutation of a sequence without repetitions has none either. */
  lemma DistinctPermutation<T>(s: seq<T>, t: seq<T>)
    requires Distinct(s) && multiset(s) == multiset(t)
    ensures Distinct(t)
  {
    forall a, b | 0 <= a < b < |t| ensures t[a] != t[b] {
      if t[a] == t[b] {
        OccursTwice(t, a, b);
        DistinctOccursOnce(s, t[a]);
        assert false;
      }
    }
  }

  /** `[f(x) for x in s]`. */
  function Map<A, B>(s: seq<A>, f: A -> B): (r: seq<B>)
    ensures |r| == |s|
    ensures forall k :: 0 <= k < |s| ==> r[k] == f(s[k])
  {
    seq(|s|, k requires 0 <= k < |s| => f(s[k]))
  }

  /** One more element of a loop over `s`. */
  lemma MapNext<A, B>(s: seq<A>, f: A -> B, i: nat)
    requires i < |s|
    ensures Map(s[..i + 1], f) == Map(s[..i], f) + [f(s[i])]
  {
    assert s[..i + 1] == s[..i] + [s[i]];
  }

  lemma MapConcat<A, B>(x: seq<A>, y: seq<A>, f: A -> B)
    ensures Map(x + y, f) == Map(x, f) + Map(y, f)
  {
  }

  lemma PermutationWithout<A>(a: seq<A>, b: seq<A>, k: nat)
    requires multiset(a) == multiset(b) && a != [] && k < |b| && b[k] == a[0]
    ensures multiset(a[1..]) == multiset(b[..k] + b[k + 1..])
  {
    assert a == [a[0]] + a[1..];
    assert b == b[..k] + [b[k]] + b[k + 1..];
    assert multiset(b) == multiset(b[..k]) + multiset{b[k]} + multiset(b[k + 1..]);
    assert multiset(a) == multiset{a[0]} + multiset(a[1..]);
    var rest := b[..k] + b[k + 1..];
    assert multiset(rest) == multiset(b[..k]) + multiset(b[k + 1..]);
    forall y ensures multiset(a[1..])[y] == multiset(rest)[y] {
      assert multiset(a)[y] == multiset(b)[y];
    }
  }

  /** Mapping two permutations of each other gives two permutations of each
      other. */
  lemma {:induction false} MapPermutation<A, B>(a: seq<A>, b: seq<A>, f: A -> B)
    requires multiset(a) == multiset(b)
    ensures multiset(Map(a, f)) == multiset(Map(b, f))
    decreases |a|
  {
    if a == [] {
      assert |b| == |multiset(b)| == 0;
    } else {
      assert a[0] in multiset(b);
      var k :| 0 <= k < |b| && b[k] == a[0];
      PermutationWithout(a, b, k);
      MapPermutation(a[1..], b[..k] + b[k + 1..], f);
      MapWithout(b, k, f);
      MapFirst(a, f);
    }
  }

  lemma MapFirst<A, B>(a: seq<A>, f: A -> B)
    requires a != []
    ensures multiset(Map(a, f)) == multiset{f(a[0])} + multiset(Map(a[1..], f))
  {
    assert Map(a, f) == [f(a[0])] + Map(a[1..], f);
  }

  lemma MapWithout<A, B>(b: seq<A>, k: nat, f: A -> B)
    requires k < |b|
    ensures multiset(Map(b, f)) == multiset(Map(b[..k] + b[k + 1..], f)) + multiset{f(b[k])}
  {
    var lo, hi := b[..k], b[k + 1..];
    MapAround(b, k, f);
    MapConcat(lo, hi, f);
    var x, y := Map(lo, f), Map(hi, f);
    assert multiset(x + [f(b[k])] + y) == multiset(x) + multiset{f(b[k])} + multiset(y);
    assert multiset(x + y) == multiset(x) + multiset(y);
  }

  lemma MapAround<A, B>(b: seq<A>, k: nat, f: A -> B)
    requires k < |b|
    ensures Map(b, f) == Map(b[..k], f) + [f(b[k])] + Map(b[k + 1..], f)
  {
    var r := Map(b[..k], f) + [f(b[k])] + Map(b[k + 1..], f);
    forall i | 0 <= i < |b| ensures Map(b, f)[i] == r[i] {
      if i < k {
        assert r[i] == Map(b[..k], f)[i];
      } else if i > k {
        assert r[i] == Map(b[k + 1..], f)[i - k - 1];
      }
    }
  }
}
