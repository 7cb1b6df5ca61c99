/** Generic sequence operations standing in for JavaScript's `Array.prototype`
    `filter`, `reduce((sum, x) => sum + f(x), 0)` and `sort`. `sort` is stable
    since ECMAScript 2019; it is modelled by a stable insertion sort over a
    "may come before" relation `le`, so that ties keep their input order. */
module Seqs {

  /** `s.filter(p)`. */
  function Filter<T>(s: seq<T>, p: T -> bool): (r: seq<T>)
    ensures |r| <= |s|
    ensures forall i :: 0 <= i < |r| ==> p(r[i]) && r[i] in s
    ensures forall i :: 0 <= i < |s| && p(s[i]) ==> s[i] in r
  {
    if s == [] then []
    else (if p(s[0]) then [s[0]] else []) + Filter(s[1..], p)
  }

  /** `[f(0), ..., f(n - 1)]`, built by pushing one element at a time. */
  function Tabulate<T>(f: nat -> T, n: nat): (r: seq<T>)
    ensures |r| == n
  {
    if n == 0 then [] else Tabulate(f, n - 1) + [f(n - 1)]
  }

  lemma {:induction false} TabulateAt<T>(f: nat -> T, n: nat, k: nat)
    requires k < n
    ensures Tabulate(f, n)[k] == f(k)
    decreases n
  {
    if k < n - 1 {
      TabulateAt(f, n - 1, k);
    }
  }

  /** `a` is `b` with some elements left out, the rest in their original order. */
  predicate IsSubsequence<T(==)>(a: seq<T>, b: seq<T>)
    decreases |b|
  {
    a == [] || (b != [] && ((a[0] == b[0] && IsSubsequence(a[1..], b[1..])) || IsSubsequence(a, b[1..])))
  }

  lemma {:induction false} FilterIsSubsequence<T>(s: seq<T>, p: T -> bool)
    ensures IsSubsequence(Filter(s, p), s)
    decreases |s|
  {
    if s != [] {
      FilterIsSubsequence(s[1..], p);
      var r := Filter(s, p);
      if p(s[0]) {
        assert r[0] == s[0] && r[1..] == Filter(s[1..], p);
      } else {
        assert r == Filter(s[1..], p);
      }
    }
  }

  /** Filtering keeps exactly the multiplicity of the elements that pass. */
  lemma {:induction false} FilterMultiset<T>(s: seq<T>, p: T -> bool, x: T)
    ensures multiset(Filter(s, p))[x] == if p(x) then multiset(s)[x] else 0
    decreases |s|
  {
    if s != [] {
      FilterMultiset(s[1..], p, x);
      assert s == [s[0]] + s[1..];
    }
  }

  /** `s.reduce((sum, x) => sum + f(x), 0)`. */
  function SumOf<T>(s: seq<T>, f: T -> int): int {
    if s == [] then 0 else f(s[0]) + SumOf(s[1..], f)
  }

  lemma {:induction false} SumOfConcat<T>(a: seq<T>, b: seq<T>, f: T -> int)
    ensures SumOf(a + b, f) == SumOf(a, f) + SumOf(b, f)
    decreases |a|
  {
    if a == [] {
      assert a + b == b;
    } else {
      assert (a + b)[1..] == a[1..] + b;
      SumOfConcat(a[1..], b, f);
    }
  }

  /** With non-negative summands, the sum over a filtered list is at most the
      sum over the whole list. */
  lemma {:induction false} SumOfFilterLe<T>(s: seq<T>, p: T -> bool, f: T -> int)
    requires forall x :: x in s ==> f(x) >= 0
    ensures SumOf(Filter(s, p), f) <= SumOf(s, f)
    decreases |s|
  {
    if s != [] {
      SumOfFilterLe(s[1..], p, f);
      var head: seq<T> := if p(s[0]) then [s[0]] else [];
      SumOfConcat(head, Filter(s[1..], p), f);
      assert SumOf(head, f) <= f(s[0]);
    }
  }

  /** Splitting a sum by a predicate: what passes plus what does not. */
  lemma {:induction false} SumOfPartition<T>(s: seq<T>, p: T -> bool, f: T -> int)
    ensures SumOf(Filter(s, p), f) + SumOf(Filter(s, x => !p(x)), f) == SumOf(s, f)
    decreases |s|
  {
    if s != [] {
      SumOfPartition(s[1..], p, f);
      var yes: seq<T> := if p(s[0]) then [s[0]] else [];
      var no: seq<T> := if !p(s[0]) then [s[0]] else [];
      SumOfConcat(yes, Filter(s[1..], p), f);
      SumOfConcat(no, Filter(s[1..], x => !p(x)), f);
    }
  }

  /** `le(a, b)`: `a` may come before `b`. */
  predicate SortedBy<T>(s: seq<T>, le: (T, T) -> bool) {
    forall i, j :: 0 <= i < j < |s| ==> le(s[i], s[j])
  }

  /** Places `x` in front of the first element it may precede; `x` came
      before every element of `r` in the input, so ties keep input order. */
  function Insert<T>(x: T, r: seq<T>, le: (T, T) -> bool): (o: seq<T>)
    ensures |o| == |r| + 1
    ensures multiset(o) == multiset(r) + multiset{x}
  {
    if r == [] then [x]
    else if le(x, r[0]) then [x] + r
    else assert r == [r[0]] + r[1..]; [r[0]] + Insert(x, r[1..], le)
  }

  /** `[...s].sort(cmp)` for a comparator whose "not after" relation is `le`. */
  function SortBy<T>(s: seq<T>, le: (T, T) -> bool): (r: seq<T>)
    ensures |r| == |s|
    ensures multiset(r) == multiset(s)
  {
    if s == [] then [] else assert s == [s[0]] + s[1..]; Insert(s[0], SortBy(s[1..], le), le)
  }

  lemma {:induction false} InsertSorted<T>(x: T, r: seq<T>, le: (T, T) -> bool)
    requires forall a, b :: le(a, b) || le(b, a)
    requires forall a, b, c :: le(a, b) && le(b, c) ==> le(a, c)
    requires SortedBy(r, le)
    ensures SortedBy(Insert(x, r, le), le)
    decreases |r|
  {
    if r != [] && !le(x, r[0]) {
      InsertSorted(x, r[1..], le);
      var o' := Insert(x, r[1..], le);
      forall j | 0 <= j < |o'|
        ensures le(r[0], o'[j])
      {
        assert o'[j] in multiset(r[1..]) + multiset{x};
        if o'[j] != x {
          assert o'[j] in r[1..];
        }
      }
    }
  }

  /** Under a total preorder, the sort's output is ordered. */
  lemma {:induction false} SortBySorted<T>(s: seq<T>, le: (T, T) -> bool)
    requires forall a, b :: le(a, b) || le(b, a)
    requires forall a, b, c :: le(a, b) && le(b, c) ==> le(a, c)
    ensures SortedBy(SortBy(s, le), le)
    decreases |s|
  {
    if s != [] {
      SortBySorted(s[1..], le);
      InsertSorted(s[0], SortBy(s[1..], le), le);
    }
  }

  /** The elements that tie with `e` under `le`. */
  function TiesWith<T>(le: (T, T) -> bool, e: T): T -> bool {
    y => le(y, e) && le(e, y)
  }

  /** Two elements that tie with `e` may come in either order. */
  lemma TiesOrdered<T>(le: (T, T) -> bool, e: T, a: T, b: T)
    requires forall a, b, c :: le(a, b) && le(b, c) ==> le(a, c)
    requires !le(a, b)
    ensures !(TiesWith(le, e)(a) && TiesWith(le, e)(b))
  {
  }

  /** `filter` of a list with a known head. */
  lemma FilterCons<T>(a: T, t: seq<T>, p: T -> bool)
    ensures Filter([a] + t, p) == (if p(a) then [a] else []) + Filter(t, p)
  {
    assert ([a] + t)[1..] == t;
  }

  /** Inserting `x` puts it in front of every element that ties with it. */
  lemma {:induction false} InsertStable<T>(x: T, r: seq<T>, le: (T, T) -> bool, e: T)
    requires forall a, b, c :: le(a, b) && le(b, c) ==> le(a, c)
    ensures Filter(Insert(x, r, le), TiesWith(le, e))
      == (if TiesWith(le, e)(x) then [x] else []) + Filter(r, TiesWith(le, e))
    decreases |r|
  {
    var p := TiesWith(le, e);
    if r == [] {
    } else if le(x, r[0]) {
      FilterCons(x, r, p);
    } else {
      var r' := r[1..];
      InsertStable(x, r', le, e);
      TiesOrdered(le, e, x, r[0]);
      assert r == [r[0]] + r';
      FilterCons(r[0], Insert(x, r', le), p);
      FilterCons(r[0], r', p);
    }
  }

  /** The sort is stable: the elements that tie with any `e` keep their input
      order. */
  lemma {:induction false} SortByStable<T>(s: seq<T>, le: (T, T) -> bool, e: T)
    requires forall a, b, c :: le(a, b) && le(b, c) ==> le(a, c)
    ensures Filter(SortBy(s, le), TiesWith(le, e)) == Filter(s, TiesWith(le, e))
    decreases |s|
  {
    if s != [] {
      SortByStable(s[1..], le, e);
      InsertStable(s[0], SortBy(s[1..], le), le, e);
    }
  }

  lemma {:induction false} SumOfInsert<T>(x: T, r: seq<T>, le: (T, T) -> bool, f: T -> int)
    ensures SumOf(Insert(x, r, le), f) == f(x) + SumOf(r, f)
    decreases |r|
  {
    if r != [] && !le(x, r[0]) {
      SumOfInsert(x, r[1..], le, f);
      assert Insert(x, r, le)[1..] == Insert(x, r[1..], le);
    } else if r != [] {
      assert ([x] + r)[1..] == r;
    }
  }

  /** Sorting does not change a sum. */
  lemma {:induction false} SumOfSortBy<T>(s: seq<T>, le: (T, T) -> bool, f: T -> int)
    ensures SumOf(SortBy(s, le), f) == SumOf(s, f)
    decreases |s|
  {
    if s != [] {
      SumOfSortBy(s[1..], le, f);
      SumOfInsert(s[0], SortBy(s[1..], le), le, f);
    }
  }

  lemma {:induction false} FilterConcat<T>(a: seq<T>, b: seq<T>, p: T -> bool)
    ensures Filter(a + b, p) == Filter(a, p) + Filter(b, p)
    decreases |a|
  {
    if a == [] {
      assert a + b == b;
    } else {
      assert (a + b)[1..] == a[1..] + b;
      FilterConcat(a[1..], b, p);
    }
  }

  /** `s.map(f)`. */
  function Map<T, U>(s: seq<T>, f: T -> U): (r: seq<U>)
    ensures |r| == |s|
    ensures forall i :: 0 <= i < |s| ==> r[i] == f(s[i])
  {
    if s == [] then [] else [f(s[0])] + Map(s[1..], f)
  }

  /** Summing `g` over `s.map(f)` is summing `g` after `f` over `s`. */
  lemma {:induction false} SumOfMap<T, U>(s: seq<T>, f: T -> U, g: U -> int, h: T -> int)
    requires forall x :: h(x) == g(f(x))
    ensures SumOf(Map(s, f), g) == SumOf(s, h)
    decreases |s|
  {
    if s != [] {
      SumOfMap(s[1..], f, g, h);
      assert Map(s, f)[1..] == Map(s[1..], f);
    }
  }

  lemma {:induction false} SumOfZero<T>(s: seq<T>, f: T -> int)
    requires forall x :: x in s ==> f(x) == 0
    ensures SumOf(s, f) == 0
    decreases |s|
  {
    if s != [] {
      assert forall x :: x in s[1..] ==> x in s;
      SumOfZero(s[1..], f);
    }
  }

  /** Changing the summand at one point `x` by `c` changes the sum by `c`
      for every occurrence of `x`. */
  lemma {:induction false} SumOfPointUpdate<T>(s: seq<T>, g: T -> int, h: T -> int, x: T, c: int)
    requires forall y :: y != x ==> h(y) == g(y)
    requires h(x) == g(x) + c
    ensures SumOf(s, h) == SumOf(s, g) + multiset(s)[x] * c
    decreases |s|
  {
    if s != [] {
      SumOfPointUpdate(s[1..], g, h, x, c);
      var m := multiset(s[1..])[x];
      assert s == [s[0]] + s[1..];
      if s[0] == x {
        assert multiset(s)[x] == m + 1;
        assert (m + 1) * c == m * c + c;
      } else {
        assert multiset(s)[x] == m;
      }
    }
  }

  /** No two elements of `s` share a key. */
  predicate DistinctBy<T, K(==)>(s: seq<T>, key: T -> K) {
    forall i, j :: 0 <= i < j < |s| ==> key(s[i]) != key(s[j])
  }

  lemma {:induction false} DistinctByCount<T, K>(a: seq<T>, key: T -> K, x: T)
    requires DistinctBy(a, key)
    ensures multiset(a)[x] <= 1
    decreases |a|
  {
    if a != [] {
      var init := a[..|a| - 1];
      assert a == init + [a[|a| - 1]];
      DistinctByCount(init, key, x);
      if x == a[|a| - 1] {
        assert x !in init;
      }
    }
  }

  lemma TwoPositionsCount<T>(b: seq<T>, i: int, j: int)
    requires 0 <= i < j < |b| && b[i] == b[j]
    ensures multiset(b)[b[i]] >= 2
  {
    assert b == b[..i] + [b[i]] + b[i + 1..j] + [b[j]] + b[j + 1..];
  }

  /** Reordering keeps keys pairwise distinct. */
  lemma DistinctByOfPermutation<T, K>(a: seq<T>, b: seq<T>, key: T -> K)
    requires multiset(a) == multiset(b) && DistinctBy(a, key)
    ensures DistinctBy(b, key)
  {
    forall i, j | 0 <= i < j < |b| ensures key(b[i]) != key(b[j]) {
      if b[i] == b[j] {
        TwoPositionsCount(b, i, j);
        DistinctByCount(a, key, b[i]);
      } else {
        assert b[i] in multiset(a) && b[j] in multiset(a);
        var p :| 0 <= p < |a| && a[p] == b[i];
        var q :| 0 <= q < |a| && a[q] == b[j];
        assert p != q;
      }
    }
  }

  /** Summing over the elements that pass `p` is summing a summand that is
      zero on the others. */
  lemma {:induction false} SumOfFilterMask<T>(s: seq<T>, p: T -> bool, f: T -> int, h: T -> int)
    requires forall x :: x in s ==> h(x) == (if p(x) then f(x) else 0)
    ensures SumOf(Filter(s, p), f) == SumOf(s, h)
    decreases |s|
  {
    if s != [] {
      assert forall x :: x in s[1..] ==> x in s;
      SumOfFilterMask(s[1..], p, f, h);
      var head: seq<T> := if p(s[0]) then [s[0]] else [];
      SumOfConcat(head, Filter(s[1..], p), f);
    }
  }

  /** A list without repetitions has as many elements as its set. */
  lemma {:induction false} DistinctCardinality<T>(s: seq<T>)
    requires forall i, j :: 0 <= i < j < |s| ==> s[i] != s[j]
    ensures |set x | x in s| == |s|
    decreases |s|
  {
    if s != [] {
      DistinctCardinality(s[1..]);
      assert (set x | x in s) == {s[0]} + (set x | x in s[1..]);
      assert s[0] !in s[1..];
    }
  }

  /** A filter every element passes keeps the list as it is. */
  lemma {:induction false} FilterAll<T>(s: seq<T>, p: T -> bool)
    requires forall x :: x in s ==> p(x)
    ensures Filter(s, p) == s
    decreases |s|
  {
    if s != [] {
      assert forall x :: x in s[1..] ==> x in s;
      FilterAll(s[1..], p);
      assert s == [s[0]] + s[1..];
    }
  }

  /** Filtering keeps keys that were distinct distinct. */
  lemma {:induction false} FilterDistinctBy<T, K>(s: seq<T>, p: T -> bool, key: T -> K)
    requires DistinctBy(s, key)
    ensures DistinctBy(Filter(s, p), key)
    decreases |s|
  {
    if s != [] {
      var tail := Filter(s[1..], p);
      FilterDistinctBy(s[1..], p, key);
      if p(s[0]) {
        var r := [s[0]] + tail;
        forall i, j | 0 <= i < j < |r|
          ensures key(r[i]) != key(r[j])
        {
          if i == 0 {
            var k :| 0 <= k < |s[1..]| && s[1..][k] == r[j];
            assert s[k + 1] == r[j];
          }
        }
      }
    }
  }
}
