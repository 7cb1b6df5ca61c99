/** Grouping records by a string key into a JavaScript `Map`, the pattern of
    `map.set(k, (map.get(k) || 0) + x)` inside `forEach` that both chart
    components use. A `Map` iterates its keys in order of first insertion. */
module Groups {
  import opened Seqs

  /** The distinct keys of `s` in order of first appearance. */
  function KeysInOrder<T>(s: seq<T>, key: T -> string): (r: seq<string>)
    ensures forall i, j :: 0 <= i < j < |r| ==> r[i] != r[j]
    ensures forall k :: k in r <==> exists x :: x in s && key(x) == k
    decreases |s|
  {
    if s == [] then []
    else
      var init := s[..|s| - 1];
      var p := KeysInOrder(init, key);
      var k := key(s[|s| - 1]);
      assert s == init + [s[|s| - 1]];
      if k in p then p else p + [k]
  }

  /** The index of the first element of `s` whose key is `k`, or `|s|` when
      there is none. */
  function FirstAt<T>(s: seq<T>, key: T -> string, k: string): (r: nat)
    ensures r <= |s|
    ensures r < |s| ==> key(s[r]) == k
    ensures forall q :: 0 <= q < r && q < |s| ==> key(s[q]) != k
    decreases |s|
  {
    if s == [] then 0
    else
      var n := |s| - 1;
      var f := FirstAt(s[..n], key, k);
      if f < n then f else if key(s[n]) == k then n else n + 1
  }

  /** The keys come in the order of their first appearance in `s`: a key
      listed earlier first occurs earlier. */
  lemma {:induction false} KeysInOrderFirstAppearance<T>(s: seq<T>, key: T -> string)
    ensures forall i :: 0 <= i < |KeysInOrder(s, key)| ==> FirstAt(s, key, KeysInOrder(s, key)[i]) < |s|
    ensures forall i, j :: 0 <= i < j < |KeysInOrder(s, key)| ==>
      FirstAt(s, key, KeysInOrder(s, key)[i]) < FirstAt(s, key, KeysInOrder(s, key)[j])
    decreases |s|
  {
    if s != [] {
      var n := |s| - 1;
      var init := s[..n];
      var p := KeysInOrder(init, key);
      var k := key(s[n]);
      KeysInOrderFirstAppearance(init, key);
      forall i | 0 <= i < |p|
        ensures FirstAt(s, key, p[i]) == FirstAt(init, key, p[i]) < n
      {
        assert FirstAt(init, key, p[i]) < |init|;
        assert s[..n] == init;
      }
      if k !in p {
        assert s[..n] == init;
        assert FirstAt(s, key, k) == n;
        var r := p + [k];
        assert KeysInOrder(s, key) == r;
        forall i, j | 0 <= i < j < |r|
          ensures FirstAt(s, key, r[i]) < FirstAt(s, key, r[j])
        {
          assert r[i] == p[i];
          if j < |p| {
            assert r[j] == p[j];
          }
        }
      }
    }
  }

  /** The value the `Map` holds for `k` after `s`: `f` summed over the
      elements with key `k`, in order. */
  function GroupSum<T>(s: seq<T>, key: T -> string, f: T -> int, k: string): int
    decreases |s|
  {
    if s == [] then 0
    else
      var n := |s| - 1;
      GroupSum(s[..n], key, f, k) + (if key(s[n]) == k then f(s[n]) else 0)
  }

  /** The elements whose key is `k`. */
  function KeyIs<T>(key: T -> string, k: string): T -> bool {
    x => key(x) == k
  }

  /** The per-key sums as a function of the key. */
  function SumsBy<T>(s: seq<T>, key: T -> string, f: T -> int): string -> int {
    k => GroupSum(s, key, f, k)
  }

  /** The accumulated value for `k` is the sum of `f` over the elements
      whose key is `k`. */
  lemma {:induction false} GroupSumIsFilteredSum<T>(s: seq<T>, key: T -> string, f: T -> int, k: string)
    ensures GroupSum(s, key, f, k) == SumOf(Filter(s, KeyIs(key, k)), f)
    decreases |s|
  {
    if s != [] {
      var n := |s| - 1;
      var x := s[n];
      GroupSumIsFilteredSum(s[..n], key, f, k);
      assert s == s[..n] + [x];
      FilterConcat(s[..n], [x], KeyIs(key, k));
      assert [x][1..] == [];
      SumOfConcat(Filter(s[..n], KeyIs(key, k)), Filter([x], KeyIs(key, k)), f);
    }
  }

  /** Summing the per-key sums over a list of distinct keys that covers every
      element gives the sum over all elements: no element is counted twice
      or lost. */
  lemma {:induction false} SumOverKeys<T>(s: seq<T>, key: T -> string, f: T -> int, keys: seq<string>)
    requires forall i, j :: 0 <= i < j < |keys| ==> keys[i] != keys[j]
    requires forall x :: x in s ==> key(x) in keys
    ensures SumOf(keys, SumsBy(s, key, f)) == SumOf(s, f)
    decreases |s|
  {
    if s == [] {
      SumOfZero(keys, SumsBy(s, key, f));
    } else {
      var n := |s| - 1;
      var x := s[n];
      assert s == s[..n] + [x];
      SumOverKeys(s[..n], key, f, keys);
      SumOfPointUpdate(keys, SumsBy(s[..n], key, f), SumsBy(s, key, f), key(x), f(x));
      assert DistinctBy(keys, (k: string) => k);
      DistinctByCount(keys, (k: string) => k, key(x));
      SumOfConcat(s[..n], [x], f);
    }
  }

  /** The `forEach` loop: `keys` are the `Map`'s keys in iteration order and
      `sums` its contents. */
  method Accumulate<T>(s: seq<T>, key: T -> string, f: T -> int) returns (keys: seq<string>, sums: map<string, int>)
    ensures keys == KeysInOrder(s, key)
    ensures forall k :: k in sums <==> k in keys
    ensures forall k :: k in sums ==> sums[k] == GroupSum(s, key, f, k)
  {
    keys := [];
    sums := map[];
    for i := 0 to |s|
      invariant keys == KeysInOrder(s[..i], key)
      invariant forall k :: k in sums <==> k in keys
      invariant forall k :: k in sums ==> sums[k] == GroupSum(s[..i], key, f, k)
    {
      var k := key(s[i]);
      AccumulateStep(s, key, f, i);
      if k !in sums {
        GroupSumAbsent(s[..i], key, f, k);
      }
      var current := if k in sums then sums[k] else 0;
      if k !in sums {
        keys := keys + [k];
      }
      sums := sums[k := current + f(s[i])];
    }
    assert s[..|s|] == s;
  }

  /** One more element: its key joins the keys if new, and only its key's
      sum grows. */
  lemma AccumulateStep<T>(s: seq<T>, key: T -> string, f: T -> int, i: nat)
    requires i < |s|
    ensures var p := KeysInOrder(s[..i], key);
      KeysInOrder(s[..i + 1], key) == if key(s[i]) in p then p else p + [key(s[i])]
    ensures forall k :: GroupSum(s[..i + 1], key, f, k) == GroupSum(s[..i], key, f, k) + (if key(s[i]) == k then f(s[i]) else 0)
  {
    assert s[..i + 1][..i] == s[..i];
  }

  /** A key that never occurs has sum 0, the `|| 0` of the source. */
  lemma {:induction false} GroupSumAbsent<T>(s: seq<T>, key: T -> string, f: T -> int, k: string)
    requires k !in KeysInOrder(s, key)
    ensures GroupSum(s, key, f, k) == 0
    decreases |s|
  {
    if s != [] {
      var n := |s| - 1;
      assert s == s[..n] + [s[n]];
      assert key(s[n]) != k;
      assert forall x :: x in s[..n] ==> x in s;
      GroupSumAbsent(s[..n], key, f, k);
    }
  }

  /** Accumulating a sum of two summands is the sum of accumulating each. */
  lemma {:induction false} GroupSumAdd<T>(s: seq<T>, key: T -> string, f: T -> int, g: T -> int, h: T -> int, k: string)
    requires forall x :: h(x) == f(x) + g(x)
    ensures GroupSum(s, key, h, k) == GroupSum(s, key, f, k) + GroupSum(s, key, g, k)
    decreases |s|
  {
    if s != [] {
      GroupSumAdd(s[..|s| - 1], key, f, g, h, k);
    }
  }
}
