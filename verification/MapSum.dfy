/** Counters: sums over sequences and over the entries of a map. */
module MapSum {

  function Total<T>(s: seq<T>, f: T -> int): int {
    if s == [] then 0 else Total(s[..|s| - 1], f) + f(s[|s| - 1])
  }

  lemma TotalPush<T>(s: seq<T>, x: T, f: T -> int)
    ensures Total(s + [x], f) == Total(s, f) + f(x)
  {
    assert (s + [x])[..|s|] == s;
  }

  lemma {:induction false} TotalAppend<T>(a: seq<T>, b: seq<T>, f: T -> int)
    ensures Total(a + b, f) == Total(a, f) + Total(b, f)
    decreases |b|
  {
    if b == [] {
      assert a + b == a;
    } else {
      var c, x := b[..|b| - 1], b[|b| - 1];
      assert a + b == (a + c) + [x] && b == c + [x];
      TotalPush(a + c, x, f);
      TotalPush(c, x, f);
      TotalAppend(a, c, f);
    }
  }

  /** Sums add up when the summands do. */
  lemma {:induction false} TotalPlus<T(!new)>(s: seq<T>, f: T -> int, g: T -> int, h: T -> int)
    requires forall x :: x in s ==> f(x) == g(x) + h(x)
    ensures Total(s, f) == Total(s, g) + Total(s, h)
    decreases |s|
  {
    if s != [] { TotalPlus(s[..|s| - 1], f, g, h); }
  }

  lemma {:induction false} TotalSame<T(!new)>(s: seq<T>, f: T -> int, g: T -> int)
    requires forall x :: x in s ==> f(x) == g(x)
    ensures Total(s, f) == Total(s, g)
    decreases |s|
  {
    if s != [] { TotalSame(s[..|s| - 1], f, g); }
  }

  /** The sum of `f` over the entries of a map, in whatever order they are taken. */
  ghost function Sum<K, V>(m: map<K, V>, f: (K, V) -> int): int
    decreases |m|
  {
    if m == map[] then 0
    else
      var k :| k in m;
      f(k, m[k]) + Sum(m - {k}, f)
  }

  lemma {:induction false} SumRemove<K, V>(m: map<K, V>, k: K, f: (K, V) -> int)
    requires k in m
    ensures Sum(m, f) == f(k, m[k]) + Sum(m - {k}, f)
    decreases |m|
  {
    var j :| j in m && Sum(m, f) == f(j, m[j]) + Sum(m - {j}, f);
    if j != k {
      SumRemove(m - {j}, k, f);
      SumRemove(m - {k}, j, f);
      assert m - {j} - {k} == m - {k} - {j};
    }
  }

  /** The sum after one entry is set. */
  lemma SumSet<K, V>(m: map<K, V>, k: K, v: V, f: (K, V) -> int)
    ensures Sum(m[k := v], f) == Sum(m, f) + f(k, v) - (if k in m then f(k, m[k]) else 0)
  {
    SumRemove(m[k := v], k, f);
    assert m[k := v] - {k} == m - {k};
    if k in m { SumRemove(m, k, f); } else { assert m - {k} == m; }
  }

  // --- counters: `table[key] = table.get(key, 0) + n` ---

  function Get<K>(m: map<K, int>, k: K): int {
    if k in m then m[k] else 0
  }

  function Add<K>(m: map<K, int>, k: K, n: int): map<K, int> {
    m[k := Get(m, k) + n]
  }

  /** The counter of a list: `key` says which entry an item counts for and `weight` how much. */
  function Counter<T, K>(s: seq<T>, key: T -> K, weight: T -> int): map<K, int> {
    if s == [] then map[]
    else Add(Counter(s[..|s| - 1], key, weight), key(s[|s| - 1]), weight(s[|s| - 1]))
  }

  /** What the items with key `k` weigh. */
  function For<T, K(==)>(key: T -> K, weight: T -> int, k: K): T -> int {
    x => if key(x) == k then weight(x) else 0
  }

  lemma {:induction false} CounterKeys<T, K>(s: seq<T>, key: T -> K, weight: T -> int, k: K)
    ensures k in Counter(s, key, weight) <==> exists i :: 0 <= i < |s| && key(s[i]) == k
    decreases |s|
  {
    if s != [] {
      var n := |s| - 1;
      CounterKeys(s[..n], key, weight, k);
      if i :| 0 <= i < |s| && key(s[i]) == k { assert i < n ==> s[..n][i] == s[i]; }
    }
  }

  /** An entry holds the weight of its items. */
  lemma {:induction false} CounterExact<T, K>(s: seq<T>, key: T -> K, weight: T -> int, k: K)
    ensures Get(Counter(s, key, weight), k) == Total(s, For(key, weight, k))
    decreases |s|
  {
    if s != [] { CounterExact(s[..|s| - 1], key, weight, k); }
  }

  /** The counts under the keys that `pick` accepts. */
  function Picked<K>(pick: K -> bool): (K, int) -> int {
    (k: K, n: int) => if pick(k) then n else 0
  }

  function Every<K>(): K -> bool {
    (k: K) => true
  }

  /** What the items with an accepted key weigh. */
  function ForKeys<T, K>(key: T -> K, weight: T -> int, pick: K -> bool): T -> int {
    (x: T) => if pick(key(x)) then weight(x) else 0
  }

  /** The accepted entries of a counter sum up to the weight of the items with accepted keys. */
  lemma {:induction false} CounterSum<T, K>(s: seq<T>, key: T -> K, weight: T -> int, pick: K -> bool)
    ensures Sum(Counter(s, key, weight), Picked(pick)) == Total(s, ForKeys(key, weight, pick))
    decreases |s|
  {
    if s != [] {
      hide Sum, Counter;
      var init, x := s[..|s| - 1], s[|s| - 1];
      CounterSum(init, key, weight, pick);
      CounterStep(s, key, weight);
      var before := Counter(init, key, weight);
      SumSet(before, key(x), Get(before, key(x)) + weight(x), Picked(pick));
    } else {
      assert Counter(s, key, weight) == map[];
    }
  }

  lemma CounterStep<T, K>(s: seq<T>, key: T -> K, weight: T -> int)
    requires s != []
    ensures var init, x := s[..|s| - 1], s[|s| - 1];
            Counter(s, key, weight) == Add(Counter(init, key, weight), key(x), weight(x))
  {
  }

  lemma CounterPush<T, K>(s: seq<T>, x: T, key: T -> K, weight: T -> int)
    ensures Counter(s + [x], key, weight) == Add(Counter(s, key, weight), key(x), weight(x))
  {
    assert (s + [x])[..|s|] == s;
  }
}
