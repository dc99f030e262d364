/** The order of the queries: time stamp, then source file, then line number; and sorting by it. */
module Order {
  import opened Text

  /** Code-point order on strings. */
  predicate StrLe(a: string, b: string) {
    a == "" || (b != "" && (a[0] < b[0] || (a[0] == b[0] && StrLe(a[1..], b[1..]))))
  }

  lemma {:induction false} StrTotal(a: string, b: string)
    ensures StrLe(a, b) || StrLe(b, a)
    decreases |a|
  {
    if a != "" && b != "" && a[0] == b[0] { StrTotal(a[1..], b[1..]); }
  }

  lemma {:induction false} StrAntisymmetric(a: string, b: string)
    requires StrLe(a, b) && StrLe(b, a)
    ensures a == b
    decreases |a|
  {
    if a != "" {
      StrAntisymmetric(a[1..], b[1..]);
      assert a == [a[0]] + a[1..] && b == [b[0]] + b[1..];
    }
  }

  lemma {:induction false} StrTransitive(a: string, b: string, c: string)
    requires StrLe(a, b) && StrLe(b, c)
    ensures StrLe(a, c)
    decreases |a|
  {
    if a != "" && a[0] == b[0] == c[0] { StrTransitive(a[1..], b[1..], c[1..]); }
  }

  datatype Key = Key(ts: int, file: string, no: int)

  predicate Le(a: Key, b: Key) {
    a.ts < b.ts || (a.ts == b.ts && if a.file == b.file then a.no <= b.no else StrLe(a.file, b.file))
  }

  lemma LeTotal(a: Key, b: Key)
    ensures Le(a, b) || Le(b, a)
  {
    StrTotal(a.file, b.file);
  }

  lemma LeAntisymmetric(a: Key, b: Key)
    requires Le(a, b) && Le(b, a)
    ensures a == b
  {
    if a.file != b.file { StrAntisymmetric(a.file, b.file); }
  }

  lemma LeTransitive(a: Key, b: Key, c: Key)
    requires Le(a, b) && Le(b, c)
    ensures Le(a, c)
  {
    if a.ts == b.ts == c.ts && a.file != b.file && b.file != c.file {
      StrTransitive(a.file, b.file, c.file);
      if a.file == c.file { StrAntisymmetric(a.file, b.file); }
    }
  }

  ghost predicate Sorted<T>(s: seq<T>, key: T -> Key) {
    forall i, j :: 0 <= i < j < |s| ==> Le(key(s[i]), key(s[j]))
  }

  function Insert<T>(x: T, s: seq<T>, key: T -> Key): seq<T> {
    if s == [] || Le(key(x), key(s[0])) then [x] + s else [s[0]] + Insert(x, s[1..], key)
  }

  /** `ORDER BY`, as a stable insertion sort. */
  function Sort<T>(s: seq<T>, key: T -> Key): seq<T> {
    if s == [] then [] else Insert(s[0], Sort(s[1..], key), key)
  }

  lemma {:induction false} InsertSorts<T>(x: T, s: seq<T>, key: T -> Key)
    requires Sorted(s, key)
    ensures Sorted(Insert(x, s, key), key) && multiset(Insert(x, s, key)) == multiset(s) + multiset{x}
    decreases |s|
  {
    var r := Insert(x, s, key);
    if s == [] {
    } else if Le(key(x), key(s[0])) {
      forall j | 0 < j < |r| ensures Le(key(r[0]), key(r[j])) {
        if j > 1 { LeTransitive(key(x), key(s[0]), key(s[j - 1])); }
      }
    } else {
      LeTotal(key(x), key(s[0]));
      var rest := Insert(x, s[1..], key);
      InsertSorts(x, s[1..], key);
      assert s == [s[0]] + s[1..];
      forall j | 0 < j < |r| ensures Le(key(r[0]), key(r[j])) {
        assert rest[j - 1] in multiset(rest);
        assert rest[j - 1] == x || rest[j - 1] in s[1..];
      }
    }
  }

  lemma {:induction false} SortSorts<T>(s: seq<T>, key: T -> Key)
    ensures Sorted(Sort(s, key), key) && multiset(Sort(s, key)) == multiset(s)
    decreases |s|
  {
    if s != [] {
      SortSorts(s[1..], key);
      InsertSorts(s[0], Sort(s[1..], key), key);
      assert s == [s[0]] + s[1..];
    }
  }

  /** Distinct elements have distinct keys. */
  ghost predicate Keyed<T(!new)>(s: seq<T>, key: T -> Key) {
    forall x, y :: x in s && y in s && key(x) == key(y) ==> x == y
  }

  lemma HeadIsLeast<T>(a: seq<T>, x: T, key: T -> Key)
    requires Sorted(a, key) && x in multiset(a)
    ensures Le(key(a[0]), key(x))
  {
    var i :| 0 <= i < |a| && a[i] == x;
    LeTotal(key(x), key(x));
  }

  lemma TailSorted<T>(a: seq<T>, key: T -> Key)
    requires Sorted(a, key) && a != []
    ensures Sorted(a[1..], key) && multiset(a[1..]) == multiset(a) - multiset{a[0]}
  {
    assert a == [a[0]] + a[1..];
  }

  /** With a key the order is forced: there is only one sorted arrangement. */
  lemma {:induction false} SortedUnique<T(!new)>(a: seq<T>, b: seq<T>, key: T -> Key)
    requires Sorted(a, key) && Sorted(b, key) && multiset(a) == multiset(b) && Keyed(a, key)
    ensures a == b
    decreases |a|
  {
    assert |a| == |multiset(a)| == |multiset(b)| == |b|;
    if a != [] {
      hide Le, Sorted;
      assert a[0] in multiset(a) && b[0] in multiset(b);
      HeadIsLeast(b, a[0], key);
      HeadIsLeast(a, b[0], key);
      LeAntisymmetric(key(a[0]), key(b[0]));
      assert a[0] == b[0];
      TailSorted(a, key);
      TailSorted(b, key);
      SortedUnique(a[1..], b[1..], key);
      assert a == [a[0]] + a[1..] && b == [b[0]] + b[1..];
    }
  }

  function Filter<T>(s: seq<T>, p: T -> bool): seq<T> {
    if s == [] then [] else (if p(s[0]) then [s[0]] else []) + Filter(s[1..], p)
  }

  lemma {:induction false} FilterMember<T>(s: seq<T>, p: T -> bool, x: T)
    ensures x in Filter(s, p) <==> x in s && p(x)
    decreases |s|
  {
    if s != [] {
      FilterMember(s[1..], p, x);
      assert s == [s[0]] + s[1..];
    }
  }

  lemma {:induction false} FilterCount<T>(s: seq<T>, p: T -> bool, x: T)
    ensures multiset(Filter(s, p))[x] == if p(x) then multiset(s)[x] else 0
    decreases |s|
  {
    if s != [] {
      FilterCount(s[1..], p, x);
      assert s == [s[0]] + s[1..];
    }
  }

  lemma {:induction false} FilterSorted<T>(s: seq<T>, p: T -> bool, key: T -> Key)
    requires Sorted(s, key)
    ensures Sorted(Filter(s, p), key)
    decreases |s|
  {
    if s != [] {
      var rest := Filter(s[1..], p);
      FilterSorted(s[1..], p, key);
      forall j | 0 <= j < |rest| ensures Le(key(s[0]), key(rest[j])) {
        FilterMember(s[1..], p, rest[j]);
      }
    }
  }

  /** Selecting and sorting commute when the order is forced. */
  lemma SortFilter<T(!new)>(s: seq<T>, p: T -> bool, key: T -> Key)
    requires Keyed(s, key)
    ensures Sort(Filter(s, p), key) == Filter(Sort(s, key), p)
  {
    var a, b := Sort(Filter(s, p), key), Filter(Sort(s, key), p);
    SortSorts(s, key);
    SortSorts(Filter(s, p), key);
    FilterSorted(Sort(s, key), p, key);
    forall x ensures multiset(a)[x] == multiset(b)[x] {
      FilterCount(s, p, x);
      FilterCount(Sort(s, key), p, x);
    }
    forall x, y | x in a && y in a && key(x) == key(y) ensures x == y {
      assert x in multiset(a) && y in multiset(a);
      FilterMember(s, p, x);
      FilterMember(s, p, y);
    }
    SortedUnique(a, b, key);
  }

  lemma {:induction false} FilterAppend<T>(a: seq<T>, b: seq<T>, p: T -> bool)
    ensures Filter(a + b, p) == Filter(a, p) + Filter(b, p)
    decreases |a|
  {
    if a == [] {
      EmptyUnit(b);
      EmptyUnit(Filter(b, p));
    } else {
      assert (a + b)[1..] == a[1..] + b;
      FilterAppend(a[1..], b, p);
      Assoc(if p(a[0]) then [a[0]] else [], Filter(a[1..], p), Filter(b, p));
    }
  }

  lemma FilterNext<T>(s: seq<T>, i: nat, p: T -> bool)
    requires i < |s|
    ensures Filter(s[..i + 1], p) == Filter(s[..i], p) + if p(s[i]) then [s[i]] else []
  {
    assert s[..i + 1] == s[..i] + [s[i]];
    FilterAppend(s[..i], [s[i]], p);
    assert [s[i]][1..] == [];
  }
}
