/** The lazy sequence over the stored lines: every access is a query with ORDER BY, LIMIT and OFFSET. */
module LineSequence {
  import opened Text
  import opened Order

  /** Rows `offset` to `offset + limit` of an ordered result; a negative offset counts as zero. */
  function Page<T>(ordered: seq<T>, limit: nat, offset: int): seq<T> {
    var from := if offset < 0 then 0 else if offset > |ordered| then |ordered| else offset;
    var to := if from + limit > |ordered| then |ordered| else from + limit;
    ordered[from..to]
  }

  function PyIndex<T>(s: seq<T>, key: int): Result<T> {
    var i := if key < 0 then key + |s| else key;
    if 0 <= i < |s| then Ok(s[i]) else Err("line index out of range")
  }

  function Clamp(i: int, n: nat, lo: int, hi: int): int {
    var j := if i < 0 then i + n else i;
    if j < lo then lo else if j > hi then hi else j
  }

  /** `slice.indices(n)` for a step that is not zero. */
  function Start(start: Option<int>, n: nat, step: int): (r: int)
    ensures if step < 0 then -1 <= r < n else 0 <= r <= n
  {
    var lo, hi := if step < 0 then -1 else 0, if step < 0 then n - 1 else n;
    match start
    case None => if step < 0 then hi else lo
    case Some(i) => Clamp(i, n, lo, hi)
  }

  function Stop(stop: Option<int>, n: nat, step: int): (r: int)
    ensures if step < 0 then -1 <= r < n else 0 <= r <= n
  {
    var lo, hi := if step < 0 then -1 else 0, if step < 0 then n - 1 else n;
    match stop
    case None => if step < 0 then lo else hi
    case Some(i) => Clamp(i, n, lo, hi)
  }

  /** The elements a list gives for `range(a, b, step)`. */
  function Range<T>(s: seq<T>, a: int, b: int, step: int): seq<T>
    requires step > 0 ==> 0 <= a && b <= |s|
    requires step < 0 ==> a < |s| && -1 <= b
    requires step != 0
    decreases if step > 0 then b - a else a - b
  {
    if (step > 0 && a < b) || (step < 0 && b < a) then [s[a]] + Range(s, a + step, b, step) else []
  }

  /** A list's `s[start:stop:step]`. */
  function PySlice<T>(s: seq<T>, start: Option<int>, stop: Option<int>, step: int): seq<T>
    requires step != 0
  {
    Range(s, Start(start, |s|, step), Stop(stop, |s|, step), step)
  }

  /** Every step-th row, `phase` rows after the last one taken. */
  function EveryNth<T>(rows: seq<T>, phase: nat, step: nat): seq<T>
    requires phase < step
  {
    if rows == [] then []
    else (if phase == 0 then [rows[0]] else []) + EveryNth(rows[1..], if phase + 1 == step then 0 else phase + 1, step)
  }

  function Abs(i: int): nat {
    if i < 0 then -i else i
  }

  /** What `__getitem__` returns for a slice. */
  function Slice<T>(ordered: seq<T>, start: Option<int>, stop: Option<int>, step: int): seq<T>
    requires step != 0
  {
    var a, b := Start(start, |ordered|, step), Stop(stop, |ordered|, step);
    if step == 1 then if b <= a then [] else Page(ordered, b - a, a)
    else EveryNth(Page(ordered, if b > a then b - a else 0, a), 0, Abs(step))
  }

  method GetIndex<T>(ordered: seq<T>, key: int) returns (r: Result<T>)
    ensures r == PyIndex(ordered, key)
  {
    var n := |ordered|;
    var i := if key < 0 then key + n else key;
    if i < 0 || i >= n {
      return Err("line index out of range");
    }
    var rows := Page(ordered, 1, i);
    assert rows == [ordered[i]];
    return Ok(rows[0]);
  }

  method GetSlice<T>(ordered: seq<T>, start: Option<int>, stop: Option<int>, step: int) returns (out: seq<T>)
    requires step != 0
    ensures out == Slice(ordered, start, stop, step)
  {
    hide Start, Stop, Page, EveryNth;
    var n := |ordered|;
    var a, b := Start(start, n, step), Stop(stop, n, step);
    if step == 1 {
      if b <= a {
        return [];
      }
      return Page(ordered, b - a, a);
    }
    out := Strided(Page(ordered, if b > a then b - a else 0, a), Abs(step));
  }

  method Strided<T>(rows: seq<T>, step: nat) returns (out: seq<T>)
    requires step > 0
    ensures out == EveryNth(rows, 0, step)
  {
    hide EveryNth;
    out := [];
    assert rows[0..] == rows;
    EmptyUnit(EveryNth(rows, 0, step));
    for offset := 0 to |rows|
      invariant out + EveryNth(rows[offset..], offset % step, step) == EveryNth(rows, 0, step)
    {
      NthStep(rows, offset, step);
      Assoc(out, [rows[offset]], EveryNth(rows[offset + 1..], (offset + 1) % step, step));
      if offset % step == 0 {
        out := out + [rows[offset]];
      }
    }
    NthOfNone(rows, step);
    EmptyUnit(out);
  }

  lemma NthStep<T>(rows: seq<T>, o: nat, step: nat)
    requires step > 0 && o < |rows|
    ensures EveryNth(rows[o..], o % step, step) ==
            if o % step == 0 then [rows[o]] + EveryNth(rows[o + 1..], (o + 1) % step, step)
            else EveryNth(rows[o + 1..], (o + 1) % step, step)
  {
    ModStep(o, step);
    assert rows[o..][0] == rows[o] && rows[o..][1..] == rows[o + 1..];
    EmptyUnit(EveryNth(rows[o + 1..], (o + 1) % step, step));
  }

  lemma NthOfNone<T>(rows: seq<T>, step: nat)
    requires step > 0
    ensures EveryNth(rows[|rows|..], |rows| % step, step) == []
  {
  }

  lemma MulMonotone(a: nat, b: nat, s: nat)
    requires a <= b
    ensures a * s <= b * s
  {
    assert b * s == a * s + (b - a) * s;
  }

  lemma MulUnique(s: nat, q: nat, r: nat, p: nat, t: nat)
    requires r < s && t < s && q * s + r == p * s + t
    ensures q == p && r == t
  {
    if p < q {
      MulMonotone(p + 1, q, s);
    } else if q < p {
      MulMonotone(q + 1, p, s);
    }
  }

  lemma ModUnique(x: nat, s: nat, q: nat, r: nat)
    requires r < s && x == q * s + r
    ensures x % s == r
  {
    MulUnique(s, q, r, x / s, x % s);
  }

  lemma ModStep(o: nat, s: nat)
    requires s > 0
    ensures (o + 1) % s == if o % s + 1 == s then 0 else o % s + 1
  {
    var q := o / s;
    assert o == q * s + o % s;
    if o % s + 1 == s {
      assert o + 1 == (q + 1) * s;
      ModUnique(o + 1, s, q + 1, 0);
    } else {
      ModUnique(o + 1, s, q, o % s + 1);
    }
  }

  lemma {:induction false} NthRange<T>(s: seq<T>, a: nat, b: nat, step: nat, phase: nat)
    requires step > 0 && a <= b <= |s| && phase < step
    ensures EveryNth(s[a..b], phase, step) ==
            var first := if phase == 0 then a else a + step - phase;
            if first <= b then Range(s, first, b, step) else []
    decreases b - a
  {
    hide EveryNth, Range;
    NthFirst(s, a, b, step, phase);
    RangeFirst(s, a, b, step);
    if a < b {
      NthRange(s, a + 1, b, step, if phase + 1 == step then 0 else phase + 1);
      if phase == 0 { RangeFirst(s, a + step, b, step); }
    }
  }

  lemma NthFirst<T>(s: seq<T>, a: nat, b: nat, step: nat, phase: nat)
    requires a <= b <= |s| && phase < step
    ensures EveryNth(s[a..b], phase, step) ==
            if a == b then []
            else
              var rest := EveryNth(s[a + 1..b], if phase + 1 == step then 0 else phase + 1, step);
              if phase == 0 then [s[a]] + rest else rest
  {
    if a < b {
      assert s[a..b][0] == s[a] && s[a..b][1..] == s[a + 1..b];
      EmptyUnit(EveryNth(s[a + 1..b], if phase + 1 == step then 0 else phase + 1, step));
    }
  }

  lemma RangeFirst<T>(s: seq<T>, a: nat, b: nat, step: nat)
    requires step > 0 && b <= |s|
    ensures Range(s, a, b, step) == if a < b then [s[a]] + Range(s, a + step, b, step) else []
  {
  }

  lemma ForwardSlice<T>(s: seq<T>, start: Option<int>, stop: Option<int>, step: nat)
    requires step > 0
    ensures Slice(s, start, stop, step) == PySlice(s, start, stop, step)
  {
    hide Start, Stop;
    var a, b := Start(start, |s|, step), Stop(stop, |s|, step);
    if a < b {
      assert Page(s, b - a, a) == s[a..b];
      NthRange(s, a, b, step, 0);
      OneByOne(s, a, b);
    } else {
      assert Page(s, 0, a) == [];
    }
  }

  lemma BackwardSlice<T>(s: seq<T>, start: Option<int>, stop: Option<int>, step: int)
    requires step < 0
    ensures Slice(s, start, stop, step) == PySlice(s, start, stop, step)
       <==> Start(start, |s|, step) == Stop(stop, |s|, step)
  {
    hide Start, Stop;
    var a, b := Start(start, |s|, step), Stop(stop, |s|, step);
    if b > a {
      assert |Page(s, b - a, a)| >= 1;
      assert Slice(s, start, stop, step) != [];
    } else {
      assert Page(s, 0, a) == [];
    }
  }

  /** A slice agrees with the list's slice for every positive step, whatever the bounds; for a negative
      step only where the clamped bounds meet. */
  lemma SliceExact<T>(s: seq<T>, start: Option<int>, stop: Option<int>, step: int)
    requires step != 0
    ensures Slice(s, start, stop, step) == PySlice(s, start, stop, step)
       <==> step > 0 || Start(start, |s|, step) == Stop(stop, |s|, step)
  {
    hide Slice, PySlice, Start, Stop;
    if step > 0 {
      ForwardSlice(s, start, stop, step);
    } else {
      BackwardSlice(s, start, stop, step);
    }
  }

  /** With a negative step a slice is empty if and only if it starts at its stop or above, where the list's
      slice is empty if and only if it starts at its stop or below. */
  lemma BackwardSliceIsTurned<T>(s: seq<T>, start: Option<int>, stop: Option<int>, step: int)
    requires step < 0
    ensures Slice(s, start, stop, step) == [] <==> Start(start, |s|, step) >= Stop(stop, |s|, step)
    ensures PySlice(s, start, stop, step) == [] <==> Start(start, |s|, step) <= Stop(stop, |s|, step)
  {
    hide Start, Stop;
    var a, b := Start(start, |s|, step), Stop(stop, |s|, step);
    if b > a {
      assert |Page(s, b - a, a)| >= 1;
    } else {
      assert Page(s, 0, a) == [];
    }
  }

  lemma {:induction false} OneByOne<T>(s: seq<T>, a: nat, b: nat)
    requires a <= b <= |s|
    ensures Range(s, a, b, 1) == s[a..b]
    decreases b - a
  {
    if a < b { OneByOne(s, a + 1, b); }
  }

  function Reversed<T>(s: seq<T>): seq<T> {
    seq(|s|, k requires 0 <= k < |s| => s[|s| - 1 - k])
  }

  lemma {:induction false} DownToStart<T>(s: seq<T>, a: int)
    requires -1 <= a < |s|
    ensures Range(s, a, -1, -1) == Reversed(s[..a + 1])
    decreases a + 1
  {
    if a >= 0 {
      DownToStart(s, a - 1);
      assert Reversed(s[..a + 1])[1..] == Reversed(s[..a]);
      assert Reversed(s[..a + 1])[0] == s[a];
      assert Reversed(s[..a + 1]) == [s[a]] + Reversed(s[..a]);
    }
  }

  /** Reversing any sequence by a slice gives nothing, where the list would be reversed. */
  lemma ReverseSliceIsEmpty<T>(s: seq<T>)
    ensures Slice(s, None, None, -1) == [] && PySlice(s, None, None, -1) == Reversed(s)
  {
    hide Range, Reversed;
    DownToStart(s, |s| - 1);
    assert s[..|s|] == s;
    if s != [] { assert Page(s, 0, |s| - 1) == []; }
  }

  /** Any arrangement of a table that satisfies ORDER BY. */
  ghost predicate Ordering<T>(ordered: seq<T>, table: seq<T>, key: T -> Key) {
    Sorted(ordered, key) && multiset(ordered) == multiset(table)
  }

  /** With the order strict on the table, two queries see the same arrangement, the sorted table, so
      pages of different queries fit together and the lazy sequence is the plain sorted list. */
  lemma QueriesAgree<T(!new)>(ordered: seq<T>, table: seq<T>, key: T -> Key)
    requires Keyed(table, key) && Ordering(ordered, table, key)
    ensures ordered == Sort(table, key) && |ordered| == |table|
  {
    SortSorts(table, key);
    forall x, y | x in ordered && y in ordered && key(x) == key(y) ensures x == y {
      assert x in multiset(ordered) && y in multiset(ordered);
    }
    SortedUnique(ordered, Sort(table, key), key);
    assert |multiset(ordered)| == |ordered| && |multiset(table)| == |table|;
  }
}
