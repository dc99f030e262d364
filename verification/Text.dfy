/** Positions in text, shared by the scanners: a string standing at a position, and a string cut off
    by the end of the text. */
module Text {

  datatype Option<+T> = None | Some(value: T)

  datatype Result<+T> = Ok(value: T) | Err(error: string)

  /** `s` stands in `t` at position `i`. */
  ghost predicate At<T>(t: seq<T>, i: nat, s: seq<T>) {
    i + |s| <= |t| && t[i..i + |s|] == s
  }

  /** `t` ends strictly inside the copy of `s` that starts at `i`. */
  ghost predicate CutAt<T>(t: seq<T>, i: nat, s: seq<T>) {
    i <= |t| < i + |s| && t[i..] == s[..|t| - i]
  }

  lemma FirstAt<T>(t: seq<T>, i: nat, s: seq<T>)
    requires At(t, i, s) && s != []
    ensures i < |t| && t[i] == s[0]
  {
    assert t[i..i + |s|][0] == s[0];
  }

  lemma AtSplit<T>(t: seq<T>, i: nat, a: seq<T>, b: seq<T>)
    ensures At(t, i, a + b) <==> At(t, i, a) && At(t, i + |a|, b)
  {
    if At(t, i, a + b) {
      assert (a + b)[..|a|] == a && (a + b)[|a|..] == b;
      assert t[i..i + |a|] == t[i..i + |a + b|][..|a|];
      assert t[i + |a|..i + |a + b|] == t[i..i + |a + b|][|a|..];
    }
    if At(t, i, a) && At(t, i + |a|, b) {
      assert t[i..i + |a + b|] == t[i..i + |a|] + t[i + |a|..i + |a| + |b|];
    }
  }

  lemma CutSplit<T>(t: seq<T>, i: nat, a: seq<T>, b: seq<T>)
    requires CutAt(t, i, a + b)
    ensures CutAt(t, i, a) || (At(t, i, a) && CutAt(t, i + |a|, b))
  {
    if |t| - i < |a| {
      assert (a + b)[..|t| - i] == a[..|t| - i];
    } else {
      assert t[i..i + |a|] == t[i..][..|a|] == (a + b)[..|t| - i][..|a|] == a;
      assert t[i + |a|..] == t[i..][|a|..] == (a + b)[..|t| - i][|a|..] == b[..|t| - i - |a|];
    }
  }

  lemma Assoc<T>(a: seq<T>, b: seq<T>, c: seq<T>)
    ensures a + b + c == a + (b + c)
  {
  }

  lemma EmptyUnit<T>(a: seq<T>)
    ensures a + [] == a && [] + a == a
  {
  }

  predicate IsDigit(c: char) {
    '0' <= c <= '9'
  }

  /** The characters Python's `str.isspace` and the regex class `\s` accept. */
  predicate IsSpace(c: char) {
    var n := c as int;
    || 0x09 <= n <= 0x0d || 0x1c <= n <= 0x20 || n == 0x85 || n == 0xa0 || n == 0x1680
    || 0x2000 <= n <= 0x200a || n == 0x2028 || n == 0x2029 || n == 0x202f || n == 0x205f || n == 0x3000
  }

  function LowerChar(c: char): char {
    if 'A' <= c <= 'Z' then c - 'A' + 'a' else c
  }

  /** `str.lower` on ASCII letters; other characters are left alone. */
  function Lower(s: string): (r: string)
    ensures |r| == |s|
  {
    seq(|s|, i requires 0 <= i < |s| => LowerChar(s[i]))
  }

  /** `s.find(sub)` */
  function Find(s: string, sub: string): (r: Option<nat>)
    ensures r.Some? ==> r.value + |sub| <= |s| && s[r.value..r.value + |sub|] == sub
  {
    if |s| < |sub| then None
    else if s[..|sub|] == sub then Some(0)
    else if s == "" then None
    else
      var r := Find(s[1..], sub);
      if r.Some? then Some(r.value + 1) else None
  }

  /** `sub in s` */
  predicate Contains(s: string, sub: string) {
    Find(s, sub).Some?
  }

  /** No element twice. */
  predicate Distinct<T(==)>(s: seq<T>) {
    forall i, j :: 0 <= i < j < |s| ==> s[i] != s[j]
  }

  lemma {:induction false} DistinctOnce<T>(s: seq<T>, x: T)
    requires Distinct(s)
    ensures multiset(s)[x] == if x in s then 1 else 0
    decreases |s|
  {
    if s != [] {
      assert s == [s[0]] + s[1..];
      DistinctOnce(s[1..], x);
    }
  }

  lemma TwiceCounted<T>(s: seq<T>, i: nat, j: nat)
    requires i < j < |s| && s[i] == s[j]
    ensures multiset(s)[s[i]] >= 2
  {
    assert s == s[..j] + s[j..];
    assert s[i] in s[..j] && s[j] in s[j..];
    assert multiset(s[..j])[s[i]] >= 1 && multiset(s[j..])[s[i]] >= 1;
  }
}
