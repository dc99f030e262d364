/** One label per ingested file: a repeated name gets a numbered suffix. */
module Labels {
  import opened Text

  function Digit(n: nat): char
    requires n < 10
  {
    "0123456789"[n]
  }

  /** Decimal digits of `n`. */
  function Dec(n: nat): (r: string)
    ensures r != "" && forall k :: 0 <= k < |r| ==> IsDigit(r[k])
  {
    if n < 10 then [Digit(n)] else Dec(n / 10) + [Digit(n % 10)]
  }

  lemma {:induction false} DecInjective(a: nat, b: nat)
    requires Dec(a) == Dec(b)
    ensures a == b
    decreases a
  {
    var x, y := Dec(a), Dec(b);
    assert x[|x| - 1] == Digit(a % 10) && y[|y| - 1] == Digit(b % 10);
    if a >= 10 && b >= 10 {
      assert x[..|x| - 1] == Dec(a / 10) && y[..|y| - 1] == Dec(b / 10);
      DecInjective(a / 10, b / 10);
    }
  }

  function Occurrences(names: seq<string>, name: string): nat {
    if names == [] then 0
    else Occurrences(names[..|names| - 1], name) + if names[|names| - 1] == name then 1 else 0
  }

  function Labelled(name: string, n: nat): string {
    if n == 1 then name else name + ("#" + Dec(n))
  }

  /** The label of the k-th file of a build. */
  function LabelAt(names: seq<string>, k: nat): string
    requires k < |names|
  {
    Labelled(names[k], Occurrences(names[..k + 1], names[k]))
  }

  class Labeller {
    var used: map<string, nat>
    var duplicates: nat
    ghost var names: seq<string>

    constructor ()
      ensures Valid() && names == [] && duplicates == 0
    {
      used, duplicates, names := map[], 0, [];
    }

    ghost predicate Valid()
      reads this
    {
      forall n :: (if n in used then used[n] else 0) == Occurrences(names, n)
    }

    method Label(name: string) returns (tag: string)
      requires Valid()
      modifies this
      ensures Valid() && names == old(names) + [name]
      ensures tag == LabelAt(names, |names| - 1)
      ensures duplicates == old(duplicates) + if name in old(names) then 1 else 0
    {
      hide Dec, Occurrences;
      var n := (if name in used then used[name] else 0) + 1;
      used := used[name := n];
      ghost var was := names;
      names := names + [name];
      forall m ensures Occurrences(names, m) == Occurrences(was, m) + if name == m then 1 else 0 {
        OccurrencesNext(was, name, m);
      }
      assert names[..|names|] == names;
      Present(was, name);
      tag := if n == 1 then name else name + ("#" + Dec(n));
      if n > 1 {
        duplicates := duplicates + 1;
      }
    }
  }

  lemma OccurrencesNext(names: seq<string>, name: string, m: string)
    ensures Occurrences(names + [name], m) == Occurrences(names, m) + if name == m then 1 else 0
  {
    assert (names + [name])[..|names|] == names;
  }

  lemma {:induction false} Present(names: seq<string>, name: string)
    ensures Occurrences(names, name) > 0 <==> name in names
    decreases |names|
  {
    if names != [] {
      var n := |names| - 1;
      Present(names[..n], name);
      assert names == names[..n] + [names[n]];
    }
  }

  /** Names the store ingests end in `.log`, in any letter case. */
  predicate LogName(name: string) {
    |name| >= 4 && Lower(name[|name| - 4..]) == ".log"
  }

  lemma {:induction false} OccurrencesGrow(names: seq<string>, i: nat, j: nat, name: string)
    requires i < j <= |names| && names[j - 1] == name
    ensures Occurrences(names[..i], name) < Occurrences(names[..j], name)
    decreases j
  {
    assert names[..j][..j - 1] == names[..j - 1];
    OccurrencesMonotone(names, i, j - 1, name);
  }

  lemma {:induction false} OccurrencesMonotone(names: seq<string>, i: nat, j: nat, name: string)
    requires i <= j <= |names|
    ensures Occurrences(names[..i], name) <= Occurrences(names[..j], name)
    decreases j
  {
    if i < j {
      assert names[..j][..j - 1] == names[..j - 1];
      OccurrencesMonotone(names, i, j - 1, name);
    }
  }

  /** A numbered label tells its name and its number. */
  lemma SuffixUnique(a: string, m: nat, b: string, n: nat)
    requires a + ("#" + Dec(m)) == b + ("#" + Dec(n))
    ensures a == b && m == n
  {
    hide Dec;
    var s := a + ("#" + Dec(m));
    var t := b + ("#" + Dec(n));
    assert s[|a|] == '#' && t[|b|] == '#';
    assert forall k :: |a| < k < |s| ==> IsDigit(s[k]);
    assert forall k :: |b| < k < |t| ==> IsDigit(t[k]);
    if |a| == |b| {
      assert a == s[..|a|] && b == t[..|b|];
      assert Dec(m) == s[|a| + 1..] && Dec(n) == t[|b| + 1..];
      DecInjective(m, n);
    }
  }

  lemma LastChar(name: string)
    requires LogName(name)
    ensures name != "" && !IsDigit(name[|name| - 1])
  {
    var tail := name[|name| - 4..];
    assert Lower(tail)[3] == LowerChar(tail[3]) == 'g';
  }

  /** Labels are a key: no two files of a build share one. */
  lemma LabelsDiffer(names: seq<string>, i: nat, j: nat)
    requires i < j < |names| && LogName(names[i]) && LogName(names[j])
    ensures LabelAt(names, i) != LabelAt(names, j)
  {
    hide Occurrences, LogName;
    var m, n := Occurrences(names[..i + 1], names[i]), Occurrences(names[..j + 1], names[j]);
    LastChar(names[i]);
    LastChar(names[j]);
    if names[i] == names[j] { OccurrencesGrow(names, i + 1, j + 1, names[j]); }
    LabelEnd(names[i], m);
    LabelEnd(names[j], n);
    if LabelAt(names, i) == LabelAt(names, j) && m != 1 && n != 1 {
      SuffixUnique(names[i], m, names[j], n);
    }
  }

  lemma LabelEnd(name: string, n: nat)
    requires name != "" && !IsDigit(name[|name| - 1])
    ensures var l := Labelled(name, n); l != "" && (IsDigit(l[|l| - 1]) <==> n != 1) && (n == 1 ==> l == name)
  {
    if n != 1 {
      var l := Labelled(name, n);
      assert l[|l| - 1] == Dec(n)[|Dec(n)| - 1];
    }
  }

  /** Without the suffix filter labels can collide: the second `a` and a file named `a#2`. */
  lemma LabelsCanCollide()
    ensures LabelAt(["a", "a", "a#2"], 1) == LabelAt(["a", "a", "a#2"], 2)
  {
    var names := ["a", "a", "a#2"];
    assert names[..2] == ["a", "a"] && names[..3] == names;
    assert ["a", "a"][..1] == ["a"] && ["a"][..0] == [] && names[..2][..1] == ["a"];
    assert Occurrences(["a"], "a") == 1;
    assert Occurrences(["a", "a"], "a") == 2;
    assert Occurrences(["a", "a"], "a#2") == 0 by { Present(["a", "a"], "a#2"); }
    assert Occurrences(names, "a#2") == 1;
    assert Dec(2) == "2";
  }
}
