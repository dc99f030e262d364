/** Undoing a writer that put one extra line break after each line. */
module PacBlankLines {
  import opened Text

  predicate IsContent(line: string) {
    exists k :: 0 <= k < |line| && !IsSpace(line[k])
  }

  // --- text and lines ---

  /** `text.split("\n")` */
  function Split(text: string): (r: seq<string>)
    ensures r != []
  {
    if text == "" then [""]
    else
      var rest := Split(text[1..]);
      if text[0] == '\n' then [""] + rest else [[text[0]] + rest[0]] + rest[1..]
  }

  /** `"\n".join(lines)` */
  function Join(lines: seq<string>): string {
    if lines == [] then "" else if |lines| == 1 then lines[0] else lines[0] + ("\n" + Join(lines[1..]))
  }

  predicate NoBreaks(lines: seq<string>) {
    forall k :: 0 <= k < |lines| ==> '\n' !in lines[k]
  }

  lemma {:induction false} SplitFirst(line: string, rest: string)
    requires '\n' !in line
    ensures Split(line + ("\n" + rest)) == [line] + Split(rest)
    decreases |line|
  {
    var text := line + ("\n" + rest);
    if line == "" {
      assert text[0] == '\n' && text[1..] == rest;
    } else {
      assert text[0] == line[0] && text[1..] == line[1..] + ("\n" + rest);
      SplitFirst(line[1..], rest);
      assert [line[0]] + line[1..] == line;
    }
  }

  lemma {:induction false} SplitOne(line: string)
    requires '\n' !in line
    ensures Split(line) == [line]
    decreases |line|
  {
    if line != "" {
      SplitOne(line[1..]);
      assert [line[0]] + line[1..] == line;
    }
  }

  lemma {:induction false} SplitJoin(lines: seq<string>)
    requires lines != [] && NoBreaks(lines)
    ensures Split(Join(lines)) == lines
    decreases |lines|
  {
    if |lines| == 1 {
      SplitOne(lines[0]);
    } else {
      SplitFirst(lines[0], Join(lines[1..]));
      SplitJoin(lines[1..]);
    }
  }

  lemma {:induction false} SplitNoBreaks(text: string)
    ensures NoBreaks(Split(text))
    decreases |text|
  {
    if text != "" { SplitNoBreaks(text[1..]); }
  }

  lemma JoinCons(first: string, rest: seq<string>)
    requires rest != []
    ensures Join([first] + rest) == first + ("\n" + Join(rest))
  {
    assert ([first] + rest)[1..] == rest;
  }

  lemma JoinGrows(c: char, lines: seq<string>)
    requires lines != []
    ensures Join([[c] + lines[0]] + lines[1..]) == [c] + Join(lines)
  {
    var ls := [[c] + lines[0]] + lines[1..];
    assert ls[1..] == lines[1..];
    if |lines| > 1 { Assoc([c], lines[0], "\n" + Join(lines[1..])); }
  }

  lemma {:induction false} JoinSplit(text: string)
    ensures Join(Split(text)) == text
    decreases |text|
  {
    if text != "" {
      hide Join;
      var rest := Split(text[1..]);
      JoinSplit(text[1..]);
      if text[0] == '\n' {
        JoinCons("", rest);
      } else {
        JoinGrows(text[0], rest);
      }
    } else {
      assert Join([""]) == "";
    }
  }

  // --- the measure and the collapse ---

  /** Indices of the content lines from `i` on. */
  function ContentFrom(lines: seq<string>, i: nat): (r: seq<nat>)
    requires i <= |lines|
    ensures forall k :: 0 <= k < |r| ==> i <= r[k] < |lines| && IsContent(lines[r[k]])
    decreases |lines| - i
  {
    if i == |lines| then []
    else (if IsContent(lines[i]) then [i] else []) + ContentFrom(lines, i + 1)
  }

  predicate BlankAfter(lines: seq<string>, i: nat) {
    i + 1 < |lines| && !IsContent(lines[i + 1])
  }

  function Followed(lines: seq<string>, content: seq<nat>): (r: nat)
    ensures r <= |content|
  {
    if content == [] then 0
    else
      var n := |content| - 1; Followed(lines, content[..n]) + if BlankAfter(lines, content[n]) then 1 else 0
  }

  /** Enough content lines, and of all but the last at least seven in ten followed by a blank. */
  predicate Doubled(lines: seq<string>) {
    var content := ContentFrom(lines, 0);
    |content| >= 6 && 10 * Followed(lines, content[..|content| - 1]) >= 7 * (|content| - 1)
  }

  /** One blank line less in every run of blanks; blanks that stay are empty. */
  function Shrunk(lines: seq<string>, inRun: bool): seq<string> {
    if lines == [] then []
    else if IsContent(lines[0]) then [lines[0]] + Shrunk(lines[1..], false)
    else (if inRun then [""] else []) + Shrunk(lines[1..], true)
  }

  /** The number of runs of blanks. */
  function Runs(lines: seq<string>, inRun: bool): nat {
    if lines == [] then 0
    else if IsContent(lines[0]) then Runs(lines[1..], false)
    else (if inRun then 0 else 1) + Runs(lines[1..], true)
  }

  /** The lines after collapsing, and the number of blank lines removed. */
  function Collapsed(lines: seq<string>): (seq<string>, nat) {
    if Doubled(lines) then (Shrunk(lines, false), Runs(lines, false)) else (lines, 0)
  }

  method CollapseDoubledBlankLines(text: string) returns (display: string, removed: nat)
    ensures var r := Collapsed(Split(text)); (display, removed) == (Join(r.0), r.1)
  {
    hide ContentFrom, Shrunk, Runs, Join, Split;
    var lines := Split(text);
    JoinSplit(text);
    var content := FindContent(lines);
    if |content| < 6 {
      return text, 0;
    }
    var considered := content[..|content| - 1];
    var followed := CountFollowed(lines, considered);
    if 10 * followed < 7 * |considered| {
      return text, 0;
    }
    var out;
    out, removed := ShrinkRuns(lines);
    display := Join(out);
  }

  method FindContent(lines: seq<string>) returns (content: seq<nat>)
    ensures content == ContentFrom(lines, 0)
  {
    hide ContentFrom, IsContent;
    content := [];
    EmptyUnit(ContentFrom(lines, 0));
    for i := 0 to |lines|
      invariant content + ContentFrom(lines, i) == ContentFrom(lines, 0)
    {
      ContentNext(lines, i);
      if IsContent(lines[i]) {
        Assoc(content, [i], ContentFrom(lines, i + 1));
        content := content + [i];
      }
    }
    ContentEnd(lines);
    EmptyUnit(content);
  }

  lemma ContentNext(lines: seq<string>, i: nat)
    requires i < |lines|
    ensures ContentFrom(lines, i) ==
            if IsContent(lines[i]) then [i] + ContentFrom(lines, i + 1) else ContentFrom(lines, i + 1)
  {
    hide IsContent;
    EmptyUnit(ContentFrom(lines, i + 1));
  }

  lemma ContentEnd(lines: seq<string>)
    ensures ContentFrom(lines, |lines|) == []
  {
  }

  method CountFollowed(lines: seq<string>, considered: seq<nat>) returns (n: nat)
    ensures n == Followed(lines, considered)
  {
    n := 0;
    for k := 0 to |considered|
      invariant n == Followed(lines, considered[..k])
    {
      assert considered[..k + 1][..k] == considered[..k];
      if BlankAfter(lines, considered[k]) {
        n := n + 1;
      }
    }
    assert considered[..|considered|] == considered;
  }

  function Empties(n: nat): seq<string> {
    seq(n, _ => "")
  }

  method ShrinkRuns(lines: seq<string>) returns (out: seq<string>, removed: nat)
    ensures out == Shrunk(lines, false) && removed == Runs(lines, false)
  {
    hide Shrunk, Runs, IsContent, Empties;
    out, removed := [], 0;
    var index := 0;
    assert lines[0..] == lines;
    EmptyUnit(Shrunk(lines, false));
    while index < |lines|
      invariant index <= |lines|
      invariant out + Shrunk(lines[index..], false) == Shrunk(lines, false)
      invariant removed + Runs(lines[index..], false) == Runs(lines, false)
    {
      ShrunkNext(lines, index, false);
      if IsContent(lines[index]) {
        Assoc(out, [lines[index]], Shrunk(lines[index + 1..], false));
        out := out + [lines[index]];
        index := index + 1;
        continue;
      }
      var run := BlankRun(lines, index);
      index := index + run;
      RunEnds(lines[index..]);
      Assoc(out, Empties(run - 1), Shrunk(lines[index..], true));
      out := out + Empties(run - 1);
      removed := removed + 1;
    }
    assert lines[|lines|..] == [];
    NothingShrinks();
    EmptyUnit(out);
  }

  /** The length of the run of blanks at `start`. */
  method BlankRun(lines: seq<string>, start: nat) returns (run: nat)
    requires start < |lines| && !IsContent(lines[start])
    ensures 1 <= run <= |lines| - start && (start + run < |lines| ==> IsContent(lines[start + run]))
    ensures Shrunk(lines[start..], false) == Empties(run - 1) + Shrunk(lines[start + run..], true)
    ensures Runs(lines[start..], false) == 1 + Runs(lines[start + run..], true)
  {
    hide Shrunk, Runs, IsContent, Empties;
    run := 1;
    NoEmpties();
    ShrunkNext(lines, start, false);
    EmptyUnit(Shrunk(lines[start + 1..], true));
    while start + run < |lines| && !IsContent(lines[start + run])
      invariant 1 <= run <= |lines| - start
      invariant Shrunk(lines[start..], false) == Empties(run - 1) + Shrunk(lines[start + run..], true)
      invariant Runs(lines[start..], false) == 1 + Runs(lines[start + run..], true)
    {
      ShrunkNext(lines, start + run, true);
      OneMoreEmpty(run - 1);
      Assoc(Empties(run - 1), [""], Shrunk(lines[start + run + 1..], true));
      run := run + 1;
    }
  }

  lemma ShrunkNext(lines: seq<string>, i: nat, inRun: bool)
    requires i < |lines|
    ensures Shrunk(lines[i..], inRun) ==
            if IsContent(lines[i]) then [lines[i]] + Shrunk(lines[i + 1..], false)
            else if inRun then [""] + Shrunk(lines[i + 1..], true) else Shrunk(lines[i + 1..], true)
    ensures Runs(lines[i..], inRun) ==
            if IsContent(lines[i]) then Runs(lines[i + 1..], false)
            else if inRun then Runs(lines[i + 1..], true) else 1 + Runs(lines[i + 1..], true)
  {
    hide IsContent;
    assert lines[i..][0] == lines[i] && lines[i..][1..] == lines[i + 1..];
    EmptyUnit(Shrunk(lines[i + 1..], true));
  }

  lemma NoEmpties()
    ensures Empties(0) == []
  {
  }

  lemma OneMoreEmpty(n: nat)
    ensures Empties(n + 1) == Empties(n) + [""]
  {
  }

  lemma NothingShrinks()
    ensures Shrunk([], false) == [] && Runs([], false) == 0
  {
  }

  lemma RunEnds(rest: seq<string>)
    requires rest == [] || IsContent(rest[0])
    ensures Shrunk(rest, true) == Shrunk(rest, false) && Runs(rest, true) == Runs(rest, false)
  {
  }

  // --- every input ---

  function ContentLines(lines: seq<string>): seq<string> {
    if lines == [] then [] else (if IsContent(lines[0]) then [lines[0]] else []) + ContentLines(lines[1..])
  }

  lemma {:induction false} ShrunkKeeps(lines: seq<string>, inRun: bool)
    ensures ContentLines(Shrunk(lines, inRun)) == ContentLines(lines)
    ensures |Shrunk(lines, inRun)| + Runs(lines, inRun) == |lines|
    decreases |lines|
  {
    if lines != [] {
      var next := !IsContent(lines[0]);
      ShrunkKeeps(lines[1..], next);
      var rest := Shrunk(lines[1..], next);
      if next {
        EmptyUnit(ContentLines(lines[1..]));
        EmptyUnit(rest);
        if inRun { assert ([""] + rest)[1..] == rest; }
      } else {
        assert ([lines[0]] + rest)[1..] == rest;
      }
    }
  }

  lemma {:induction false} ContentSurvives(lines: seq<string>)
    requires ContentFrom(lines, 0) != []
    ensures ContentLines(lines) != []
  {
    var k := ContentFrom(lines, 0)[0];
    ContentAt(lines, k);
  }

  lemma {:induction false} ContentAt(lines: seq<string>, k: nat)
    requires k < |lines| && IsContent(lines[k])
    ensures ContentLines(lines) != []
    decreases k
  {
    if k > 0 { ContentAt(lines[1..], k - 1); }
  }

  lemma {:induction false} ShrunkNoBreaks(lines: seq<string>, inRun: bool)
    requires NoBreaks(lines)
    ensures NoBreaks(Shrunk(lines, inRun))
    decreases |lines|
  {
    if lines != [] { ShrunkNoBreaks(lines[1..], !IsContent(lines[0])); }
  }

  /** On every text: the content lines are unchanged and in order, and the number of lines falls by
      exactly the number returned. */
  lemma CollapseKeepsContent(text: string)
    ensures var r := Collapsed(Split(text));
            && ContentLines(Split(Join(r.0))) == ContentLines(Split(text))
            && |Split(Join(r.0))| + r.1 == |Split(text)|
  {
    hide Split, Join, ContentFrom, Shrunk, Runs, Followed;
    var lines := Split(text);
    JoinSplit(text);
    SplitNoBreaks(text);
    if Doubled(lines) {
      ShrunkKeeps(lines, false);
      ContentSurvives(lines);
      if Shrunk(lines, false) == [] { NoContent(); }
      ShrunkNoBreaks(lines, false);
      SplitJoin(Shrunk(lines, false));
    }
  }

  lemma NoContent()
    ensures ContentLines([]) == []
  {
  }

  // --- the writer, undone ---

  /** What the doubling writer leaves: an empty line after each content line. */
  function Double(lines: seq<string>): seq<string> {
    if lines == [] then []
    else (if IsContent(lines[0]) then [lines[0], ""] else [lines[0]]) + Double(lines[1..])
  }

  predicate EmptyBlanks(lines: seq<string>) {
    forall k :: 0 <= k < |lines| ==> IsContent(lines[k]) || lines[k] == ""
  }

  /** The lines with every blank line made empty. */
  function Emptied(lines: seq<string>): seq<string> {
    if lines == [] then [] else [if IsContent(lines[0]) then lines[0] else ""] + Emptied(lines[1..])
  }

  lemma {:induction false} EmptiedSame(lines: seq<string>)
    ensures |Emptied(lines)| == |lines| && (Emptied(lines) == lines <==> EmptyBlanks(lines))
    decreases |lines|
  {
    hide IsContent;
    if lines != [] {
      var rest := lines[1..];
      EmptiedSame(rest);
      assert lines == [lines[0]] + rest;
      assert Emptied(lines)[1..] == Emptied(rest);
      if EmptyBlanks(rest) && (IsContent(lines[0]) || lines[0] == "") {
        forall k | 0 <= k < |lines| ensures IsContent(lines[k]) || lines[k] == "" {
          assert k > 0 ==> lines[k] == rest[k - 1];
        }
      }
      if EmptyBlanks(lines) {
        forall k | 0 <= k < |rest| ensures IsContent(rest[k]) || rest[k] == "" { assert rest[k] == lines[k + 1]; }
      }
    }
  }

  /** Collapsing doubled lines drops one blank of every run, a leading run included. */
  lemma {:induction false} ShrunkDouble(lines: seq<string>)
    ensures Shrunk(Double(lines), true) == Emptied(lines)
    ensures Runs(Double(lines), true) == |ContentLines(lines)|
    decreases |lines|
  {
    if lines != [] {
      ShrunkDouble(lines[1..]);
      FirstUndone(lines, true);
    }
  }

  lemma ShrunkFromStart(lines: seq<string>)
    requires lines != []
    ensures Shrunk(Double(lines), false) == if IsContent(lines[0]) then Emptied(lines) else Emptied(lines[1..])
    ensures Runs(Double(lines), false) == |ContentLines(lines)| + if IsContent(lines[0]) then 0 else 1
  {
    ShrunkDouble(lines[1..]);
    if IsContent(lines[0]) {
      FirstUndone(lines, false);
    } else {
      assert ([lines[0]] + Double(lines[1..]))[1..] == Double(lines[1..]);
      EmptyUnit(Emptied(lines[1..]));
    }
  }

  lemma FirstUndone(lines: seq<string>, inRun: bool)
    requires lines != [] && (inRun || IsContent(lines[0]))
    ensures Shrunk(Double(lines), inRun) ==
            [if IsContent(lines[0]) then lines[0] else ""] + Shrunk(Double(lines[1..]), true)
    ensures Runs(Double(lines), inRun) == (if IsContent(lines[0]) then 1 else 0) + Runs(Double(lines[1..]), true)
  {
    hide IsContent;
    var rest := Double(lines[1..]);
    if IsContent(lines[0]) {
      var d := [lines[0], ""] + rest;
      var tail := [""] + rest;
      assert d[1..] == tail && tail[1..] == rest;
      NothingIsBlank();
      EmptyUnit(Shrunk(rest, true));
    } else {
      assert ([lines[0]] + rest)[1..] == rest;
    }
  }

  lemma NothingIsBlank()
    ensures !IsContent("")
  {
  }

  lemma {:induction false} DoubleBlankAfter(lines: seq<string>, i: nat)
    requires i < |Double(lines)| && IsContent(Double(lines)[i])
    ensures BlankAfter(Double(lines), i)
    decreases |lines|
  {
    var rest := Double(lines[1..]);
    var head := if IsContent(lines[0]) then 2 else 1;
    if i >= head { DoubleBlankAfter(lines[1..], i - head); }
  }

  lemma {:induction false} AllFollowed(lines: seq<string>, content: seq<nat>)
    requires forall k :: 0 <= k < |content| ==> BlankAfter(lines, content[k])
    ensures Followed(lines, content) == |content|
    decreases |content|
  {
    if content != [] { AllFollowed(lines, content[..|content| - 1]); }
  }

  lemma {:induction false} ContentCount(lines: seq<string>, i: nat)
    requires i <= |lines|
    ensures |ContentFrom(lines, i)| == |ContentLines(lines[i..])|
    decreases |lines| - i
  {
    if i < |lines| {
      ContentCount(lines, i + 1);
      assert lines[i..][0] == lines[i] && lines[i..][1..] == lines[i + 1..];
    }
  }

  lemma {:induction false} DoubleContent(lines: seq<string>)
    ensures ContentLines(Double(lines)) == ContentLines(lines)
    decreases |lines|
  {
    if lines != [] {
      var rest := Double(lines[1..]);
      DoubleContent(lines[1..]);
      if IsContent(lines[0]) {
        var d := [lines[0], ""] + rest;
        assert d[1..] == [""] + rest && d[1..][1..] == rest;
        assert ContentLines([""] + rest) == [] + ContentLines(rest);
      } else {
        assert ([lines[0]] + rest)[1..] == rest;
      }
    }
  }

  lemma DoubledEnough(lines: seq<string>)
    ensures Doubled(Double(lines)) <==> |ContentLines(lines)| >= 6
  {
    hide ContentFrom, Followed, ContentLines, IsContent;
    var d := Double(lines);
    assert d[0..] == d;
    ContentCount(d, 0);
    DoubleContent(lines);
    var content := ContentFrom(d, 0);
    if |content| >= 6 {
      var considered := content[..|content| - 1];
      forall k | 0 <= k < |considered| ensures BlankAfter(d, considered[k]) {
        DoubleBlankAfter(lines, content[k]);
      }
      AllFollowed(d, considered);
    }
  }

  lemma {:induction false} DoubleLength(lines: seq<string>)
    ensures |Double(lines)| == |lines| + |ContentLines(lines)|
    ensures ContentLines(lines) == [] ==> Double(lines) == lines
    decreases |lines|
  {
    hide IsContent;
    if lines != [] {
      DoubleLength(lines[1..]);
      assert lines == [lines[0]] + lines[1..];
    }
  }

  /** Collapsing undoes the doubling writer if and only if there is no content at all, or there are at
      least six content lines, the first line is one of them and blank lines are empty. Then it reports
      one removed line per content line. */
  lemma CollapseUndoesDoubling(lines: seq<string>)
    ensures Collapsed(Double(lines)).0 == lines <==>
            ContentLines(lines) == [] || (|ContentLines(lines)| >= 6 && IsContent(lines[0]) && EmptyBlanks(lines))
    ensures Collapsed(Double(lines)).0 == lines ==> Collapsed(Double(lines)).1 == |ContentLines(lines)|
  {
    hide Shrunk, Runs, Doubled, IsContent, EmptyBlanks;
    DoubledEnough(lines);
    DoubleLength(lines);
    if |ContentLines(lines)| >= 6 {
      ShrunkFromStart(lines);
      EmptiedSame(lines);
      EmptiedSame(lines[1..]);
    }
  }

  /** A text that starts with a blank line loses that line: with six content lines or more, what comes
      back are the lines after the first. */
  lemma LeadingBlankIsLost(lines: seq<string>)
    requires |ContentLines(lines)| >= 6 && !IsContent(lines[0])
    ensures Collapsed(Double(lines)) == (Emptied(lines[1..]), |ContentLines(lines)| + 1)
    ensures |Collapsed(Double(lines)).0| == |lines| - 1
  {
    hide Shrunk, Runs, Doubled, IsContent;
    DoubledEnough(lines);
    ShrunkFromStart(lines);
    EmptiedSame(lines[1..]);
  }

  lemma {:induction false} DoubleNoBreaks(lines: seq<string>)
    requires NoBreaks(lines)
    ensures NoBreaks(Double(lines))
    decreases |lines|
  {
    if lines != [] { DoubleNoBreaks(lines[1..]); }
  }

  lemma DoubleNotEmpty(lines: seq<string>)
    requires lines != []
    ensures Double(lines) != []
  {
  }

  /** The same on texts: the text comes back under exactly the same condition. */
  lemma TextUndoubled(lines: seq<string>)
    requires lines != [] && NoBreaks(lines)
    ensures var r := Collapsed(Split(Join(Double(lines))));
            && (Join(r.0) == Join(lines) <==>
                ContentLines(lines) == [] || (|ContentLines(lines)| >= 6 && IsContent(lines[0]) && EmptyBlanks(lines)))
            && (Join(r.0) == Join(lines) ==> r.1 == |ContentLines(lines)|)
  {
    hide Split, Join, Shrunk, Runs, Doubled, IsContent, EmptyBlanks, ContentLines;
    var d := Double(lines);
    CollapseUndoesDoubling(lines);
    DoubleNoBreaks(lines);
    DoubleNotEmpty(lines);
    SplitJoin(d);
    SplitJoin(lines);
    var r := Collapsed(d).0;
    if Doubled(d) {
      DoubledEnough(lines);
      ShrunkNoBreaks(d, false);
      ShrunkFromStart(lines);
      EmptiedSame(lines);
      EmptiedSame(lines[1..]);
      SixLines(lines);
    }
    SplitJoin(r);
  }

  lemma SixLines(lines: seq<string>)
    requires |ContentLines(lines)| >= 6
    ensures |lines| >= 2
  {
  }
}
