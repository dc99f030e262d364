/** The raw view: tokens of a line wrapped in `<span>` markers, earlier patterns first, and paging. */
module RawView {
  import opened Text
  import opened Order

  /** A match that a pattern's `finditer` reports, with the class of the pattern. */
  datatype Hit = Hit(start: nat, end: nat, cls: string)

  datatype Pattern = Pattern(cls: string, matches: seq<(nat, nat)>)

  // --- choosing spans ---

  ghost predicate Within(n: nat, h: Hit) {
    h.start <= h.end <= n
  }

  ghost predicate AllWithin(n: nat, hs: seq<Hit>) {
    forall k :: 0 <= k < |hs| ==> Within(n, hs[k])
  }

  predicate Covers(h: Hit, i: nat) {
    h.start <= i < h.end
  }

  /** Two spans share a position. */
  predicate Overlap(a: Hit, b: Hit) {
    a.start < b.end && b.start < a.end && a.start < a.end && b.start < b.end
  }

  /** All matches in the order they are tried: pattern by pattern. */
  function HitsOf(ps: seq<Pattern>): seq<Hit> {
    if ps == [] then [] else HitsOf(ps[..|ps| - 1]) + Labelled(ps[|ps| - 1].cls, ps[|ps| - 1].matches)
  }

  function Labelled(cls: string, matches: seq<(nat, nat)>): seq<Hit> {
    seq(|matches|, k requires 0 <= k < |matches| => Hit(matches[k].0, matches[k].1, cls))
  }

  /** Greedy choice: a match is taken unless it overlaps one that was taken before. */
  function Choose(hs: seq<Hit>): seq<Hit> {
    if hs == [] then []
    else
      var before, h := Choose(hs[..|hs| - 1]), hs[|hs| - 1];
      if exists k :: 0 <= k < |before| && Overlap(before[k], h) then before else before + [h]
  }

  lemma ChooseNext(hs: seq<Hit>, h: Hit)
    ensures var before := Choose(hs);
            Choose(hs + [h]) == if exists k :: 0 <= k < |before| && Overlap(before[k], h) then before else before + [h]
  {
    assert (hs + [h])[..|hs|] == hs;
  }

  lemma {:induction false} ChooseWithin(n: nat, hs: seq<Hit>)
    requires AllWithin(n, hs)
    ensures AllWithin(n, Choose(hs))
    decreases |hs|
  {
    if hs != [] { ChooseWithin(n, hs[..|hs| - 1]); }
  }

  ghost predicate Disjoint(spans: seq<Hit>) {
    forall i, j :: 0 <= i < j < |spans| ==> !Overlap(spans[i], spans[j])
  }

  /** The chosen spans never overlap. */
  lemma {:induction false} ChosenDisjoint(hs: seq<Hit>)
    ensures Disjoint(Choose(hs))
    decreases |hs|
  {
    if hs != [] { ChosenDisjoint(hs[..|hs| - 1]); }
  }

  /** Earlier matches win: a match that is left out overlaps one taken from before it. */
  lemma {:induction false} EarlierWins(hs: seq<Hit>, k: nat)
    requires k < |hs|
    ensures hs[k] in Choose(hs) || exists w :: w in Choose(hs[..k]) && Overlap(w, hs[k])
    ensures forall h :: h in Choose(hs[..k]) ==> h in Choose(hs)
    decreases |hs|
  {
    var n := |hs| - 1;
    if k < n {
      EarlierWins(hs[..n], k);
      assert hs[..n][..k] == hs[..k];
    } else {
      var before := Choose(hs[..n]);
      if i :| 0 <= i < |before| && Overlap(before[i], hs[n]) { assert before[i] in Choose(hs[..k]); }
    }
  }

  // --- tuple order on spans ---

  predicate SpanLe(a: Hit, b: Hit) {
    a.start < b.start || (a.start == b.start && (a.end < b.end || (a.end == b.end && StrLe(a.cls, b.cls))))
  }

  function InsertSpan(h: Hit, spans: seq<Hit>): seq<Hit> {
    if spans == [] || SpanLe(h, spans[0]) then [h] + spans else [spans[0]] + InsertSpan(h, spans[1..])
  }

  function SortSpans(spans: seq<Hit>): seq<Hit> {
    if spans == [] then [] else InsertSpan(spans[0], SortSpans(spans[1..]))
  }

  predicate Before(a: Hit, b: Hit) {
    a.start < b.start || (a.start == b.start && a.end <= b.end)
  }

  ghost predicate Ascending(spans: seq<Hit>) {
    forall i, j :: 0 <= i < j < |spans| ==> Before(spans[i], spans[j])
  }

  lemma {:induction false} InsertMembers(h: Hit, spans: seq<Hit>)
    ensures |InsertSpan(h, spans)| == |spans| + 1
    ensures forall x :: x in InsertSpan(h, spans) <==> x == h || x in spans
    decreases |spans|
  {
    hide SpanLe;
    if spans != [] && !SpanLe(h, spans[0]) { InsertMembers(h, spans[1..]); }
  }

  lemma OneBefore(h: Hit, g: Hit)
    ensures SpanLe(h, g) ==> Before(h, g)
    ensures !SpanLe(h, g) ==> Before(g, h)
  {
    StrTotal(h.cls, g.cls);
  }

  lemma ConsAscending(h: Hit, spans: seq<Hit>)
    requires Ascending(spans) && forall x :: x in spans ==> Before(h, x)
    ensures Ascending([h] + spans)
  {
    hide Before;
  }

  lemma {:induction false} InsertAscending(h: Hit, spans: seq<Hit>)
    requires Ascending(spans)
    ensures Ascending(InsertSpan(h, spans))
    decreases |spans|
  {
    hide SpanLe, Before;
    if spans != [] {
      OneBefore(h, spans[0]);
      BeforeItself(spans[0]);
      if SpanLe(h, spans[0]) {
        forall x | x in spans ensures Before(h, x) { BeforeTransitive(h, spans[0], x); }
        ConsAscending(h, spans);
      } else {
        InsertAscending(h, spans[1..]);
        InsertMembers(h, spans[1..]);
        ConsAscending(spans[0], InsertSpan(h, spans[1..]));
      }
    }
  }

  lemma BeforeItself(a: Hit)
    ensures Before(a, a)
  {
  }

  lemma BeforeTransitive(a: Hit, b: Hit, c: Hit)
    requires Before(a, b) && Before(b, c)
    ensures Before(a, c)
  {
  }

  lemma ConsDisjoint(h: Hit, spans: seq<Hit>)
    requires Disjoint(spans) && forall x :: x in spans ==> !Overlap(h, x)
    ensures Disjoint([h] + spans)
  {
    hide Overlap;
  }

  lemma {:induction false} InsertDisjoint(h: Hit, spans: seq<Hit>)
    requires Disjoint(spans) && forall x :: x in spans ==> !Overlap(h, x)
    ensures Disjoint(InsertSpan(h, spans))
    decreases |spans|
  {
    hide SpanLe;
    if spans == [] || SpanLe(h, spans[0]) {
      ConsDisjoint(h, spans);
    } else {
      InsertDisjoint(h, spans[1..]);
      InsertMembers(h, spans[1..]);
      forall x | x in spans[1..] ensures !Overlap(spans[0], x) {
        var j :| 0 <= j < |spans[1..]| && spans[1..][j] == x;
        assert !Overlap(spans[0], spans[j + 1]);
      }
      assert spans[0] in spans && !Overlap(spans[0], h);
      ConsDisjoint(spans[0], InsertSpan(h, spans[1..]));
    }
  }

  lemma {:induction false} SortKeeps(spans: seq<Hit>)
    ensures |SortSpans(spans)| == |spans| && Ascending(SortSpans(spans))
    ensures forall x :: x in SortSpans(spans) <==> x in spans
    ensures Disjoint(spans) ==> Disjoint(SortSpans(spans))
    decreases |spans|
  {
    hide SpanLe, Before, Overlap, InsertSpan;
    if spans != [] {
      var rest := SortSpans(spans[1..]);
      SortKeeps(spans[1..]);
      InsertMembers(spans[0], rest);
      InsertAscending(spans[0], rest);
      if Disjoint(spans) {
        forall x | x in rest ensures !Overlap(spans[0], x) {
          var j :| 0 <= j < |spans[1..]| && spans[1..][j] == x;
          assert !Overlap(spans[0], spans[j + 1]);
        }
        InsertDisjoint(spans[0], rest);
      }
    }
  }

  // --- html.escape ---

  function EscapeChar(c: char): string {
    match c
    case '&' => "&amp;"
    case '<' => "&lt;"
    case '>' => "&gt;"
    case '"' => "&quot;"
    case '\'' => "&#x27;"
    case _ => [c]
  }

  function Escape(s: string): string {
    if s == "" then "" else EscapeChar(s[0]) + Escape(s[1..])
  }

  lemma {:induction false} EscapeAppend(a: string, b: string)
    ensures Escape(a + b) == Escape(a) + Escape(b)
    decreases |a|
  {
    if a == "" {
      EmptyUnit(b);
      EmptyUnit(Escape(b));
    } else {
      hide EscapeChar;
      assert (a + b)[1..] == a[1..] + b;
      EscapeAppend(a[1..], b);
      Assoc(EscapeChar(a[0]), Escape(a[1..]), Escape(b));
    }
  }

  lemma {:induction false} EscapeHasNoTag(s: string)
    ensures forall k :: 0 <= k < |Escape(s)| ==> Escape(s)[k] != '<' && Escape(s)[k] != '>'
    decreases |s|
  {
    if s != "" {
      EscapeHasNoTag(s[1..]);
      assert forall k :: 0 <= k < |EscapeChar(s[0])| ==> EscapeChar(s[0])[k] != '<' && EscapeChar(s[0])[k] != '>';
    }
  }

  /** Two characters' escapes that begin two equal texts are equal. */
  lemma EscapeCharPrefix(c: char, d: char, x: string, y: string)
    requires EscapeChar(c) + x == EscapeChar(d) + y
    ensures c == d && x == y
  {
    var t := EscapeChar(c) + x;
    hide EscapeChar;
    if c == d {
      assert x == t[|EscapeChar(c)|..] && y == t[|EscapeChar(d)|..];
    } else {
      EscapesDiffer(c, d);
      BeginningsDiffer(EscapeChar(c), x, EscapeChar(d), y, if EscapeChar(c)[0] == EscapeChar(d)[0] then 1 else 0);
    }
  }

  lemma BeginningsDiffer(a: string, x: string, b: string, y: string, k: nat)
    requires k < |a| && k < |b| && a[k] != b[k]
    ensures a + x != b + y
  {
    assert (a + x)[k] == a[k] && (b + y)[k] == b[k];
  }

  lemma EscapesDiffer(c: char, d: char)
    requires c != d
    ensures var a, b := EscapeChar(c), EscapeChar(d);
            a != "" && b != "" && (a[0] == b[0] ==> |a| > 1 && |b| > 1 && a[1] != b[1])
  {
  }

  lemma {:induction false} EscapeInjective(a: string, b: string)
    requires Escape(a) == Escape(b)
    ensures a == b
    decreases |a|
  {
    if a != "" && b != "" {
      EscapeCharPrefix(a[0], b[0], Escape(a[1..]), Escape(b[1..]));
      EscapeInjective(a[1..], b[1..]);
      assert a == [a[0]] + a[1..] && b == [b[0]] + b[1..];
    }
  }

  // --- rendering ---

  const SYNTHETIC := "hl-ipv4"

  const CLASS := "span class=\""
  const TITLE := " hl-synthetic\" title=\""

  /** Inside the opening tag. `note` is `describe_address`: the title of a client-made address, if it is one. */
  function TagText(cls: string, token: string, note: string -> Option<string>): string {
    if cls == SYNTHETIC && note(token).Some? then CLASS + cls + TITLE + Escape(note(token).value) + "\""
    else CLASS + cls + "\""
  }

  function OpenTag(cls: string, token: string, note: string -> Option<string>): string {
    "<" + TagText(cls, token, note) + ">"
  }

  const CLOSE := "<" + "/span" + ">"

  function Marked(body: string, h: Hit, note: string -> Option<string>): string
    requires Within(|body|, h)
  {
    var token := body[h.start..h.end];
    OpenTag(h.cls, token, note) + Escape(token) + CLOSE
  }

  function Gap(body: string, cursor: nat, start: nat): string
    requires start <= |body|
  {
    if start > cursor then body[cursor..start] else ""
  }

  /** The output for the spans still to come. */
  function Render(body: string, spans: seq<Hit>, cursor: nat, note: string -> Option<string>): string
    requires AllWithin(|body|, spans) && cursor <= |body|
    decreases |spans|
  {
    if spans == [] then Escape(body[cursor..])
    else
      Escape(Gap(body, cursor, spans[0].start))
      + (Marked(body, spans[0], note) + Render(body, spans[1..], spans[0].end, note))
  }

  /** The spans in the order they are written. */
  function Spans(hs: seq<Hit>): seq<Hit> {
    SortSpans(Choose(hs))
  }

  lemma SpansWithin(n: nat, hs: seq<Hit>)
    requires AllWithin(n, hs)
    ensures AllWithin(n, Spans(hs))
  {
    hide SortSpans, Choose;
    ChooseWithin(n, hs);
    SortKeeps(Choose(hs));
    forall k | 0 <= k < |Spans(hs)| ensures Within(n, Spans(hs)[k]) {
      assert Spans(hs)[k] in Choose(hs);
    }
  }

  function Highlighted(body: string, ps: seq<Pattern>, note: string -> Option<string>): string
    requires AllWithin(|body|, HitsOf(ps))
  {
    if body == "" then ""
    else
      SpansWithin(|body|, HitsOf(ps));
      Render(body, Spans(HitsOf(ps)), 0, note)
  }

  ghost predicate Claims(claimed: seq<bool>, spans: seq<Hit>) {
    forall i :: 0 <= i < |claimed| ==> (claimed[i] <==> exists k :: 0 <= k < |spans| && Covers(spans[k], i))
  }

  /** `any(claimed[s:e])` */
  method AnyClaimed(claimed: array<bool>, s: nat, e: nat) returns (any: bool)
    requires s <= e <= claimed.Length
    ensures any <==> exists i :: s <= i < e && claimed[i]
  {
    for i := s to e
      invariant forall j :: s <= j < i ==> !claimed[j]
    {
      if claimed[i] { return true; }
    }
    return false;
  }

  /** A stretch is claimed if and only if a chosen span overlaps it. */
  lemma ClaimedIsOverlap(claimed: seq<bool>, spans: seq<Hit>, h: Hit)
    requires Claims(claimed, spans) && AllWithin(|claimed|, spans) && Within(|claimed|, h)
    ensures (exists i :: h.start <= i < h.end && claimed[i]) <==> exists k :: 0 <= k < |spans| && Overlap(spans[k], h)
  {
    if i :| h.start <= i < h.end && claimed[i] {
      var k :| 0 <= k < |spans| && Covers(spans[k], i);
      assert Overlap(spans[k], h);
    }
    if k :| 0 <= k < |spans| && Overlap(spans[k], h) {
      var i := if spans[k].start < h.start then h.start else spans[k].start;
      assert Within(|claimed|, spans[k]) && Covers(spans[k], i);
      assert claimed[i];
    }
  }

  lemma ClaimMore(was: seq<bool>, now: seq<bool>, spans: seq<Hit>, h: Hit)
    requires Claims(was, spans) && |now| == |was|
    requires forall i :: 0 <= i < |now| ==> now[i] == (was[i] || Covers(h, i))
    ensures Claims(now, spans + [h])
  {
    var all := spans + [h];
    forall i | 0 <= i < |now| ensures now[i] <==> exists k :: 0 <= k < |all| && Covers(all[k], i) {
      if now[i] {
        if was[i] {
          var k :| 0 <= k < |spans| && Covers(spans[k], i);
          assert Covers(all[k], i);
        } else {
          assert Covers(all[|spans|], i);
        }
      }
      if k :| 0 <= k < |all| && Covers(all[k], i) {
        if k < |spans| { assert Covers(spans[k], i); }
      }
    }
  }

  method ChooseSpans(n: nat, ps: seq<Pattern>) returns (spans: seq<Hit>)
    requires AllWithin(n, HitsOf(ps))
    ensures spans == Choose(HitsOf(ps))
  {
    hide Claims, Choose, Overlap, Covers;
    var claimed := new bool[n](_ => false);
    spans := [];
    NoneClaimed(claimed[..]);
    for p := 0 to |ps|
      invariant spans == Choose(HitsOf(ps[..p])) && AllWithin(n, spans) && Claims(claimed[..], spans)
    {
      HitsNext(ps, p, n);
      var hits := Labelled(ps[p].cls, ps[p].matches);
      EmptyUnit(HitsOf(ps[..p]));
      for k := 0 to |ps[p].matches|
        invariant spans == Choose(HitsOf(ps[..p]) + hits[..k]) && AllWithin(n, spans) && Claims(claimed[..], spans)
      {
        var h := hits[k];
        assert Within(n, h);
        ChooseNext(HitsOf(ps[..p]) + hits[..k], h);
        assert HitsOf(ps[..p]) + hits[..k] + [h] == HitsOf(ps[..p]) + hits[..k + 1];
        ClaimedIsOverlap(claimed[..], spans, h);
        var any := AnyClaimed(claimed, h.start, h.end);
        if any { continue; }
        Claim(claimed, h, spans);
        spans := spans + [h];
      }
      assert hits[..|hits|] == hits;
    }
    assert ps[..|ps|] == ps;
  }

  method Claim(claimed: array<bool>, h: Hit, ghost spans: seq<Hit>)
    requires Within(claimed.Length, h) && Claims(claimed[..], spans)
    modifies claimed
    ensures Claims(claimed[..], spans + [h])
  {
    hide Claims;
    for i := h.start to h.end
      invariant forall j :: 0 <= j < claimed.Length ==> claimed[j] == (old(claimed[j]) || h.start <= j < i)
    {
      claimed[i] := true;
    }
    ClaimMore(old(claimed[..]), claimed[..], spans, h);
  }

  lemma NoneClaimed(claimed: seq<bool>)
    requires forall i :: 0 <= i < |claimed| ==> !claimed[i]
    ensures Claims(claimed, []) && Choose(HitsOf([])) == []
  {
  }

  lemma HitsNext(ps: seq<Pattern>, p: nat, n: nat)
    requires p < |ps| && AllWithin(n, HitsOf(ps))
    ensures HitsOf(ps[..p + 1]) == HitsOf(ps[..p]) + Labelled(ps[p].cls, ps[p].matches)
    ensures AllWithin(n, Labelled(ps[p].cls, ps[p].matches))
  {
    hide AllWithin, Labelled;
    assert ps[..p + 1][..p] == ps[..p];
    HitsPrefixWithin(ps, p + 1, n);
    WithinParts(n, HitsOf(ps[..p]), Labelled(ps[p].cls, ps[p].matches));
  }

  lemma WithinParts(n: nat, a: seq<Hit>, b: seq<Hit>)
    requires AllWithin(n, a + b)
    ensures AllWithin(n, a) && AllWithin(n, b)
  {
    hide Within;
    assert forall k :: 0 <= k < |a| ==> (a + b)[k] == a[k];
    assert forall k :: 0 <= k < |b| ==> (a + b)[|a| + k] == b[k];
  }

  lemma {:induction false} HitsPrefixWithin(ps: seq<Pattern>, p: nat, n: nat)
    requires p <= |ps| && AllWithin(n, HitsOf(ps))
    ensures AllWithin(n, HitsOf(ps[..p]))
    decreases |ps|
  {
    hide AllWithin, Labelled;
    if p == |ps| {
      assert ps[..p] == ps;
    } else {
      var init, last := ps[..|ps| - 1], ps[|ps| - 1];
      WithinParts(n, HitsOf(init), Labelled(last.cls, last.matches));
      HitsPrefixWithin(init, p, n);
      assert init[..p] == ps[..p];
    }
  }

  lemma RenderStep(body: string, spans: seq<Hit>, cursor: nat, note: string -> Option<string>)
    requires AllWithin(|body|, spans) && cursor <= |body| && spans != []
    ensures AllWithin(|body|, spans[1..]) && spans[0].start <= spans[0].end <= |body|
    ensures Render(body, spans, cursor, note) ==
            Escape(Gap(body, cursor, spans[0].start))
            + (Marked(body, spans[0], note) + Render(body, spans[1..], spans[0].end, note))
  {
    hide Escape, Marked, Gap;
  }

  lemma RenderEnd(body: string, cursor: nat, note: string -> Option<string>)
    requires cursor <= |body|
    ensures AllWithin(|body|, []) && Render(body, [], cursor, note) == Escape(body[cursor..])
    ensures Escape("") == ""
  {
  }

  method HighlightTokens(body: string, ps: seq<Pattern>, note: string -> Option<string>) returns (out: string)
    requires AllWithin(|body|, HitsOf(ps))
    ensures out == Highlighted(body, ps, note)
  {
    hide Render, Choose, SortSpans, Escape, AllWithin, HitsOf, OpenTag;
    if body == "" { return ""; }
    var n := |body|;
    var spans := ChooseSpans(n, ps);
    SpansWithin(n, HitsOf(ps));
    RenderEnd(body, 0, note);
    if spans == [] {
      NoSpans();
      return Escape(body);
    }
    spans := SortSpans(spans);
    out := "";
    var cursor: nat := 0;
    assert spans[0..] == spans;
    EmptyUnit(Render(body, spans, cursor, note));
    for k := 0 to |spans|
      invariant cursor <= n && AllWithin(n, spans[k..])
      invariant Highlighted(body, ps, note) == out + Render(body, spans[k..], cursor, note)
    {
      var h := spans[k];
      assert spans[k..][0] == h && spans[k..][1..] == spans[k + 1..];
      RenderStep(body, spans[k..], cursor, note);
      ghost var rest := Render(body, spans[k + 1..], h.end, note);
      Assoc(out, Escape(Gap(body, cursor, h.start)), Marked(body, h, note) + rest);
      EmptyUnit(out);
      if h.start > cursor { out := out + Escape(body[cursor..h.start]); }
      var token := body[h.start..h.end];
      Assoc(out, Marked(body, h, note), rest);
      out := out + (OpenTag(h.cls, token, note) + Escape(token) + CLOSE);
      cursor := h.end;
    }
    assert spans[|spans|..] == [];
    RenderEnd(body, cursor, note);
    EmptyUnit(out);
    assert cursor == n ==> body[cursor..] == "";
    if cursor < n { out := out + Escape(body[cursor..]); }
  }

  lemma NoSpans()
    ensures SortSpans([]) == []
  {
  }

  // --- erasing the markup ---

  /** What is left of a text without its tags: everything from a `<` to the next `>` goes. */
  function Erase(s: string, inTag: bool): string {
    if s == "" then ""
    else if inTag then Erase(s[1..], s[0] != '>')
    else if s[0] == '<' then Erase(s[1..], true)
    else [s[0]] + Erase(s[1..], false)
  }

  predicate NoAngle(s: string) {
    forall k :: 0 <= k < |s| ==> s[k] != '<' && s[k] != '>'
  }

  lemma {:induction false} EraseText(t: string, rest: string)
    requires NoAngle(t)
    ensures Erase(t + rest, false) == t + Erase(rest, false)
    decreases |t|
  {
    if t == "" {
      EmptyUnit(rest);
      EmptyUnit(Erase(rest, false));
    } else {
      assert (t + rest)[1..] == t[1..] + rest;
      EraseText(t[1..], rest);
      Assoc([t[0]], t[1..], Erase(rest, false));
      assert [t[0]] + t[1..] == t;
    }
  }

  lemma {:induction false} EraseInside(t: string, rest: string)
    requires NoAngle(t)
    ensures Erase(t + ">" + rest, true) == Erase(rest, false)
    decreases |t|
  {
    var all := t + ">" + rest;
    if t == "" {
      assert all[0] == '>' && all[1..] == rest;
    } else {
      assert all[1..] == t[1..] + ">" + rest;
      EraseInside(t[1..], rest);
    }
  }

  lemma EraseTag(t: string, rest: string)
    requires NoAngle(t)
    ensures Erase("<" + t + ">" + rest, false) == Erase(rest, false)
  {
    var all := "<" + t + ">" + rest;
    assert all[0] == '<' && all[1..] == t + ">" + rest;
    EraseInside(t, rest);
  }

  lemma NoAngleAppend(a: string, b: string)
    requires NoAngle(a) && NoAngle(b)
    ensures NoAngle(a + b)
  {
  }

  lemma Constants()
    ensures NoAngle(CLASS) && NoAngle(TITLE) && NoAngle("\"") && NoAngle("/span")
  {
  }

  lemma TagTextPlain(cls: string, token: string, note: string -> Option<string>)
    requires NoAngle(cls)
    ensures NoAngle(TagText(cls, token, note))
  {
    hide NoAngle, Escape;
    Constants();
    NoAngleAppend(CLASS, cls);
    NoAngleAppend(CLASS + cls, "\"");
    if note(token).Some? {
      var title := Escape(note(token).value);
      EscapeNoAngle(note(token).value);
      NoAngleAppend(CLASS + cls, TITLE);
      NoAngleAppend(CLASS + cls + TITLE, title);
      NoAngleAppend(CLASS + cls + TITLE + title, "\"");
    }
  }

  lemma EraseMarked(body: string, h: Hit, note: string -> Option<string>, rest: string)
    requires Within(|body|, h) && NoAngle(h.cls)
    ensures Erase(Marked(body, h, note) + rest, false) == Escape(body[h.start..h.end]) + Erase(rest, false)
  {
    hide Erase, Escape, TagText, NoAngle;
    var token := body[h.start..h.end];
    var t, x := TagText(h.cls, token, note), Escape(token);
    var after := CLOSE + rest;
    assert Marked(body, h, note) + rest == "<" + t + ">" + (x + after);
    TagTextPlain(h.cls, token, note);
    EraseTag(t, x + after);
    EscapeNoAngle(token);
    EraseText(x, after);
    Constants();
    EraseTag("/span", rest);
  }

  lemma EscapeNoAngle(s: string)
    ensures NoAngle(Escape(s))
  {
    EscapeHasNoTag(s);
  }

  /** The text that the output shows: what is written between the spans and inside them. */
  function Shown(body: string, spans: seq<Hit>, cursor: nat): string
    requires AllWithin(|body|, spans) && cursor <= |body|
    decreases |spans|
  {
    if spans == [] then body[cursor..]
    else
      Gap(body, cursor, spans[0].start)
      + (body[spans[0].start..spans[0].end] + Shown(body, spans[1..], spans[0].end))
  }

  ghost predicate PlainClasses(hs: seq<Hit>) {
    forall k :: 0 <= k < |hs| ==> NoAngle(hs[k].cls)
  }

  lemma ShownStep(body: string, spans: seq<Hit>, cursor: nat)
    requires AllWithin(|body|, spans) && cursor <= |body| && spans != []
    ensures AllWithin(|body|, spans[1..]) && spans[0].start <= spans[0].end <= |body|
    ensures Shown(body, spans, cursor) ==
            Gap(body, cursor, spans[0].start)
            + (body[spans[0].start..spans[0].end] + Shown(body, spans[1..], spans[0].end))
  {
    hide Gap;
  }

  lemma {:induction false} EraseRendered(body: string, spans: seq<Hit>, cursor: nat, note: string -> Option<string>)
    requires AllWithin(|body|, spans) && cursor <= |body| && PlainClasses(spans)
    ensures Erase(Render(body, spans, cursor, note), false) == Escape(Shown(body, spans, cursor))
    decreases |spans|
  {
    if spans == [] {
      EscapeNoAngle(body[cursor..]);
      EraseText(Escape(body[cursor..]), "");
      EmptyUnit(Escape(body[cursor..]));
    } else {
      hide Erase, Escape, Render, Shown, Marked, Gap, AllWithin, NoAngle;
      var h := spans[0];
      RenderStep(body, spans, cursor, note);
      ShownStep(body, spans, cursor);
      EraseRendered(body, spans[1..], h.end, note);
      var gap, token, rest := Gap(body, cursor, h.start), body[h.start..h.end], Render(body, spans[1..], h.end, note);
      EscapeNoAngle(gap);
      EraseText(Escape(gap), Marked(body, h, note) + rest);
      EraseMarked(body, h, note, rest);
      EscapeAppend(token, Shown(body, spans[1..], h.end));
      EscapeAppend(gap, token + Shown(body, spans[1..], h.end));
    }
  }

  /** Each span starts at or after the end of the one before it. */
  predicate InOrder(spans: seq<Hit>, cursor: nat) {
    spans == [] || (spans[0].start >= cursor && InOrder(spans[1..], spans[0].end))
  }

  /** The text shown is never shorter than what is left of the body, and equal to it only in order. */
  lemma {:induction false} ShownExactly(body: string, spans: seq<Hit>, cursor: nat)
    requires AllWithin(|body|, spans) && cursor <= |body|
    ensures InOrder(spans, cursor) ==> Shown(body, spans, cursor) == body[cursor..]
    ensures |Shown(body, spans, cursor)| >= |body| - cursor
    ensures !InOrder(spans, cursor) ==> |Shown(body, spans, cursor)| > |body| - cursor
    decreases |spans|
  {
    if spans != [] {
      hide AllWithin, Shown;
      ShownStep(body, spans, cursor);
      var h := spans[0];
      ShownExactly(body, spans[1..], h.end);
      if h.start >= cursor {
        assert body[cursor..] == body[cursor..h.start] + (body[h.start..h.end] + body[h.end..]);
      }
    }
  }

  /** An empty match was taken strictly inside a taken span. */
  ghost predicate EmptyInside(hs: seq<Hit>) {
    exists p, q :: p in Choose(hs) && q in Choose(hs) && p.start == p.end && q.start < p.start < q.end
  }

  lemma {:induction false} InOrderMeans(spans: seq<Hit>, cursor: nat, n: nat)
    requires AllWithin(n, spans)
    ensures InOrder(spans, cursor) ==> forall j :: 0 <= j < |spans| ==> spans[j].start >= cursor
    ensures InOrder(spans, cursor) ==> forall i, j :: 0 <= i < j < |spans| ==> spans[j].start >= spans[i].end
    ensures (forall j :: 0 <= j < |spans| ==> spans[j].start >= cursor) ==>
              (forall i, j :: 0 <= i < j < |spans| ==> spans[j].start >= spans[i].end) ==> InOrder(spans, cursor)
    decreases |spans|
  {
    if spans != [] {
      var rest := spans[1..];
      assert forall j :: 0 <= j < |rest| ==> rest[j] == spans[j + 1];
      assert Within(n, spans[0]);
      InOrderMeans(rest, spans[0].end, n);
    }
  }

  /** The spans stand in order unless an empty one lies inside another. */
  lemma OrderExactly(n: nat, hs: seq<Hit>)
    requires AllWithin(n, hs)
    ensures InOrder(Spans(hs), 0) <==> !EmptyInside(hs)
  {
    hide Choose, SortSpans, InOrder;
    var spans := Spans(hs);
    SpansWithin(n, hs);
    InOrderMeans(spans, 0, n);
    ChosenDisjoint(hs);
    SortKeeps(Choose(hs));
    if InOrder(spans, 0) {
      forall p, q | p in Choose(hs) && q in Choose(hs) && p.start == p.end ensures !(q.start < p.start < q.end) {
        var j :| 0 <= j < |spans| && spans[j] == p;
        var i :| 0 <= i < |spans| && spans[i] == q;
        if j < i { assert Before(spans[j], spans[i]); }
      }
    }
    if !EmptyInside(hs) {
      forall i, j | 0 <= i < j < |spans| ensures spans[j].start >= spans[i].end {
        assert spans[i] in Choose(hs) && spans[j] in Choose(hs);
        assert !Overlap(spans[i], spans[j]) && Within(n, spans[j]) && Before(spans[i], spans[j]);
      }
    }
  }

  /** Removing the markup from the output gives exactly the escaped body, if and only if no empty match was
      taken strictly inside another; for patterns that match no empty text, always. */
  lemma ErasesToInput(body: string, ps: seq<Pattern>, note: string -> Option<string>)
    requires AllWithin(|body|, HitsOf(ps)) && PlainClasses(HitsOf(ps)) && body != ""
    ensures Erase(Highlighted(body, ps, note), false) == Escape(body) <==> !EmptyInside(HitsOf(ps))
  {
    hide Erase, Render, Escape, Shown, InOrder, Spans, HitsOf, EmptyInside, AllWithin, PlainClasses;
    var hs := HitsOf(ps);
    SpansWithin(|body|, hs);
    SpansPlain(hs);
    EraseRendered(body, Spans(hs), 0, note);
    ShownExactly(body, Spans(hs), 0);
    OrderExactly(|body|, hs);
    assert body[0..] == body;
    if Escape(Shown(body, Spans(hs), 0)) == Escape(body) { EscapeInjective(Shown(body, Spans(hs), 0), body); }
  }

  lemma {:induction false} ChoosePlain(hs: seq<Hit>)
    ensures forall h :: h in Choose(hs) ==> h in hs
    decreases |hs|
  {
    if hs != [] { ChoosePlain(hs[..|hs| - 1]); }
  }

  lemma SpansPlain(hs: seq<Hit>)
    requires PlainClasses(hs)
    ensures PlainClasses(Spans(hs))
  {
    hide NoAngle, Choose, SortSpans;
    ChoosePlain(hs);
    SortKeeps(Choose(hs));
    forall k | 0 <= k < |Spans(hs)| ensures NoAngle(Spans(hs)[k].cls) {
      assert Spans(hs)[k] in hs;
    }
  }

  lemma NonEmptyMatches(hs: seq<Hit>)
    requires forall h :: h in hs ==> h.start < h.end
    ensures !EmptyInside(hs)
  {
    ChoosePlain(hs);
  }

  /** An empty match inside a token makes the line repeat itself: with "ab" taken as a token and an empty
      match between its letters, the output shows "abb". */
  lemma EmptyMatchRepeats(note: string -> Option<string>)
    ensures var ps := [Pattern("x", [(0, 2)]), Pattern("y", [(1, 1)])];
            && AllWithin(2, HitsOf(ps)) && EmptyInside(HitsOf(ps))
            && Erase(Highlighted("ab", ps, note), false) == "abb"
  {
    hide Erase, Render, Escape, Overlap;
    var ps := [Pattern("x", [(0, 2)]), Pattern("y", [(1, 1)])];
    var h, g := Hit(0, 2, "x"), Hit(1, 1, "y");
    ExampleHits(ps, h, g);
    var spans := [h, g];
    ExampleSpans(h, g);
    assert spans[1..] == [g] && spans[1..][1..] == [];
    EraseRendered("ab", spans, 0, note);
    assert Shown("ab", spans[1..], 2) == "" + ("" + "b");
    assert Shown("ab", spans, 0) == "" + ("ab" + Shown("ab", spans[1..], 2)) == "abb";
    EscapePlain("abb");
  }

  lemma {:induction false} EscapePlain(s: string)
    requires forall k :: 0 <= k < |s| ==> 'a' <= s[k] <= 'z'
    ensures Escape(s) == s
    decreases |s|
  {
    if s != "" {
      EscapePlain(s[1..]);
      assert s == [s[0]] + s[1..];
    }
  }

  lemma ExampleHits(ps: seq<Pattern>, h: Hit, g: Hit)
    requires ps == [Pattern("x", [(0, 2)]), Pattern("y", [(1, 1)])] && h == Hit(0, 2, "x") && g == Hit(1, 1, "y")
    ensures HitsOf(ps) == [h, g] && AllWithin(2, [h, g])
  {
    assert ps[..1] == [Pattern("x", [(0, 2)])] && ps[..1][..0] == [];
    assert Labelled("x", [(0, 2)]) == [h] && Labelled("y", [(1, 1)]) == [g];
    assert HitsOf(ps[..1]) == [] + [h];
  }

  lemma ExampleSpans(h: Hit, g: Hit)
    requires h == Hit(0, 2, "x") && g == Hit(1, 1, "y")
    ensures Spans([h, g]) == [h, g] && EmptyInside([h, g]) && PlainClasses([h, g])
  {
    hide Choose, SortSpans;
    ExampleChosen(h, g);
    ExampleSorted(h, g);
  }

  lemma ExampleChosen(h: Hit, g: Hit)
    requires h == Hit(0, 2, "x") && g == Hit(1, 1, "y")
    ensures Choose([h, g]) == [h, g]
  {
    ChooseNext([], h);
    ChooseNext([h], g);
    assert [] + [h] == [h] && [h] + [g] == [h, g];
  }

  lemma ExampleSorted(h: Hit, g: Hit)
    requires h == Hit(0, 2, "x") && g == Hit(1, 1, "y")
    ensures SortSpans([h, g]) == [h, g]
  {
    assert [h, g][1..] == [g] && [g][1..] == [];
    assert SortSpans([g]) == [g] + [];
    assert SortSpans([h, g]) == [h] + [g];
  }

  // --- paging ---

  const DEFAULT_PAGE := 200

  function Take<T>(s: seq<T>, n: nat): seq<T> {
    if n > |s| then s else s[..n]
  }

  /** `s[start:start + n]` as Python clips it. */
  function Slice<T>(s: seq<T>, start: nat, n: nat): seq<T> {
    if start >= |s| then [] else Take(s[start..], n)
  }

  function TotalPages(n: nat, size: nat): (total: nat)
    requires size > 0
    ensures total >= 1
  {
    var q := (n + size - 1) / size;
    if q > 1 then q else 1
  }

  datatype Page<T> = Page(lines: seq<T>, number: nat, total: nat)

  function SizeOf(pageSize: int): (size: nat)
    ensures size > 0
  {
    if pageSize <= 0 then DEFAULT_PAGE else pageSize
  }

  function Paginate<T>(lines: seq<T>, page: int, pageSize: int): Page<T> {
    var size := SizeOf(pageSize);
    var total := TotalPages(|lines|, size);
    var p: nat := if page < 1 then 1 else if page > total then total else page;
    Page(Slice(lines, (p - 1) * size, size), p, total)
  }

  /** Pages 1 to `k` one after the other. */
  function UpToPage<T>(lines: seq<T>, k: nat, pageSize: int): seq<T> {
    if k == 0 then [] else UpToPage(lines, k - 1, pageSize) + Paginate(lines, k, pageSize).lines
  }

  lemma TakeSlice<T>(s: seq<T>, start: nat, n: nat)
    ensures Take(s, start) + Slice(s, start, n) == Take(s, start + n)
    ensures |Slice(s, start, n)| <= n
  {
  }

  lemma PagesEnough(n: nat, size: nat)
    requires size > 0
    ensures n <= TotalPages(n, size) * size
  {
    var q := (n + size - 1) / size;
    assert n + size - 1 == q * size + (n + size - 1) % size;
    if q <= 1 {
      assert q * size <= size;
    }
  }

  lemma {:induction false} PagesSoFar<T>(lines: seq<T>, k: nat, pageSize: int)
    requires k <= TotalPages(|lines|, SizeOf(pageSize))
    ensures UpToPage(lines, k, pageSize) == Take(lines, k * SizeOf(pageSize))
    decreases k
  {
    hide Take, Slice, TotalPages, SizeOf;
    var size := SizeOf(pageSize);
    if k == 0 {
      TakeNone(lines);
    } else {
      PagesSoFar(lines, k - 1, pageSize);
      TakeSlice(lines, (k - 1) * size, size);
      assert k * size == (k - 1) * size + size;
    }
  }

  lemma TakeNone<T>(s: seq<T>)
    ensures Take(s, 0) == []
  {
  }

  /** Reading all pages in order reads every line exactly once; a page out of range is clamped to the
      nearest one, and none is longer than the page size. */
  lemma PagesCover<T>(lines: seq<T>, page: int, pageSize: int)
    ensures var r := Paginate(lines, page, pageSize);
            && UpToPage(lines, r.total, pageSize) == lines
            && 1 <= r.number <= r.total && r == Paginate(lines, r.number, pageSize) && |r.lines| <= SizeOf(pageSize)
            && (1 <= page <= r.total ==> r.number == page)
  {
    hide Slice, TotalPages, UpToPage, SizeOf;
    var r, size := Paginate(lines, page, pageSize), SizeOf(pageSize);
    PagesSoFar(lines, r.total, pageSize);
    PagesEnough(|lines|, size);
    TakeSlice(lines, (r.number - 1) * size, size);
  }
}
