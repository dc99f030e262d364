/** Blanking comments in PAC source: nested scanning loops, proved against a machine that reads one
    character at a time. */
module PacComments {
  import opened Text

  const PRECEDERS := "=(,:[!&|?{};+-*%~^<>"

  /** What the next character belongs to. `prev` is the last significant code character. */
  datatype Mode =
    | Code(prev: Option<char>)
    | Line(prev: Option<char>)
    | Block(prev: Option<char>)
    | BlockEnd(prev: Option<char>)
    | Str(quote: char)
    | StrEscape(quote: char)
    | Regex(inClass: bool)
    | RegexEscape(inClass: bool)

  predicate OpensRegex(prev: Option<char>) {
    prev.None? || prev.value in PRECEDERS
  }

  /** Reading `c` with `next` behind it: the mode after it, and whether it is part of a comment. */
  function Step(m: Mode, c: char, next: Option<char>): (Mode, bool) {
    match m
    case Code(prev) =>
      if c == '"' || c == '\'' then (Str(c), false)
      else if c == '/' && next == Some('/') then (Line(prev), true)
      else if c == '/' && next == Some('*') then (Block(prev), true)
      else if c == '/' && OpensRegex(prev) then (Regex(false), false)
      else (Code(if IsSpace(c) then prev else Some(c)), false)
    case Line(prev) => if c == '\n' then (Code(prev), false) else (m, true)
    case Block(prev) => (if c == '*' && next == Some('/') then BlockEnd(prev) else m, true)
    case BlockEnd(prev) => (Code(prev), true)
    case Str(q) =>
      if c == '\\' && next.Some? then (StrEscape(q), false)
      else (if c == q || c == '\n' then Code(Some(q)) else m, false)
    case StrEscape(q) => (Str(q), false)
    case Regex(k) =>
      if c == '\\' && next.Some? then (RegexEscape(k), false)
      else if c == '[' then (Regex(true), false)
      else if c == ']' then (Regex(false), false)
      else (if c == '\n' || (c == '/' && !k) then Code(Some('/')) else m, false)
    case RegexEscape(k) => (Regex(k), false)
  }

  function NextChar(t: string, i: nat): Option<char> {
    if i + 1 < |t| then Some(t[i + 1]) else None
  }

  function Shown(c: char, comment: bool): char {
    if comment && c != '\n' then ' ' else c
  }

  /** The text from `i` on, its comments blanked. */
  function Blanked(t: string, i: nat, m: Mode): (r: string)
    requires i <= |t|
    ensures |r| == |t| - i
    decreases |t| - i
  {
    if i == |t| then ""
    else
      var s := Step(m, t[i], NextChar(t, i)); [Shown(t[i], s.1)] + Blanked(t, i + 1, s.0)
  }

  lemma OneChar(t: string, i: nat, m: Mode, out: string)
    requires i < |t|
    ensures var s := Step(m, t[i], NextChar(t, i));
            out + Blanked(t, i, m) == out + [Shown(t[i], s.1)] + Blanked(t, i + 1, s.0)
  {
    var s := Step(m, t[i], NextChar(t, i));
    Assoc(out, [Shown(t[i], s.1)], Blanked(t, i + 1, s.0));
  }

  method StripComments(text: string) returns (out: string)
    ensures out == Blanked(text, 0, Code(None))
  {
    hide Blanked;
    ghost var goal := Blanked(text, 0, Code(None));
    out := "";
    EmptyUnit(goal);
    var index := 0;
    var previous: Option<char> := None;
    while index < |text|
      invariant index <= |text| && out + Blanked(text, index, Code(previous)) == goal
    {
      var c := text[index];
      OneChar(text, index, Code(previous), out);
      if c == '"' || c == '\'' {
        out, index := StringLoop(text, index + 1, c, out + [c]);
        previous := Some(c);
        continue;
      }
      if c == '/' && index + 1 < |text| && text[index + 1] == '/' {
        out, index := LineLoop(text, index, out, previous);
        continue;
      }
      if c == '/' && index + 1 < |text| && text[index + 1] == '*' {
        out, index := BlockLoop(text, index, out, previous);
        continue;
      }
      if c == '/' && OpensRegex(previous) {
        out, index := RegexLoop(text, index + 1, out + [c]);
        previous := Some('/');
        continue;
      }
      out := out + [c];
      if !IsSpace(c) {
        previous := Some(c);
      }
      index := index + 1;
    }
    NoMore(text, Code(previous));
    EmptyUnit(out);
  }

  lemma NoMore(t: string, m: Mode)
    ensures Blanked(t, |t|, m) == ""
  {
  }

  method StringLoop(text: string, start: nat, quote: char, begun: string) returns (out: string, index: nat)
    requires start <= |text|
    ensures start <= index <= |text|
    ensures out + Blanked(text, index, Code(Some(quote))) == begun + Blanked(text, start, Str(quote))
  {
    hide Blanked;
    out, index := begun, start;
    while index < |text|
      invariant start <= index <= |text|
      invariant out + Blanked(text, index, Str(quote)) == begun + Blanked(text, start, Str(quote))
    {
      var current := text[index];
      OneChar(text, index, Str(quote), out);
      out := out + [current];
      if current == '\\' && index + 1 < |text| {
        OneChar(text, index + 1, StrEscape(quote), out);
        out := out + [text[index + 1]];
        index := index + 2;
        continue;
      }
      index := index + 1;
      if current == quote || current == '\n' {
        return;
      }
    }
    NoMore(text, Str(quote));
    NoMore(text, Code(Some(quote)));
  }

  method LineLoop(text: string, start: nat, begun: string, ghost prev: Option<char>) returns (out: string, index: nat)
    requires start + 1 < |text| && text[start] == '/' && text[start + 1] == '/'
    ensures start < index <= |text|
    ensures out + Blanked(text, index, Code(prev)) == begun + Blanked(text, start, Code(prev))
  {
    hide Blanked;
    OneChar(text, start, Code(prev), begun);
    out, index := begun + " ", start + 1;
    while index < |text| && text[index] != '\n'
      invariant start < index <= |text|
      invariant out + Blanked(text, index, Line(prev)) == begun + Blanked(text, start, Code(prev))
    {
      OneChar(text, index, Line(prev), out);
      out := out + " ";
      index := index + 1;
    }
    if index < |text| {
      OneChar(text, index, Line(prev), out);
      OneChar(text, index, Code(prev), out);
    } else {
      NoMore(text, Line(prev));
      NoMore(text, Code(prev));
    }
  }

  method BlockLoop(text: string, start: nat, begun: string, ghost prev: Option<char>) returns (out: string, index: nat)
    requires start + 1 < |text| && text[start] == '/' && text[start + 1] == '*'
    ensures start < index <= |text|
    ensures out + Blanked(text, index, Code(prev)) == begun + Blanked(text, start, Code(prev))
  {
    hide Blanked;
    OneChar(text, start, Code(prev), begun);
    out, index := begun + " ", start + 1;
    while index < |text| && !(text[index] == '*' && index + 1 < |text| && text[index + 1] == '/')
      invariant start < index <= |text|
      invariant out + Blanked(text, index, Block(prev)) == begun + Blanked(text, start, Code(prev))
    {
      OneChar(text, index, Block(prev), out);
      out := out + (if text[index] == '\n' then "\n" else " ");
      index := index + 1;
    }
    if index < |text| {
      OneChar(text, index, Block(prev), out);
      OneChar(text, index + 1, BlockEnd(prev), out + " ");
      out := out + " " + " ";
      index := index + 2;
    } else {
      NoMore(text, Block(prev));
      NoMore(text, Code(prev));
    }
  }

  method RegexLoop(text: string, start: nat, begun: string) returns (out: string, index: nat)
    requires start <= |text|
    ensures start <= index <= |text|
    ensures out + Blanked(text, index, Code(Some('/'))) == begun + Blanked(text, start, Regex(false))
  {
    hide Blanked;
    out, index := begun, start;
    var inClass := false;
    while index < |text|
      invariant start <= index <= |text|
      invariant out + Blanked(text, index, Regex(inClass)) == begun + Blanked(text, start, Regex(false))
    {
      var current := text[index];
      OneChar(text, index, Regex(inClass), out);
      out := out + [current];
      if current == '\\' && index + 1 < |text| {
        OneChar(text, index + 1, RegexEscape(inClass), out);
        out := out + [text[index + 1]];
        index := index + 2;
        continue;
      }
      index := index + 1;
      if current == '[' {
        inClass := true;
      } else if current == ']' {
        inClass := false;
      } else if current == '\n' || (current == '/' && !inClass) {
        return;
      }
    }
    NoMore(text, Regex(inClass));
    NoMore(text, Code(Some('/')));
  }

  // --- what blanking keeps ---

  /** The mode before position `i + n`, having read `n` characters from `i` on in mode `m`. */
  function ModeAfter(t: string, i: nat, m: Mode, n: nat): Mode
    requires i + n <= |t|
    decreases n
  {
    if n == 0 then m else ModeAfter(t, i + 1, Step(m, t[i], NextChar(t, i)).0, n - 1)
  }

  /** Layout: the length stays, a character is blanked exactly when it belongs to a comment and is no
      line break, and no other character changes. */
  lemma {:induction false} Layout(t: string, i: nat, m: Mode, n: nat)
    requires i + n < |t|
    ensures var comment := Step(ModeAfter(t, i, m, n), t[i + n], NextChar(t, i + n)).1;
            Blanked(t, i, m)[n] == if comment && t[i + n] != '\n' then ' ' else t[i + n]
    decreases n
  {
    if n > 0 { Layout(t, i + 1, Step(m, t[i], NextChar(t, i)).0, n - 1); }
  }

  /** The character at `n` belongs to a comment, its delimiters included. */
  predicate InComment(t: string, n: nat)
    requires n < |t|
  {
    Step(ModeAfter(t, 0, Code(None), n), t[n], NextChar(t, n)).1
  }

  /** The length stays, line breaks stay in place, a character of a comment is blanked, every other is kept,
      and none of a string or a regex literal belongs to a comment. */
  lemma LayoutKept(t: string, n: nat)
    requires n < |t|
    ensures var o := Blanked(t, 0, Code(None));
            && |o| == |t| && (o[n] == '\n' <==> t[n] == '\n')
            && o[n] == (if InComment(t, n) && t[n] != '\n' then ' ' else t[n])
            && (ModeAfter(t, 0, Code(None), n) in {Str('"'), Str('\''), StrEscape('"'), StrEscape('\'')}
                ==> o[n] == t[n])
            && (ModeAfter(t, 0, Code(None), n) in {Regex(true), Regex(false), RegexEscape(true), RegexEscape(false)}
                ==> o[n] == t[n])
  {
    hide Blanked, ModeAfter;
    Layout(t, 0, Code(None), n);
  }

  /** The mode of a second pass where the first is in `m`: inside a comment it is plain code. */
  function Shadow(m: Mode): Mode {
    match m
    case Line(prev) => Code(prev)
    case Block(prev) => Code(prev)
    case BlockEnd(prev) => Code(prev)
    case _ => m
  }

  /** Reading what the first pass shows moves the second pass along and blanks nothing. */
  lemma ShadowStep(m: Mode, c: char, next: Option<char>, shownNext: Option<char>)
    requires shownNext == next || (next.Some? && shownNext == Some(' '))
    ensures var s := Step(m, c, next);
            Step(Shadow(m), Shown(c, s.1), shownNext) == (Shadow(s.0), false)
  {
  }

  lemma {:induction false} SecondPass(t: string, o: string, i: nat, m: Mode)
    requires i <= |t| == |o| && o[i..] == Blanked(t, i, m)
    ensures Blanked(o, i, Shadow(m)) == o[i..]
    decreases |t| - i
  {
    if i < |t| {
      hide Step;
      var s := Step(m, t[i], NextChar(t, i));
      assert o[i] == o[i..][0] == Shown(t[i], s.1);
      assert o[i + 1..] == o[i..][1..] == Blanked(t, i + 1, s.0);
      if i + 1 < |t| { Layout(t, i + 1, s.0, 0); }
      assert i + 1 < |t| ==> o[i + 1] == o[i + 1..][0];
      ShadowStep(m, t[i], NextChar(t, i), NextChar(o, i));
      SecondPass(t, o, i + 1, s.0);
      assert o[i..] == [o[i]] + o[i + 1..];
    }
  }

  /** Stripping twice equals stripping once. */
  lemma StripIdempotent(t: string)
    ensures var o := Blanked(t, 0, Code(None)); Blanked(o, 0, Code(None)) == o
  {
    var o := Blanked(t, 0, Code(None));
    assert o[0..] == o;
    SecondPass(t, o, 0, Code(None));
  }
}
