/** The query language: tokenizer, recursive-descent parser and evaluator. Regular expressions, time
    stamps and integers are read by functions of an Env. */
module Query {
  import opened Text

  datatype Node =
    | And(children: seq<Node>)
    | Or(children: seq<Node>)
    | Not(child: Node)
    | TextMatch(needle: string)
    | RegexMatch(pattern: string)
    | FieldEquals(field: string, value: string)
    | FieldContains(field: string, value: string)
    | TimeRange(start: int, end: int)
    | ErrCodeMatch(num: int)
    | CodeMatch(code: string)
    | EventMatch(event: string)

  /** `compiles` says which patterns the regex engine accepts, `search` whether a regex-backed node
      finds anything in a body; `parseTs`, `parseDuration` and `parseInt` read time stamps, durations and
      integers; `inRange` says which times a date can hold. */
  datatype Env = Env(
    compiles: string -> bool,
    search: (Node, string) -> bool,
    parseTs: string -> Option<int>,
    parseDuration: string -> Option<nat>,
    parseInt: string -> Option<int>,
    inRange: int -> bool,
    events: set<string>)

  datatype Token = LParen | RParen | TAnd | TOr | TNot | Atom(text: string)

  // --- tokenizer ---

  /** End of a literal whose body starts at `i`: a backslash takes the next character with it, unless
      that is a line break. */
  function LiteralEnd(q: string, i: nat, delim: char): (r: Option<nat>)
    requires i <= |q|
    ensures r.Some? ==> i < r.value <= |q|
    decreases |q| - i
  {
    if i == |q| then None
    else if q[i] == delim then Some(i + 1)
    else if q[i] == '\\' then
      if i + 1 < |q| && q[i + 1] != '\n' then LiteralEnd(q, i + 2, delim) else None
    else LiteralEnd(q, i + 1, delim)
  }

  predicate WordChar(c: char) {
    !IsSpace(c) && c != '(' && c != ')'
  }

  function WordEnd(q: string, i: nat): (r: nat)
    requires i <= |q|
    ensures i <= r <= |q|
    ensures forall k :: i <= k < r ==> WordChar(q[k])
    ensures r < |q| ==> !WordChar(q[r])
    decreases |q| - i
  {
    if i < |q| && WordChar(q[i]) then WordEnd(q, i + 1) else i
  }

  function WordToken(word: string): Token {
    var low := Lower(word);
    if low == "and" then TAnd
    else if low == "or" then TOr
    else if low == "not" then TNot
    else Atom(word)
  }

  function Prepend(ts: seq<Token>, r: Result<seq<Token>>): Result<seq<Token>> {
    match r
    case Ok(rest) => Ok(ts + rest)
    case Err(e) => Err(e)
  }

  /** The token at `i`, which is not blank, and the position after it. */
  function TokenAt(q: string, i: nat): (r: Result<(Token, nat)>)
    requires i < |q| && !IsSpace(q[i])
    ensures r.Ok? ==> i < r.value.1 <= |q|
  {
    if q[i] == '(' then Ok((LParen, i + 1))
    else if q[i] == ')' then Ok((RParen, i + 1))
    else if q[i] == '"' then
      var e := LiteralEnd(q, i + 1, '"');
      if e.Some? then Ok((Atom(q[i..e.value]), e.value)) else Err("unterminated quoted string")
    else if q[i] == '/' then
      var e := LiteralEnd(q, i + 1, '/');
      if e.Some? then Ok((Atom(q[i..e.value]), e.value)) else Err("unterminated regex")
    else
      var e := WordEnd(q, i); Ok((WordToken(q[i..e]), e))
  }

  function TokensFrom(q: string, i: nat): Result<seq<Token>>
    requires i <= |q|
    decreases |q| - i
  {
    if i == |q| then Ok([])
    else if IsSpace(q[i]) then TokensFrom(q, i + 1)
    else
      match TokenAt(q, i)
      case Err(e) => Err(e)
      case Ok((tok, j)) => Prepend([tok], TokensFrom(q, j))
  }

  method Tokenize(q: string) returns (r: Result<seq<Token>>)
    ensures r == TokensFrom(q, 0)
  {
    var tokens: seq<Token> := [];
    var i := 0;
    EmptyPrepend(TokensFrom(q, 0));
    while i < |q|
      invariant i <= |q| && Prepend(tokens, TokensFrom(q, i)) == TokensFrom(q, 0)
    {
      if IsSpace(q[i]) {
        i := i + 1;
        continue;
      }
      match TokenAt(q, i) {
        case Err(e) =>
          return Err(e);
        case Ok((tok, j)) =>
          PrependTwice(tokens, tok, TokensFrom(q, j));
          tokens := tokens + [tok];
          i := j;
      }
    }
    EmptyUnit(tokens);
    return Ok(tokens);
  }

  lemma EmptyPrepend(r: Result<seq<Token>>)
    ensures Prepend([], r) == r
  {
    if r.Ok? { EmptyUnit(r.value); }
  }

  lemma PrependTwice(ts: seq<Token>, tok: Token, r: Result<seq<Token>>)
    ensures Prepend(ts, Prepend([tok], r)) == Prepend(ts + [tok], r)
  {
    if r.Ok? { Assoc(ts, [tok], r.value); }
  }

  // --- atoms ---

  /** `s.replace(ab, r)` for a two-character pattern. */
  function ReplacePair(s: string, a: char, b: char, r: char): string {
    if |s| < 2 then s
    else if s[0] == a && s[1] == b then [r] + ReplacePair(s[2..], a, b, r)
    else [s[0]] + ReplacePair(s[1..], a, b, r)
  }

  predicate Enclosed(text: string, c: char) {
    |text| >= 2 && text[0] == c && text[|text| - 1] == c
  }

  function Inside(text: string): string
    requires |text| >= 2
  {
    text[1..|text| - 1]
  }

  function StripLeft(s: string): string {
    if s != "" && IsSpace(s[0]) then StripLeft(s[1..]) else s
  }

  function StripRight(s: string): string {
    if s != "" && IsSpace(s[|s| - 1]) then StripRight(s[..|s| - 1]) else s
  }

  function Strip(s: string): string {
    StripRight(StripLeft(s))
  }

  function ParseAtom(env: Env, text: string): Result<Node> {
    if Enclosed(text, '/') then
      if env.compiles(Inside(text)) then Ok(RegexMatch(Inside(text))) else Err("bad regex")
    else if Enclosed(text, '"') then
      Ok(TextMatch(ReplacePair(ReplacePair(Inside(text), '\\', '"', '"'), '\\', '\\', '\\')))
    else
      match Find(text, ":")
      case Some(k) =>
        if k > 0 && k + 1 < |text| then ParseField(env, Lower(text[..k]), text[k + 1..]) else Ok(TextMatch(text))
      case None => Ok(TextMatch(text))
  }

  const EQUALS_FIELDS := {"component", "level", "pid", "tid"}
  const CONTAINS_FIELDS := {"session_id", "host", "source_file"}

  function Unquoted(val: string): string {
    if Enclosed(val, '"') then Inside(val) else val
  }

  function ParseField(env: Env, key: string, quoted: string): Result<Node> {
    var val := Unquoted(quoted);
    if key in EQUALS_FIELDS then Ok(FieldEquals(key, val))
    else if key in CONTAINS_FIELDS then Ok(FieldContains(key, val))
    else if key == "contains" then Ok(TextMatch(val))
    else if key == "re" then if env.compiles(val) then Ok(RegexMatch(val)) else Err("bad regex")
    else if key == "time" then ParseTime(env, Strip(val))
    else if key == "event" then if Strip(val) in env.events then Ok(EventMatch(Strip(val))) else Err("unknown event")
    else if key == "err_code" then
      var n := env.parseInt(val);
      if n.Some? then Ok(ErrCodeMatch(n.value)) else Err("err_code expects an integer")
    else if key == "code" then Ok(CodeMatch(Strip(val)))
    else Err("unknown field")
  }

  const SECOND := 1_000_000

  /** START..END in either order, CENTRE and a duration on each side, or the second after a time. */
  function ParseTime(env: Env, val: string): Result<Node> {
    var dots := Find(val, "..");
    if dots.Some? then
      var a, b := env.parseTs(val[..dots.value]), env.parseTs(val[dots.value + 2..]);
      if a.None? || b.None? then Err("bad timestamp")
      else if b.value < a.value then Ok(TimeRange(b.value, a.value))
      else Ok(TimeRange(a.value, b.value))
    else if Find(val, "\U{b1}").Some? then Window(env, val, "\U{b1}")
    else if Find(val, "+-").Some? then Window(env, val, "+-")
    else if Find(val, "+/-").Some? then Window(env, val, "+/-")
    else
      var c := env.parseTs(val);
      if c.None? then Err("bad timestamp")
      else if !env.inRange(c.value + SECOND) then Err("date value out of range")
      else Ok(TimeRange(c.value, c.value + SECOND))
  }

  function Window(env: Env, val: string, sep: string): Result<Node>
    requires Find(val, sep).Some?
  {
    var k := Find(val, sep).value;
    var c, d := env.parseTs(val[..k]), env.parseDuration(val[k + |sep|..]);
    if c.None? then Err("bad timestamp")
    else if d.None? then Err("bad duration")
    else if !env.inRange(c.value - d.value) || !env.inRange(c.value + d.value) then Err("date value out of range")
    else Ok(TimeRange(c.value - d.value, c.value + d.value))
  }

  // --- grammar: what each parsing method returns from position `i` ---

  type Parsed = Result<(Node, nat)>

  function OrAt(env: Env, ts: seq<Token>, i: nat): (r: Parsed)
    requires i <= |ts|
    ensures r.Ok? ==> i < r.value.1 <= |ts|
    decreases |ts| - i, 5
  {
    match AndAt(env, ts, i)
    case Err(e) => Err(e)
    case Ok((n, j)) => OrRest(env, ts, j, [n])
  }

  function OrRest(env: Env, ts: seq<Token>, i: nat, children: seq<Node>): (r: Parsed)
    requires i <= |ts| && children != []
    ensures r.Ok? ==> i <= r.value.1 <= |ts|
    decreases |ts| - i, 4
  {
    if i < |ts| && ts[i].TOr? then
      match AndAt(env, ts, i + 1)
      case Err(e) => Err(e)
      case Ok((n, j)) => OrRest(env, ts, j, children + [n])
    else Ok((if |children| == 1 then children[0] else Or(children), i))
  }

  function AndAt(env: Env, ts: seq<Token>, i: nat): (r: Parsed)
    requires i <= |ts|
    ensures r.Ok? ==> i < r.value.1 <= |ts|
    decreases |ts| - i, 3
  {
    match UnaryAt(env, ts, i)
    case Err(e) => Err(e)
    case Ok((n, j)) => AndRest(env, ts, j, [n])
  }

  /** A token that starts an operand, so that AND may be left out before it. */
  predicate StartsOperand(t: Token) {
    t.Atom? || t.TNot? || t.LParen?
  }

  function AndRest(env: Env, ts: seq<Token>, i: nat, children: seq<Node>): (r: Parsed)
    requires i <= |ts| && children != []
    ensures r.Ok? ==> i <= r.value.1 <= |ts|
    decreases |ts| - i, 3
  {
    if i < |ts| && (ts[i].TAnd? || StartsOperand(ts[i])) then
      match UnaryAt(env, ts, if ts[i].TAnd? then i + 1 else i)
      case Err(e) => Err(e)
      case Ok((n, j)) => AndRest(env, ts, j, children + [n])
    else Ok((if |children| == 1 then children[0] else And(children), i))
  }

  function UnaryAt(env: Env, ts: seq<Token>, i: nat): (r: Parsed)
    requires i <= |ts|
    ensures r.Ok? ==> i < r.value.1 <= |ts|
    decreases |ts| - i, 2
  {
    if i == |ts| then Err("unexpected end of query")
    else if ts[i].TNot? then
      match UnaryAt(env, ts, i + 1)
      case Err(e) => Err(e)
      case Ok((n, j)) => Ok((Not(n), j))
    else AtomAt(env, ts, i)
  }

  function AtomAt(env: Env, ts: seq<Token>, i: nat): (r: Parsed)
    requires i < |ts|
    ensures r.Ok? ==> i < r.value.1 <= |ts|
    decreases |ts| - i, 1
  {
    match ts[i]
    case LParen =>
      (match OrAt(env, ts, i + 1)
       case Err(e) => Err(e)
       case Ok((n, j)) => if j < |ts| && ts[j].RParen? then Ok((n, j + 1)) else Err("missing closing paren"))
    case Atom(text) =>
      (match ParseAtom(env, text)
       case Err(e) => Err(e)
       case Ok(n) => Ok((n, i + 1)))
    case _ => Err("unexpected token")
  }

  function ParseTokens(env: Env, ts: seq<Token>): Result<Node> {
    match OrAt(env, ts, 0)
    case Err(e) => Err(e)
    case Ok((n, j)) => if j == |ts| then Ok(n) else Err("unexpected trailing token")
  }

  function ParseQuery(env: Env, q: string): Result<Node> {
    if Strip(q) == "" then Err("empty query")
    else
      match TokensFrom(q, 0)
      case Err(e) => Err(e)
      case Ok(ts) => if ts == [] then Err("empty query") else ParseTokens(env, ts)
  }

  /** The recursive-descent parser: `pos` moves over `tokens`. */
  class Parser {
    const env: Env
    const tokens: seq<Token>
    var pos: nat

    constructor (env: Env, tokens: seq<Token>)
      ensures this.env == env && this.tokens == tokens && pos == 0
    {
      this.env, this.tokens, pos := env, tokens, 0;
    }

    /** The outcome of a parsing method, told from what it returned and where it left `pos`. */
    ghost predicate Outcome(r: Result<Node>, spec: Parsed)
      reads this
    {
      && pos <= |tokens|
      && match spec
         case Err(e) => r == Err(e)
         case Ok((n, j)) => r == Ok(n) && pos == j
    }

    method Parse() returns (r: Result<Node>)
      requires pos == 0
      modifies this`pos
      ensures r == ParseTokens(env, tokens)
    {
      r := ParseOr();
      if r.Ok? && pos != |tokens| {
        r := Err("unexpected trailing token");
      }
    }

    method ParseOr() returns (r: Result<Node>)
      requires pos <= |tokens|
      modifies this`pos
      ensures Outcome(r, OrAt(env, tokens, old(pos)))
      decreases |tokens| - pos, 5
    {
      hide AndAt;
      var left := ParseAnd();
      if left.Err? {
        return left;
      }
      var children := [left.value];
      while pos < |tokens| && tokens[pos].TOr?
        invariant old(pos) < pos <= |tokens| && children != []
        invariant OrRest(env, tokens, pos, children) == OrAt(env, tokens, old(pos))
        decreases |tokens| - pos
      {
        pos := pos + 1;
        var next := ParseAnd();
        if next.Err? {
          return next;
        }
        children := children + [next.value];
      }
      return Ok(if |children| == 1 then children[0] else Or(children));
    }

    method ParseAnd() returns (r: Result<Node>)
      requires pos <= |tokens|
      modifies this`pos
      ensures Outcome(r, AndAt(env, tokens, old(pos)))
      decreases |tokens| - pos, 3
    {
      hide UnaryAt;
      var left := ParseUnary();
      if left.Err? {
        return left;
      }
      var children := [left.value];
      while pos < |tokens| && (tokens[pos].TAnd? || StartsOperand(tokens[pos]))
        invariant old(pos) < pos <= |tokens| && children != []
        invariant AndRest(env, tokens, pos, children) == AndAt(env, tokens, old(pos))
        decreases |tokens| - pos
      {
        if tokens[pos].TAnd? {
          pos := pos + 1;
        }
        var next := ParseUnary();
        if next.Err? {
          return next;
        }
        children := children + [next.value];
      }
      return Ok(if |children| == 1 then children[0] else And(children));
    }

    method ParseUnary() returns (r: Result<Node>)
      requires pos <= |tokens|
      modifies this`pos
      ensures Outcome(r, UnaryAt(env, tokens, old(pos)))
      decreases |tokens| - pos, 2
    {
      hide AtomAt;
      if pos == |tokens| {
        return Err("unexpected end of query");
      }
      if tokens[pos].TNot? {
        pos := pos + 1;
        var operand := ParseUnary();
        return if operand.Ok? then Ok(Not(operand.value)) else operand;
      }
      r := ParseAtomToken();
    }

    method ParseAtomToken() returns (r: Result<Node>)
      requires pos < |tokens|
      modifies this`pos
      ensures Outcome(r, AtomAt(env, tokens, old(pos)))
      decreases |tokens| - pos, 1
    {
      hide OrAt, ParseAtom;
      match tokens[pos] {
        case LParen =>
          pos := pos + 1;
          r := ParseOr();
          if r.Ok? {
            if pos == |tokens| || !tokens[pos].RParen? {
              return Err("missing closing paren");
            }
            pos := pos + 1;
          }
        case Atom(text) =>
          pos := pos + 1;
          r := ParseAtom(env, text);
        case _ =>
          r := Err("unexpected token");
      }
    }
  }

  method Parse(env: Env, q: string) returns (r: Result<Node>)
    ensures r == ParseQuery(env, q)
  {
    hide TokensFrom, ParseTokens;
    if Strip(q) == "" {
      return Err("empty query");
    }
    var tokens := Tokenize(q);
    match tokens {
      case Err(e) =>
        return Err(e);
      case Ok(ts) =>
        if ts == [] {
          return Err("empty query");
        }
        var parser := new Parser(env, ts);
        r := parser.Parse();
    }
  }

  // --- evaluation ---

  datatype Line = Line(ts: int, body: string, fields: map<string, string>)

  predicate Matches(env: Env, n: Node, line: Line)
    decreases n
  {
    match n
    case And(cs) => forall k :: 0 <= k < |cs| ==> Matches(env, cs[k], line)
    case Or(cs) => exists k :: 0 <= k < |cs| && Matches(env, cs[k], line)
    case Not(c) => !Matches(env, c, line)
    case TextMatch(s) => Contains(Lower(line.body), Lower(s))
    case FieldEquals(f, v) => f in line.fields && Lower(line.fields[f]) == Lower(v)
    case FieldContains(f, v) => f in line.fields && Contains(Lower(line.fields[f]), Lower(v))
    case TimeRange(a, b) => a <= line.ts <= b
    case _ => env.search(n, line.body)
  }

  function Hits(env: Env, n: Node, lines: seq<Line>): seq<Line> {
    if lines == [] then []
    else (if Matches(env, n, lines[0]) then [lines[0]] else []) + Hits(env, n, lines[1..])
  }

  /** The limit is tested after a line is given out, so a limit below one still gives one line. */
  function Limited(hits: seq<Line>, limit: Option<int>): seq<Line> {
    match limit
    case None => hits
    case Some(k) =>
      var m := if k < 1 then 1 else k;
      if |hits| <= m then hits else hits[..m]
  }

  /** The lines `find_matches` yields, in order. */
  method FindMatches(env: Env, lines: seq<Line>, q: string, limit: Option<int>) returns (r: Result<seq<Line>>)
    ensures ParseQuery(env, q).Err? ==> r == Err(ParseQuery(env, q).error)
    ensures ParseQuery(env, q).Ok? ==> r == Ok(Limited(Hits(env, ParseQuery(env, q).value, lines), limit))
  {
    hide ParseQuery, Matches, Limited;
    var node := Parse(env, q);
    if node.Err? {
      return Err(node.error);
    }
    var out: seq<Line> := [];
    ghost var all := Hits(env, node.value, lines);
    EmptyUnit(all);
    for i := 0 to |lines|
      invariant out + Hits(env, node.value, lines[i..]) == all
      invariant limit.Some? ==> out == [] || |out| < limit.value
    {
      ghost var rest := Hits(env, node.value, lines[i + 1..]);
      assert lines[i..][0] == lines[i] && lines[i..][1..] == lines[i + 1..];
      if Matches(env, node.value, lines[i]) {
        Assoc(out, [lines[i]], rest);
        out := out + [lines[i]];
        if limit.Some? && |out| >= limit.value {
          LimitReached(out, rest, limit.value);
          return Ok(out);
        }
      } else {
        EmptyUnit(rest);
      }
    }
    assert lines[|lines|..] == [];
    EmptyUnit(out);
    LimitNotReached(out, limit);
    return Ok(out);
  }

  /** A limit is kept if and only if it is one or more, or nothing matches; a limit below one gives the first
      matching line. */
  lemma LimitKept(env: Env, n: Node, lines: seq<Line>, limit: int)
    ensures var hits := Hits(env, n, lines);
            var found := Limited(hits, Some(limit));
            && (|found| <= (if limit < 0 then 0 else limit) <==> limit >= 1 || hits == [])
            && (limit < 1 && hits != [] ==> found == [hits[0]])
  {
    hide Hits;
    var hits := Hits(env, n, lines);
    if limit < 1 && hits != [] { assert hits[..1] == [hits[0]]; }
  }

  /** The limit zero, on one line that matches. */
  lemma ZeroGivesOne(env: Env, ts: int)
    ensures var line := Line(ts, "a", map[]);
            Limited(Hits(env, TextMatch("a"), [line]), Some(0)) == [line]
  {
    hide Limited;
    var line := Line(ts, "a", map[]);
    assert Lower("a") == "a" && At("a", 0, "a") && Contains("a", "a");
    assert [line][1..] == [] && Hits(env, TextMatch("a"), [line]) == [line];
    LimitKept(env, TextMatch("a"), [line], 0);
  }

  lemma LimitReached(out: seq<Line>, rest: seq<Line>, limit: int)
    requires out != [] && (|out| == 1 || |out| - 1 < limit) && limit <= |out|
    ensures Limited(out + rest, Some(limit)) == out
  {
    assert (out + rest)[..|out|] == out;
  }

  lemma LimitNotReached(out: seq<Line>, limit: Option<int>)
    requires limit.Some? ==> out == [] || |out| < limit.value
    ensures Limited(out, limit) == out
  {
  }
}
