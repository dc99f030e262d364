/** The parser inverts a printer down to characters, every parsed query can be printed, and an AND
    between two operands may be left out. */
module QueryTheorems {
  import opened Text
  import opened Query

  /** How time stamps and integers are written. */
  datatype Show = Show(ts: int -> string, num: int -> string)

  predicate Plain(s: string) {
    forall k :: 0 <= k < |s| ==> WordChar(s[k])
  }

  /** The time is read back as written, and what is written has neither blanks nor parentheses nor
      points. */
  predicate WritesTime(env: Env, show: Show, t: int) {
    env.parseTs(show.ts(t)) == Some(t) && Plain(show.ts(t)) && '.' !in show.ts(t)
  }

  predicate WritesNumber(env: Env, show: Show, n: int) {
    env.parseInt(show.num(n)) == Some(n) && Plain(show.num(n))
  }

  // --- printing ---

  function EscapeChar(c: char): string {
    if c == '"' || c == '\\' then ['\\', c] else [c]
  }

  function Escape(s: string): string {
    if s == "" then "" else EscapeChar(s[0]) + Escape(s[1..])
  }

  function InQuotes(s: string): string {
    "\"" + (s + "\"")
  }

  /** The text between slashes is one regex token. */
  predicate SlashBody(p: string) {
    LiteralEnd("/" + (p + "/"), 1, '/') == Some(|p| + 2)
  }

  function Field(key: string, value: string): string {
    key + (":" + InQuotes(value))
  }

  function LeafText(show: Show, n: Node): string {
    match n
    case TextMatch(s) => InQuotes(Escape(s))
    case RegexMatch(p) => if SlashBody(p) then "/" + (p + "/") else Field("re", p)
    case FieldEquals(f, v) => Field(f, v)
    case FieldContains(f, v) => Field(f, v)
    case TimeRange(a, b) => Field("time", show.ts(a) + (".." + show.ts(b)))
    case ErrCodeMatch(k) => Field("err_code", show.num(k))
    case CodeMatch(c) => Field("code", c)
    case EventMatch(e) => Field("event", e)
    case _ => ""
  }

  /** Tokens of a node that stands as a whole query, as an operand of OR, of AND, or of NOT. */
  function OrToks(show: Show, n: Node): seq<Token>
    decreases n, 3
  {
    if n.Or? && n.children != [] then OrList(show, n.children) else AndToks(show, n)
  }

  function AndToks(show: Show, n: Node): seq<Token>
    decreases n, 2
  {
    if n.And? && n.children != [] then AndList(show, n.children) else UnaryToks(show, n)
  }

  function UnaryToks(show: Show, n: Node): seq<Token>
    decreases n, 1
  {
    match n
    case Or(cs) => if cs == [] then [] else [LParen] + (OrList(show, cs) + [RParen])
    case And(cs) => if cs == [] then [] else [LParen] + (AndList(show, cs) + [RParen])
    case Not(c) => [TNot] + UnaryToks(show, c)
    case _ => [Atom(LeafText(show, n))]
  }

  function OrList(show: Show, cs: seq<Node>): seq<Token>
    requires cs != []
    decreases cs
  {
    AndToks(show, cs[0]) + OrTail(show, cs[1..])
  }

  function OrTail(show: Show, cs: seq<Node>): seq<Token>
    decreases cs
  {
    if cs == [] then [] else [TOr] + (AndToks(show, cs[0]) + OrTail(show, cs[1..]))
  }

  function AndList(show: Show, cs: seq<Node>): seq<Token>
    requires cs != []
    decreases cs
  {
    UnaryToks(show, cs[0]) + AndTail(show, cs[1..])
  }

  function AndTail(show: Show, cs: seq<Node>): seq<Token>
    decreases cs
  {
    if cs == [] then [] else [TAnd] + (UnaryToks(show, cs[0]) + AndTail(show, cs[1..]))
  }

  function TokText(t: Token): string {
    match t
    case LParen => "("
    case RParen => ")"
    case TAnd => "AND"
    case TOr => "OR"
    case TNot => "NOT"
    case Atom(text) => text
  }

  function Spell(ts: seq<Token>): string {
    if ts == [] then "" else TokText(ts[0]) + (" " + Spell(ts[1..]))
  }

  function Print(show: Show, n: Node): string {
    Spell(OrToks(show, n))
  }

  /** The trees the printer can write: every And and Or has at least two children, what stands in a field
      has neither blanks nor parentheses, and its times and numbers can be written. */
  predicate Printable(env: Env, show: Show, n: Node)
    decreases n
  {
    match n
    case And(cs) => |cs| >= 2 && forall k :: 0 <= k < |cs| ==> Printable(env, show, cs[k])
    case Or(cs) => |cs| >= 2 && forall k :: 0 <= k < |cs| ==> Printable(env, show, cs[k])
    case Not(c) => Printable(env, show, c)
    case TextMatch(_) => true
    case RegexMatch(p) => env.compiles(p) && (SlashBody(p) || Plain(p))
    case FieldEquals(f, v) => f in EQUALS_FIELDS && Plain(v)
    case FieldContains(f, v) => f in CONTAINS_FIELDS && Plain(v)
    case TimeRange(a, b) => a <= b && WritesTime(env, show, a) && WritesTime(env, show, b)
    case ErrCodeMatch(k) => WritesNumber(env, show, k)
    case CodeMatch(c) => Plain(c)
    case EventMatch(e) => e in env.events && Plain(e)
  }

  // --- atoms ---

  lemma {:induction false} EscapeStart(s: string)
    ensures Escape(s) != "" ==> Escape(s)[0] != '"'
  {
  }

  function DoubleChar(c: char): string {
    if c == '\\' then ['\\', c] else [c]
  }

  function DoubleSlashes(s: string): string {
    if s == "" then "" else DoubleChar(s[0]) + DoubleSlashes(s[1..])
  }

  lemma Replaced(c: char, rest: string)
    ensures ReplacePair([c] + rest, '\\', '"', '"') ==
            if c == '\\' && rest != "" && rest[0] == '"' then ['"'] + ReplacePair(rest[1..], '\\', '"', '"')
            else [c] + ReplacePair(rest, '\\', '"', '"')
  {
    assert ([c] + rest)[1..] == rest;
    if rest != "" { assert ([c] + rest)[2..] == rest[1..]; }
  }

  lemma UnescapeChar(c: char, rest: string)
    requires rest != "" ==> rest[0] != '"'
    ensures ReplacePair(EscapeChar(c) + rest, '\\', '"', '"') == DoubleChar(c) + ReplacePair(rest, '\\', '"', '"')
  {
    hide ReplacePair;
    Replaced(c, rest);
    if c == '"' || c == '\\' {
      var tail := [c] + rest;
      Replaced('\\', tail);
      assert EscapeChar(c) + rest == ['\\'] + tail && tail[1..] == rest;
    }
  }

  lemma {:induction false} UnescapeQuotes(s: string)
    ensures ReplacePair(Escape(s), '\\', '"', '"') == DoubleSlashes(s)
    decreases |s|
  {
    hide ReplacePair, EscapeChar, DoubleChar;
    if s == "" {
      NothingReplaced();
    } else {
      UnescapeQuotes(s[1..]);
      EscapeStart(s[1..]);
      UnescapeChar(s[0], Escape(s[1..]));
    }
  }

  lemma NothingReplaced()
    ensures ReplacePair("", '\\', '"', '"') == ""
  {
  }

  lemma {:induction false} HalveSlashes(s: string)
    ensures ReplacePair(DoubleSlashes(s), '\\', '\\', '\\') == s
    decreases |s|
  {
    if s != "" {
      HalveSlashes(s[1..]);
      if s[0] == '\\' {
        assert DoubleSlashes(s)[2..] == DoubleSlashes(s[1..]);
      } else {
        assert DoubleSlashes(s)[1..] == DoubleSlashes(s[1..]);
      }
    }
  }

  /** Any text at all survives quoting. */
  lemma QuotedTextBack(env: Env, s: string)
    ensures ParseAtom(env, InQuotes(Escape(s))) == Ok(TextMatch(s))
  {
    var text := InQuotes(Escape(s));
    assert Inside(text) == Escape(s);
    UnescapeQuotes(s);
    HalveSlashes(s);
  }

  lemma {:induction false} FindFirst(a: string, c: char, sub: string, b: string)
    requires sub != "" && sub[0] == c && c !in a
    ensures Find(a + (sub + b), sub) == Some(|a|)
    decreases |a|
  {
    var s := a + (sub + b);
    if a == "" {
      assert s[..|sub|] == sub;
    } else {
      assert s[..|sub|][0] == a[0] != c;
      assert s[1..] == a[1..] + (sub + b);
      FindFirst(a[1..], c, sub, b);
    }
  }

  lemma {:induction false} PlainStrip(s: string)
    requires Plain(s)
    ensures Strip(s) == s
  {
  }

  const FIELD_KEYS := EQUALS_FIELDS + CONTAINS_FIELDS + {"re", "time", "err_code", "code", "event"}

  predicate LowerWord(s: string) {
    s != "" && forall k :: 0 <= k < |s| ==> 'a' <= s[k] <= 'z' || s[k] == '_'
  }

  lemma KeysAreWords(key: string)
    requires key in FIELD_KEYS
    ensures LowerWord(key)
  {
  }

  lemma FieldKeys(key: string)
    requires key in FIELD_KEYS
    ensures key != "" && ':' !in key && Lower(key) == key && Plain(key) && key[0] != '"' && key[0] != '/'
  {
    KeysAreWords(key);
  }

  lemma FieldBack(env: Env, key: string, value: string)
    requires key in FIELD_KEYS
    ensures ParseAtom(env, Field(key, value)) == ParseField(env, key, InQuotes(value))
    ensures Unquoted(InQuotes(value)) == value
  {
    hide Find, ParseField;
    var text := Field(key, value);
    FieldKeys(key);
    FindFirst(key, ':', ":", InQuotes(value));
    assert text[0] == key[0];
    assert text[..|key|] == key && text[|key| + 1..] == InQuotes(value);
  }

  lemma TimeBack(env: Env, show: Show, a: int, b: int)
    requires a <= b && WritesTime(env, show, a) && WritesTime(env, show, b)
    ensures var val := show.ts(a) + (".." + show.ts(b));
            Plain(val) && ParseTime(env, val) == Ok(TimeRange(a, b))
  {
    hide Find;
    var val := show.ts(a) + (".." + show.ts(b));
    FindFirst(show.ts(a), '.', "..", show.ts(b));
    assert val[..|show.ts(a)|] == show.ts(a) && val[|show.ts(a)| + 2..] == show.ts(b);
  }

  predicate Leaf(n: Node) {
    !n.And? && !n.Or? && !n.Not?
  }

  lemma LeafBack(env: Env, show: Show, n: Node)
    requires Leaf(n) && Printable(env, show, n)
    ensures ParseAtom(env, LeafText(show, n)) == Ok(n)
  {
    hide ParseAtom, SlashBody, ParseTime, Plain, Field, InQuotes, Strip;
    match n
    case TextMatch(s) => QuotedTextBack(env, s);
    case RegexMatch(p) =>
      SlashesBack(env, p);
      FieldBack(env, "re", p);
    case FieldEquals(f, v) => FieldBack(env, f, v);
    case FieldContains(f, v) => FieldBack(env, f, v);
    case TimeRange(a, b) =>
      TimeLeafBack(env, show, a, b);
    case ErrCodeMatch(k) =>
      FieldBack(env, "err_code", show.num(k));
    case CodeMatch(c) =>
      PlainStrip(c);
      FieldBack(env, "code", c);
    case EventMatch(e) =>
      PlainStrip(e);
      FieldBack(env, "event", e);
  }

  lemma TimeLeafBack(env: Env, show: Show, a: int, b: int)
    requires Printable(env, show, TimeRange(a, b))
    ensures ParseAtom(env, LeafText(show, TimeRange(a, b))) == Ok(TimeRange(a, b))
  {
    hide ParseAtom, ParseTime, Plain, Field, InQuotes, Strip;
    var val := show.ts(a) + (".." + show.ts(b));
    TimeBack(env, show, a, b);
    PlainStrip(val);
    FieldBack(env, "time", val);
  }

  lemma SlashesBack(env: Env, p: string)
    ensures env.compiles(p) ==> ParseAtom(env, "/" + (p + "/")) == Ok(RegexMatch(p))
  {
    assert Inside("/" + (p + "/")) == p;
  }

  // --- tokens ---

  /** What may follow a node printed as an operand of AND, as one of OR, as a whole. */
  predicate EndsAnd(ts: seq<Token>, i: nat) {
    i >= |ts| || ts[i].TOr? || ts[i].RParen?
  }

  predicate EndsOr(ts: seq<Token>, i: nat) {
    i >= |ts| || ts[i].RParen?
  }

  lemma {:induction false} UnaryBack(env: Env, show: Show, ts: seq<Token>, i: nat, n: Node)
    requires Printable(env, show, n) && At(ts, i, UnaryToks(show, n))
    ensures UnaryAt(env, ts, i) == Ok((n, i + |UnaryToks(show, n)|))
    decreases n, 1
  {
    hide At, OrAt, AtomAt, AndAt, ParseAtom, LeafText, OrList, AndList;
    match n
    case Not(c) =>
      AtSplit(ts, i, [TNot], UnaryToks(show, c));
      FirstAt(ts, i, [TNot]);
      UnaryBack(env, show, ts, i + 1, c);
    case Or(cs) =>
      ParenAt(ts, i, OrList(show, cs));
      OrListBack(env, show, ts, i + 1, cs);
      ParenBack(env, ts, i, n, i + 1 + |OrList(show, cs)|);
    case And(cs) =>
      ParenAt(ts, i, AndList(show, cs));
      AndListBack(env, show, ts, i + 1, cs);
      AndAsOr(env, ts, i + 1, n, i + 1 + |AndList(show, cs)|);
      ParenBack(env, ts, i, n, i + 1 + |AndList(show, cs)|);
    case _ =>
      LeafBack(env, show, n);
      FirstAt(ts, i, [Atom(LeafText(show, n))]);
      AtomBack(env, ts, i, n);
  }

  lemma ParenAt(ts: seq<Token>, i: nat, inner: seq<Token>)
    requires At(ts, i, [LParen] + (inner + [RParen]))
    ensures var j := i + 1 + |inner|;
            i < j < |ts| && ts[i].LParen? && At(ts, i + 1, inner) && ts[j].RParen?
  {
    hide At;
    AtSplit(ts, i, [LParen], inner + [RParen]);
    AtSplit(ts, i + 1, inner, [RParen]);
    FirstAt(ts, i, [LParen]);
    FirstAt(ts, i + 1 + |inner|, [RParen]);
  }

  lemma ParenBack(env: Env, ts: seq<Token>, i: nat, n: Node, j: nat)
    requires i < j < |ts| && ts[i].LParen? && ts[j].RParen? && OrAt(env, ts, i + 1) == Ok((n, j))
    ensures UnaryAt(env, ts, i) == Ok((n, j + 1))
  {
    hide OrAt;
  }

  lemma AtomBack(env: Env, ts: seq<Token>, i: nat, n: Node)
    requires i < |ts| && ts[i].Atom? && ParseAtom(env, ts[i].text) == Ok(n)
    ensures UnaryAt(env, ts, i) == Ok((n, i + 1))
  {
    hide ParseAtom, OrAt;
  }

  /** Where no OR follows, a conjunction is the whole disjunction. */
  lemma AndAsOr(env: Env, ts: seq<Token>, i: nat, n: Node, j: nat)
    requires i <= |ts| && j <= |ts| && AndAt(env, ts, i) == Ok((n, j)) && EndsOr(ts, j)
    ensures OrAt(env, ts, i) == Ok((n, j))
  {
    hide AndAt;
  }

  lemma UnaryAsAnd(env: Env, ts: seq<Token>, i: nat, n: Node, j: nat)
    requires i <= |ts| && j <= |ts| && UnaryAt(env, ts, i) == Ok((n, j)) && EndsAnd(ts, j)
    ensures AndAt(env, ts, i) == Ok((n, j))
  {
    hide UnaryAt;
  }

  lemma {:induction false} AndBack(env: Env, show: Show, ts: seq<Token>, i: nat, n: Node)
    requires Printable(env, show, n) && At(ts, i, AndToks(show, n)) && EndsAnd(ts, i + |AndToks(show, n)|)
    ensures AndAt(env, ts, i) == Ok((n, i + |AndToks(show, n)|))
    decreases n, 2
  {
    hide UnaryAt, AndAt, UnaryToks, AndList;
    if n.And? {
      AndListBack(env, show, ts, i, n.children);
    } else {
      UnaryBack(env, show, ts, i, n);
      UnaryAsAnd(env, ts, i, n, i + |UnaryToks(show, n)|);
    }
  }

  lemma {:induction false} AndListBack(env: Env, show: Show, ts: seq<Token>, i: nat, cs: seq<Node>)
    requires |cs| >= 2 && (forall k :: 0 <= k < |cs| ==> Printable(env, show, cs[k]))
    requires At(ts, i, AndList(show, cs)) && EndsAnd(ts, i + |AndList(show, cs)|)
    ensures AndAt(env, ts, i) == Ok((And(cs), i + |AndList(show, cs)|))
    decreases cs, 0
  {
    hide At, UnaryAt, AndRest, UnaryToks, AndTail, EndsAnd, Printable;
    var j := i + |UnaryToks(show, cs[0])|;
    AtSplit(ts, i, UnaryToks(show, cs[0]), AndTail(show, cs[1..]));
    UnaryBack(env, show, ts, i, cs[0]);
    assert [cs[0]] + cs[1..] == cs;
    AndTailBack(env, show, ts, j, [cs[0]], cs[1..]);
  }

  lemma {:induction false} AndTailBack(env: Env, show: Show, ts: seq<Token>, i: nat, done: seq<Node>, cs: seq<Node>)
    requires (forall k :: 0 <= k < |cs| ==> Printable(env, show, cs[k])) && done != [] && |done| + |cs| >= 2
    requires At(ts, i, AndTail(show, cs)) && EndsAnd(ts, i + |AndTail(show, cs)|) && i <= |ts|
    ensures AndRest(env, ts, i, done) == Ok((And(done + cs), i + |AndTail(show, cs)|))
    decreases cs, 0
  {
    hide At, UnaryAt, UnaryToks, Printable;
    if cs == [] {
      EmptyUnit(done);
    } else {
      var rest := UnaryToks(show, cs[0]) + AndTail(show, cs[1..]);
      AtSplit(ts, i, [TAnd], rest);
      FirstAt(ts, i, [TAnd]);
      AtSplit(ts, i + 1, UnaryToks(show, cs[0]), AndTail(show, cs[1..]));
      UnaryBack(env, show, ts, i + 1, cs[0]);
      AndTailBack(env, show, ts, i + 1 + |UnaryToks(show, cs[0])|, done + [cs[0]], cs[1..]);
      Assoc(done, [cs[0]], cs[1..]);
      assert [cs[0]] + cs[1..] == cs;
    }
  }

  lemma {:induction false} OrListBack(env: Env, show: Show, ts: seq<Token>, i: nat, cs: seq<Node>)
    requires |cs| >= 2 && (forall k :: 0 <= k < |cs| ==> Printable(env, show, cs[k]))
    requires At(ts, i, OrList(show, cs)) && EndsOr(ts, i + |OrList(show, cs)|)
    ensures OrAt(env, ts, i) == Ok((Or(cs), i + |OrList(show, cs)|))
    decreases cs, 0
  {
    hide At, AndAt, OrRest, AndToks, OrTail, EndsOr, EndsAnd, Printable;
    var j := i + |AndToks(show, cs[0])|;
    AtSplit(ts, i, AndToks(show, cs[0]), OrTail(show, cs[1..]));
    OrTailStart(show, ts, j, cs[1..]);
    AndBack(env, show, ts, i, cs[0]);
    assert [cs[0]] + cs[1..] == cs;
    OrTailBack(env, show, ts, j, [cs[0]], cs[1..]);
  }

  lemma OrTailStart(show: Show, ts: seq<Token>, j: nat, cs: seq<Node>)
    requires At(ts, j, OrTail(show, cs)) && EndsOr(ts, j + |OrTail(show, cs)|)
    ensures EndsAnd(ts, j)
  {
    hide At;
    if cs != [] {
      AtSplit(ts, j, [TOr], AndToks(show, cs[0]) + OrTail(show, cs[1..]));
      FirstAt(ts, j, [TOr]);
    }
  }

  lemma {:induction false} OrTailBack(env: Env, show: Show, ts: seq<Token>, i: nat, done: seq<Node>, cs: seq<Node>)
    requires (forall k :: 0 <= k < |cs| ==> Printable(env, show, cs[k])) && done != [] && |done| + |cs| >= 2
    requires At(ts, i, OrTail(show, cs)) && EndsOr(ts, i + |OrTail(show, cs)|) && i <= |ts|
    ensures OrRest(env, ts, i, done) == Ok((Or(done + cs), i + |OrTail(show, cs)|))
    decreases cs, 0
  {
    hide At, AndAt, AndToks, Printable, EndsAnd;
    if cs == [] {
      EmptyUnit(done);
    } else {
      var rest := AndToks(show, cs[0]) + OrTail(show, cs[1..]);
      AtSplit(ts, i, [TOr], rest);
      FirstAt(ts, i, [TOr]);
      AtSplit(ts, i + 1, AndToks(show, cs[0]), OrTail(show, cs[1..]));
      var j := i + 1 + |AndToks(show, cs[0])|;
      OrTailStart(show, ts, j, cs[1..]);
      AndBack(env, show, ts, i + 1, cs[0]);
      OrTailBack(env, show, ts, j, done + [cs[0]], cs[1..]);
      Assoc(done, [cs[0]], cs[1..]);
      assert [cs[0]] + cs[1..] == cs;
    }
  }

  /** Parsing the tokens of a printed tree gives the tree back. */
  lemma TokensBack(env: Env, show: Show, n: Node)
    requires Printable(env, show, n)
    ensures ParseTokens(env, OrToks(show, n)) == Ok(n)
  {
    hide At, OrAt, AndAt, AndToks, OrList;
    var ts := OrToks(show, n);
    assert At(ts, 0, ts) by { WholeAt(ts); }
    if n.Or? {
      OrListBack(env, show, ts, 0, n.children);
    } else {
      AndBack(env, show, ts, 0, n);
      AndAsOr(env, ts, 0, n, |ts|);
    }
  }

  lemma WholeAt<T>(s: seq<T>)
    ensures At(s, 0, s)
  {
  }

  // --- characters ---

  /** An atom whose text is one token: a literal in quotes or slashes, or a word that is no keyword. */
  predicate Spellable(t: Token) {
    t.Atom? ==>
      && t.text != ""
      && (|| (t.text[0] == '"' && LiteralEnd(t.text, 1, '"') == Some(|t.text|))
          || (t.text[0] == '/' && LiteralEnd(t.text, 1, '/') == Some(|t.text|))
          || (t.text[0] != '"' && t.text[0] != '/' && Plain(t.text) && WordToken(t.text) == t))
  }

  predicate AllSpellable(ts: seq<Token>) {
    forall k :: 0 <= k < |ts| ==> Spellable(ts[k])
  }

  lemma {:induction false} LiteralMoves(q: string, i: nat, s: string, k: nat, delim: char)
    requires k <= |s| && At(q, i, s) && LiteralEnd(s, k, delim) == Some(|s|)
    ensures LiteralEnd(q, i + k, delim) == Some(i + |s|)
    decreases |s| - k
  {
    assert q[i..i + |s|] == s;
    assert q[i + k] == s[k];
    if s[k] == delim {
    } else if s[k] == '\\' {
      assert q[i + k + 1] == s[k + 1];
      LiteralMoves(q, i, s, k + 2, delim);
    } else {
      LiteralMoves(q, i, s, k + 1, delim);
    }
  }

  lemma {:induction false} WordMoves(q: string, i: nat, w: string)
    requires At(q, i, w) && Plain(w) && i + |w| < |q| && q[i + |w|] == ' '
    ensures WordEnd(q, i) == i + |w|
    decreases |w|
  {
    if w != "" {
      assert w == w[..1] + w[1..];
      AtSplit(q, i, w[..1], w[1..]);
      FirstAt(q, i, w);
      WordMoves(q, i + 1, w[1..]);
    }
  }

  lemma SpelledToken(q: string, i: nat, t: Token)
    requires Spellable(t) && At(q, i, TokText(t)) && i + |TokText(t)| < |q| && q[i + |TokText(t)|] == ' '
    ensures i < |q| && !IsSpace(q[i]) && TokenAt(q, i) == Ok((t, i + |TokText(t)|))
  {
    hide LiteralEnd, WordEnd;
    var w := TokText(t);
    FirstAt(q, i, w);
    assert q[i..i + |w|] == w;
    if t.Atom? && w[0] == '"' && LiteralEnd(w, 1, '"') == Some(|w|) {
      LiteralMoves(q, i, w, 1, '"');
    } else if t.Atom? && w[0] == '/' && LiteralEnd(w, 1, '/') == Some(|w|) {
      LiteralMoves(q, i, w, 1, '/');
    } else if !t.LParen? && !t.RParen? {
      KeywordTokens();
      WordMoves(q, i, w);
    }
  }

  lemma KeywordTokens()
    ensures WordToken("AND") == TAnd && WordToken("OR") == TOr && WordToken("NOT") == TNot
    ensures Plain("AND") && Plain("OR") && Plain("NOT")
  {
    assert Lower("AND") == "and";
    assert Lower("OR") == "or";
    assert Lower("NOT") == "not";
  }

  /** Tokens written one after the other, each with a blank behind it, are read back. */
  lemma {:induction false} SpellBack(q: string, i: nat, ts: seq<Token>)
    requires AllSpellable(ts) && At(q, i, Spell(ts)) && i + |Spell(ts)| == |q|
    ensures TokensFrom(q, i) == Ok(ts)
    decreases |ts|
  {
    hide At, TokenAt, Spellable, TokText;
    if ts != [] {
      var w := TokText(ts[0]);
      AtSplit(q, i, w, " " + Spell(ts[1..]));
      AtSplit(q, i + |w|, " ", Spell(ts[1..]));
      FirstAt(q, i + |w|, " ");
      SpelledToken(q, i, ts[0]);
      SpellBack(q, i + |w| + 1, ts[1..]);
      BlankSkipped(q, i + |w|);
      assert [ts[0]] + ts[1..] == ts;
    }
  }

  lemma BlankSkipped(q: string, i: nat)
    requires i < |q| && q[i] == ' '
    ensures TokensFrom(q, i) == TokensFrom(q, i + 1)
  {
  }

  lemma {:induction false} EscapedLiteral(q: string, i: nat, s: string)
    requires At(q, i, Escape(s) + "\"")
    ensures LiteralEnd(q, i, '"') == Some(i + |Escape(s)| + 1)
    decreases |s|
  {
    if s == "" {
      FirstAt(q, i, "\"");
    } else {
      var a := EscapeChar(s[0]);
      assert Escape(s) + "\"" == a + (Escape(s[1..]) + "\"");
      AtSplit(q, i, a, Escape(s[1..]) + "\"");
      assert q[i..i + |a|] == a;
      assert q[i] == a[0] && (|a| == 2 ==> q[i + 1] == a[1]);
      EscapedLiteral(q, i + |a|, s[1..]);
    }
  }

  lemma FieldSpellable(key: string, value: string)
    requires key in FIELD_KEYS && Plain(value)
    ensures Spellable(Atom(Field(key, value)))
  {
    var text := Field(key, value);
    FieldKeys(key);
    assert text[0] == key[0];
    assert text[|key|] == ':';
    assert Lower(text)[|key|] == ':';
    assert Plain(InQuotes(value));
    assert WordToken(text) == Atom(text) by {
      assert ':' !in "and" && ':' !in "or" && ':' !in "not";
    }
  }

  lemma LeafSpellable(env: Env, show: Show, n: Node)
    requires Leaf(n) && Printable(env, show, n)
    ensures Spellable(Atom(LeafText(show, n)))
  {
    hide Spellable, Field, ParseTime;
    match n
    case TextMatch(s) => QuotedSpellable(s);
    case RegexMatch(p) =>
      if SlashBody(p) {
        SlashesSpellable(p);
      } else {
        FieldSpellable("re", p);
      }
    case FieldEquals(f, v) => FieldSpellable(f, v);
    case FieldContains(f, v) => FieldSpellable(f, v);
    case TimeRange(a, b) =>
      TimeBack(env, show, a, b);
      FieldSpellable("time", show.ts(a) + (".." + show.ts(b)));
    case ErrCodeMatch(k) =>
      FieldSpellable("err_code", show.num(k));
    case CodeMatch(c) => FieldSpellable("code", c);
    case EventMatch(e) => FieldSpellable("event", e);
  }

  lemma QuotedSpellable(s: string)
    ensures Spellable(Atom(InQuotes(Escape(s))))
  {
    var text := InQuotes(Escape(s));
    assert text[1..] == Escape(s) + "\"";
    EscapedLiteral(text, 1, s);
  }

  lemma SlashesSpellable(p: string)
    requires SlashBody(p)
    ensures Spellable(Atom("/" + (p + "/")))
  {
  }

  lemma {:induction false} ToksSpellable(env: Env, show: Show, n: Node)
    requires Printable(env, show, n)
    ensures AllSpellable(UnaryToks(show, n)) && AllSpellable(AndToks(show, n)) && AllSpellable(OrToks(show, n))
    decreases n, 1
  {
    hide Spellable, LeafText;
    KeywordsSpellable();
    match n
    case And(cs) =>
      AndTailSpellable(env, show, cs);
      AndTailSpellable(env, show, cs[1..]);
      ToksSpellable(env, show, cs[0]);
    case Or(cs) => OrTailSpellable(env, show, cs[1..]); ToksSpellable(env, show, cs[0]);
    case Not(c) => ToksSpellable(env, show, c);
    case _ => LeafSpellable(env, show, n);
  }

  lemma KeywordsSpellable()
    ensures Spellable(LParen) && Spellable(RParen) && Spellable(TAnd) && Spellable(TOr) && Spellable(TNot)
  {
  }

  lemma {:induction false} AndTailSpellable(env: Env, show: Show, cs: seq<Node>)
    requires forall k :: 0 <= k < |cs| ==> Printable(env, show, cs[k])
    ensures AllSpellable(AndTail(show, cs))
    decreases cs, 0
  {
    hide Spellable, Printable, UnaryToks, AndToks, OrToks;
    KeywordsSpellable();
    if cs != [] {
      ToksSpellable(env, show, cs[0]);
      AndTailSpellable(env, show, cs[1..]);
    }
  }

  lemma {:induction false} OrTailSpellable(env: Env, show: Show, cs: seq<Node>)
    requires forall k :: 0 <= k < |cs| ==> Printable(env, show, cs[k])
    ensures AllSpellable(OrTail(show, cs))
    decreases cs, 0
  {
    hide Spellable, Printable, UnaryToks, AndToks, OrToks;
    KeywordsSpellable();
    if cs != [] {
      ToksSpellable(env, show, cs[0]);
      OrTailSpellable(env, show, cs[1..]);
    }
  }

  lemma {:induction false} NotBlank(s: string, k: nat)
    requires k < |s| && !IsSpace(s[k])
    ensures StripLeft(s) != "" && Strip(s) != ""
  {
    KeepsLeft(s, k);
    var t := StripLeft(s);
    KeepsRight(t, k - (|s| - |t|));
  }

  lemma {:induction false} KeepsLeft(s: string, k: nat)
    requires k < |s| && !IsSpace(s[k])
    ensures var t := StripLeft(s); |s| - k <= |t| <= |s| && t == s[|s| - |t|..]
    decreases |s|
  {
    if IsSpace(s[0]) { KeepsLeft(s[1..], k - 1); }
  }

  lemma {:induction false} KeepsRight(s: string, k: nat)
    requires k < |s| && !IsSpace(s[k])
    ensures StripRight(s) != ""
    decreases |s|
  {
    if IsSpace(s[|s| - 1]) { KeepsRight(s[..|s| - 1], k); }
  }

  /** The parser inverts the printer, down to characters, for every printable tree. */
  lemma ParseInvertsPrint(env: Env, show: Show, n: Node)
    requires Printable(env, show, n)
    ensures ParseQuery(env, Print(show, n)) == Ok(n)
  {
    hide Printable, OrToks, Spell, TokensFrom, ParseTokens, Strip, At;
    var ts := OrToks(show, n);
    TokensBack(env, show, n);
    ToksSpellable(env, show, n);
    if ts == [] { EmptyTokens(env); }
    SpellNotBlank(ts);
    WholeAt(Spell(ts));
    SpellBack(Spell(ts), 0, ts);
  }

  lemma EmptyTokens(env: Env)
    ensures ParseTokens(env, []).Err?
  {
  }

  lemma SpellNotBlank(ts: seq<Token>)
    requires AllSpellable(ts) && ts != []
    ensures Strip(Spell(ts)) != ""
  {
    hide Strip, TokenAt, Spellable, TokText, At;
    var q := Spell(ts);
    var w := TokText(ts[0]);
    assert q == w + (" " + Spell(ts[1..]));
    WholeAt(q);
    AtSplit(q, 0, w, " " + Spell(ts[1..]));
    AtSplit(q, |w|, " ", Spell(ts[1..]));
    FirstAt(q, |w|, " ");
    SpelledToken(q, 0, ts[0]);
    NotBlank(q, 0);
  }

  // --- every parsed query can be printed ---

  /** A whole second that a date can hold. */
  predicate OnClock(env: Env, t: int) {
    env.inRange(t) && t % SECOND == 0
  }

  /** Time stamps and durations are read as whole seconds, and every whole second that a date can hold can
      be written, and every number that is read. */
  ghost predicate Reads(env: Env, show: Show) {
    && (forall s :: env.parseTs(s).Some? ==> OnClock(env, env.parseTs(s).value))
    && (forall s :: env.parseDuration(s).Some? ==> env.parseDuration(s).value % SECOND == 0)
    && (forall s :: env.parseInt(s).Some? ==> WritesNumber(env, show, env.parseInt(s).value))
    && (forall t :: OnClock(env, t) ==> WritesTime(env, show, t))
  }

  lemma {:induction false} StripPlain(s: string)
    requires Plain(s)
    ensures Plain(Strip(s))
  {
    PlainStrip(s);
  }

  lemma FieldPrintable(env: Env, show: Show, key: string, val: string)
    requires Plain(val) && Reads(env, show)
    ensures ParseField(env, key, val).Ok? ==> Printable(env, show, ParseField(env, key, val).value)
  {
    hide Strip, ParseTime;
    var v := Unquoted(val);
    assert Plain(v);
    StripPlain(v);
    TimePrintable(env, show, Strip(v));
  }

  lemma Shifted(t: int, d: int)
    requires t % SECOND == 0 && d % SECOND == 0
    ensures (t - d) % SECOND == 0 && (t + d) % SECOND == 0 && (t + SECOND) % SECOND == 0
  {
    var a, b := t / SECOND, d / SECOND;
    Multiple(a - b);
    Multiple(a + b);
    Multiple(a + 1);
  }

  lemma Multiple(k: int)
    ensures (k * SECOND) % SECOND == 0
  {
  }

  lemma WindowPrintable(env: Env, show: Show, val: string, sep: string)
    requires Reads(env, show) && Find(val, sep).Some?
    ensures var r := Window(env, val, sep); r.Ok? ==> r.value.TimeRange? && Printable(env, show, r.value)
  {
    hide Find, WritesTime;
    var k := Find(val, sep).value;
    var c, d := env.parseTs(val[..k]), env.parseDuration(val[k + |sep|..]);
    if c.Some? && d.Some? { Shifted(c.value, d.value); }
  }

  lemma TimePrintable(env: Env, show: Show, val: string)
    requires Reads(env, show)
    ensures var r := ParseTime(env, val); r.Ok? ==> r.value.TimeRange? && Printable(env, show, r.value)
  {
    hide Find, WritesTime, Window;
    if Find(val, "..").None? {
      if Find(val, "\U{b1}").Some? {
        WindowPrintable(env, show, val, "\U{b1}");
      } else if Find(val, "+-").Some? {
        WindowPrintable(env, show, val, "+-");
      } else if Find(val, "+/-").Some? {
        WindowPrintable(env, show, val, "+/-");
      } else if env.parseTs(val).Some? {
        Shifted(env.parseTs(val).value, 0);
      }
    }
  }

  lemma AtomPrintable(env: Env, show: Show, t: Token)
    requires t.Atom? && Spellable(t) && Reads(env, show)
    ensures ParseAtom(env, t.text).Ok? ==> Printable(env, show, ParseAtom(env, t.text).value)
  {
    hide ParseField, Find, ReplacePair, Printable;
    var text := t.text;
    if text[0] == '/' {
      SlashPrintable(env, show, text);
    } else if Plain(text) {
      match Find(text, ":")
      case Some(k) =>
        var val := text[k + 1..];
        assert Plain(val);
        FieldPrintable(env, show, Lower(text[..k]), val);
        TextPrintable(env, show);
      case None =>
        TextPrintable(env, show);
    } else {
      LiteralEnds(text, 1, '"');
      TextPrintable(env, show);
    }
  }

  lemma TextPrintable(env: Env, show: Show)
    ensures forall s :: Printable(env, show, TextMatch(s))
  {
  }

  lemma SlashPrintable(env: Env, show: Show, text: string)
    requires text != "" && text[0] == '/' && LiteralEnd(text, 1, '/') == Some(|text|)
    ensures ParseAtom(env, text).Ok? ==> Printable(env, show, ParseAtom(env, text).value)
  {
    hide LiteralEnd, Find;
    LiteralEnds(text, 1, '/');
    assert "/" + (Inside(text) + "/") == text;
  }

  lemma {:induction false} LiteralEnds(s: string, i: nat, delim: char)
    requires i <= |s| && LiteralEnd(s, i, delim).Some?
    ensures var e := LiteralEnd(s, i, delim).value; i < e && s[e - 1] == delim
    decreases |s| - i
  {
    if s[i] == '\\' && delim != '\\' {
      LiteralEnds(s, i + 2, delim);
    } else if s[i] != delim {
      LiteralEnds(s, i + 1, delim);
    }
  }

  /** Whatever a parsing function returns on spellable tokens is printable. */
  ghost predicate GoodResult(env: Env, show: Show, r: Parsed) {
    r.Ok? ==> Printable(env, show, r.value.0)
  }

  lemma {:induction false} OrPrintable(env: Env, show: Show, ts: seq<Token>, i: nat)
    requires Reads(env, show) && AllSpellable(ts) && i <= |ts|
    ensures GoodResult(env, show, OrAt(env, ts, i))
    decreases |ts| - i, 5
  {
    hide AndAt, OrRest, Spellable, Printable;
    AndPrintable(env, show, ts, i);
    match AndAt(env, ts, i)
    case Err(_) =>
    case Ok((n, j)) => OrRestPrintable(env, show, ts, j, [n]);
  }

  lemma {:induction false} OrRestPrintable(env: Env, show: Show, ts: seq<Token>, i: nat, children: seq<Node>)
    requires Reads(env, show) && AllSpellable(ts) && i <= |ts| && children != []
    requires forall k :: 0 <= k < |children| ==> Printable(env, show, children[k])
    ensures GoodResult(env, show, OrRest(env, ts, i, children))
    decreases |ts| - i, 4
  {
    hide AndAt, Spellable;
    if i < |ts| && ts[i].TOr? {
      AndPrintable(env, show, ts, i + 1);
      match AndAt(env, ts, i + 1)
      case Err(_) =>
      case Ok((n, j)) => OrRestPrintable(env, show, ts, j, children + [n]);
    }
  }

  lemma {:induction false} AndPrintable(env: Env, show: Show, ts: seq<Token>, i: nat)
    requires Reads(env, show) && AllSpellable(ts) && i <= |ts|
    ensures GoodResult(env, show, AndAt(env, ts, i))
    decreases |ts| - i, 3
  {
    hide UnaryAt, AndRest, Spellable, Printable;
    UnaryPrintable(env, show, ts, i);
    match UnaryAt(env, ts, i)
    case Err(_) =>
    case Ok((n, j)) => AndRestPrintable(env, show, ts, j, [n]);
  }

  lemma {:induction false} AndRestPrintable(env: Env, show: Show, ts: seq<Token>, i: nat, children: seq<Node>)
    requires Reads(env, show) && AllSpellable(ts) && i <= |ts| && children != []
    requires forall k :: 0 <= k < |children| ==> Printable(env, show, children[k])
    ensures GoodResult(env, show, AndRest(env, ts, i, children))
    decreases |ts| - i, 3
  {
    hide UnaryAt, Spellable;
    if i < |ts| && (ts[i].TAnd? || StartsOperand(ts[i])) {
      var j := if ts[i].TAnd? then i + 1 else i;
      UnaryPrintable(env, show, ts, j);
      match UnaryAt(env, ts, j)
      case Err(_) =>
      case Ok((n, k)) => AndRestPrintable(env, show, ts, k, children + [n]);
    }
  }

  lemma {:induction false} UnaryPrintable(env: Env, show: Show, ts: seq<Token>, i: nat)
    requires Reads(env, show) && AllSpellable(ts) && i <= |ts|
    ensures GoodResult(env, show, UnaryAt(env, ts, i))
    decreases |ts| - i, 2
  {
    hide OrAt, ParseAtom, Spellable;
    if i < |ts| {
      match ts[i]
      case TNot => UnaryPrintable(env, show, ts, i + 1);
      case LParen => OrPrintable(env, show, ts, i + 1);
      case Atom(_) => AtomPrintable(env, show, ts[i]);
      case _ =>
    }
  }

  lemma {:induction false} TokensSpellable(q: string, i: nat)
    requires i <= |q|
    ensures TokensFrom(q, i).Ok? ==> AllSpellable(TokensFrom(q, i).value)
    decreases |q| - i
  {
    hide TokenAt, Spellable;
    if i < |q| {
      if IsSpace(q[i]) {
        TokensSpellable(q, i + 1);
      } else {
        TokenSpellable(q, i);
        match TokenAt(q, i)
        case Err(_) =>
        case Ok((_, j)) => TokensSpellable(q, j);
      }
    }
  }

  lemma TokenSpellable(q: string, i: nat)
    requires i < |q| && !IsSpace(q[i])
    ensures TokenAt(q, i).Ok? ==> Spellable(TokenAt(q, i).value.0)
  {
    hide LiteralEnd, WordEnd;
    if q[i] == '"' || q[i] == '/' {
      var e := LiteralEnd(q, i + 1, q[i]);
      if e.Some? { LiteralCut(q, i, i + 1, q[i]); }
    } else if q[i] != '(' && q[i] != ')' {
      var w := q[i..WordEnd(q, i)];
      FirstWordChar(q, i);
      assert Plain(w) && w[0] == q[i];
    }
  }

  lemma FirstWordChar(q: string, i: nat)
    requires i < |q| && WordChar(q[i])
    ensures WordEnd(q, i) > i
  {
  }

  lemma {:induction false} LiteralCut(q: string, i: nat, k: nat, delim: char)
    requires i < k <= |q| && LiteralEnd(q, k, delim).Some?
    ensures var e := LiteralEnd(q, k, delim).value; LiteralEnd(q[i..e], k - i, delim) == Some(e - i)
    decreases |q| - k
  {
    var e := LiteralEnd(q, k, delim).value;
    assert q[i..e][k - i] == q[k];
    if q[k] == delim {
    } else if q[k] == '\\' {
      LiteralCut(q, i, k + 2, delim);
      assert q[i..e][k + 1 - i] == q[k + 1];
    } else {
      LiteralCut(q, i, k + 1, delim);
    }
  }

  /** Printing what any query was parsed to gives a query that is parsed to the same. */
  lemma PrintedQueryMeansTheSame(env: Env, show: Show, q: string)
    requires Reads(env, show)
    ensures var r := ParseQuery(env, q);
            r.Ok? ==> Printable(env, show, r.value) && ParseQuery(env, Print(show, r.value)) == r
  {
    hide Printable, TokensFrom, Strip, OrAt, Print;
    var r := ParseQuery(env, q);
    if r.Ok? {
      TokensSpellable(q, 0);
      OrPrintable(env, show, TokensFrom(q, 0).value, 0);
      ParseInvertsPrint(env, show, r.value);
    }
  }

  // --- leaving out AND ---

  /** An AND between the end of one operand and the start of the next. */
  predicate Droppable(ts: seq<Token>, p: nat) {
    && 1 <= p && p + 1 < |ts| && ts[p].TAnd?
    && (ts[p - 1].Atom? || ts[p - 1].RParen?) && StartsOperand(ts[p + 1])
  }

  function Dropped(ts: seq<Token>, p: nat): (us: seq<Token>)
    requires p < |ts|
    ensures |us| == |ts| - 1
    ensures forall k :: 0 <= k < p ==> us[k] == ts[k]
    ensures forall k :: p < k < |ts| ==> us[k - 1] == ts[k]
  {
    ts[..p] + ts[p + 1..]
  }

  /** Where position `i` of the longer list is in the shorter one. */
  function Shift(i: nat, p: nat): nat {
    if i <= p then i else i - 1
  }

  ghost predicate SameOutcome(r: Parsed, s: Parsed, p: nat) {
    match r
    case Err(e) => s == Err(e)
    case Ok((n, j)) => s == Ok((n, Shift(j, p)))
  }

  lemma {:induction false} OrDropped(env: Env, ts: seq<Token>, p: nat, i: nat)
    requires Droppable(ts, p) && i <= |ts| && i != p
    ensures var r := OrAt(env, ts, i);
            SameOutcome(r, OrAt(env, Dropped(ts, p), Shift(i, p)), p) && (r.Ok? ==> r.value.1 != p)
    decreases |ts| - i, 5
  {
    hide AndAt, OrRest, Dropped, Droppable;
    AndDropped(env, ts, p, i);
    match AndAt(env, ts, i)
    case Err(_) =>
    case Ok((n, j)) => OrRestDropped(env, ts, p, j, [n]);
  }

  lemma {:induction false} OrRestDropped(env: Env, ts: seq<Token>, p: nat, i: nat, cs: seq<Node>)
    requires Droppable(ts, p) && i <= |ts| && i != p && cs != []
    ensures var r := OrRest(env, ts, i, cs);
            SameOutcome(r, OrRest(env, Dropped(ts, p), Shift(i, p), cs), p) && (r.Ok? ==> r.value.1 != p)
    decreases |ts| - i, 4
  {
    hide AndAt;
    if i < |ts| && ts[i].TOr? {
      AndDropped(env, ts, p, i + 1);
      match AndAt(env, ts, i + 1)
      case Err(_) =>
      case Ok((n, j)) => OrRestDropped(env, ts, p, j, cs + [n]);
    }
  }

  lemma {:induction false} AndDropped(env: Env, ts: seq<Token>, p: nat, i: nat)
    requires Droppable(ts, p) && i <= |ts| && i != p
    ensures var r := AndAt(env, ts, i);
            SameOutcome(r, AndAt(env, Dropped(ts, p), Shift(i, p)), p) && (r.Ok? ==> r.value.1 != p)
    decreases |ts| - i, 3
  {
    hide UnaryAt, AndRest, Dropped, Droppable;
    UnaryDropped(env, ts, p, i);
    match UnaryAt(env, ts, i)
    case Err(_) =>
    case Ok((n, j)) => AndRestDropped(env, ts, p, j, [n]);
  }

  /** The dropped AND can only be met here, where its absence makes no difference. */
  lemma {:induction false} AndRestDropped(env: Env, ts: seq<Token>, p: nat, i: nat, cs: seq<Node>)
    requires Droppable(ts, p) && i <= |ts| && cs != []
    ensures var r := AndRest(env, ts, i, cs);
            SameOutcome(r, AndRest(env, Dropped(ts, p), Shift(i, p), cs), p) && (r.Ok? ==> r.value.1 != p)
    decreases |ts| - i, 3
  {
    hide UnaryAt, AndRest, StartsOperand, Dropped;
    var us := Dropped(ts, p);
    SameGuard(ts, p, i);
    AndRestStep(env, ts, i, cs);
    AndRestStep(env, us, Shift(i, p), cs);
    if GoesOn(ts, i) {
      var j := AndNext(ts, i);
      UnaryDropped(env, ts, p, j);
      match UnaryAt(env, ts, j)
      case Err(_) =>
      case Ok((n, k)) => AndRestDropped(env, ts, p, k, cs + [n]);
    }
  }

  /** Another operand follows at `i`. */
  predicate GoesOn(ts: seq<Token>, i: nat) {
    i < |ts| && (ts[i].TAnd? || StartsOperand(ts[i]))
  }

  function AndNext(ts: seq<Token>, i: nat): nat
    requires i < |ts|
  {
    if ts[i].TAnd? then i + 1 else i
  }

  lemma AndRestStep(env: Env, ts: seq<Token>, i: nat, cs: seq<Node>)
    requires i <= |ts| && cs != []
    ensures AndRest(env, ts, i, cs) ==
            if !GoesOn(ts, i) then Ok((if |cs| == 1 then cs[0] else And(cs), i))
            else if UnaryAt(env, ts, AndNext(ts, i)).Err? then Err(UnaryAt(env, ts, AndNext(ts, i)).error)
            else
              var r := UnaryAt(env, ts, AndNext(ts, i)).value;
              AndRest(env, ts, r.1, cs + [r.0])
  {
    hide UnaryAt, StartsOperand;
  }

  /** The loop goes on in both lists or in neither, at corresponding positions, and not at the AND. */
  lemma SameGuard(ts: seq<Token>, p: nat, i: nat)
    requires Droppable(ts, p) && i <= |ts|
    ensures var us := Dropped(ts, p);
            && Shift(i, p) <= |us| && (GoesOn(us, Shift(i, p)) <==> GoesOn(ts, i))
            && (GoesOn(ts, i) ==> AndNext(ts, i) != p && AndNext(us, Shift(i, p)) == Shift(AndNext(ts, i), p))
            && (!GoesOn(ts, i) ==> i != p)
  {
  }

  lemma {:induction false} UnaryDropped(env: Env, ts: seq<Token>, p: nat, i: nat)
    requires Droppable(ts, p) && i <= |ts| && i != p
    ensures SameOutcome(UnaryAt(env, ts, i), UnaryAt(env, Dropped(ts, p), Shift(i, p)), p)
    decreases |ts| - i, 2
  {
    hide AtomAt;
    if i < |ts| {
      if ts[i].TNot? {
        UnaryDropped(env, ts, p, i + 1);
      } else {
        AtomDropped(env, ts, p, i);
      }
    }
  }

  lemma {:induction false} AtomDropped(env: Env, ts: seq<Token>, p: nat, i: nat)
    requires Droppable(ts, p) && i < |ts| && i != p
    ensures SameOutcome(AtomAt(env, ts, i), AtomAt(env, Dropped(ts, p), Shift(i, p)), p)
    decreases |ts| - i, 1
  {
    hide OrAt, ParseAtom;
    if ts[i].LParen? { OrDropped(env, ts, p, i + 1); }
  }

  /** Leaving out an AND between two operands changes nothing, on any token list, well-formed or not. */
  lemma AndIsImplicit(env: Env, ts: seq<Token>, p: nat)
    requires Droppable(ts, p)
    ensures ParseTokens(env, Dropped(ts, p)) == ParseTokens(env, ts)
  {
    hide OrAt, Dropped;
    OrDropped(env, ts, p, 0);
  }
}
