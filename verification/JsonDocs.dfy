/** Printed JSON documents: any whitespace where JSON allows it, any choice of escapes. `Value` says
    what a document means, `Cut` what its first characters still show. */
module JsonDocs {
  import opened Text
  import opened JsonScan

  datatype Part =
    | Plain(c: char)
    | Escaped(c: char)
    | Unicode(hex: string)

  datatype Doc =
    | DNull
    | DBool(b: bool)
    | DNum(lexeme: string)
    | DStr(parts: seq<Part>)
    | DArr(items: seq<Item>, tail: string)
    | DObj(members: seq<Member>, tail: string)

  datatype Item = Item(before: string, value: Doc, after: string)

  datatype Member = Member(before: string, key: seq<Part>, mid1: string, mid2: string, value: Doc, after: string)

  // --- printing ---

  function PrintPart(p: Part): (r: string)
    ensures |r| >= 1
  {
    match p
    case Plain(c) => [c]
    case Escaped(c) => ['\\', c]
    case Unicode(hex) => "\\u" + hex
  }

  /** `end` is the text that follows the parts. */
  function PrintParts(ps: seq<Part>, end: string): string {
    if ps == [] then end else PrintPart(ps[0]) + PrintParts(ps[1..], end)
  }

  function Quoted(ps: seq<Part>): string {
    "\"" + PrintParts(ps, "\"")
  }

  function Head(m: Member): string {
    m.before + (Quoted(m.key) + (m.mid1 + (":" + m.mid2)))
  }

  function Comma(more: bool): string {
    if more then "," else ""
  }

  function Print(doc: Doc): (r: string)
    ensures |r| >= 1 || doc.DNum?
    decreases doc, 0
  {
    match doc
    case DNull => "null"
    case DBool(b) => if b then "true" else "false"
    case DNum(l) => l
    case DStr(ps) => Quoted(ps)
    case DArr(items, tail) => "[" + PrintItems(items, tail + "]")
    case DObj(ms, tail) => "{" + PrintMembers(ms, tail + "}")
  }

  function PrintItems(items: seq<Item>, end: string): string
    decreases items, 1
  {
    if items == [] then end
    else
      items[0].before + (Print(items[0].value)
                         + (items[0].after + (Comma(|items| > 1) + PrintItems(items[1..], end))))
  }

  function PrintMembers(ms: seq<Member>, end: string): string
    decreases ms, 1
  {
    if ms == [] then end
    else
      Head(ms[0]) + (Print(ms[0].value)
                     + (ms[0].after + (Comma(|ms| > 1) + PrintMembers(ms[1..], end))))
  }

  // --- well-formedness ---

  predicate Blank(s: string) {
    forall k :: 0 <= k < |s| ==> IsWs(s[k])
  }

  predicate IsNumber(l: string) {
    l != [] && NumLen(l) == |l|
  }

  predicate ValidPart(p: Part) {
    match p
    case Plain(c) => c != '"' && c != '\\'
    case Escaped(c) => c != 'u'
    case Unicode(hex) => |hex| == 4 && HexChar(hex).Some?
  }

  predicate ValidParts(ps: seq<Part>) {
    forall k :: 0 <= k < |ps| ==> ValidPart(ps[k])
  }

  predicate ValidDoc(doc: Doc)
    decreases doc, 0
  {
    match doc
    case DNull => true
    case DBool(_) => true
    case DNum(l) => IsNumber(l)
    case DStr(ps) => ValidParts(ps)
    case DArr(items, tail) => ValidItems(items) && Blank(tail)
    case DObj(ms, tail) => ValidMembers(ms) && Blank(tail)
  }

  predicate ValidItems(items: seq<Item>)
    decreases items, 1
  {
    items == [] ||
    (Blank(items[0].before) && ValidDoc(items[0].value) && Blank(items[0].after) && ValidItems(items[1..]))
  }

  predicate ValidHead(m: Member) {
    Blank(m.before) && ValidParts(m.key) && Blank(m.mid1) && Blank(m.mid2)
  }

  predicate ValidMembers(ms: seq<Member>)
    decreases ms, 1
  {
    ms == [] || (ValidHead(ms[0]) && ValidDoc(ms[0].value) && Blank(ms[0].after) && ValidMembers(ms[1..]))
  }

  // --- meaning ---

  function PartChar(p: Part): char
    requires ValidPart(p)
  {
    match p
    case Plain(c) => c
    case Escaped(c) => Unescape(c)
    case Unicode(hex) => HexChar(hex).value
  }

  function Decode(ps: seq<Part>): string
    requires ValidParts(ps)
  {
    if ps == [] then "" else [PartChar(ps[0])] + Decode(ps[1..])
  }

  function Value(doc: Doc): Json
    requires ValidDoc(doc)
    decreases doc, 0
  {
    match doc
    case DNull => Null
    case DBool(b) => Bool(b)
    case DNum(l) => Num(l)
    case DStr(ps) => Str(Decode(ps))
    case DArr(items, _) => Arr(Values(items))
    case DObj(ms, _) => Obj(Entries(ms, []))
  }

  function Values(items: seq<Item>): seq<Json>
    requires ValidItems(items)
    decreases items, 1
  {
    if items == [] then [] else [Value(items[0].value)] + Values(items[1..])
  }

  /** The dict `out` after the members are stored in it one by one. */
  function Entries(ms: seq<Member>, out: Dict): Dict
    requires ValidMembers(ms)
    decreases ms, 1
  {
    if ms == [] then out else Entries(ms[1..], Put(out, Decode(ms[0].key), Value(ms[0].value)))
  }

  function Max(a: nat, b: nat): nat {
    if a < b then b else a
  }

  /** How many levels of values lie below `doc`. */
  function Height(doc: Doc): nat
    decreases doc, 0
  {
    match doc
    case DArr(items, _) => ItemsHeight(items)
    case DObj(ms, _) => MembersHeight(ms)
    case _ => 0
  }

  function ItemsHeight(items: seq<Item>): nat
    decreases items, 1
  {
    if items == [] then 0 else Max(1 + Height(items[0].value), ItemsHeight(items[1..]))
  }

  function MembersHeight(ms: seq<Member>): nat
    decreases ms, 1
  {
    if ms == [] then 0 else Max(1 + Height(ms[0].value), MembersHeight(ms[1..]))
  }

  // --- what a cut leaves ---

  /** What the first `n` characters of a string's text decode to. A `\u` escape that the cut falls in is
      read as the letter `u` and the digits in sight. */
  function CutParts(ps: seq<Part>, n: nat): string
    requires ValidParts(ps)
  {
    if ps == [] then ""
    else if n >= |PrintPart(ps[0])| then [PartChar(ps[0])] + CutParts(ps[1..], n - |PrintPart(ps[0])|)
    else if ps[0].Unicode? && n >= 2 then "u" + ps[0].hex[..n - 2]
    else ""
  }

  /** What the first `n` characters of a document show of its value: a literal shows nothing, a number
      the longest number in sight, a string its whole characters, a container its whole children and
      then a cut of the child the cut falls in. */
  function Cut(doc: Doc, n: nat): Option<Json>
    requires ValidDoc(doc) && n < |Print(doc)|
    decreases doc, 0
  {
    if n == 0 then None
    else
      match doc
      case DNull => None
      case DBool(_) => None
      case DNum(l) => if NumLen(l[..n]) == 0 then None else Some(Num(l[..NumLen(l[..n])]))
      case DStr(ps) => Some(Str(CutParts(ps, n - 1)))
      case DArr(items, _) => Some(Arr(CutItems(items, n - 1)))
      case DObj(ms, _) => Some(Obj(CutMembers(ms, n - 1, [])))
  }

  function CutItems(items: seq<Item>, n: nat): seq<Json>
    requires ValidItems(items)
    decreases items, 1
  {
    if items == [] then []
    else
      var it := items[0];
      var end := |it.before| + |Print(it.value)|;
      if n < |it.before| then []
      else if n < end then
        var v := Cut(it.value, n - |it.before|);
        if v.Some? then [v.value] else []
      else
        var next := end + |it.after| + |Comma(|items| > 1)|;
        [Value(it.value)] + if n < next then [] else CutItems(items[1..], n - next)
  }

  function CutMembers(ms: seq<Member>, n: nat, out: Dict): Dict
    requires ValidMembers(ms)
    decreases ms, 1
  {
    if ms == [] then out
    else
      var m := ms[0];
      var end := |Head(m)| + |Print(m.value)|;
      if n < |Head(m)| then out
      else if n < end then
        var v := Cut(m.value, n - |Head(m)|);
        if v.Some? then Put(out, Decode(m.key), v.value) else out
      else
        var out' := Put(out, Decode(m.key), Value(m.value));
        var next := end + |m.after| + |Comma(|ms| > 1)|;
        if n < next then out' else CutMembers(ms[1..], n - next, out')
  }
}
