/** What a cut object may be said to show: its whole entries, then one truncated child. When the scanner
    returns just that, and when not. */
module JsonTruncation {
  import opened Text
  import opened JsonScan
  import opened JsonDocs
  import opened JsonTheorems

  // --- what stands whole in the first characters ---

  function Minus(n: nat, m: nat): nat {
    if n < m then 0 else n - m
  }

  function WholeParts(ps: seq<Part>, n: nat): (k: nat)
    ensures k <= |ps|
  {
    if ps == [] || n < |PrintPart(ps[0])| then 0 else 1 + WholeParts(ps[1..], n - |PrintPart(ps[0])|)
  }

  /** Characters in sight behind the whole parts. */
  function PartsLeft(ps: seq<Part>, n: nat): nat {
    if ps == [] || n < |PrintPart(ps[0])| then n else PartsLeft(ps[1..], n - |PrintPart(ps[0])|)
  }

  function ItemEnd(it: Item): nat {
    |it.before| + |Print(it.value)|
  }

  function MemberEnd(m: Member): nat {
    |Head(m)| + |Print(m.value)|
  }

  /** How many items stand whole in the first `n` characters of an array's content. */
  function WholeItems(items: seq<Item>, n: nat): (k: nat)
    ensures k <= |items|
  {
    if items == [] || n < ItemEnd(items[0]) then 0
    else 1 + WholeItems(items[1..], Minus(n, ItemEnd(items[0]) + |items[0].after| + |Comma(|items| > 1)|))
  }

  /** Characters in sight of the value of the first item that is not whole. */
  function ItemRoom(items: seq<Item>, n: nat): nat {
    if items == [] then 0
    else if n < ItemEnd(items[0]) then Minus(n, |items[0].before|)
    else ItemRoom(items[1..], Minus(n, ItemEnd(items[0]) + |items[0].after| + |Comma(|items| > 1)|))
  }

  function WholeMembers(ms: seq<Member>, n: nat): (k: nat)
    ensures k <= |ms|
  {
    if ms == [] || n < MemberEnd(ms[0]) then 0
    else 1 + WholeMembers(ms[1..], Minus(n, MemberEnd(ms[0]) + |ms[0].after| + |Comma(|ms| > 1)|))
  }

  function MemberRoom(ms: seq<Member>, n: nat): nat {
    if ms == [] then 0
    else if n < MemberEnd(ms[0]) then Minus(n, |Head(ms[0])|)
    else MemberRoom(ms[1..], Minus(n, MemberEnd(ms[0]) + |ms[0].after| + |Comma(|ms| > 1)|))
  }

  /** The first `n` characters show something of the value: not of a literal, of a number once a number
      is in sight, of a string or a container once it is opened. */
  predicate Shows(doc: Doc, n: nat) {
    match doc
    case DNull => false
    case DBool(_) => false
    case DNum(l) => n <= |l| && NumLen(l[..n]) > 0
    case _ => n > 0
  }

  // --- truncation ---

  lemma {:induction false} ItemsValid(items: seq<Item>, k: nat)
    requires ValidItems(items) && k <= |items|
    ensures ValidItems(items[..k]) && (k < |items| ==> ValidDoc(items[k].value))
    decreases k
  {
    hide ValidDoc, Blank;
    if k > 0 {
      ItemsValid(items[1..], k - 1);
      assert items[..k][1..] == items[1..][..k - 1];
    }
  }

  lemma {:induction false} MembersValid(ms: seq<Member>, k: nat)
    requires ValidMembers(ms) && k <= |ms|
    ensures ValidMembers(ms[..k]) && (k < |ms| ==> ValidHead(ms[k]) && ValidDoc(ms[k].value))
    decreases k
  {
    hide ValidDoc, ValidHead, Blank;
    if k > 0 {
      MembersValid(ms[1..], k - 1);
      assert ms[..k][1..] == ms[1..][..k - 1];
    }
  }

  /** `v` is what the first `n` characters of the document show. A container: its whole children exactly,
      and, if anything of the next child shows, that child truncated in turn. A string: exactly its whole
      characters; or, unless `strict`, these and more of the true text. */
  ghost predicate Truncates(v: Json, doc: Doc, n: nat, strict: bool)
    requires ValidDoc(doc)
    decreases doc, 0
  {
    match doc
    case DNull => false
    case DBool(_) => false
    case DNum(l) => n <= |l| && v == Num(l[..NumLen(l[..n])])
    case DStr(ps) => n > 0 && v.Str? && TruncatesText(v.s, ps, n - 1, strict)
    case DArr(items, _) => n > 0 && v.Arr? && TruncatesItems(v.items, items, n - 1, strict)
    case DObj(ms, _) => n > 0 && v.Obj? && TruncatesMembers(v.entries, ms, n - 1, [], strict)
  }

  ghost predicate TruncatesText(s: string, ps: seq<Part>, n: nat, strict: bool)
    requires ValidParts(ps)
  {
    var whole := Decode(ps[..WholeParts(ps, n)]);
    s == whole || (!strict && whole <= s <= Decode(ps))
  }

  ghost predicate TruncatesItems(vs: seq<Json>, items: seq<Item>, n: nat, strict: bool)
    requires ValidItems(items)
    decreases items, 1
  {
    var k, r := WholeItems(items, n), ItemRoom(items, n);
    ItemsValid(items, k);
    if k < |items| && Shows(items[k].value, r)
    then |vs| == k + 1 && vs[..k] == Values(items[..k]) && Truncates(vs[k], items[k].value, r, strict)
    else vs == Values(items[..k])
  }

  ghost predicate TruncatesMembers(d: Dict, ms: seq<Member>, n: nat, out: Dict, strict: bool)
    requires ValidMembers(ms)
    decreases ms, 1
  {
    var k, r := WholeMembers(ms, n), MemberRoom(ms, n);
    MembersValid(ms, k);
    var whole := Entries(ms[..k], out);
    if k < |ms| && Shows(ms[k].value, r)
    then exists v :: Truncates(v, ms[k].value, r, strict) && d == Put(whole, Decode(ms[k].key), v)
    else d == whole
  }

  /** An escape that a cut leaves with some digits, and the parts behind it. */
  datatype CutEscape = CutEscape(part: Part, digits: string, later: seq<Part>)

  function Take(s: string, n: int): string {
    if 0 <= n <= |s| then s[..n] else s
  }

  /** The `\u` escape of a string value that the cut falls in after its `u`, if it does. */
  function EscapeAt(doc: Doc, n: nat): Option<CutEscape>
    decreases doc, 0
  {
    if n == 0 then None
    else
      match doc
      case DStr(ps) =>
        var k := WholeParts(ps, n - 1);
        if k < |ps| && ps[k].Unicode? && PartsLeft(ps, n - 1) >= 2
        then Some(CutEscape(ps[k], Take(ps[k].hex, PartsLeft(ps, n - 1) - 2), ps[k + 1..])) else None
      case DArr(items, _) =>
        var k := WholeItems(items, n - 1);
        if k < |items| then EscapeAt(items[k].value, ItemRoom(items, n - 1)) else None
      case DObj(ms, _) =>
        var k := WholeMembers(ms, n - 1);
        if k < |ms| then EscapeAt(ms[k].value, MemberRoom(ms, n - 1)) else None
      case _ => None
  }

  predicate SpellsU(p: Part) {
    p.Unicode? && |p.hex| == 4 && HexChar(p.hex) == Some('u')
  }

  /** Read as characters, the escape is the letter it stands for, and the digits in sight begin the text behind
      it. */
  predicate ReadsOn(e: CutEscape) {
    SpellsU(e.part) && ValidParts(e.later) && e.digits <= Decode(e.later)
  }

  /** `ok` is right for a cut in `escape`: outside escapes always; inside one, when only a beginning of the true
      text is asked for and the escape happens to read on. */
  ghost predicate Decides(ok: bool, escape: Option<CutEscape>, strict: bool) {
    ok <==> escape.None? || (!strict && ReadsOn(escape.value))
  }

  // --- strings ---

  lemma {:induction false} DecodePrefix(ps: seq<Part>, k: nat)
    requires ValidParts(ps) && k <= |ps|
    ensures |Decode(ps)| == |ps| && Decode(ps[..k]) == Decode(ps)[..k]
    ensures k < |ps| ==> Decode(ps)[k] == PartChar(ps[k])
    decreases |ps|
  {
    hide ValidPart, PartChar;
    if ps != [] {
      if k > 0 {
        DecodePrefix(ps[1..], k - 1);
        assert ps[..k][1..] == ps[1..][..k - 1];
      } else {
        DecodePrefix(ps[1..], 0);
      }
    }
  }

  /** What is read of a cut string: its whole characters, and of an escape cut after its `u` the rest
      as plain characters. */
  lemma {:induction false} PartsCut(ps: seq<Part>, n: nat)
    requires ValidParts(ps)
    ensures var k, left := WholeParts(ps, n), PartsLeft(ps, n);
            && (k < |ps| ==> left < |PrintPart(ps[k])|)
            && (k < |ps| && ps[k].Unicode? && left >= 2 ==>
                  left - 2 <= |ps[k].hex| && CutParts(ps, n) == Decode(ps[..k]) + ("u" + ps[k].hex[..left - 2]))
            && (!(k < |ps| && ps[k].Unicode? && left >= 2) ==> CutParts(ps, n) == Decode(ps[..k]))
    decreases |ps|
  {
    hide PartChar, ValidPart, PrintPart, Decode, CutParts, WholeParts, PartsLeft;
    if ps == [] || n < |PrintPart(ps[0])| {
      FirstPartCut(ps, n);
    } else {
      var k := WholeParts(ps, n);
      PartsCut(ps[1..], n - |PrintPart(ps[0])|);
      PartsNext(ps, n);
      DecodeTake(ps, k);
      assert k < |ps| ==> ps[1..][k - 1] == ps[k];
      if k < |ps| && ps[k].Unicode? && PartsLeft(ps, n) >= 2 {
        Assoc([PartChar(ps[0])], Decode(ps[1..][..k - 1]), "u" + ps[k].hex[..PartsLeft(ps, n) - 2]);
      }
    }
  }

  lemma FirstPartCut(ps: seq<Part>, n: nat)
    requires ValidParts(ps) && (ps == [] || n < |PrintPart(ps[0])|)
    ensures WholeParts(ps, n) == 0 && PartsLeft(ps, n) == n && Decode(ps[..0]) == ""
    ensures ps != [] && ps[0].Unicode? && n >= 2 ==>
              n - 2 <= |ps[0].hex| && CutParts(ps, n) == "" + ("u" + ps[0].hex[..n - 2])
    ensures !(ps != [] && ps[0].Unicode? && n >= 2) ==> CutParts(ps, n) == ""
  {
    hide PartChar, ValidPart;
  }

  lemma PartsNext(ps: seq<Part>, n: nat)
    requires ValidParts(ps) && ps != [] && n >= |PrintPart(ps[0])|
    ensures var m := n - |PrintPart(ps[0])|;
            && WholeParts(ps, n) == 1 + WholeParts(ps[1..], m) && PartsLeft(ps, n) == PartsLeft(ps[1..], m)
            && CutParts(ps, n) == [PartChar(ps[0])] + CutParts(ps[1..], m)
  {
    hide PartChar, ValidPart, PrintPart;
  }

  lemma DecodeTake(ps: seq<Part>, k: nat)
    requires ValidParts(ps) && 1 <= k <= |ps|
    ensures Decode(ps[..k]) == [PartChar(ps[0])] + Decode(ps[1..][..k - 1])
  {
    hide PartChar, ValidPart;
    assert ps[..k][1..] == ps[1..][..k - 1];
  }

  lemma TextTruncates(ps: seq<Part>, n: nat, strict: bool)
    requires ValidParts(ps)
    ensures Decides(TruncatesText(CutParts(ps, n), ps, n, strict), EscapeAt(DStr(ps), n + 1), strict)
  {
    hide Decode, CutParts, WholeParts, PartsLeft, ValidPart, SpellsU;
    var k := WholeParts(ps, n);
    PartsCut(ps, n);
    DecodePrefix(ps, k);
    if EscapeAt(DStr(ps), n + 1).Some? {
      var e := EscapeAt(DStr(ps), n + 1).value;
      assert ValidPart(ps[k]);
      UnicodeChar(ps[k]);
      DecodeFrom(ps, k);
      Continues(Decode(ps[..k]), PartChar(ps[k]), Decode(ps[k + 1..]), e.digits);
    }
  }

  lemma {:induction false} DecodeFrom(ps: seq<Part>, k: nat)
    requires ValidParts(ps) && k < |ps|
    ensures Decode(ps) == Decode(ps[..k]) + ([PartChar(ps[k])] + Decode(ps[k + 1..]))
    decreases k
  {
    hide ValidPart, PartChar;
    if k == 0 {
      EmptyUnit(Decode(ps));
    } else {
      DecodeFrom(ps[1..], k - 1);
      DecodeTake(ps, k);
      assert ps[1..][k - 1] == ps[k] && ps[1..][k..] == ps[k + 1..];
      Assoc([PartChar(ps[0])], Decode(ps[1..][..k - 1]), [PartChar(ps[k])] + Decode(ps[k + 1..]));
    }
  }

  lemma Continues(whole: string, c: char, rest: string, digits: string)
    ensures whole + ("u" + digits) <= whole + ([c] + rest) <==> c == 'u' && digits <= rest
    ensures whole <= whole + ("u" + digits) != whole
  {
    var cut, text := whole + ("u" + digits), whole + ([c] + rest);
    if cut <= text {
      assert cut[|whole|] == 'u' && text[|whole|] == c;
      assert cut[|whole| + 1..] == digits && text[..|cut|][|whole| + 1..] == rest[..|digits|];
    }
    if c == 'u' && digits <= rest { assert text[..|cut|] == cut; }
  }

  lemma UnicodeChar(p: Part)
    requires ValidPart(p) && p.Unicode?
    ensures PartChar(p) == 'u' <==> SpellsU(p)
  {
  }

  // --- containers ---

  lemma ItemsFirst(items: seq<Item>, n: nat)
    requires items != [] && n < ItemEnd(items[0])
    ensures WholeItems(items, n) == 0 && ItemRoom(items, n) == Minus(n, |items[0].before|)
    ensures ValidItems(items) ==>
              CutItems(items, n) ==
              if n < |items[0].before| then []
              else if Cut(items[0].value, n - |items[0].before|).Some?
              then [Cut(items[0].value, n - |items[0].before|).value] else []
  {
    hide Print, Cut, ValidDoc, Blank;
  }

  function ItemNext(items: seq<Item>, n: nat): nat
    requires items != []
  {
    Minus(n, ItemEnd(items[0]) + |items[0].after| + |Comma(|items| > 1)|)
  }

  lemma NothingOfItems(items: seq<Item>)
    requires ValidItems(items)
    ensures CutItems(items, 0) == []
  {
    if items != [] {
      ValidPrints(items[0].value);
      NothingShows(items[0].value);
    }
  }

  lemma ItemsRest(items: seq<Item>, n: nat)
    requires items != [] && n >= ItemEnd(items[0])
    ensures WholeItems(items, n) == 1 + WholeItems(items[1..], ItemNext(items, n))
    ensures ItemRoom(items, n) == ItemRoom(items[1..], ItemNext(items, n))
    ensures ValidItems(items) ==>
              CutItems(items, n) == [Value(items[0].value)] + CutItems(items[1..], ItemNext(items, n))
  {
    hide Cut, ValidDoc, Blank, Value, Print;
    if ValidItems(items) { NothingOfItems(items[1..]); }
  }

  lemma ValidPrints(doc: Doc)
    ensures ValidDoc(doc) ==> |Print(doc)| >= 1
  {
  }

  lemma ValuesTake(items: seq<Item>, k: nat)
    requires ValidItems(items) && items != [] && 1 <= k <= |items|
    ensures ValidItems(items[..k]) && ValidItems(items[1..][..k - 1])
    ensures Values(items[..k]) == [Value(items[0].value)] + Values(items[1..][..k - 1])
  {
    hide Value, ValidDoc, Blank;
    ItemsValid(items, k);
    assert items[..k][1..] == items[1..][..k - 1];
  }

  lemma ItemsCons(v: Json, vs: seq<Json>, items: seq<Item>, n: nat, strict: bool)
    requires ValidItems(items) && items != [] && n >= ItemEnd(items[0]) && v == Value(items[0].value)
    ensures TruncatesItems([v] + vs, items, n, strict) <==> TruncatesItems(vs, items[1..], ItemNext(items, n), strict)
  {
    hide Truncates, Value, Values, WholeItems, ItemRoom, ItemNext, ItemEnd, ValidDoc, Blank, Shows;
    var k := WholeItems(items, n);
    ItemsRest(items, n);
    ItemsValid(items, k);
    ItemsValid(items[1..], k - 1);
    ValuesTake(items, k);
    assert k < |items| ==> items[k] == items[1..][k - 1];
    var rest := Values(items[1..][..k - 1]);
    ConsEqual(v, vs, rest, k);
    if |vs| >= k - 1 { ConsEqual(v, vs[..k - 1], rest, k); }
  }

  lemma ConsEqual(v: Json, vs: seq<Json>, ws: seq<Json>, k: nat)
    requires k >= 1
    ensures [v] + vs == [v] + ws <==> vs == ws
    ensures |vs| >= k - 1 ==> ([v] + vs)[..k] == [v] + vs[..k - 1]
    ensures |vs| >= k ==> ([v] + vs)[k] == vs[k - 1]
  {
    assert ([v] + vs)[1..] == vs && ([v] + ws)[1..] == ws;
  }

  lemma {:induction false} ItemsTruncate(items: seq<Item>, n: nat, tail: string, strict: bool)
    requires ValidItems(items)
    ensures Decides(TruncatesItems(CutItems(items, n), items, n, strict), EscapeAt(DArr(items, tail), n + 1), strict)
    decreases items, 1
  {
    hide Cut, Truncates, Value, ValidDoc, Print, Blank, Shows, Decides, ItemEnd;
    if items == [] {
      NoItems(n, tail, strict);
    } else if n < ItemEnd(items[0]) {
      FirstItemCut(items, n, tail, strict);
    } else {
      var n' := ItemNext(items, n);
      ItemsTruncate(items[1..], n', tail, strict);
      ItemsRest(items, n);
      ItemsCons(Value(items[0].value), CutItems(items[1..], n'), items, n, strict);
      EscapeInItems(items, n, tail);
    }
  }

  lemma NoItems(n: nat, tail: string, strict: bool)
    ensures Decides(TruncatesItems(CutItems([], n), [], n, strict), EscapeAt(DArr([], tail), n + 1), strict)
  {
  }

  lemma EscapeInItems(items: seq<Item>, n: nat, tail: string)
    requires items != [] && n >= ItemEnd(items[0])
    ensures EscapeAt(DArr(items, tail), n + 1) == EscapeAt(DArr(items[1..], tail), ItemNext(items, n) + 1)
  {
    hide WholeItems, ItemRoom, ItemEnd, ItemNext;
    ItemsRest(items, n);
    var k := WholeItems(items, n);
    assert k < |items| ==> items[k] == items[1..][k - 1];
  }

  lemma FirstItemCut(items: seq<Item>, n: nat, tail: string, strict: bool)
    requires ValidItems(items) && items != [] && n < ItemEnd(items[0])
    ensures Decides(TruncatesItems(CutItems(items, n), items, n, strict), EscapeAt(DArr(items, tail), n + 1), strict)
    decreases items, 0
  {
    hide Cut, Truncates, Value, Print, Blank, WholeItems, ItemRoom, CutItems, Decides;
    var r := Minus(n, |items[0].before|);
    ItemsFirst(items, n);
    ValidPrints(items[0].value);
    DocTruncates(items[0].value, r, strict);
    ItemsValid(items, 0);
    assert items[..0] == [];
    NothingShows(items[0].value);
    var vs := CutItems(items, n);
    assert |vs| == 1 ==> vs[..0] == [];
    Always(strict);
  }

  lemma Always(strict: bool)
    ensures Decides(true, None, strict)
  {
  }

  lemma NothingShows(doc: Doc)
    ensures !Shows(doc, 0) && EscapeAt(doc, 0) == None && (ValidDoc(doc) && Print(doc) != [] ==> Cut(doc, 0) == None)
  {
  }

  lemma MembersFirst(ms: seq<Member>, n: nat, out: Dict)
    requires ms != [] && n < MemberEnd(ms[0])
    ensures WholeMembers(ms, n) == 0 && MemberRoom(ms, n) == Minus(n, |Head(ms[0])|)
    ensures ValidMembers(ms) ==>
              CutMembers(ms, n, out) ==
              if n < |Head(ms[0])| then out
              else if Cut(ms[0].value, n - |Head(ms[0])|).Some?
              then Put(out, Decode(ms[0].key), Cut(ms[0].value, n - |Head(ms[0])|).value) else out
  {
    hide Print, Cut, ValidDoc, Blank, Head, Put, Decode;
  }

  function MemberNext(ms: seq<Member>, n: nat): nat
    requires ms != []
  {
    Minus(n, MemberEnd(ms[0]) + |ms[0].after| + |Comma(|ms| > 1)|)
  }

  lemma MembersRest(ms: seq<Member>, n: nat, out: Dict)
    requires ms != [] && n >= MemberEnd(ms[0])
    ensures WholeMembers(ms, n) == 1 + WholeMembers(ms[1..], MemberNext(ms, n))
    ensures MemberRoom(ms, n) == MemberRoom(ms[1..], MemberNext(ms, n))
    ensures ValidMembers(ms) ==>
              CutMembers(ms, n, out) ==
              CutMembers(ms[1..], MemberNext(ms, n), Put(out, Decode(ms[0].key), Value(ms[0].value)))
  {
    hide Cut, ValidDoc, Blank, Value, Print, Put, Decode;
    if ms[1..] != [] { assert |Head(ms[1])| > 0; }
  }

  lemma EntriesTake(ms: seq<Member>, k: nat, out: Dict)
    requires ValidMembers(ms) && ms != [] && 1 <= k <= |ms|
    ensures ValidMembers(ms[..k]) && ValidMembers(ms[1..][..k - 1])
    ensures Entries(ms[..k], out) == Entries(ms[1..][..k - 1], Put(out, Decode(ms[0].key), Value(ms[0].value)))
  {
    hide Value, ValidDoc, Blank, Put, Decode;
    MembersValid(ms, k);
    assert ms[..k][1..] == ms[1..][..k - 1];
  }

  lemma MembersCons(d: Dict, ms: seq<Member>, n: nat, out: Dict, strict: bool)
    requires ValidMembers(ms) && ms != [] && n >= MemberEnd(ms[0])
    ensures var out' := Put(out, Decode(ms[0].key), Value(ms[0].value));
            TruncatesMembers(d, ms, n, out, strict) <==> TruncatesMembers(d, ms[1..], MemberNext(ms, n), out', strict)
  {
    hide Truncates, Value, Entries, WholeMembers, MemberRoom, MemberNext, MemberEnd, ValidDoc, Blank, Shows, Put,
      Decode;
    var k := WholeMembers(ms, n);
    MembersRest(ms, n, out);
    MembersValid(ms, k);
    MembersValid(ms[1..], k - 1);
    EntriesTake(ms, k, out);
    assert k < |ms| ==> ms[k] == ms[1..][k - 1];
  }

  lemma {:induction false} PutGet(out: Dict, key: string, v: Json, w: Json)
    ensures Put(out, key, v) == Put(out, key, w) ==> v == w
    decreases |out|
  {
    if out == [] {
      assert [(key, v)][0] == (key, v) && [(key, w)][0] == (key, w);
    } else if out[0].0 == key {
      assert ([(key, v)] + out[1..])[0] == (key, v) && ([(key, w)] + out[1..])[0] == (key, w);
    } else {
      PutGet(out[1..], key, v, w);
      assert Put(out, key, v)[1..] == Put(out[1..], key, v) && Put(out, key, w)[1..] == Put(out[1..], key, w);
    }
  }

  lemma {:induction false} MembersTruncate(ms: seq<Member>, n: nat, tail: string, out: Dict, strict: bool)
    requires ValidMembers(ms)
    ensures Decides(TruncatesMembers(CutMembers(ms, n, out), ms, n, out, strict), EscapeAt(DObj(ms, tail), n + 1),
                    strict)
    decreases ms, 1
  {
    hide Cut, Truncates, Value, ValidDoc, Print, Blank, Shows, Decides, MemberEnd, Head, Put, Decode;
    if ms == [] {
      NoMembers(n, tail, out, strict);
    } else if n < MemberEnd(ms[0]) {
      FirstMemberCut(ms, n, tail, out, strict);
    } else {
      var out' := Put(out, Decode(ms[0].key), Value(ms[0].value));
      MembersTruncate(ms[1..], MemberNext(ms, n), tail, out', strict);
      MembersRest(ms, n, out);
      MembersCons(CutMembers(ms, n, out), ms, n, out, strict);
      EscapeInMembers(ms, n, tail, out);
    }
  }

  lemma NoMembers(n: nat, tail: string, out: Dict, strict: bool)
    ensures Decides(TruncatesMembers(CutMembers([], n, out), [], n, out, strict), EscapeAt(DObj([], tail), n + 1),
                    strict)
  {
  }

  lemma EscapeInMembers(ms: seq<Member>, n: nat, tail: string, out: Dict)
    requires ms != [] && n >= MemberEnd(ms[0])
    ensures EscapeAt(DObj(ms, tail), n + 1) == EscapeAt(DObj(ms[1..], tail), MemberNext(ms, n) + 1)
  {
    hide WholeMembers, MemberRoom, MemberEnd, MemberNext;
    MembersRest(ms, n, out);
    var k := WholeMembers(ms, n);
    assert k < |ms| ==> ms[k] == ms[1..][k - 1];
  }

  lemma FirstMemberCut(ms: seq<Member>, n: nat, tail: string, out: Dict, strict: bool)
    requires ValidMembers(ms) && ms != [] && n < MemberEnd(ms[0])
    ensures Decides(TruncatesMembers(CutMembers(ms, n, out), ms, n, out, strict), EscapeAt(DObj(ms, tail), n + 1),
                    strict)
    decreases ms, 0
  {
    hide Cut, Truncates, Value, Print, Blank, WholeMembers, MemberRoom, CutMembers, Decides, Put, Decode, Head;
    var m := ms[0];
    var r := Minus(n, |Head(m)|);
    MembersFirst(ms, n, out);
    ValidPrints(m.value);
    DocTruncates(m.value, r, strict);
    MembersValid(ms, 0);
    assert ms[..0] == [];
    NothingShows(m.value);
    Always(strict);
    var cut := Cut(m.value, r);
    if cut.Some? {
      forall v ensures Put(out, Decode(m.key), v) == Put(out, Decode(m.key), cut.value) ==> v == cut.value {
        PutGet(out, Decode(m.key), v, cut.value);
      }
    }
  }

  // --- documents ---

  lemma {:induction false} DocTruncates(doc: Doc, n: nat, strict: bool)
    requires ValidDoc(doc) && n < |Print(doc)|
    ensures Shows(doc, n) <==> Cut(doc, n).Some?
    ensures Cut(doc, n).Some? ==> Decides(Truncates(Cut(doc, n).value, doc, n, strict), EscapeAt(doc, n), strict)
    ensures Cut(doc, n).None? ==> EscapeAt(doc, n) == None
    decreases doc, 0
  {
    hide NumLen, PrintItems, PrintMembers, PrintParts, Decides, TruncatesText, TruncatesItems, TruncatesMembers,
      CutItems, CutMembers, CutParts, ValidItems, ValidMembers, EscapeAt, Print, Blank;
    if n == 0 {
      NothingShows(doc);
    } else {
      Always(strict);
      match doc
      case DStr(ps) => TextTruncates(ps, n - 1, strict);
      case DArr(items, tail) => ItemsTruncate(items, n - 1, tail, strict);
      case DObj(ms, tail) => MembersTruncate(ms, n - 1, tail, [], strict);
      case _ => ScalarTruncates(doc, n, strict);
    }
  }

  lemma ScalarTruncates(doc: Doc, n: nat, strict: bool)
    requires ValidDoc(doc) && n < |Print(doc)| && (doc.DNull? || doc.DBool? || doc.DNum?)
    ensures Shows(doc, n) <==> Cut(doc, n).Some?
    ensures Cut(doc, n).Some? ==> Truncates(Cut(doc, n).value, doc, n, strict)
    ensures EscapeAt(doc, n) == None
  {
    hide NumLen;
    if n == 0 { NoNumber(doc); }
  }

  lemma NoNumber(doc: Doc)
    ensures !Shows(doc, 0)
  {
  }

  // --- the theorem ---

  /** On the first `n` characters of a printed object, at least its opening brace and not its closing
      one, the scan is incomplete. It returns exactly the entries that stand whole and, if anything of
      the next value shows, that value truncated, if and only if the cut does not fall in a `\u` escape
      of a value after its `u`. If it does, the last value begins the true one if and only if the escape
      spells the letter `u` and the digits in sight begin the text behind it. */
  lemma TruncationIsFaithful(before: string, doc: Doc, n: nat)
    requires doc.DObj? && ValidDoc(doc) && Height(doc) <= MAX_DEPTH && 1 <= n < |Print(doc)|
    ensures var r := ObjectFrom(before + Print(doc)[..n], |before| + 1, 0, []);
            && !r.2
            && (Truncates(Obj(r.0), doc, n, true) <==> EscapeAt(doc, n).None?)
            && (Truncates(Obj(r.0), doc, n, false) <==> EscapeAt(doc, n).None? || ReadsOn(EscapeAt(doc, n).value))
  {
    hide ObjectFrom, Print, Cut, Truncates, EscapeAt, ReadsOn;
    ObjectCut(before, doc, n);
    DocTruncates(doc, n, true);
    DocTruncates(doc, n, false);
  }

  /** The object {"k":"\u0041"} cut after `\u0` is read as having "u0", which its value "A" does not begin
      with. */
  lemma CutEscapeInvents(before: string)
    ensures var doc := DObj([Member("", [Plain('k')], "", "", DStr([Unicode("0041")]), "")], "");
            && ValidDoc(doc) && Value(doc) == Obj([("k", Str("A"))]) && 9 < |Print(doc)|
            && ObjectFrom(before + Print(doc)[..9], |before| + 1, 0, []).0 == [("k", Str("u0"))]
            && !Truncates(Obj([("k", Str("u0"))]), doc, 9, false)
  {
    var ps := [Unicode("0041")];
    var m := Member("", [Plain('k')], "", "", DStr(ps), "");
    var doc := DObj([m], "");
    ExampleMember(ps, m);
    ExampleObject(m);
    ObjectCut(before, doc, 9);
    TruncationIsFaithful(before, doc, 9);
  }

  lemma ExampleMember(ps: seq<Part>, m: Member)
    requires ps == [Unicode("0041")] && m == Member("", [Plain('k')], "", "", DStr(ps), "")
    ensures ValidHead(m) && ValidDoc(m.value) && Blank(m.after) && Height(m.value) == 0
    ensures |Head(m)| == 4 && |Print(m.value)| == 8
    ensures Decode(m.key) == "k" && Value(m.value) == Str("A") && Cut(m.value, 4) == Some(Str("u0"))
    ensures EscapeAt(m.value, 4).Some? && EscapeAt(m.value, 4).value.part == ps[0] && !SpellsU(ps[0])
  {
    var hex := "0041";
    assert HexDigit('0') == Some(0) && HexDigit('4') == Some(4) && HexDigit('1') == Some(1);
    assert HexChar(hex) == Some('A');
    assert ps[1..] == [] && m.key[1..] == [];
    assert Decode(ps) == "A" && Decode(m.key) == "k";
    assert CutParts(ps, 3) == "u" + hex[..1] == "u0";
    assert PrintParts(ps, "\"") == "\\u" + hex + "\"";
  }

  lemma ExampleObject(m: Member)
    requires ValidHead(m) && ValidDoc(m.value) && Blank(m.after) && Height(m.value) == 0
    requires |Head(m)| == 4 && |Print(m.value)| == 8
    requires Decode(m.key) == "k" && Value(m.value) == Str("A") && Cut(m.value, 4) == Some(Str("u0"))
    requires EscapeAt(m.value, 4).Some? && !SpellsU(EscapeAt(m.value, 4).value.part)
    ensures var doc := DObj([m], "");
            && ValidDoc(doc) && Value(doc) == Obj([("k", Str("A"))]) && 9 < |Print(doc)| && Height(doc) <= MAX_DEPTH
            && Cut(doc, 9) == Some(Obj([("k", Str("u0"))])) && EscapeAt(doc, 9) == EscapeAt(m.value, 4)
  {
    hide Head, Decode, PrintParts, ValidParts;
    var ms := [m];
    var doc := DObj(ms, "");
    assert ms[1..] == [];
    assert ValidMembers(ms[1..]) && ValidMembers(ms);
    assert Print(doc) == "{" + PrintMembers(ms, "" + "}");
    var rest := Comma(false) + PrintMembers(ms[1..], "" + "}");
    assert PrintMembers(ms, "" + "}") == Head(m) + (Print(m.value) + (m.after + rest));
    assert MembersHeight(ms) == Max(1 + Height(m.value), MembersHeight(ms[1..]));
    assert MAX_DEPTH >= 1;
    assert Entries(ms, []) == Put([], Decode(m.key), Value(m.value));
    assert CutMembers(ms, 8, []) == Put([], "k", Str("u0"));
    assert WholeMembers(ms, 8) == 0 && MemberRoom(ms, 8) == 4;
  }
}
