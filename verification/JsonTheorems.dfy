/** The scanner inverts the printer on whole documents, and on every cut document returns exactly
    what the visible text shows. */
module JsonTheorems {
  import opened Text
  import opened JsonScan
  import opened JsonDocs

  // --- one step of a scan ---

  lemma {:induction false} WsSkips(t: string, i: nat, w: string)
    requires At(t, i, w) && Blank(w)
    ensures WsEnd(t, i) == WsEnd(t, i + |w|)
    decreases |w|
  {
    if w != [] {
      AtSplit(t, i, w[..1], w[1..]);
      assert w == w[..1] + w[1..];
      assert t[i] == t[i..i + |w|][0] == w[0];
      WsSkips(t, i + 1, w[1..]);
    }
  }

  lemma WsCut(t: string, i: nat, w: string)
    requires CutAt(t, i, w) && Blank(w)
    ensures WsEnd(t, i) == |t|
  {
    assert At(t, i, t[i..]);
    forall k | 0 <= k < |t| - i ensures IsWs(t[i..][k]) {
      assert t[i..][k] == w[k];
    }
    WsSkips(t, i, t[i..]);
  }

  lemma ValueSkips(t: string, i: nat, w: string, depth: nat)
    requires At(t, i, w) && Blank(w)
    ensures ValueFrom(t, i, depth) == ValueFrom(t, i + |w|, depth)
  {
    hide ObjectFrom, ArrayFrom, StringFrom, NumLen, WsEnd;
    WsSkips(t, i, w);
  }

  lemma ObjectSkips(t: string, i: nat, w: string, depth: nat, out: Dict)
    requires At(t, i, w) && Blank(w)
    ensures ObjectFrom(t, i, depth, out) == ObjectFrom(t, i + |w|, depth, out)
  {
    hide ValueFrom, StringFrom, WsEnd;
    WsSkips(t, i, w);
  }

  lemma ArraySkips(t: string, i: nat, w: string, depth: nat, out: seq<Json>)
    requires At(t, i, w) && Blank(w)
    ensures ArrayFrom(t, i, depth, out) == ArrayFrom(t, i + |w|, depth, out)
  {
    hide ValueFrom, WsEnd;
    WsSkips(t, i, w);
  }

  /** What follows a child inside a container: blanks, then perhaps a comma. */
  lemma ObjectSeparator(t: string, i: nat, w: string, more: bool, depth: nat, out: Dict)
    requires At(t, i, w + Comma(more)) && Blank(w)
    ensures ObjectFrom(t, i, depth, out) == ObjectFrom(t, i + |w| + |Comma(more)|, depth, out)
  {
    hide ValueFrom, StringFrom;
    AtSplit(t, i, w, Comma(more));
    ObjectSkips(t, i, w, depth, out);
    if more {
      assert t[i + |w|..i + |w| + 1][0] == ',';
    }
  }

  lemma ArraySeparator(t: string, i: nat, w: string, more: bool, depth: nat, out: seq<Json>)
    requires At(t, i, w + Comma(more)) && Blank(w)
    ensures ArrayFrom(t, i, depth, out) == ArrayFrom(t, i + |w| + |Comma(more)|, depth, out)
  {
    hide ValueFrom;
    AtSplit(t, i, w, Comma(more));
    ArraySkips(t, i, w, depth, out);
    if more {
      assert t[i + |w|..i + |w| + 1][0] == ',';
    }
  }

  /** A separator the text ends in leaves the container as it is, unfinished. */
  lemma SeparatorCut(t: string, i: nat, w: string, more: bool, depth: nat)
    requires CutAt(t, i, w + Comma(more)) && Blank(w)
    ensures forall out :: ObjectFrom(t, i, depth, out) == (out, |t|, false)
    ensures forall out :: ArrayFrom(t, i, depth, out) == (out, |t|, false)
  {
    hide ValueFrom, StringFrom;
    CutSplit(t, i, w, Comma(more));
    if At(t, i, w) {
      WsSkips(t, i, w);
    } else {
      WsCut(t, i, w);
    }
  }

  // --- strings ---

  lemma StringStep(t: string, i: nat, p: Part, buf: string)
    requires ValidPart(p) && At(t, i, PrintPart(p))
    ensures StringFrom(t, i, buf) == StringFrom(t, i + |PrintPart(p)|, buf + [PartChar(p)])
  {
    var here := t[i..i + |PrintPart(p)|];
    assert here[0] == t[i];
    match p
    case Plain(_) =>
    case Escaped(_) => assert here[1] == t[i + 1];
    case Unicode(hex) =>
      assert here[1] == t[i + 1];
      assert t[i + 2..i + 6] == here[2..] == hex;
  }

  lemma StringClose(t: string, i: nat, buf: string)
    requires At(t, i, "\"")
    ensures StringFrom(t, i, buf) == (buf, i + 1, true)
  {
    FirstAt(t, i, "\"");
  }

  lemma {:induction false} StringWhole(t: string, i: nat, ps: seq<Part>, buf: string)
    requires ValidParts(ps) && At(t, i, PrintParts(ps, "\""))
    ensures StringFrom(t, i, buf) == (buf + Decode(ps), i + |PrintParts(ps, "\"")|, true)
    decreases |ps|
  {
    hide StringFrom, At;
    if ps == [] {
      StringClose(t, i, buf);
      EmptyUnit(buf);
    } else {
      var p := ps[0];
      AtSplit(t, i, PrintPart(p), PrintParts(ps[1..], "\""));
      StringStep(t, i, p, buf);
      StringWhole(t, i + |PrintPart(p)|, ps[1..], buf + [PartChar(p)]);
      Assoc(buf, [PartChar(p)], Decode(ps[1..]));
    }
  }

  /** Plain characters up to the end of the text. */
  lemma {:induction false} StringTail(t: string, i: nat, buf: string)
    requires i <= |t| && forall k :: i <= k < |t| ==> t[k] != '"' && t[k] != '\\'
    ensures StringFrom(t, i, buf) == (buf + t[i..], |t|, false)
    decreases |t| - i
  {
    if i < |t| {
      StringTail(t, i + 1, buf + [t[i]]);
      assert buf + [t[i]] + t[i + 1..] == buf + t[i..];
    } else {
      assert buf + t[i..] == buf;
    }
  }

  lemma PartCut(t: string, i: nat, p: Part, buf: string)
    requires ValidPart(p) && CutAt(t, i, PrintPart(p))
    ensures StringFrom(t, i, buf) == (buf + CutParts([p], |t| - i), |t|, false)
  {
    hide HexChar;
    var n := |t| - i;
    assert buf + "" == buf;
    if n > 0 {
      assert !p.Plain? && t[i] == t[i..][0] == '\\';
      if n > 1 {
        assert t[i + 1] == t[i..][1] == 'u';
        assert t[i + 2..] == t[i..][2..] == p.hex[..n - 2];
        forall k | i + 2 <= k < |t| ensures t[k] != '"' && t[k] != '\\' {
          assert t[k] == p.hex[k - i - 2];
          HexIsPlain(p.hex, k - i - 2);
        }
        StringTail(t, i + 2, buf + ['u']);
        assert buf + ['u'] + t[i + 2..] == buf + ("u" + p.hex[..n - 2]);
      }
    }
  }

  lemma HexIsPlain(hex: string, k: nat)
    requires |hex| == 4 && HexChar(hex).Some? && k < 4
    ensures hex[k] != '"' && hex[k] != '\\'
  {
  }

  lemma {:induction false} StringCut(t: string, i: nat, ps: seq<Part>, buf: string)
    requires ValidParts(ps) && CutAt(t, i, PrintParts(ps, "\""))
    ensures StringFrom(t, i, buf) == (buf + CutParts(ps, |t| - i), |t|, false)
    decreases |ps|
  {
    hide StringFrom, At, CutAt, HexChar, PrintPart;
    CutBounds(t, i, PrintParts(ps, "\""));
    if ps == [] {
      StringTail(t, i, buf);
      assert t[i..] == "";
    } else {
      var p := ps[0];
      var n := i + |PrintPart(p)|;
      CutSplit(t, i, PrintPart(p), PrintParts(ps[1..], "\""));
      if CutAt(t, i, PrintPart(p)) {
        CutBounds(t, i, PrintPart(p));
        PartCut(t, i, p, buf);
      } else {
        CutBounds(t, n, PrintParts(ps[1..], "\""));
        StringStep(t, i, p, buf);
        StringCut(t, n, ps[1..], buf + [PartChar(p)]);
        Assoc(buf, [PartChar(p)], CutParts(ps[1..], |t| - n));
      }
    }
  }

  // --- numbers ---

  /** A character that cannot continue a number. */
  predicate Stops(c: char) {
    !IsDigit(c) && c != '.' && c != 'e' && c != 'E' && c != '+' && c != '-'
  }

  lemma DigitsStop(a: string, rest: string)
    requires rest == [] || !IsDigit(rest[0])
    ensures DigitsLen(a + rest) == DigitsLen(a)
  {
    if a == [] {
      assert a + rest == rest;
    } else {
      assert (a + rest)[1..] == a[1..] + rest;
      DigitsStop(a[1..], rest);
    }
  }

  lemma NumberStops(l: string, rest: string)
    requires IsNumber(l) && (rest == [] || Stops(rest[0]))
    ensures NumLen(l + rest) == |l|
  {
    hide DigitsLen, IntLen, FracLen, ExpLen;
    var s := l + rest;
    var sign := if l[0] == '-' then 1 else 0;
    assert s[sign..] == l[sign..] + rest;
    IntegerStops(l[sign..], rest);
    var n := sign + IntLen(l[sign..]);
    assert s[n..] == l[n..] + rest;
    FractionStops(l[n..], rest);
    var f := n + FracLen(l[n..]);
    assert s[f..] == l[f..] + rest;
    ExponentStops(l[f..], rest);
  }

  lemma IntegerStops(a: string, rest: string)
    requires rest == [] || Stops(rest[0])
    ensures IntLen(a + rest) == IntLen(a)
  {
    DigitsStop(a, rest);
  }

  lemma FractionStops(f: string, rest: string)
    requires rest == [] || Stops(rest[0])
    ensures FracLen(f + rest) == FracLen(f)
  {
    hide DigitsLen;
    if f == [] {
      assert f + rest == rest;
    } else {
      DigitsStop(f[1..], rest);
      assert (f + rest)[1..] == f[1..] + rest;
    }
  }

  lemma ExponentStops(e: string, rest: string)
    requires rest == [] || Stops(rest[0])
    ensures ExpLen(e + rest) == ExpLen(e)
  {
    hide DigitsLen;
    if e == [] {
      assert e + rest == rest;
    } else if e[0] == 'e' || e[0] == 'E' {
      var s := e + rest;
      var sign := if |e| >= 2 && (e[1] == '+' || e[1] == '-') then 1 else 0;
      assert sign == if |s| >= 2 && (s[1] == '+' || s[1] == '-') then 1 else 0;
      assert s[1 + sign..] == e[1 + sign..] + rest;
      DigitsStop(e[1 + sign..], rest);
    }
  }

  lemma NumberStart(l: string)
    requires IsNumber(l)
    ensures l[0] == '-' || IsDigit(l[0])
  {
  }

  lemma NumberFrom(t: string, i: nat, depth: nat)
    requires i < |t| && (t[i] == '-' || IsDigit(t[i])) && depth <= MAX_DEPTH
    ensures var k := NumLen(t[i..]);
            ValueFrom(t, i, depth) == if k == 0 then (None, i, false) else (Some(Num(t[i..i + k])), i + k, i + k < |t|)
  {
    hide ObjectFrom, ArrayFrom, StringFrom, NumLen;
    assert !StartsWith(t, i, "true") && !StartsWith(t, i, "false") && !StartsWith(t, i, "null");
  }

  /** The number is read in full, and is complete unless the text ends with it. */
  lemma NumberWhole(t: string, i: nat, l: string, depth: nat)
    requires IsNumber(l) && At(t, i, l) && (i + |l| == |t| || Stops(t[i + |l|])) && depth <= MAX_DEPTH
    ensures ValueFrom(t, i, depth) == (Some(Num(l)), i + |l|, i + |l| < |t|)
  {
    hide ValueFrom, NumLen;
    NumberStart(l);
    FirstAt(t, i, l);
    assert t[i..] == l + t[i + |l|..];
    NumberStops(l, t[i + |l|..]);
    NumberFrom(t, i, depth);
  }

  // --- whole documents ---

  /** What may follow a child: a blank, a comma or a closing bracket. */
  predicate Delimiter(c: char) {
    IsWs(c) || c == ',' || c == '}' || c == ']'
  }

  lemma AfterChild(t: string, i: nat, w: string, more: bool, rest: string)
    requires Blank(w) && At(t, i, w + (Comma(more) + rest)) && (!more ==> rest != [] && Delimiter(rest[0]))
    ensures i < |t| && Delimiter(t[i])
  {
    var s := w + (Comma(more) + rest);
    assert t[i] == t[i..i + |s|][0] == s[0];
  }

  lemma EndDelimits(ms: seq<Member>, items: seq<Item>, tail: string, close: string)
    requires Blank(tail) && (close == "}" || close == "]")
    ensures ms == [] ==> var r := PrintMembers(ms, tail + close); r != [] && Delimiter(r[0])
    ensures items == [] ==> var r := PrintItems(items, tail + close); r != [] && Delimiter(r[0])
  {
  }

  lemma FirstChar(doc: Doc)
    requires ValidDoc(doc)
    ensures Print(doc) != [] && !IsWs(Print(doc)[0])
  {
    if doc.DNum? { NumberStart(doc.lexeme); }
  }

  /** On a whole document the scanner returns its value and its end; a number is complete only if text
      follows it. A document nested too deep is never complete. */
  lemma {:induction false} ValueWhole(t: string, i: nat, doc: Doc, depth: nat)
    requires ValidDoc(doc) && At(t, i, Print(doc))
    requires var e := i + |Print(doc)|; e == |t| || Delimiter(t[e]) || !doc.DNum?
    ensures depth + Height(doc) <= MAX_DEPTH ==>
              var e := i + |Print(doc)|;
              ValueFrom(t, i, depth) == (Some(Value(doc)), e, e < |t| || !doc.DNum?)
    ensures depth + Height(doc) > MAX_DEPTH ==> !ValueFrom(t, i, depth).2
    decreases doc, 0
  {
    hide ObjectFrom, ArrayFrom, StringFrom, NumLen, PrintMembers, PrintItems, PrintParts, ValueFrom;
    FirstChar(doc);
    assert t[i] == t[i..i + |Print(doc)|][0] == Print(doc)[0];
    ValueOpens(t, i, depth);
    if depth <= MAX_DEPTH {
      match doc
      case DNull =>
      case DBool(_) =>
      case DNum(l) => NumberWhole(t, i, l, depth);
      case DStr(ps) =>
        AtSplit(t, i, "\"", PrintParts(ps, "\""));
        StringWhole(t, i + 1, ps, "");
        EmptyUnit(Decode(ps));
      case DArr(items, tail) =>
        AtSplit(t, i, "[", PrintItems(items, tail + "]"));
        ItemsWhole(t, i + 1, items, tail, depth, []);
        EmptyUnit(Values(items));
      case DObj(ms, tail) =>
        AtSplit(t, i, "{", PrintMembers(ms, tail + "}"));
        MembersWhole(t, i + 1, ms, tail, depth, []);
    }
  }

  /** The first character decides how a value is read; a literal is read at once. */
  lemma ValueOpens(t: string, i: nat, depth: nat)
    requires i < |t| && !IsWs(t[i])
    ensures depth > MAX_DEPTH ==> !ValueFrom(t, i, depth).2
    ensures depth <= MAX_DEPTH && t[i] == '"' ==>
              var r := StringFrom(t, i + 1, ""); ValueFrom(t, i, depth) == (Some(Str(r.0)), r.1, r.2)
    ensures depth <= MAX_DEPTH && t[i] == '{' ==>
              var r := ObjectFrom(t, i + 1, depth, []); ValueFrom(t, i, depth) == (Some(Obj(r.0)), r.1, r.2)
    ensures depth <= MAX_DEPTH && t[i] == '[' ==>
              var r := ArrayFrom(t, i + 1, depth, []); ValueFrom(t, i, depth) == (Some(Arr(r.0)), r.1, r.2)
    ensures depth <= MAX_DEPTH && At(t, i, "null") ==> ValueFrom(t, i, depth) == (Some(Null), i + 4, true)
    ensures depth <= MAX_DEPTH && At(t, i, "true") ==> ValueFrom(t, i, depth) == (Some(Bool(true)), i + 4, true)
    ensures depth <= MAX_DEPTH && At(t, i, "false") ==> ValueFrom(t, i, depth) == (Some(Bool(false)), i + 5, true)
  {
    hide ObjectFrom, ArrayFrom, StringFrom, NumLen;
    assert At(t, i, "null") ==> t[i..i + 4][0] == t[i];
    assert At(t, i, "true") ==> t[i..i + 4][0] == t[i];
    assert At(t, i, "false") ==> t[i..i + 5][0] == t[i];
  }

  /** Where the pieces of a container's text stand. */
  lemma ItemsAt(t: string, i: nat, items: seq<Item>, tail: string)
    requires ValidItems(items) && Blank(tail) && items != [] && At(t, i, PrintItems(items, tail + "]"))
    ensures var it := items[0];
            var p := i + |it.before|;
            var q := p + |Print(it.value)|;
            var n := q + |it.after| + |Comma(|items| > 1)|;
            && At(t, i, it.before) && At(t, p, Print(it.value)) && At(t, q, it.after + Comma(|items| > 1))
            && At(t, n, PrintItems(items[1..], tail + "]"))
            && q < |t| && Delimiter(t[q])
            && i + |PrintItems(items, tail + "]")| == n + |PrintItems(items[1..], tail + "]")|
  {
    hide At, Print, Delimiter, Blank, ValidDoc;
    var it := items[0];
    var rest := PrintItems(items[1..], tail + "]");
    var c := Comma(|items| > 1);
    AtSplit(t, i, it.before, Print(it.value) + (it.after + (c + rest)));
    AtSplit(t, i + |it.before|, Print(it.value), it.after + (c + rest));
    var q := i + |it.before| + |Print(it.value)|;
    EndDelimits([], items[1..], tail, "]");
    AfterChild(t, q, it.after, |items| > 1, rest);
    Assoc(it.after, c, rest);
    AtSplit(t, q, it.after + c, rest);
  }

  lemma MembersAt(t: string, i: nat, ms: seq<Member>, tail: string)
    requires ValidMembers(ms) && Blank(tail) && ms != [] && At(t, i, PrintMembers(ms, tail + "}"))
    ensures var m := ms[0];
            var p := i + |Head(m)|;
            var q := p + |Print(m.value)|;
            var n := q + |m.after| + |Comma(|ms| > 1)|;
            && At(t, i, Head(m)) && At(t, p, Print(m.value)) && At(t, q, m.after + Comma(|ms| > 1))
            && At(t, n, PrintMembers(ms[1..], tail + "}"))
            && q < |t| && Delimiter(t[q])
            && i + |PrintMembers(ms, tail + "}")| == n + |PrintMembers(ms[1..], tail + "}")|
  {
    hide At, Head, Print, Delimiter, Blank, ValidDoc, ValidHead;
    var m := ms[0];
    var rest := PrintMembers(ms[1..], tail + "}");
    var c := Comma(|ms| > 1);
    AtSplit(t, i, Head(m), Print(m.value) + (m.after + (c + rest)));
    AtSplit(t, i + |Head(m)|, Print(m.value), m.after + (c + rest));
    var q := i + |Head(m)| + |Print(m.value)|;
    EndDelimits(ms[1..], [], tail, "}");
    AfterChild(t, q, m.after, |ms| > 1, rest);
    Assoc(m.after, c, rest);
    AtSplit(t, q, m.after + c, rest);
  }

  lemma ItemsEndWhole(t: string, i: nat, tail: string, depth: nat, out: seq<Json>)
    requires Blank(tail) && At(t, i, tail + "]")
    ensures ArrayFrom(t, i, depth, out) == (out, i + |tail| + 1, true)
  {
    hide ArrayFrom, At;
    AtSplit(t, i, tail, "]");
    ArraySkips(t, i, tail, depth, out);
    FirstAt(t, i + |tail|, "]");
    ArrayEnd(t, i + |tail|, depth, out);
  }

  lemma {:induction false} ItemsWhole(t: string, i: nat, items: seq<Item>, tail: string, depth: nat, out: seq<Json>)
    requires ValidItems(items) && Blank(tail) && At(t, i, PrintItems(items, tail + "]")) && depth <= MAX_DEPTH
    ensures depth + ItemsHeight(items) <= MAX_DEPTH ==>
              ArrayFrom(t, i, depth, out) == (out + Values(items), i + |PrintItems(items, tail + "]")|, true)
    ensures depth + ItemsHeight(items) > MAX_DEPTH ==> !ArrayFrom(t, i, depth, out).2
    decreases items, 1
  {
    hide ValueFrom, WsEnd, ArrayFrom, Print, At, Delimiter, Blank, ValidDoc, IsWs, Height, Value;
    if items == [] {
      ItemsEndWhole(t, i, tail, depth, out);
      EmptyUnit(out);
    } else {
      hide PrintItems;
      var it := items[0];
      ItemsAt(t, i, items, tail);
      ItemsFacts(items);
      hide ValidItems, ItemsHeight, Values;
      var p := i + |it.before|;
      var q := p + |Print(it.value)|;
      ArraySkips(t, i, it.before, depth, out);
      ItemWhole(t, p, it.value, depth, out);
      var out' := out + [Value(it.value)];
      ArraySeparator(t, q, it.after, |items| > 1, depth, out');
      ItemsWhole(t, q + |it.after| + |Comma(|items| > 1)|, items[1..], tail, depth, out');
      Assoc(out, [Value(it.value)], Values(items[1..]));
    }
  }

  lemma ItemsFacts(items: seq<Item>)
    requires ValidItems(items) && items != []
    ensures var it := items[0];
            && Blank(it.before) && ValidDoc(it.value) && Blank(it.after) && ValidItems(items[1..])
            && ItemsHeight(items) == Max(1 + Height(it.value), ItemsHeight(items[1..]))
            && Values(items) == [Value(it.value)] + Values(items[1..])
  {
    hide ValidDoc, Blank, Height, Value;
  }

  /** An array in which a whole child stands goes on behind it. */
  lemma ItemWhole(t: string, p: nat, doc: Doc, depth: nat, out: seq<Json>)
    requires ValidDoc(doc) && At(t, p, Print(doc))
    requires var q := p + |Print(doc)|; q == |t| || Delimiter(t[q])
    ensures depth + 1 + Height(doc) <= MAX_DEPTH ==>
              var q := p + |Print(doc)|;
              var out' := out + [Value(doc)];
              ArrayFrom(t, p, depth, out) ==
              if q < |t| || !doc.DNum? then ArrayFrom(t, q, depth, out') else (out', q, false)
    ensures depth + 1 + Height(doc) > MAX_DEPTH ==> !ArrayFrom(t, p, depth, out).2
    decreases doc, 1
  {
    hide ValueFrom, ArrayFrom, Print, At, Delimiter, ValidDoc, IsWs, Height, Value;
    ValueWhole(t, p, doc, depth + 1);
    FirstChar(doc);
    FirstAt(t, p, Print(doc));
    ArrayItem(t, p, doc, depth, out);
  }

  lemma ArrayEnd(t: string, i: nat, depth: nat, out: seq<Json>)
    requires i < |t| && t[i] == ']'
    ensures ArrayFrom(t, i, depth, out) == (out, i + 1, true)
  {
  }

  lemma ObjectEnd(t: string, i: nat, depth: nat, out: Dict)
    requires i < |t| && t[i] == '}'
    ensures ObjectFrom(t, i, depth, out) == (out, i + 1, true)
  {
  }

  lemma ArrayItem(t: string, i: nat, doc: Doc, depth: nat, out: seq<Json>)
    requires ValidDoc(doc) && i < |t| && t[i] == Print(doc)[0]
    ensures var v := ValueFrom(t, i, depth + 1);
            var out' := if v.0.Some? then out + [v.0.value] else out;
            ArrayFrom(t, i, depth, out) == if v.2 then ArrayFrom(t, v.1, depth, out') else (out', v.1, false)
  {
    hide ValueFrom, NumLen, PrintItems, PrintMembers;
    FirstChar(doc);
    if doc.DNum? { NumberStart(doc.lexeme); }
  }

  /** An object in which the head of a member has been read goes on with the member's value. */
  lemma ObjectMember(t: string, i: nat, m: Member, depth: nat, out: Dict)
    requires ValidHead(m) && At(t, i, Head(m))
    ensures var v := ValueFrom(t, i + |Head(m)|, depth + 1);
            var out' := if v.0.Some? then Put(out, Decode(m.key), v.0.value) else out;
            ObjectFrom(t, i, depth, out) == if v.2 then ObjectFrom(t, v.1, depth, out') else (out', v.1, false)
  {
    hide ValueFrom, StringFrom, PrintParts, Put, At, Head, Blank, ValidParts, Decode;
    HeadAt(t, i, m);
    var q := i + |m.before|;
    ObjectSkips(t, i, m.before, depth, out);
    StringWhole(t, q + 1, m.key, "");
    EmptyUnit(Decode(m.key));
    var k := q + |Quoted(m.key)|;
    WsSkips(t, k, m.mid1);
    var colon := k + |m.mid1|;
    ValueSkips(t, colon + 1, m.mid2, depth + 1);
    assert WsEnd(t, q) == q && WsEnd(t, colon) == colon;
  }

  lemma HeadAt(t: string, i: nat, m: Member)
    requires At(t, i, Head(m))
    ensures var q := i + |m.before|;
            var k := q + |Quoted(m.key)|;
            var colon := k + |m.mid1|;
            && At(t, i, m.before) && At(t, q, Quoted(m.key)) && At(t, q + 1, PrintParts(m.key, "\""))
            && At(t, k, m.mid1)
            && colon < |t| && t[q] == '"' && t[colon] == ':' && At(t, colon + 1, m.mid2)
            && |Head(m)| == colon + 1 + |m.mid2| - i
  {
    hide PrintParts, At;
    var q := i + |m.before|;
    AtSplit(t, i, m.before, Quoted(m.key) + (m.mid1 + (":" + m.mid2)));
    AtSplit(t, q, Quoted(m.key), m.mid1 + (":" + m.mid2));
    AtSplit(t, q, "\"", PrintParts(m.key, "\""));
    var k := q + |Quoted(m.key)|;
    AtSplit(t, k, m.mid1, ":" + m.mid2);
    AtSplit(t, k + |m.mid1|, ":", m.mid2);
    FirstAt(t, q, "\"");
    FirstAt(t, k + |m.mid1|, ":");
  }

  lemma {:induction false} MembersWhole(t: string, i: nat, ms: seq<Member>, tail: string, depth: nat, out: Dict)
    requires ValidMembers(ms) && Blank(tail) && At(t, i, PrintMembers(ms, tail + "}")) && depth <= MAX_DEPTH
    ensures depth + MembersHeight(ms) <= MAX_DEPTH ==>
              ObjectFrom(t, i, depth, out) == (Entries(ms, out), i + |PrintMembers(ms, tail + "}")|, true)
    ensures depth + MembersHeight(ms) > MAX_DEPTH ==> !ObjectFrom(t, i, depth, out).2
    decreases ms, 1
  {
    hide ValueFrom, WsEnd, ObjectFrom, Print, Head, Put, At, Delimiter, Blank, ValidDoc, ValidParts, IsWs, Height,
      Value, Decode;
    if ms == [] {
      AtSplit(t, i, tail, "}");
      ObjectSkips(t, i, tail, depth, out);
      FirstAt(t, i + |tail|, "}");
      ObjectEnd(t, i + |tail|, depth, out);
    } else {
      hide PrintMembers;
      var m := ms[0];
      MembersAt(t, i, ms, tail);
      var p := i + |Head(m)|;
      var q := p + |Print(m.value)|;
      ValueWhole(t, p, m.value, depth + 1);
      ObjectMember(t, i, m, depth, out);
      var out' := Put(out, Decode(m.key), Value(m.value));
      ObjectSeparator(t, q, m.after, |ms| > 1, depth, out');
      MembersWhole(t, q + |m.after| + |Comma(|ms| > 1)|, ms[1..], tail, depth, out');
    }
  }

  lemma ObjectWhole(t: string, i: nat, doc: Doc)
    requires doc.DObj? && ValidDoc(doc) && At(t, i, Print(doc))
    ensures i < |t| && t[i] == '{'
    ensures var r := ObjectFrom(t, i + 1, 0, []);
            if Height(doc) <= MAX_DEPTH then r == (Value(doc).entries, i + |Print(doc)|, true) else !r.2
  {
    hide ObjectFrom, PrintMembers, At;
    AtSplit(t, i, "{", PrintMembers(doc.members, doc.tail + "}"));
    FirstAt(t, i, "{");
    MembersWhole(t, i + 1, doc.members, doc.tail, 0, []);
  }

  /** The round trip: any text may stand before and after the object. The scan is complete exactly when
      the object is not nested too deep, and then returns its value and its end. */
  lemma ObjectRoundTrip(before: string, doc: Doc, after: string)
    requires doc.DObj? && ValidDoc(doc)
    ensures var t := before + Print(doc) + after;
            var r := ObjectFrom(t, |before| + 1, 0, []);
            && (r.2 <==> Height(doc) <= MAX_DEPTH)
            && (r.2 ==> Obj(r.0) == Value(doc) && r.1 == |before| + |Print(doc)|)
  {
    hide ObjectFrom, Print;
    ObjectWhole(before + Print(doc) + after, |before|, doc);
  }

  // --- objects embedded in prose ---

  datatype Piece = Piece(prose: string, obj: Doc)

  predicate ValidPieces(ps: seq<Piece>) {
    forall k :: 0 <= k < |ps| ==>
                  && BraceFree(ps[k].prose) && ps[k].obj.DObj? && ps[k].obj.members != []
                  && ValidDoc(ps[k].obj) && Height(ps[k].obj) <= MAX_DEPTH
  }

  predicate BraceFree(s: string) {
    forall k :: 0 <= k < |s| ==> s[k] != '{'
  }

  function TextOf(ps: seq<Piece>, end: string): string {
    if ps == [] then end else ps[0].prose + (Print(ps[0].obj) + TextOf(ps[1..], end))
  }

  function Found(ps: seq<Piece>, at: nat): seq<(nat, Dict, bool)>
    requires ValidPieces(ps)
  {
    if ps == [] then []
    else
      var start := at + |ps[0].prose|;
      [(start, Value(ps[0].obj).entries, true)] + Found(ps[1..], start + |Print(ps[0].obj)|)
  }

  lemma BraceAt(t: string, i: nat, prose: string)
    requires At(t, i, prose) && BraceFree(prose)
    requires i + |prose| == |t| || t[i + |prose|] == '{'
    ensures BraceFrom(t, i) == i + |prose|
  {
    assert t[i..i + |prose|] == prose;
  }

  /** Every non-empty object embedded in brace-free prose is found, in order, at its place, complete. */
  lemma {:induction false} RecoversEmbedded(t: string, i: nat, ps: seq<Piece>, end: string)
    requires ValidPieces(ps) && BraceFree(end)
    requires At(t, i, TextOf(ps, end)) && i + |TextOf(ps, end)| == |t|
    ensures ObjectsFrom(t, i, 1) == Found(ps, i)
    decreases |ps|
  {
    hide ObjectFrom, BraceFrom, Print, Put, At, BraceFree, Height, Entries, ValidMembers;
    if ps == [] {
      BraceAt(t, i, end);
    } else {
      var p := ps[0];
      var rest := TextOf(ps[1..], end);
      AtSplit(t, i, p.prose, Print(p.obj) + rest);
      var start := i + |p.prose|;
      AtSplit(t, start, Print(p.obj), rest);
      ObjectWhole(t, start, p.obj);
      BraceAt(t, i, p.prose);
      EntriesGrow(p.obj.members, []);
      RecoversEmbedded(t, start + |Print(p.obj)|, ps[1..], end);
    }
  }

  lemma {:induction false} EntriesGrow(ms: seq<Member>, out: Dict)
    requires ValidMembers(ms)
    ensures ms != [] || out != [] ==> Entries(ms, out) != []
    decreases ms
  {
    if ms != [] {
      EntriesGrow(ms[1..], Put(out, Decode(ms[0].key), Value(ms[0].value)));
    }
  }

  // --- cut documents ---

  lemma DigitsPrefix(a: string, m: nat)
    requires m <= |a|
    ensures DigitsLen(a[..m]) == if m < DigitsLen(a) then m else DigitsLen(a)
  {
    if m > 0 && IsDigit(a[0]) {
      assert a[..m][1..] == a[1..][..m - 1];
      DigitsPrefix(a[1..], m - 1);
    }
  }

  lemma IntegerPrefix(a: string, m: nat)
    requires m <= |a|
    ensures IntLen(a[..m]) == if m < IntLen(a) then m else IntLen(a)
  {
    DigitsPrefix(a, m);
  }

  lemma FractionPrefix(a: string, m: nat)
    requires 0 < m <= |a| && FracLen(a) > 0
    ensures a[0] == '.' && FracLen(a[..m]) == if m == 1 then 0 else if m < FracLen(a) then m else FracLen(a)
  {
    hide DigitsLen;
    if m >= 2 {
      assert a[..m][1..] == a[1..][..m - 1];
      DigitsPrefix(a[1..], m - 1);
    }
  }

  lemma ExponentPrefix(a: string, m: nat)
    requires 0 < m <= |a| && ExpLen(a) == |a|
    ensures (a[0] == 'e' || a[0] == 'E') && (ExpLen(a[..m]) == 0 || ExpLen(a[..m]) == m)
  {
    hide DigitsLen;
    var sign := if |a| >= 2 && (a[1] == '+' || a[1] == '-') then 1 else 0;
    if m > 1 + sign {
      assert a[..m][1 + sign..] == a[1 + sign..][..m - 1 - sign];
      DigitsPrefix(a[1 + sign..], m - 1 - sign);
    } else if m == 1 + sign {
      assert a[..m][1 + sign..] == [];
    }
  }

  /** The number read from a cut lexeme ends where the text ends, or at the point or exponent sign that
      had lost its digits. */
  lemma NumberCut(l: string, n: nat)
    requires IsNumber(l) && 0 < n <= |l|
    ensures var k := NumLen(l[..n]); k == 0 || k == n || l[k] == '.' || l[k] == 'e' || l[k] == 'E'
  {
    hide DigitsLen, IntLen, FracLen, ExpLen;
    var s := l[..n];
    var sign := if l[0] == '-' then 1 else 0;
    assert s[sign..] == l[sign..][..n - sign];
    IntegerPrefix(l[sign..], n - sign);
    var a := sign + IntLen(l[sign..]);
    if n <= a {
      assert s[n..] == [] && FracLen([]) == 0 && ExpLen([]) == 0 by { Nothing(); }
    } else {
      assert s[a..] == l[a..][..n - a];
      if FracLen(l[a..]) > 0 {
        FractionPrefix(l[a..], n - a);
        var f := a + FracLen(l[a..]);
        if n - a == 1 {
          NoExponent(s[a..]);
        } else if n <= f {
          assert s[n..] == [];
          Nothing();
        } else {
          SliceSlice(l, f, n);
          ExponentPrefix(l[f..], n - f);
        }
      } else {
        ExponentPrefix(l[a..], n - a);
        NoFraction(s[a..]);
      }
    }
  }

  lemma SliceSlice(s: string, i: nat, n: nat)
    requires i <= n <= |s|
    ensures s[..n][i..] == s[i..][..n - i]
  {
  }

  lemma Nothing()
    ensures FracLen([]) == 0 && ExpLen([]) == 0
  {
  }

  lemma NoExponent(s: string)
    requires s != [] && s[0] == '.'
    ensures ExpLen(s) == 0
  {
  }

  lemma NoFraction(s: string)
    requires s != [] && s[0] != '.'
    ensures FracLen(s) == 0
  {
  }

  /** After the remains of a number no container reads any further. */
  lemma NumberRemains(t: string, i: nat, depth: nat)
    requires i < |t| && (t[i] == '.' || t[i] == 'e' || t[i] == 'E')
    ensures forall out :: ObjectFrom(t, i, depth, out) == (out, i, false)
    ensures forall out :: ArrayFrom(t, i, depth, out) == (out, i, false)
  {
    hide StringFrom, ValueFrom;
    NoValue(t, i, depth + 1);
  }

  lemma NoValue(t: string, i: nat, depth: nat)
    requires i < |t| && (t[i] == '.' || t[i] == 'e' || t[i] == 'E')
    ensures ValueFrom(t, i, depth) == (None, i, false)
  {
    hide ObjectFrom, ArrayFrom, StringFrom;
    assert t[i..][0..] == t[i..];
    assert NumLen(t[i..]) == 0;
    assert !StartsWith(t, i, "true") && !StartsWith(t, i, "false") && !StartsWith(t, i, "null");
  }

  /** A cut document is read as `Cut` says; a scan that thinks it is complete stands before the remains
      of a number. */
  lemma {:induction false} ValueCut(t: string, i: nat, doc: Doc, depth: nat)
    requires ValidDoc(doc) && CutAt(t, i, Print(doc)) && depth + Height(doc) <= MAX_DEPTH
    ensures var r := ValueFrom(t, i, depth);
            && r.0 == Cut(doc, |t| - i)
            && (r.2 ==> r.1 < |t| && (t[r.1] == '.' || t[r.1] == 'e' || t[r.1] == 'E'))
    decreases doc, 0
  {
    hide ObjectFrom, ArrayFrom, StringFrom, NumLen, PrintMembers, PrintItems, PrintParts, ValueFrom;
    if i == |t| {
      NoValueLeft(t, i, depth);
    } else {
      FirstChar(doc);
      assert t[i] == t[i..][0] == Print(doc)[0];
      ValueOpens(t, i, depth);
      match doc
      case DNull => LiteralCut(t, i, "null", depth);
      case DBool(b) => LiteralCut(t, i, if b then "true" else "false", depth);
      case DNum(l) => NumberValueCut(t, i, l, depth);
      case DStr(ps) =>
        CutSplit(t, i, "\"", PrintParts(ps, "\""));
        StringCut(t, i + 1, ps, "");
        EmptyUnit(CutParts(ps, |t| - i - 1));
      case DArr(items, tail) =>
        CutSplit(t, i, "[", PrintItems(items, tail + "]"));
        ItemsCut(t, i + 1, items, tail, depth, []);
        EmptyUnit(CutItems(items, |t| - i - 1));
      case DObj(ms, tail) =>
        CutSplit(t, i, "{", PrintMembers(ms, tail + "}"));
        MembersCut(t, i + 1, ms, tail, depth, []);
    }
  }

  lemma NoValueLeft(t: string, i: nat, depth: nat)
    requires i == |t|
    ensures ValueFrom(t, i, depth) == (None, i, false)
  {
    hide ObjectFrom, ArrayFrom, StringFrom, NumLen;
  }

  lemma LiteralCut(t: string, i: nat, lit: string, depth: nat)
    requires lit in {"null", "true", "false"} && CutAt(t, i, lit)
    ensures ValueFrom(t, i, depth).0 == None
  {
    hide ObjectFrom, ArrayFrom, StringFrom;
    if i < |t| {
      assert t[i] == t[i..][0] == lit[0];
      assert t[i..][0..] == t[i..];
      assert NumLen(t[i..]) == 0;
      assert !StartsWith(t, i, "true") && !StartsWith(t, i, "false") && !StartsWith(t, i, "null");
    }
  }

  lemma NumberValueCut(t: string, i: nat, l: string, depth: nat)
    requires IsNumber(l) && i < |t| && CutAt(t, i, l) && depth <= MAX_DEPTH
    ensures var r := ValueFrom(t, i, depth);
            && r.0 == Cut(DNum(l), |t| - i)
            && (r.2 ==> r.1 < |t| && (t[r.1] == '.' || t[r.1] == 'e' || t[r.1] == 'E'))
  {
    hide ValueFrom, NumLen;
    NumberStart(l);
    var s := l[..|t| - i];
    assert t[i] == t[i..][0] == l[0];
    NumberFrom(t, i, depth);
    NumberCut(l, |t| - i);
    var k := NumLen(s);
    assert t[i..i + k] == s[..k] == l[..k];
    if 0 < k < |s| {
      assert t[i + k] == t[i..][k] == l[k];
    }
  }

  lemma HeadCut(t: string, i: nat, m: Member, depth: nat, out: Dict)
    requires ValidHead(m) && CutAt(t, i, Head(m))
    ensures var r := ObjectFrom(t, i, depth, out); r.0 == out && !r.2
  {
    hide ValueFrom, StringFrom, PrintParts, Put, At, CutAt, Blank, ValidParts, WsEnd;
    CutSplit(t, i, m.before, Quoted(m.key) + (m.mid1 + (":" + m.mid2)));
    if CutAt(t, i, m.before) {
      WsCut(t, i, m.before);
    } else {
      ObjectSkips(t, i, m.before, depth, out);
      KeyCut(t, i + |m.before|, m, depth, out);
    }
  }

  lemma KeyCut(t: string, i: nat, m: Member, depth: nat, out: Dict)
    requires ValidHead(m) && CutAt(t, i, Quoted(m.key) + (m.mid1 + (":" + m.mid2)))
    ensures var r := ObjectFrom(t, i, depth, out); r.0 == out && !r.2
  {
    hide ValueFrom, ObjectFrom, StringFrom, WsEnd, PrintParts, Put, At, Blank, ValidParts;
    if i < |t| {
      assert t[i] == t[i..][0] == '"';
      CutSplit(t, i, Quoted(m.key), m.mid1 + (":" + m.mid2));
      if CutAt(t, i, Quoted(m.key)) {
        CutSplit(t, i, "\"", PrintParts(m.key, "\""));
        StringCut(t, i + 1, m.key, "");
      } else {
        AtSplit(t, i, "\"", PrintParts(m.key, "\""));
        StringWhole(t, i + 1, m.key, "");
        ColonCut(t, i + |Quoted(m.key)|, m.mid1, m.mid2, depth);
      }
      NoMember(t, i, depth, out);
    } else {
      NothingLeft(t, i, depth, out);
    }
  }

  /** A key that is cut, or that no value follows, adds nothing. */
  lemma NoMember(t: string, i: nat, depth: nat, out: Dict)
    requires i < |t| && t[i] == '"'
    requires var k := StringFrom(t, i + 1, "");
             k.2 ==> var j := WsEnd(t, k.1); j >= |t| || (t[j] == ':' && ValueFrom(t, j + 1, depth + 1).0 == None)
    ensures var r := ObjectFrom(t, i, depth, out); r.0 == out && !r.2
  {
    hide ValueFrom, StringFrom, Put;
    assert WsEnd(t, i) == i;
  }

  lemma NothingLeft(t: string, i: nat, depth: nat, out: Dict)
    requires i == |t|
    ensures ObjectFrom(t, i, depth, out) == (out, i, false)
  {
    hide ValueFrom, StringFrom;
  }

  /** Cut before, at or after the colon: no value follows. */
  lemma ColonCut(t: string, k: nat, mid1: string, mid2: string, depth: nat)
    requires Blank(mid1) && Blank(mid2) && CutAt(t, k, mid1 + (":" + mid2))
    ensures var j := WsEnd(t, k); j >= |t| || (t[j] == ':' && ValueFrom(t, j + 1, depth + 1).0 == None)
  {
    hide ObjectFrom, ArrayFrom, StringFrom, NumLen, Blank;
    CutSplit(t, k, mid1, ":" + mid2);
    if CutAt(t, k, mid1) {
      WsCut(t, k, mid1);
    } else {
      WsSkips(t, k, mid1);
      var j := k + |mid1|;
      if j < |t| {
        assert t[j] == t[j..][0] == ':';
        CutSplit(t, j, ":", mid2);
        WsCut(t, j + 1, mid2);
      }
    }
  }

  lemma CutBounds(t: string, i: nat, s: string)
    requires CutAt(t, i, s)
    ensures i <= |t| < i + |s|
  {
  }

  lemma AfterChildCut(t: string, i: nat, w: string, more: bool, rest: string)
    requires Blank(w) && CutAt(t, i, w + (Comma(more) + rest)) && (!more ==> rest != [] && Delimiter(rest[0]))
    ensures i == |t| || Delimiter(t[i])
  {
    var s := w + (Comma(more) + rest);
    if i < |t| {
      assert t[i] == t[i..][0] == s[0];
    }
  }

  lemma {:induction false} MembersCut(t: string, i: nat, ms: seq<Member>, tail: string, depth: nat, out: Dict)
    requires ValidMembers(ms) && Blank(tail) && CutAt(t, i, PrintMembers(ms, tail + "}"))
    requires depth + MembersHeight(ms) <= MAX_DEPTH
    ensures var r := ObjectFrom(t, i, depth, out); r.0 == CutMembers(ms, |t| - i, out) && !r.2
    decreases ms, 1
  {
    hide ValueFrom, WsEnd, ObjectFrom, Print, Head, Put, At, Delimiter, Blank, ValidDoc, ValidParts, IsWs, Height,
      Value, Decode, Cut;
    if ms == [] {
      TailCut(t, i, tail, "}", depth);
    } else {
      var m := ms[0];
      var rest := PrintMembers(ms[1..], tail + "}");
      var c := Comma(|ms| > 1);
      CutSplit(t, i, Head(m), Print(m.value) + (m.after + (c + rest)));
      if CutAt(t, i, Head(m)) {
        HeadCut(t, i, m, depth, out);
      } else {
        var p := i + |Head(m)|;
        ObjectMember(t, i, m, depth, out);
        CutSplit(t, p, Print(m.value), m.after + (c + rest));
        if CutAt(t, p, Print(m.value)) {
          ValueCut(t, p, m.value, depth + 1);
          var v := ValueFrom(t, p, depth + 1);
          if v.2 { NumberRemains(t, v.1, depth); }
        } else {
          MemberSeen(t, i, ms, tail, depth, out);
        }
      }
    }
  }

  /** The first member is in sight, the cut falls behind it. */
  lemma {:induction false} MemberSeen(t: string, i: nat, ms: seq<Member>, tail: string, depth: nat, out: Dict)
    requires ms != [] && ValidMembers(ms) && Blank(tail) && depth + MembersHeight(ms) <= MAX_DEPTH
    requires var m := ms[0];
             var p := i + |Head(m)|;
             var rest := Comma(|ms| > 1) + PrintMembers(ms[1..], tail + "}");
             At(t, i, Head(m)) && At(t, p, Print(m.value)) && CutAt(t, p + |Print(m.value)|, m.after + rest)
    ensures var r := ObjectFrom(t, i, depth, out); r.0 == CutMembers(ms, |t| - i, out) && !r.2
    decreases ms, 0
  {
    hide ValueFrom, WsEnd, ObjectFrom, Print, Head, Put, At, CutAt, Delimiter, Blank, ValidDoc, ValidParts, IsWs,
      Height, Value, Decode, Cut;
    var m := ms[0];
    var p := i + |Head(m)|;
    var q := p + |Print(m.value)|;
    var rest := PrintMembers(ms[1..], tail + "}");
    var c := Comma(|ms| > 1);
    CutBounds(t, q, m.after + (c + rest));
    EndDelimits(ms[1..], [], tail, "}");
    AfterChildCut(t, q, m.after, |ms| > 1, rest);
    ValueWhole(t, p, m.value, depth + 1);
    ObjectMember(t, i, m, depth, out);
    Assoc(m.after, c, rest);
    CutSplit(t, q, m.after + c, rest);
    var out' := Put(out, Decode(m.key), Value(m.value));
    if CutAt(t, q, m.after + c) {
      CutBounds(t, q, m.after + c);
      SeparatorCut(t, q, m.after, |ms| > 1, depth);
    } else {
      ObjectSeparator(t, q, m.after, |ms| > 1, depth, out');
      CutBounds(t, q + |m.after| + |c|, rest);
      MembersCut(t, q + |m.after| + |c|, ms[1..], tail, depth, out');
    }
  }

  lemma TailCut(t: string, i: nat, tail: string, close: string, depth: nat)
    requires Blank(tail) && CutAt(t, i, tail + close) && |close| == 1
    ensures forall out :: ObjectFrom(t, i, depth, out) == (out, |t|, false)
    ensures forall out :: ArrayFrom(t, i, depth, out) == (out, |t|, false)
  {
    hide ValueFrom, StringFrom;
    CutSplit(t, i, tail, close);
    if At(t, i, tail) {
      WsSkips(t, i, tail);
    } else {
      WsCut(t, i, tail);
    }
  }

  lemma {:induction false} ItemsCut(t: string, i: nat, items: seq<Item>, tail: string, depth: nat, out: seq<Json>)
    requires ValidItems(items) && Blank(tail) && CutAt(t, i, PrintItems(items, tail + "]"))
    requires depth + ItemsHeight(items) <= MAX_DEPTH
    ensures var r := ArrayFrom(t, i, depth, out); r.0 == out + CutItems(items, |t| - i) && !r.2
    decreases items, 1
  {
    hide ValueFrom, WsEnd, ArrayFrom, Print, At, Delimiter, Blank, ValidDoc, IsWs, Height, Value, Cut;
    if items == [] {
      TailCut(t, i, tail, "]", depth);
      EmptyUnit(out);
    } else {
      var it := items[0];
      var rest := PrintItems(items[1..], tail + "]");
      var c := Comma(|items| > 1);
      CutSplit(t, i, it.before, Print(it.value) + (it.after + (c + rest)));
      if CutAt(t, i, it.before) {
        assert it.before == it.before + Comma(false);
        SeparatorCut(t, i, it.before, false, depth);
        EmptyUnit(out);
      } else {
        var p := i + |it.before|;
        ArraySkips(t, i, it.before, depth, out);
        CutSplit(t, p, Print(it.value), it.after + (c + rest));
        if CutAt(t, p, Print(it.value)) {
          ItemCut(t, p, it.value, depth, out);
          EmptyUnit(out);
        } else {
          ItemSeen(t, p, items, tail, depth, out);
        }
      }
    }
  }

  lemma {:induction false} ItemSeen(t: string, p: nat, items: seq<Item>, tail: string, depth: nat, out: seq<Json>)
    requires items != [] && ValidItems(items) && Blank(tail) && depth + ItemsHeight(items) <= MAX_DEPTH
    requires |items[0].before| <= p
    requires var it := items[0];
             var rest := Comma(|items| > 1) + PrintItems(items[1..], tail + "]");
             At(t, p, Print(it.value)) && CutAt(t, p + |Print(it.value)|, it.after + rest)
    ensures var r := ArrayFrom(t, p, depth, out);
            r.0 == out + CutItems(items, |t| - p + |items[0].before|) && !r.2
    decreases items, 0
  {
    hide ValueFrom, WsEnd, ArrayFrom, Print, At, CutAt, Delimiter, Blank, ValidDoc, IsWs, Height, Value, Cut;
    var it := items[0];
    var q := p + |Print(it.value)|;
    var rest := PrintItems(items[1..], tail + "]");
    var c := Comma(|items| > 1);
    CutBounds(t, q, it.after + (c + rest));
    EndDelimits([], items[1..], tail, "]");
    AfterChildCut(t, q, it.after, |items| > 1, rest);
    ItemWhole(t, p, it.value, depth, out);
    Assoc(it.after, c, rest);
    CutSplit(t, q, it.after + c, rest);
    var out' := out + [Value(it.value)];
    var n := q + |it.after| + |c|;
    if CutAt(t, q, it.after + c) {
      CutBounds(t, q, it.after + c);
      SeparatorCut(t, q, it.after, |items| > 1, depth);
      EmptyUnit([Value(it.value)]);
    } else {
      ArraySeparator(t, q, it.after, |items| > 1, depth, out');
      CutBounds(t, n, rest);
      ItemsCut(t, n, items[1..], tail, depth, out');
      Assoc(out, [Value(it.value)], CutItems(items[1..], |t| - n));
    }
  }

  lemma ItemCut(t: string, p: nat, doc: Doc, depth: nat, out: seq<Json>)
    requires ValidDoc(doc) && CutAt(t, p, Print(doc)) && depth + 1 + Height(doc) <= MAX_DEPTH
    ensures var r := ArrayFrom(t, p, depth, out);
            var v := Cut(doc, |t| - p);
            r.0 == (if v.Some? then out + [v.value] else out) && !r.2
    decreases doc, 1
  {
    hide ValueFrom, Print, Height, Cut;
    ValueCut(t, p, doc, depth + 1);
    if p < |t| {
      FirstChar(doc);
      assert t[p] == t[p..][0];
      ArrayItem(t, p, doc, depth, out);
      var v := ValueFrom(t, p, depth + 1);
      if v.2 { NumberRemains(t, v.1, depth); }
    } else {
      NothingCut(t, doc, depth);
    }
  }

  lemma NothingCut(t: string, doc: Doc, depth: nat)
    requires ValidDoc(doc) && Print(doc) != []
    ensures Cut(doc, 0) == None && forall out :: ArrayFrom(t, |t|, depth, out) == (out, |t|, false)
  {
  }

  /** On the first `n` characters of a printed object, at least its opening brace and not its closing
      one, the scan is incomplete and returns exactly the cut. */
  lemma ObjectCut(before: string, doc: Doc, n: nat)
    requires doc.DObj? && ValidDoc(doc) && Height(doc) <= MAX_DEPTH && 1 <= n < |Print(doc)|
    ensures var r := ObjectFrom(before + Print(doc)[..n], |before| + 1, 0, []);
            !r.2 && Cut(doc, n) == Some(Obj(r.0))
  {
    hide ObjectFrom, PrintMembers, CutMembers;
    var t := before + Print(doc)[..n];
    assert t[|before|..] == Print(doc)[..n];
    CutSplit(t, |before|, "{", PrintMembers(doc.members, doc.tail + "}"));
    MembersCut(t, |before| + 1, doc.members, doc.tail, 0, []);
  }
}
