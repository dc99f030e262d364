/** The truncation-tolerant JSON scanner. The methods are the scanner's loops; each is proved against
    a recursive function of the text, and the theorems about those functions are in JsonTheorems. */
module JsonScan {
  import opened Text

  const MAX_DEPTH := 40

  /** A scanned value. A number keeps its lexeme; a dict keeps insertion order. */
  datatype Json =
    | Null
    | Bool(b: bool)
    | Num(lexeme: string)
    | Str(s: string)
    | Arr(items: seq<Json>)
    | Obj(entries: Dict)

  type Dict = seq<(string, Json)>

  /** `out[key] = val`: an existing key keeps its place. */
  function Put(out: Dict, key: string, val: Json): (r: Dict)
    ensures |r| >= 1
  {
    if out == [] then [(key, val)]
    else if out[0].0 == key then [(key, val)] + out[1..]
    else [out[0]] + Put(out[1..], key, val)
  }

  // --- lexical pieces ---

  predicate IsWs(c: char) {
    c == ' ' || c == '\t' || c == '\r' || c == '\n'
  }

  function WsEnd(t: string, i: nat): (r: nat)
    requires i <= |t|
    ensures i <= r <= |t|
    decreases |t| - i
  {
    if i < |t| && IsWs(t[i]) then WsEnd(t, i + 1) else i
  }

  function Unescape(c: char): char {
    match c
    case 'b' => '\U{08}'
    case 'f' => '\U{0c}'
    case 'n' => '\n'
    case 'r' => '\r'
    case 't' => '\t'
    case _ => c
  }

  function HexDigit(c: char): Option<nat> {
    if IsDigit(c) then Some((c - '0') as nat)
    else if 'a' <= c <= 'f' then Some((c - 'a') as nat + 10)
    else if 'A' <= c <= 'F' then Some((c - 'A') as nat + 10)
    else None
  }

  /** The character that four hexadecimal digits name. */
  function HexChar(h: string): Option<char>
    requires |h| == 4
  {
    var a, b, c, d := HexDigit(h[0]), HexDigit(h[1]), HexDigit(h[2]), HexDigit(h[3]);
    if a.Some? && b.Some? && c.Some? && d.Some? then
      var v := ((a.value * 16 + b.value) * 16 + c.value) * 16 + d.value;
      if v < 0xD800 || 0xE000 <= v < 0x10000 then Some(v as char) else None
    else None
  }

  function DigitsLen(s: string): (r: nat)
    ensures r <= |s|
    ensures forall k :: 0 <= k < r ==> IsDigit(s[k])
    ensures r < |s| ==> !IsDigit(s[r])
  {
    if s != [] && IsDigit(s[0]) then 1 + DigitsLen(s[1..]) else 0
  }

  function IntLen(s: string): (r: nat)
    ensures r <= |s|
  {
    if s == [] || !IsDigit(s[0]) then 0 else if s[0] == '0' then 1 else DigitsLen(s)
  }

  function FracLen(s: string): (r: nat)
    ensures r <= |s|
  {
    if |s| >= 2 && s[0] == '.' && IsDigit(s[1]) then 1 + DigitsLen(s[1..]) else 0
  }

  function ExpLen(s: string): (r: nat)
    ensures r <= |s|
  {
    if s == [] || (s[0] != 'e' && s[0] != 'E') then 0
    else
      var sign := if |s| >= 2 && (s[1] == '+' || s[1] == '-') then 1 else 0;
      var n := DigitsLen(s[1 + sign..]);
      if n == 0 then 0 else 1 + sign + n
  }

  /** Length of the longest number at the start of `s`; 0 when there is none. */
  function NumLen(s: string): (r: nat)
    ensures r <= |s|
  {
    var sign := if s != [] && s[0] == '-' then 1 else 0;
    var n := IntLen(s[sign..]);
    if n == 0 then 0
    else
      var f := sign + n + FracLen(s[sign + n..]);
      f + ExpLen(s[f..])
  }

  // --- what each scanner returns: (value, next position, complete) ---

  function StringFrom(t: string, i: nat, buf: string): (r: (string, nat, bool))
    requires i <= |t|
    ensures i <= r.1 <= |t|
    decreases |t| - i
  {
    if i == |t| then (buf, |t|, false)
    else if t[i] == '\\' then
      if i + 1 >= |t| then (buf, |t|, false)
      else if t[i + 1] == 'u' && i + 5 < |t| && HexChar(t[i + 2..i + 6]).Some? then
        StringFrom(t, i + 6, buf + [HexChar(t[i + 2..i + 6]).value])
      else StringFrom(t, i + 2, buf + [Unescape(t[i + 1])])
    else if t[i] == '"' then (buf, i + 1, true)
    else StringFrom(t, i + 1, buf + [t[i]])
  }

  /** `t.startswith(lit, i)` */
  predicate StartsWith(t: string, i: nat, lit: string)
    ensures StartsWith(t, i, lit) <==> At(t, i, lit)
  {
    i + |lit| <= |t| && t[i..i + |lit|] == lit
  }

  function ValueFrom(t: string, at: nat, depth: nat): (r: (Option<Json>, nat, bool))
    requires at <= |t|
    ensures at <= r.1 <= |t|
    ensures r.0.None? ==> !r.2
    ensures r.2 ==> at < r.1
    decreases |t| - at, 2
  {
    var i := WsEnd(t, at);
    if i >= |t| || depth > MAX_DEPTH then (None, i, false)
    else if t[i] == '"' then
      var r := StringFrom(t, i + 1, ""); (Some(Str(r.0)), r.1, r.2)
    else if t[i] == '{' then
      var r := ObjectFrom(t, i + 1, depth, []); (Some(Obj(r.0)), r.1, r.2)
    else if t[i] == '[' then
      var r := ArrayFrom(t, i + 1, depth, []); (Some(Arr(r.0)), r.1, r.2)
    else if StartsWith(t, i, "true") then (Some(Bool(true)), i + 4, true)
    else if StartsWith(t, i, "false") then (Some(Bool(false)), i + 5, true)
    else if StartsWith(t, i, "null") then (Some(Null), i + 4, true)
    else
      var n := NumLen(t[i..]);
      if n == 0 then (None, i, false) else (Some(Num(t[i..i + n])), i + n, i + n < |t|)
  }

  function ArrayFrom(t: string, at: nat, depth: nat, out: seq<Json>): (r: (seq<Json>, nat, bool))
    requires at <= |t|
    ensures at <= r.1 <= |t|
    decreases |t| - at, 3
  {
    var i := WsEnd(t, at);
    if i >= |t| then (out, i, false)
    else if t[i] == ']' then (out, i + 1, true)
    else if t[i] == ',' then ArrayFrom(t, i + 1, depth, out)
    else
      var v := ValueFrom(t, i, depth + 1);
      var out' := if v.0.Some? then out + [v.0.value] else out;
      if v.2 then ArrayFrom(t, v.1, depth, out') else (out', v.1, false)
  }

  function ObjectFrom(t: string, at: nat, depth: nat, out: Dict): (r: (Dict, nat, bool))
    requires at <= |t|
    ensures at <= r.1 <= |t|
    decreases |t| - at, 3
  {
    var i := WsEnd(t, at);
    if i >= |t| then (out, i, false)
    else if t[i] == '}' then (out, i + 1, true)
    else if t[i] == ',' then ObjectFrom(t, i + 1, depth, out)
    else if t[i] != '"' then (out, i, false)
    else
      var k := StringFrom(t, i + 1, "");
      if !k.2 then (out, k.1, false)
      else
        var j := WsEnd(t, k.1);
        if j >= |t| || t[j] != ':' then (out, j, false)
        else
          var v := ValueFrom(t, j + 1, depth + 1);
          var out' := if v.0.Some? then Put(out, k.0, v.0.value) else out;
          if v.2 then ObjectFrom(t, v.1, depth, out') else (out', v.1, false)
  }

  /** Every object of at least `minKeys` keys, found from position `i` on. */
  function ObjectsFrom(t: string, i: nat, minKeys: nat): (r: seq<(nat, Dict, bool)>)
    requires i <= |t|
    decreases |t| - i
  {
    var start := BraceFrom(t, i);
    if start == |t| then []
    else
      var o := ObjectFrom(t, start + 1, 0, []);
      if |o.0| >= minKeys then [(start, o.0, o.2)] + ObjectsFrom(t, o.1, minKeys)
      else ObjectsFrom(t, start + 1, minKeys)
  }

  /** `text.find("{", i)`, with |t| for "not found". */
  function BraceFrom(t: string, i: nat): (r: nat)
    requires i <= |t|
    ensures i <= r <= |t|
    ensures r < |t| ==> t[r] == '{'
    ensures forall k :: i <= k < r ==> t[k] != '{'
    decreases |t| - i
  {
    if i == |t| || t[i] == '{' then i else BraceFrom(t, i + 1)
  }

  // --- the scanner ---

  method SkipWs(t: string, start: nat) returns (i: nat)
    requires start <= |t|
    ensures i == WsEnd(t, start)
  {
    i := start;
    while i < |t| && IsWs(t[i])
      invariant start <= i <= |t| && WsEnd(t, i) == WsEnd(t, start)
    {
      i := i + 1;
    }
  }

  method ScanString(t: string, start: nat) returns (value: string, next: nat, complete: bool)
    requires start < |t|
    ensures (value, next, complete) == StringFrom(t, start + 1, "")
  {
    var i := start + 1;
    var buf := "";
    while i < |t|
      invariant i <= |t| && StringFrom(t, i, buf) == StringFrom(t, start + 1, "")
    {
      var c := t[i];
      if c == '\\' {
        if i + 1 >= |t| {
          return buf, |t|, false;
        }
        var esc := t[i + 1];
        if esc == 'u' && i + 5 < |t| && HexChar(t[i + 2..i + 6]).Some? {
          buf := buf + [HexChar(t[i + 2..i + 6]).value];
          i := i + 6;
          continue;
        }
        buf := buf + [Unescape(esc)];
        i := i + 2;
        continue;
      }
      if c == '"' {
        return buf, i + 1, true;
      }
      buf := buf + [c];
      i := i + 1;
    }
    return buf, |t|, false;
  }

  method ScanValue(t: string, start: nat, depth: nat) returns (value: Option<Json>, next: nat, complete: bool)
    requires start <= |t|
    ensures (value, next, complete) == ValueFrom(t, start, depth)
    decreases |t| - start, 1
  {
    hide ObjectFrom, ArrayFrom, StringFrom, NumLen, WsEnd;
    var i := SkipWs(t, start);
    if i >= |t| {
      return None, i, false;
    }
    if depth > MAX_DEPTH {
      return None, i, false;
    }
    var c := t[i];
    if c == '"' {
      var s, n, ok := ScanString(t, i);
      return Some(Str(s)), n, ok;
    }
    if c == '{' {
      var o, n, ok := ScanObject(t, i, depth);
      return Some(Obj(o)), n, ok;
    }
    if c == '[' {
      var a, n, ok := ScanArray(t, i, depth);
      return Some(Arr(a)), n, ok;
    }
    if StartsWith(t, i, "true") {
      return Some(Bool(true)), i + 4, true;
    }
    if StartsWith(t, i, "false") {
      return Some(Bool(false)), i + 5, true;
    }
    if StartsWith(t, i, "null") {
      return Some(Null), i + 4, true;
    }
    var n := NumLen(t[i..]);
    if n > 0 {
      return Some(Num(t[i..i + n])), i + n, i + n < |t|;
    }
    return None, i, false;
  }

  method ScanArray(t: string, start: nat, depth: nat) returns (out: seq<Json>, next: nat, complete: bool)
    requires start < |t|
    ensures (out, next, complete) == ArrayFrom(t, start + 1, depth, [])
    decreases |t| - start, 0
  {
    hide ValueFrom, WsEnd;
    out := [];
    var i := start + 1;
    while true
      invariant start < i <= |t|
      invariant ArrayFrom(t, i, depth, out) == ArrayFrom(t, start + 1, depth, [])
      decreases |t| - i
    {
      var j := SkipWs(t, i);
      if j >= |t| {
        return out, j, false;
      }
      if t[j] == ']' {
        return out, j + 1, true;
      }
      if t[j] == ',' {
        i := j + 1;
        continue;
      }
      var val, n, ok := ScanValue(t, j, depth + 1);
      if val.Some? {
        out := out + [val.value];
      }
      if !ok {
        return out, n, false;
      }
      i := n;
    }
  }

  method ScanObject(t: string, start: nat, depth: nat) returns (out: Dict, next: nat, complete: bool)
    requires start < |t|
    ensures (out, next, complete) == ObjectFrom(t, start + 1, depth, [])
    decreases |t| - start, 0
  {
    hide ValueFrom, WsEnd, StringFrom, Put;
    out := [];
    var i := start + 1;
    while true
      invariant start < i <= |t|
      invariant ObjectFrom(t, i, depth, out) == ObjectFrom(t, start + 1, depth, [])
      decreases |t| - i
    {
      var j := SkipWs(t, i);
      if j >= |t| {
        return out, j, false;
      }
      if t[j] == '}' {
        return out, j + 1, true;
      }
      if t[j] == ',' {
        i := j + 1;
        continue;
      }
      if t[j] != '"' {
        return out, j, false;
      }
      var key, k, kok := ScanString(t, j);
      if !kok {
        return out, k, false;
      }
      var colon := SkipWs(t, k);
      if colon >= |t| || t[colon] != ':' {
        return out, colon, false;
      }
      var val, n, ok := ScanValue(t, colon + 1, depth + 1);
      if val.Some? {
        out := Put(out, key, val.value);
      }
      if !ok {
        return out, n, false;
      }
      i := n;
    }
  }

  method FindBrace(t: string, start: nat) returns (i: nat)
    requires start <= |t|
    ensures i == BraceFrom(t, start)
  {
    i := start;
    while i < |t| && t[i] != '{'
      invariant start <= i <= |t| && BraceFrom(t, i) == BraceFrom(t, start)
    {
      i := i + 1;
    }
  }

  /** The objects `iter_json_objects` yields, in order. */
  method IterJsonObjects(t: string, minKeys: nat) returns (found: seq<(nat, Dict, bool)>)
    ensures found == ObjectsFrom(t, 0, minKeys)
  {
    hide ObjectFrom, BraceFrom;
    found := [];
    var i := 0;
    while i < |t|
      invariant i <= |t| && found + ObjectsFrom(t, i, minKeys) == ObjectsFrom(t, 0, minKeys)
    {
      var start := FindBrace(t, i);
      if start == |t| {
        return;
      }
      var obj, end, complete := ScanObject(t, start, 0);
      if |obj| >= minKeys {
        found := found + [(start, obj, complete)];
        i := if end > start + 1 then end else start + 1;
      } else {
        i := start + 1;
      }
    }
  }
}
