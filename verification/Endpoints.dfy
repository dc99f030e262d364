/** Endpoint and flow keys of the packet tables, and the server side of a conversation. */
module Endpoints {
  import opened Text
  import opened Order
  import Labels

  datatype Endpoint = Endpoint(ip: string, proto: string, port: nat)

  /** `f"{ip}:{proto}/{port}"` */
  function Format(e: Endpoint): string {
    e.ip + (":" + e.proto + "/" + Labels.Dec(e.port))
  }

  /** What `_parse_frame_full` yields: a non-empty address without blanks or newlines, and TCP or UDP. */
  predicate Good(e: Endpoint) {
    e.ip != "" && Plain(e.ip) && (e.proto == "tcp" || e.proto == "udp")
  }

  predicate Plain(s: string) {
    forall k :: 0 <= k < |s| ==> s[k] != ' ' && s[k] != '\n'
  }

  // --- split_endpoint ---

  datatype Split = Split(ip: string, proto: string, port: Option<nat>)

  predicate Digits(s: string) {
    forall k :: 0 <= k < |s| ==> IsDigit(s[k])
  }

  /** `int(s)` of decimal digits. */
  function Value(s: string): nat
    requires Digits(s)
  {
    if s == "" then 0 else Value(s[..|s| - 1]) * 10 + (s[|s| - 1] as int - '0' as int)
  }

  /** Where the digits at the end of `s` begin. */
  function DigitsFrom(s: string): (i: nat)
    ensures i <= |s| && Digits(s[i..]) && (i > 0 ==> !IsDigit(s[i - 1]))
  {
    if s == "" || !IsDigit(s[|s| - 1]) then |s|
    else
      var i := DigitsFrom(s[..|s| - 1]);
      assert s[i..] == s[..|s| - 1][i..] + [s[|s| - 1]];
      i
  }

  /** Greedy match of `^(.+):(tcp|udp)/(\d+)$`; the slash before the digits fixes every other part. */
  function SplitEndpoint(s: string): Split {
    var i := DigitsFrom(s);
    if i < |s| && i > 5 && (s[i - 5..i] == ":tcp/" || s[i - 5..i] == ":udp/")
       && (forall k :: 0 <= k < i - 5 ==> s[k] != '\n')
    then Split(s[..i - 5], s[i - 4..i - 1], Some(Value(s[i..])))
    else Split(s, "", None)
  }

  lemma DigitsFromUnique(s: string, i: nat)
    requires i <= |s| && Digits(s[i..]) && i > 0 && !IsDigit(s[i - 1])
    ensures DigitsFrom(s) == i
  {
    var a, b := s[DigitsFrom(s)..], s[i..];
    assert forall k :: 0 <= k < |a| ==> IsDigit(a[k]);
    assert forall k :: 0 <= k < |b| ==> IsDigit(b[k]);
  }

  lemma {:induction false} DecDigits(n: nat)
    ensures Labels.Dec(n) != "" && Digits(Labels.Dec(n)) && Value(Labels.Dec(n)) == n
    ensures n > 0 ==> Labels.Dec(n)[0] != '0'
  {
    var d := Labels.Dec(n);
    if n < 10 {
      assert d[..0] == "";
    } else {
      DecDigits(n / 10);
      assert d[..|d| - 1] == Labels.Dec(n / 10);
    }
  }

  /** Splitting a formatted endpoint gives its parts back, IPv6 addresses included. */
  lemma SplitFormat(e: Endpoint)
    requires Good(e)
    ensures SplitEndpoint(Format(e)) == Split(e.ip, e.proto, Some(e.port))
  {
    hide DigitsFrom, Value, Labels.Dec;
    var s, d := Format(e), Labels.Dec(e.port);
    var i := |e.ip| + 5;
    DecDigits(e.port);
    assert s[i..] == d && s[i - 5..i] == ":" + e.proto + "/";
    DigitsFromUnique(s, i);
    assert s[..i - 5] == e.ip && s[i - 4..i - 1] == e.proto;
  }

  /** `s` is a decimal numeral without superfluous zeros. */
  predicate Numeral(s: string) {
    s != "" && Digits(s) && (|s| > 1 ==> s[0] != '0')
  }

  lemma {:induction false} DecValue(s: string)
    requires s != "" && Digits(s)
    ensures Labels.Dec(Value(s)) == s <==> Numeral(s)
    ensures |s| > 1 && s[0] != '0' ==> Value(s) >= 10
    decreases |s|
  {
    hide Value, Labels.Dec;
    var n := |s| - 1;
    DecStep(s);
    assert s == s[..n] + [s[n]];
    if n == 0 {
      assert s[..0] == "";
    } else if Value(s[..n]) > 0 {
      DecValue(s[..n]);
      if n == 1 && s[0] == '0' { DecStep(s[..1]); }
    } else if s[0] != '0' {
      LeadingDigit(s[..n]);
    }
  }

  /** The last digit of a value. */
  lemma DecStep(s: string)
    requires s != "" && Digits(s)
    ensures var n := |s| - 1;
            && Value(s) == Value(s[..n]) * 10 + (s[n] as int - '0' as int)
            && Labels.Dec(Value(s)) == (if Value(s[..n]) == 0 then [s[n]] else Labels.Dec(Value(s[..n])) + [s[n]])
            && (s[..n] == "" ==> Value(s[..n]) == 0)
  {
    hide Labels.Dec;
    var n := |s| - 1;
    DigitBack(s[n]);
    DecPush(Value(s[..n]), s[n] as int - '0' as int);
  }

  lemma DigitBack(c: char)
    requires IsDigit(c)
    ensures Labels.Digit(c as int - '0' as int) == c
  {
  }

  lemma DecPush(v: nat, d: nat)
    requires d < 10
    ensures Labels.Dec(v * 10 + d) == if v == 0 then [Labels.Digit(d)] else Labels.Dec(v) + [Labels.Digit(d)]
  {
    hide Labels.Digit;
    assert (v * 10 + d) / 10 == v && (v * 10 + d) % 10 == d;
  }

  lemma {:induction false} LeadingDigit(s: string)
    requires s != "" && Digits(s) && s[0] != '0'
    ensures Value(s) >= 1
    decreases |s|
  {
    if |s| == 1 {
      assert s[..0] == "";
    } else {
      LeadingDigit(s[..|s| - 1]);
    }
  }

  /** A key that splits is the format of its parts exactly when its port has no superfluous zeros. */
  lemma FormatSplit(s: string)
    requires SplitEndpoint(s).port.Some?
    ensures var p := SplitEndpoint(s);
            Format(Endpoint(p.ip, p.proto, p.port.value)) == s <==> Numeral(s[DigitsFrom(s)..])
  {
    hide Value, Labels.Dec, Numeral, DigitsFrom;
    var i := DigitsFrom(s);
    var p := SplitEndpoint(s);
    DecValue(s[i..]);
    var dec := Labels.Dec(p.port.value);
    assert s[i - 5..i] == ":" + p.proto + "/";
    assert s == s[..i - 5] + (s[i - 5..i] + s[i..]);
    var f := p.ip + (":" + p.proto + "/" + dec);
    assert f[i..] == dec;
  }

  /** Different endpoints have different keys. */
  lemma FormatInjective(a: Endpoint, b: Endpoint)
    requires Good(a) && Good(b) && Format(a) == Format(b)
    ensures a == b
  {
    hide Format, SplitEndpoint;
    SplitFormat(a);
    SplitFormat(b);
  }

  // --- the server side ---

  /** `(a.ip, a.port) <= (b.ip, b.port)` */
  predicate TupleLe(a: Endpoint, b: Endpoint) {
    if a.ip == b.ip then a.port <= b.port else StrLe(a.ip, b.ip)
  }

  function ServerSide(a: Endpoint, b: Endpoint): Endpoint {
    if a.port == b.port then if TupleLe(a, b) then a else b
    else if a.port < b.port then a else b
  }

  /** Both directions of a conversation name the same server. */
  lemma ServerSymmetric(a: Endpoint, b: Endpoint)
    requires a.proto == b.proto
    ensures ServerSide(a, b) == ServerSide(b, a)
  {
    if a.port == b.port && a.ip != b.ip {
      StrTotal(a.ip, b.ip);
      if StrLe(a.ip, b.ip) && StrLe(b.ip, a.ip) { StrAntisymmetric(a.ip, b.ip); }
    }
  }

  const BETWEEN := " <-> "

  /** The key of a flow: both endpoints, the smaller key first. */
  function FlowKey(a: Endpoint, b: Endpoint): string {
    if StrLe(Format(a), Format(b)) then Format(a) + BETWEEN + Format(b) else Format(b) + BETWEEN + Format(a)
  }

  lemma FlowKeySymmetric(a: Endpoint, b: Endpoint)
    ensures FlowKey(a, b) == FlowKey(b, a)
  {
    StrTotal(Format(a), Format(b));
    if StrLe(Format(a), Format(b)) && StrLe(Format(b), Format(a)) { StrAntisymmetric(Format(a), Format(b)); }
  }

  function Whole(s: Split): Endpoint {
    Endpoint(s.ip, s.proto, if s.port.Some? then s.port.value else 0)
  }

  /** The server side that a flow's key names, read back from the key alone. */
  function ServerOfKey(key: string): Endpoint {
    var i := Find(key, BETWEEN);
    if i.None? then Endpoint(key, "", 0)
    else ServerSide(Whole(SplitEndpoint(key[..i.value])), Whole(SplitEndpoint(key[i.value + |BETWEEN|..])))
  }

  lemma {:induction false} FindBetween(a: string, b: string)
    requires forall k :: 0 <= k < |a| ==> a[k] != ' '
    ensures Find(a + BETWEEN + b, BETWEEN) == Some(|a|)
    decreases |a|
  {
    var s := a + BETWEEN + b;
    if a == "" {
      assert s[..5] == BETWEEN;
    } else {
      assert s[0] == a[0] && s[..5][0] == a[0];
      assert s[1..] == a[1..] + BETWEEN + b;
      FindBetween(a[1..], b);
    }
  }

  lemma FormatNoSpace(e: Endpoint)
    requires Good(e)
    ensures forall k :: 0 <= k < |Format(e)| ==> Format(e)[k] != ' '
  {
    DecDigits(e.port);
    var d := ":" + e.proto + "/" + Labels.Dec(e.port);
    assert forall k :: 0 <= k < |d| ==> d[k] != ' ';
  }

  lemma ServerOfPair(a: Endpoint, b: Endpoint)
    requires Good(a) && Good(b)
    ensures ServerOfKey(Format(a) + BETWEEN + Format(b)) == ServerSide(a, b)
  {
    hide Format, SplitEndpoint, Find, ServerSide;
    var x, y := Format(a), Format(b);
    var key := x + BETWEEN + y;
    FormatNoSpace(a);
    FindBetween(x, y);
    assert key[..|x|] == x && key[|x| + 5..] == y;
    SplitFormat(a);
    SplitFormat(b);
  }

  /** The key of a flow determines its server. */
  lemma ServerOfFlow(a: Endpoint, b: Endpoint)
    requires Good(a) && Good(b) && a.proto == b.proto
    ensures ServerOfKey(FlowKey(a, b)) == ServerSide(a, b)
  {
    hide Format, ServerOfKey, ServerSide;
    ServerOfPair(a, b);
    ServerOfPair(b, a);
    ServerSymmetric(a, b);
  }
}
