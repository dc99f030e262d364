/** The DNS answer decoder: section 4.1 of RFC 1035 (compression: section 4.1.4) and section 2.2 of
    RFC 3596, on the payload of one packet, however damaged. */
module Dns {
  import opened Text

  type Byte = b: int | 0 <= b < 256

  /** An address as its raw bytes; its text form is an injective rendering of them. */
  datatype Address = V4(bytes: seq<Byte>) | V6(bytes: seq<Byte>)

  datatype Pair = Pair(name: string, address: Address)

  const NAME_STEPS := 64
  const SKIP_STEPS := 128

  function U16(p: seq<Byte>, o: nat): nat
    requires o + 2 <= |p|
  {
    p[o] as int * 256 + p[o + 1]
  }

  /** Where the pointer at `o` leads: the low 14 bits. */
  function Target(p: seq<Byte>, o: nat): nat
    requires o + 2 <= |p|
  {
    p[o] as int % 64 * 256 + p[o + 1]
  }

  // --- names ---

  /** `bytes.decode("ascii", errors="replace")` */
  function Ascii(bytes: seq<Byte>): string {
    seq(|bytes|, k requires 0 <= k < |bytes| => if bytes[k] < 128 then bytes[k] as char else '\U{FFFD}')
  }

  function Dotted(labels: seq<string>): string {
    if labels == [] then "" else if |labels| == 1 then labels[0] else labels[0] + "." + Dotted(labels[1..])
  }

  /** `s.rstrip(".")` */
  function StripDots(s: string): string {
    if s != "" && s[|s| - 1] == '.' then StripDots(s[..|s| - 1]) else s
  }

  /** The labels read from `o` on: one pointer may be followed, and at most `steps` bytes are looked at as
      lengths. Running off the end keeps what was read; a second pointer or a cut label gives up. */
  function LabelsFrom(p: seq<Byte>, o: nat, steps: nat, followed: bool): Option<seq<string>>
    decreases steps
  {
    if steps == 0 || o >= |p| || p[o] == 0 then Some([])
    else if p[o] >= 192 then
      if followed || o + 1 >= |p| then None else LabelsFrom(p, Target(p, o), steps - 1, true)
    else if o + 1 + p[o] > |p| then None
    else After([Ascii(p[o + 1..o + 1 + p[o]])], LabelsFrom(p, o + 1 + p[o], steps - 1, followed))
  }

  function After(first: seq<string>, rest: Option<seq<string>>): Option<seq<string>> {
    match rest
    case None => None
    case Some(ls) => Some(first + ls)
  }

  lemma AfterAfter(a: seq<string>, b: seq<string>, rest: Option<seq<string>>)
    ensures After(a, After(b, rest)) == After(a + b, rest)
  {
    if rest.Some? { Assoc(a, b, rest.value); }
  }

  function Qname(p: seq<Byte>): Option<string> {
    if |p| < 12 || U16(p, 4) < 1 then None
    else
      match LabelsFrom(p, 12, NAME_STEPS, false)
      case None => None
      case Some(ls) => if ls == [] then None else Some(StripDots(Lower(Dotted(ls))))
  }

  method ParseQname(p: seq<Byte>) returns (r: Option<string>)
    ensures r == Qname(p)
  {
    hide LabelsFrom, Dotted, StripDots, Lower, Ascii;
    if |p| < 12 { return None; }
    var questions := U16(p, 4);
    if questions < 1 { return None; }
    var o: nat := 12;
    var labels: seq<string> := [];
    var followed := false;
    var steps := NAME_STEPS;
    ghost var whole := LabelsFrom(p, 12, NAME_STEPS, false);
    EmptyAfter(whole);
    while steps > 0 && o < |p|
      invariant steps >= 0
      invariant After(labels, LabelsFrom(p, o, steps, followed)) == whole
    {
      var n := p[o];
      if n == 0 { break; }
      LabelsStep(p, o, steps, followed);
      steps := steps - 1;
      if n >= 192 {
        if followed || o + 1 >= |p| { return None; }
        followed := true;
        o := Target(p, o);
        continue;
      }
      o := o + 1;
      if o + n > |p| { return None; }
      AfterAfter(labels, [Ascii(p[o..o + n])], LabelsFrom(p, o + n, steps, followed));
      labels := labels + [Ascii(p[o..o + n])];
      o := o + n;
    }
    LabelsEnd(p, o, steps, followed);
    EmptyUnit(labels);
    if labels == [] { return None; }
    return Some(StripDots(Lower(Dotted(labels))));
  }

  lemma EmptyAfter(r: Option<seq<string>>)
    ensures After([], r) == r
  {
    if r.Some? { EmptyUnit(r.value); }
  }

  lemma LabelsEnd(p: seq<Byte>, o: nat, steps: nat, followed: bool)
    requires steps == 0 || o >= |p| || p[o] == 0
    ensures LabelsFrom(p, o, steps, followed) == Some([])
  {
  }

  lemma LabelsStep(p: seq<Byte>, o: nat, steps: nat, followed: bool)
    requires steps > 0 && o < |p| && p[o] != 0
    ensures LabelsFrom(p, o, steps, followed) ==
            if p[o] >= 192 then
              if followed || o + 1 >= |p| then None else LabelsFrom(p, Target(p, o), steps - 1, true)
            else if o + 1 + p[o] > |p| then None
            else After([Ascii(p[o + 1..o + 1 + p[o]])], LabelsFrom(p, o + 1 + p[o], steps - 1, followed))
  {
  }

  /** The offset after one name. A pointer ends it; the two reserved length forms are refused. */
  function SkipFrom(p: seq<Byte>, o: nat, steps: nat): (r: Option<nat>)
    ensures r.Some? ==> o < r.value <= |p|
    decreases steps
  {
    if o >= |p| || steps == 0 then None
    else if p[o] == 0 then Some(o + 1)
    else if p[o] >= 192 then if o + 1 < |p| then Some(o + 2) else None
    else if p[o] >= 64 then None
    else SkipFrom(p, o + 1 + p[o], steps - 1)
  }

  method SkipName(p: seq<Byte>, offset: nat) returns (r: Option<nat>)
    ensures r == SkipFrom(p, offset, SKIP_STEPS)
  {
    var o := offset;
    var steps := 0;
    while o < |p| && steps < SKIP_STEPS
      invariant steps <= SKIP_STEPS
      invariant SkipFrom(p, o, SKIP_STEPS - steps) == SkipFrom(p, offset, SKIP_STEPS)
    {
      steps := steps + 1;
      var n := p[o];
      if n == 0 { return Some(o + 1); }
      if n >= 192 { return if o + 1 < |p| then Some(o + 2) else None; }
      if n >= 64 { return None; }
      o := o + 1 + n;
    }
    return None;
  }

  // --- questions and answers ---

  function SkipQuestions(p: seq<Byte>, o: nat, n: nat): (r: Option<nat>)
    requires o <= |p|
    ensures r.Some? ==> r.value <= |p|
    decreases n
  {
    if n == 0 then Some(o)
    else
      match SkipFrom(p, o, SKIP_STEPS)
      case None => None
      case Some(e) => if e + 4 > |p| then None else SkipQuestions(p, e + 4, n - 1)
  }

  /** The pair one record contributes, if any. */
  function Wanted1(name: string, kind: nat, cls: nat, data: seq<Byte>): seq<Pair> {
    if cls != 1 || name == "" then []
    else if kind == 1 && |data| == 4 then [Pair(name, V4(data))]
    else if kind == 28 && |data| == 16 then [Pair(name, V6(data))]
    else []
  }

  function AnswersFrom(p: seq<Byte>, o: nat, n: nat, name: string): seq<Pair>
    decreases n
  {
    if n == 0 then []
    else
      match SkipFrom(p, o, SKIP_STEPS)
      case None => []
      case Some(e) =>
        if e + 10 > |p| then []
        else
          var size := U16(p, e + 8);
          if e + 10 + size > |p| then []
          else
            Wanted1(name, U16(p, e), U16(p, e + 2), p[e + 10..e + 10 + size])
            + AnswersFrom(p, e + 10 + size, n - 1, name)
  }

  function NameOf(r: Option<string>): string {
    if r.Some? then r.value else ""
  }

  function AddressAnswers(p: seq<Byte>): seq<Pair> {
    if |p| < 12 || p[2] < 128 then []
    else
      match SkipQuestions(p, 12, U16(p, 4))
      case None => []
      case Some(o) => AnswersFrom(p, o, U16(p, 6), NameOf(Qname(p)))
  }

  method ParseAddressAnswers(p: seq<Byte>) returns (answers: seq<Pair>)
    ensures answers == AddressAnswers(p)
  {
    hide SkipFrom, Qname, AnswersFrom, U16;
    answers := [];
    if |p| < 12 || p[2] < 128 { return; }
    var questions, records := U16(p, 4), U16(p, 6);
    var name := ParseQname(p);
    var qname := NameOf(name);
    var offset: nat := 12;
    for k := 0 to questions
      invariant offset <= |p|
      invariant SkipQuestions(p, offset, questions - k) == SkipQuestions(p, 12, questions)
    {
      var e := SkipName(p, offset);
      if e.None? || e.value + 4 > |p| { return; }
      offset := e.value + 4;
    }
    ghost var start := offset;
    ghost var whole := AnswersFrom(p, start, records, qname);
    assert AddressAnswers(p) == whole;
    EmptyUnit(whole);
    for k := 0 to records
      invariant whole == answers + AnswersFrom(p, offset, records - k, qname)
    {
      AnswersStep(p, offset, records - k, qname);
      EmptyUnit(answers);
      var e := SkipName(p, offset);
      if e.None? || e.value + 10 > |p| { return; }
      offset := e.value;
      var kind, cls, size := U16(p, offset), U16(p, offset + 2), U16(p, offset + 8);
      offset := offset + 10;
      if offset + size > |p| { return; }
      var data := p[offset..offset + size];
      offset := offset + size;
      Assoc(answers, Wanted1(qname, kind, cls, data), AnswersFrom(p, offset, records - k - 1, qname));
      if cls != 1 || qname == "" { continue; }
      if kind == 1 && size == 4 {
        answers := answers + [Pair(qname, V4(data))];
      } else if kind == 28 && size == 16 {
        answers := answers + [Pair(qname, V6(data))];
      }
    }
    AnswersNone(p, offset, qname);
    EmptyUnit(answers);
  }

  lemma AnswersNone(p: seq<Byte>, o: nat, name: string)
    ensures AnswersFrom(p, o, 0, name) == []
  {
  }

  lemma AnswersStep(p: seq<Byte>, o: nat, n: nat, name: string)
    requires n > 0
    ensures var e := SkipFrom(p, o, SKIP_STEPS);
            AnswersFrom(p, o, n, name) ==
            if e.None? || e.value + 10 > |p| || e.value + 10 + U16(p, e.value + 8) > |p| then []
            else
              var d, next := e.value + 10, e.value + 10 + U16(p, e.value + 8);
              Wanted1(name, U16(p, e.value), U16(p, e.value + 2), p[d..next]) + AnswersFrom(p, next, n - 1, name)
  {
    hide SkipFrom, Wanted1, U16;
  }

  // --- the wire form, as the RFC writes it ---

  /** A name on the wire: labels, then the root or a pointer to the rest. */
  datatype Name = Name(labels: seq<seq<Byte>>, pointer: Option<nat>)

  datatype Question = Question(name: Name, kind: nat, cls: nat)

  datatype Answer = Answer(owner: Name, kind: nat, cls: nat, ttl: seq<Byte>, data: seq<Byte>)

  /** A message. `id`, `code` and `counts` are the header bytes the decoder
      does not look at, `tail` whatever follows the answers. */
  datatype Message = Message(
    id: seq<Byte>, flags: Byte, code: Byte, questions: seq<Question>, answers: seq<Answer>,
    counts: seq<Byte>, tail: seq<Byte>)

  /** A label is any 1 to 63 bytes. */
  predicate GoodLabel(l: seq<Byte>) {
    1 <= |l| <= 63
  }

  /** The labels of host names are ASCII without dots. */
  predicate PlainLabel(l: seq<Byte>) {
    l != [] && forall k :: 0 <= k < |l| ==> l[k] < 128 && l[k] != 46
  }

  /** Section 2.3.4 of RFC 1035 caps a name at 255 bytes, so at 127 labels. */
  ghost predicate GoodName(n: Name) {
    && |n.labels| < SKIP_STEPS
    && (forall k :: 0 <= k < |n.labels| ==> GoodLabel(n.labels[k]))
    && (n.pointer.Some? ==> n.pointer.value < 64 * 256)
  }

  ghost predicate GoodMessage(m: Message) {
    && |m.id| == 2 && |m.counts| == 4
    && |m.questions| < 65536 && |m.answers| < 65536
    && (forall k :: 0 <= k < |m.questions| ==> GoodQuestion(m.questions[k]))
    && (forall k :: 0 <= k < |m.answers| ==> GoodAnswer(m.answers[k]))
  }

  ghost predicate GoodQuestion(q: Question) {
    GoodName(q.name) && q.kind < 65536 && q.cls < 65536
  }

  ghost predicate GoodAnswer(a: Answer) {
    GoodName(a.owner) && a.kind < 65536 && a.cls < 65536 && |a.ttl| == 4 && |a.data| < 65536
  }

  ghost function EncU16(n: nat): (r: seq<Byte>)
    requires n < 65536
  {
    [n / 256, n % 256]
  }

  ghost function EncLabel(l: seq<Byte>): seq<Byte>
    requires GoodLabel(l)
  {
    [|l|] + l
  }

  ghost function EncLabels(ls: seq<seq<Byte>>): seq<Byte>
    requires forall k :: 0 <= k < |ls| ==> GoodLabel(ls[k])
  {
    if ls == [] then [] else EncLabel(ls[0]) + EncLabels(ls[1..])
  }

  ghost function EncEnd(pointer: Option<nat>): seq<Byte>
    requires pointer.Some? ==> pointer.value < 64 * 256
  {
    match pointer
    case None => [0]
    case Some(t) => [192 + t / 256, t % 256]
  }

  ghost function EncName(n: Name): seq<Byte>
    requires GoodName(n)
  {
    EncLabels(n.labels) + EncEnd(n.pointer)
  }

  ghost function EncQuestion(q: Question): seq<Byte>
    requires GoodQuestion(q)
  {
    EncName(q.name) + (EncU16(q.kind) + EncU16(q.cls))
  }

  ghost function EncQuestions(qs: seq<Question>): seq<Byte>
    requires forall k :: 0 <= k < |qs| ==> GoodQuestion(qs[k])
  {
    if qs == [] then [] else EncQuestion(qs[0]) + EncQuestions(qs[1..])
  }

  ghost function EncFixed(a: Answer): (r: seq<Byte>)
    requires GoodAnswer(a)
    ensures |r| == 10
    ensures U16(r, 0) == a.kind && U16(r, 2) == a.cls && U16(r, 8) == |a.data|
  {
    EncU16(a.kind) + EncU16(a.cls) + a.ttl + EncU16(|a.data|)
  }

  ghost function EncAnswer(a: Answer): seq<Byte>
    requires GoodAnswer(a)
  {
    EncName(a.owner) + (EncFixed(a) + a.data)
  }

  ghost function EncAnswers(rs: seq<Answer>): seq<Byte>
    requires forall k :: 0 <= k < |rs| ==> GoodAnswer(rs[k])
  {
    if rs == [] then [] else EncAnswer(rs[0]) + EncAnswers(rs[1..])
  }

  ghost function EncHeader(m: Message): (r: seq<Byte>)
    requires GoodMessage(m)
    ensures |r| == 12 && r[2] == m.flags && U16(r, 4) == |m.questions| && U16(r, 6) == |m.answers|
  {
    m.id + [m.flags, m.code] + EncU16(|m.questions|) + EncU16(|m.answers|) + m.counts
  }

  ghost function Encode(m: Message): seq<Byte>
    requires GoodMessage(m)
  {
    EncHeader(m) + (EncQuestions(m.questions) + (EncAnswers(m.answers) + m.tail))
  }

  /** The class-IN A and AAAA answers, in order. */
  function Wanted(name: string, rs: seq<Answer>): seq<Pair> {
    if rs == [] then []
    else Wanted1(name, rs[0].kind, rs[0].cls, rs[0].data) + Wanted(name, rs[1..])
  }

  /** The answers that stand whole within the first `room` bytes of the answer section. */
  ghost function Whole(rs: seq<Answer>, room: nat): seq<Answer>
    requires forall k :: 0 <= k < |rs| ==> GoodAnswer(rs[k])
  {
    if rs == [] || |EncAnswer(rs[0])| > room then []
    else [rs[0]] + Whole(rs[1..], room - |EncAnswer(rs[0])|)
  }

  // --- reading what was written ---

  lemma LabelHeld(p: seq<Byte>, o: nat, l: seq<Byte>)
    requires GoodLabel(l) && At(p, o, EncLabel(l))
    ensures o + 1 + |l| <= |p| && p[o] == |l| && p[o + 1..o + 1 + |l|] == l
  {
    AtSplit(p, o, [|l|], l);
  }

  lemma EncLabelsStep(ls: seq<seq<Byte>>)
    requires ls != [] && forall k :: 0 <= k < |ls| ==> GoodLabel(ls[k])
    ensures EncLabels(ls) == EncLabel(ls[0]) + EncLabels(ls[1..]) && |EncLabel(ls[0])| == |ls[0]| + 1
  {
  }

  /** Labels as text. */
  function Texts(ls: seq<seq<Byte>>): seq<string> {
    if ls == [] then [] else [Ascii(ls[0])] + Texts(ls[1..])
  }

  lemma {:induction false} TextsAppend(a: seq<seq<Byte>>, b: seq<seq<Byte>>)
    ensures Texts(a + b) == Texts(a) + Texts(b)
    decreases |a|
  {
    hide Ascii;
    if a == [] {
      EmptyUnit(b);
      EmptyUnit(Texts(b));
    } else {
      assert (a + b)[1..] == a[1..] + b;
      TextsAppend(a[1..], b);
      Assoc([Ascii(a[0])], Texts(a[1..]), Texts(b));
    }
  }

  lemma TextsTake(ls: seq<seq<Byte>>, n: nat)
    requires 1 <= n <= |ls|
    ensures Texts(ls[..n]) == [Ascii(ls[0])] + Texts(ls[1..][..n - 1])
  {
    hide Ascii;
    assert ls[..n][1..] == ls[1..][..n - 1];
  }

  /** Labels on the wire are read back, as far as the step limit goes. */
  lemma {:induction false} LabelsHeld(p: seq<Byte>, o: nat, ls: seq<seq<Byte>>, steps: nat, followed: bool)
    requires (forall k :: 0 <= k < |ls| ==> GoodLabel(ls[k])) && At(p, o, EncLabels(ls))
    ensures LabelsFrom(p, o, steps, followed) ==
            if |ls| <= steps then After(Texts(ls), LabelsFrom(p, o + |EncLabels(ls)|, steps - |ls|, followed))
            else Some(Texts(ls[..steps]))
    decreases |ls|
  {
    hide GoodLabel, EncLabel, EncLabels, LabelsFrom, At, Ascii, Texts;
    if ls == [] {
      EncNoLabels();
      EmptyAfter(LabelsFrom(p, o, steps, followed));
    } else if steps == 0 {
      LabelsEnd(p, o, 0, followed);
      EncNoLabels();
    } else {
      EncLabelsStep(ls);
      AtSplit(p, o, EncLabel(ls[0]), EncLabels(ls[1..]));
      LabelHeld(p, o, ls[0]);
      GoodSize(ls[0]);
      LabelsStep(p, o, steps, followed);
      LabelsHeld(p, o + 1 + |ls[0]|, ls[1..], steps - 1, followed);
      if |ls| <= steps {
        TextsTake(ls, |ls|);
        assert ls[..|ls|] == ls && ls[1..][..|ls| - 1] == ls[1..];
        AfterAfter([Ascii(ls[0])], Texts(ls[1..]), LabelsFrom(p, o + |EncLabels(ls)|, steps - |ls|, followed));
      } else {
        TextsTake(ls, steps);
      }
    }
  }

  lemma GoodSize(l: seq<Byte>)
    requires GoodLabel(l)
    ensures 1 <= |l| <= 63
  {
  }

  lemma EncNoLabels()
    ensures EncLabels([]) == [] && Texts([]) == []
  {
  }

  /** Skipping a name stops exactly where its wire form ends. */
  lemma {:induction false} SkipHeld(p: seq<Byte>, o: nat, ls: seq<seq<Byte>>, pointer: Option<nat>, steps: nat)
    requires |ls| < steps && (forall k :: 0 <= k < |ls| ==> GoodLabel(ls[k]))
             && (pointer.Some? ==> pointer.value < 64 * 256)
    requires At(p, o, EncLabels(ls) + EncEnd(pointer))
    ensures SkipFrom(p, o, steps) == Some(o + |EncLabels(ls) + EncEnd(pointer)|)
    decreases |ls|
  {
    if ls == [] {
      EmptyUnit(EncEnd(pointer));
      FirstAt(p, o, EncEnd(pointer));
    } else {
      hide GoodLabel, EncLabel, EncLabels, EncEnd, At, Ascii, SkipFrom;
      EncLabelsStep(ls);
      Assoc(EncLabel(ls[0]), EncLabels(ls[1..]), EncEnd(pointer));
      AtSplit(p, o, EncLabel(ls[0]), EncLabels(ls[1..]) + EncEnd(pointer));
      LabelHeld(p, o, ls[0]);
      GoodSize(ls[0]);
      SkipHeld(p, o + 1 + |ls[0]|, ls[1..], pointer, steps - 1);
      SkipStep(p, o, steps);
    }
  }

  lemma SkipStep(p: seq<Byte>, o: nat, steps: nat)
    requires o < |p| && 0 < p[o] < 64 && steps > 0
    ensures SkipFrom(p, o, steps) == SkipFrom(p, o + 1 + p[o], steps - 1)
  {
  }

  /** On a payload cut short, a name is skipped exactly when all of it is there. */
  lemma {:induction false} SkipCut(p: seq<Byte>, k: nat, o: nat, steps: nat)
    requires k <= |p|
    ensures var r := SkipFrom(p, o, steps); SkipFrom(p[..k], o, steps) == if r.Some? && r.value <= k then r else None
    decreases steps
  {
    if o < |p| && steps > 0 && 0 < p[o] < 64 { SkipCut(p, k, o + 1 + p[o], steps - 1); }
  }

  lemma NameHeld(p: seq<Byte>, k: nat, o: nat, n: Name)
    requires k <= |p| && GoodName(n) && At(p, o, EncName(n))
    ensures o + |EncName(n)| <= |p|
    ensures SkipFrom(p[..k], o, SKIP_STEPS) == if o + |EncName(n)| <= k then Some(o + |EncName(n)|) else None
  {
    hide SkipFrom, EncLabels, EncEnd, GoodLabel;
    SkipHeld(p, o, n.labels, n.pointer, SKIP_STEPS);
    SkipCut(p, k, o, SKIP_STEPS);
  }

  lemma EncQuestionsStep(qs: seq<Question>)
    requires qs != [] && forall k :: 0 <= k < |qs| ==> GoodQuestion(qs[k])
    ensures EncQuestions(qs) == EncQuestion(qs[0]) + EncQuestions(qs[1..])
    ensures |EncQuestion(qs[0])| == |EncName(qs[0].name)| + 4
  {
  }

  lemma QuestionSplit(p: seq<Byte>, o: nat, q: Question)
    requires GoodQuestion(q) && At(p, o, EncQuestion(q))
    ensures GoodName(q.name) && At(p, o, EncName(q.name)) && |EncQuestion(q)| == |EncName(q.name)| + 4
  {
    hide At, EncName;
    AtSplit(p, o, EncName(q.name), EncU16(q.kind) + EncU16(q.cls));
  }

  lemma SkipQuestionsStep(p: seq<Byte>, o: nat, n: nat)
    requires o <= |p| && n > 0
    ensures var e := SkipFrom(p, o, SKIP_STEPS);
            SkipQuestions(p, o, n) ==
            if e.None? || e.value + 4 > |p| then None else SkipQuestions(p, e.value + 4, n - 1)
  {
  }

  lemma QuestionHeld(p: seq<Byte>, k: nat, o: nat, q: Question, n: nat)
    requires o <= k <= |p| && n > 0 && GoodQuestion(q) && At(p, o, EncQuestion(q))
    ensures var next := o + |EncQuestion(q)|;
            SkipQuestions(p[..k], o, n) == if next <= k then SkipQuestions(p[..k], next, n - 1) else None
  {
    hide At, EncName, EncQuestion, SkipQuestions, SkipFrom, GoodQuestion, GoodName;
    QuestionSplit(p, o, q);
    NameHeld(p, k, o, q.name);
    SkipQuestionsStep(p[..k], o, n);
  }

  lemma NoQuestions(p: seq<Byte>, o: nat)
    requires o <= |p|
    ensures EncQuestions([]) == [] && SkipQuestions(p, o, 0) == Some(o)
  {
  }

  lemma {:induction false} QuestionsHeld(p: seq<Byte>, k: nat, o: nat, qs: seq<Question>)
    requires o <= k <= |p| && (forall i :: 0 <= i < |qs| ==> GoodQuestion(qs[i])) && At(p, o, EncQuestions(qs))
    ensures SkipQuestions(p[..k], o, |qs|) == if o + |EncQuestions(qs)| <= k then Some(o + |EncQuestions(qs)|) else None
    decreases |qs|
  {
    hide At, EncQuestion, EncQuestions, SkipQuestions, GoodQuestion;
    if qs == [] {
      NoQuestions(p[..k], o);
    } else {
      var q, rest := qs[0], qs[1..];
      EncQuestionsStep(qs);
      var next := o + |EncQuestion(q)|;
      AtSplit(p, o, EncQuestion(q), EncQuestions(rest));
      QuestionHeld(p, k, o, q, |qs|);
      if next <= k { QuestionsHeld(p, k, next, rest); }
    }
  }

  lemma FixedHeld(p: seq<Byte>, k: nat, o: nat, a: Answer)
    requires GoodAnswer(a) && At(p, o, EncFixed(a) + a.data) && o + 10 <= k <= |p|
    ensures U16(p[..k], o) == a.kind && U16(p[..k], o + 2) == a.cls && U16(p[..k], o + 8) == |a.data|
    ensures o + 10 + |a.data| <= k ==> p[..k][o + 10..o + 10 + |a.data|] == a.data
  {
    hide EncFixed;
    AtSplit(p, o, EncFixed(a), a.data);
    var f := EncFixed(a);
    assert p[o..o + 10] == f;
    forall i | 0 <= i < 10 ensures p[..k][o + i] == f[i] {
      assert p[o..o + 10][i] == p[o + i];
    }
  }

  lemma AnswerSplit(p: seq<Byte>, o: nat, a: Answer)
    requires GoodAnswer(a) && At(p, o, EncAnswer(a))
    ensures GoodName(a.owner) && At(p, o, EncName(a.owner)) && At(p, o + |EncName(a.owner)|, EncFixed(a) + a.data)
    ensures |EncAnswer(a)| == |EncName(a.owner)| + 10 + |a.data|
  {
    hide At, EncName;
    AtSplit(p, o, EncName(a.owner), EncFixed(a) + a.data);
  }

  lemma EncAnswersStep(rs: seq<Answer>)
    requires rs != [] && forall k :: 0 <= k < |rs| ==> GoodAnswer(rs[k])
    ensures EncAnswers(rs) == EncAnswer(rs[0]) + EncAnswers(rs[1..])
    ensures |EncAnswer(rs[0])| == |EncName(rs[0].owner)| + 10 + |rs[0].data|
  {
  }

  lemma AnswerHeld(p: seq<Byte>, k: nat, o: nat, a: Answer, n: nat, name: string)
    requires o <= k <= |p| && n > 0 && GoodAnswer(a) && At(p, o, EncAnswer(a))
    ensures var next := o + |EncAnswer(a)|;
            AnswersFrom(p[..k], o, n, name) ==
            if next <= k then Wanted1(name, a.kind, a.cls, a.data) + AnswersFrom(p[..k], next, n - 1, name) else []
  {
    hide At, EncName, EncAnswer, EncFixed, AnswersFrom, SkipFrom, Wanted1, U16, GoodAnswer, GoodName;
    AnswerSplit(p, o, a);
    NameHeld(p, k, o, a.owner);
    AnswersStep(p[..k], o, n, name);
    var e := o + |EncName(a.owner)|;
    if e + 10 <= k { FixedHeld(p, k, e, a); }
  }

  /** On a payload cut short, the answers that stand whole are decoded and no other. */
  lemma {:induction false} AnswersHeld(p: seq<Byte>, k: nat, o: nat, rs: seq<Answer>, name: string)
    requires o <= k <= |p| && (forall i :: 0 <= i < |rs| ==> GoodAnswer(rs[i])) && At(p, o, EncAnswers(rs))
    ensures AnswersFrom(p[..k], o, |rs|, name) == Wanted(name, Whole(rs, k - o))
    decreases |rs|
  {
    hide At, EncAnswer, EncAnswers, AnswersFrom, Wanted1, Wanted, GoodAnswer, Whole;
    WantedNone(name);
    if rs == [] {
      AnswersNone(p[..k], o, name);
      WholeStep(rs, k - o);
    } else {
      var a, rest := rs[0], rs[1..];
      EncAnswersStep(rs);
      var next := o + |EncAnswer(a)|;
      AtSplit(p, o, EncAnswer(a), EncAnswers(rest));
      AnswerHeld(p, k, o, a, |rs|, name);
      WholeStep(rs, k - o);
      if next <= k {
        AnswersHeld(p, k, next, rest, name);
        WantedCons(name, a, Whole(rest, k - next));
      }
    }
  }

  lemma WholeStep(rs: seq<Answer>, room: nat)
    requires forall k :: 0 <= k < |rs| ==> GoodAnswer(rs[k])
    ensures Whole(rs, room) ==
            if rs == [] || |EncAnswer(rs[0])| > room then [] else [rs[0]] + Whole(rs[1..], room - |EncAnswer(rs[0])|)
  {
    hide EncAnswer, GoodAnswer;
  }

  lemma WantedNone(name: string)
    ensures Wanted(name, []) == []
  {
  }

  lemma WantedCons(name: string, a: Answer, rest: seq<Answer>)
    ensures Wanted(name, [a] + rest) == Wanted1(name, a.kind, a.cls, a.data) + Wanted(name, rest)
  {
    hide Wanted1;
    assert ([a] + rest)[1..] == rest;
  }

  lemma {:induction false} WholeAll(rs: seq<Answer>, room: nat)
    requires (forall k :: 0 <= k < |rs| ==> GoodAnswer(rs[k])) && |EncAnswers(rs)| <= room
    ensures Whole(rs, room) == rs
    decreases |rs|
  {
    if rs != [] {
      hide EncAnswer;
      WholeAll(rs[1..], room - |EncAnswer(rs[0])|);
    }
  }

  // --- the name of the first question ---

  /** How the decoder spells labels: joined, in lower case, without dots at the end. */
  function NameText(labels: seq<string>): string {
    StripDots(Lower(Dotted(labels)))
  }

  lemma NameIs(p: seq<Byte>, labels: seq<string>)
    requires |p| >= 12 && U16(p, 4) >= 1 && LabelsFrom(p, 12, NAME_STEPS, false) == Some(labels)
    ensures NameOf(Qname(p)) == NameText(labels)
  {
    hide LabelsFrom, U16;
    if labels != [] { hide Dotted, Lower, StripDots; }
  }

  lemma {:induction false} DottedPlain(labels: seq<seq<Byte>>)
    requires forall k :: 0 <= k < |labels| ==> PlainLabel(labels[k])
    ensures labels != [] ==> Dotted(Texts(labels)) != "" && Dotted(Texts(labels))[|Dotted(Texts(labels))| - 1] != '.'
    decreases |labels|
  {
    if |labels| > 1 {
      DottedPlain(labels[1..]);
    } else if labels != [] {
      assert Texts(labels) == [Ascii(labels[0])];
    }
  }

  /** The name of plain labels is theirs: joined, in lower case. */
  lemma PlainText(labels: seq<seq<Byte>>)
    requires forall k :: 0 <= k < |labels| ==> PlainLabel(labels[k])
    ensures NameText(Texts(labels)) == Lower(Dotted(Texts(labels)))
  {
    hide Dotted, Lower, PlainLabel, Texts;
    if labels == [] {
      NoLabels();
    } else {
      DottedPlain(labels);
      LowerLast(Dotted(Texts(labels)));
    }
  }

  lemma LowerLast(s: string)
    requires s != ""
    ensures Lower(s)[|s| - 1] == '.' <==> s[|s| - 1] == '.'
  {
  }

  lemma NoLabels()
    ensures Lower(Dotted(Texts([]))) == ""
  {
  }

  /** A name may have 127 labels; 64 are read. */
  function Read<T>(labels: seq<T>): seq<T> {
    if |labels| <= NAME_STEPS then labels else labels[..NAME_STEPS]
  }

  /** The first question's name, from any payload that starts with it. */
  lemma QnameHeld(p: seq<Byte>, labels: seq<seq<Byte>>)
    requires |p| >= 12 && U16(p, 4) >= 1
    requires (forall k :: 0 <= k < |labels| ==> GoodLabel(labels[k])) && At(p, 12, EncLabels(labels) + EncEnd(None))
    ensures NameOf(Qname(p)) == NameText(Texts(Read(labels)))
  {
    hide GoodLabel, At, EncLabels, EncEnd, LabelsFrom, NameText, U16, Qname, Texts;
    LabelsRead(p, 12, labels);
    NameIs(p, Texts(Read(labels)));
  }

  lemma LabelsRead(p: seq<Byte>, o: nat, labels: seq<seq<Byte>>)
    requires (forall k :: 0 <= k < |labels| ==> GoodLabel(labels[k])) && At(p, o, EncLabels(labels) + EncEnd(None))
    ensures LabelsFrom(p, o, NAME_STEPS, false) == Some(Texts(Read(labels)))
  {
    hide GoodLabel, At, EncLabels, EncEnd, LabelsFrom, Texts;
    AtSplit(p, o, EncLabels(labels), EncEnd(None));
    LabelsHeld(p, o, labels, NAME_STEPS, false);
    var e := o + |EncLabels(labels)|;
    RootHeld(p, e);
    if |labels| <= NAME_STEPS { LabelsEnd(p, e, NAME_STEPS - |labels|, false); }
    EmptyUnit(Texts(labels));
  }

  lemma RootHeld(p: seq<Byte>, o: nat)
    requires At(p, o, EncEnd(None))
    ensures o < |p| && p[o] == 0
  {
    FirstAt(p, o, [0]);
  }

  /** A pointer is followed once, and costs a step: labels, a pointer, and the rest of the name where it
      leads. A second pointer there gives up, unless the steps are used up before it. */
  lemma PointerFollowedOnce(p: seq<Byte>, o: nat, first: seq<seq<Byte>>, target: nat, rest: Name)
    requires (forall k :: 0 <= k < |first| ==> GoodLabel(first[k])) && target < 64 * 256 && GoodName(rest)
    requires At(p, o, EncLabels(first) + EncEnd(Some(target))) && At(p, target, EncName(rest))
    ensures LabelsFrom(p, o, NAME_STEPS, false) ==
            if |first| + 1 + |rest.labels| >= NAME_STEPS then Some(Texts((first + rest.labels)[..Kept(first, rest)]))
            else if rest.pointer.None? then Some(Texts(first + rest.labels))
            else None
  {
    hide GoodLabel, At, EncLabels, LabelsFrom, Texts;
    AtSplit(p, o, EncLabels(first), EncEnd(Some(target)));
    LabelsHeld(p, o, first, NAME_STEPS, false);
    var both := first + rest.labels;
    if |first| >= NAME_STEPS {
      assert both[..NAME_STEPS] == first[..NAME_STEPS];
      if |first| == NAME_STEPS {
        LabelsEnd(p, o + |EncLabels(first)|, 0, false);
        EmptyUnit(Texts(first));
      }
    } else {
      var q, left := o + |EncLabels(first)|, NAME_STEPS - |first| - 1;
      PointerHeld(p, q, target);
      LabelsStep(p, q, left + 1, false);
      RestHeld(p, target, rest, left);
      TextsAppend(first, if |rest.labels| >= left then rest.labels[..left] else rest.labels);
      assert |rest.labels| >= left ==> both[..NAME_STEPS - 1] == first + rest.labels[..left];
    }
  }

  /** How many labels the steps suffice for. */
  function Kept(first: seq<seq<Byte>>, rest: Name): nat
    requires |first| + 1 + |rest.labels| >= NAME_STEPS
  {
    if |first| >= NAME_STEPS then NAME_STEPS else NAME_STEPS - 1
  }

  lemma RestHeld(p: seq<Byte>, o: nat, rest: Name, left: nat)
    requires GoodName(rest) && At(p, o, EncName(rest))
    ensures LabelsFrom(p, o, left, true) ==
            if |rest.labels| >= left then Some(Texts(rest.labels[..left]))
            else if rest.pointer.None? then Some(Texts(rest.labels)) else None
  {
    hide GoodLabel, At, EncLabels, LabelsFrom, Texts;
    AtSplit(p, o, EncLabels(rest.labels), EncEnd(rest.pointer));
    LabelsHeld(p, o, rest.labels, left, true);
    var e := o + |EncLabels(rest.labels)|;
    FirstAt(p, e, EncEnd(rest.pointer));
    EmptyUnit(Texts(rest.labels));
    assert rest.labels[..|rest.labels|] == rest.labels;
    if |rest.labels| == left {
      LabelsEnd(p, e, 0, true);
    } else if |rest.labels| < left {
      if rest.pointer.None? {
        LabelsEnd(p, e, left - |rest.labels|, true);
      } else {
        LabelsStep(p, e, left - |rest.labels|, true);
      }
    }
  }

  lemma PointerHeld(p: seq<Byte>, o: nat, target: nat)
    requires target < 64 * 256 && At(p, o, EncEnd(Some(target)))
    ensures o + 2 <= |p| && p[o] >= 192 && Target(p, o) == target
  {
    assert p[o..o + 2] == EncEnd(Some(target));
    assert p[o..o + 2][0] == p[o] && p[o..o + 2][1] == p[o + 1];
  }

  // --- the theorems ---

  /** Where the answer section begins. */
  ghost function AnswerStart(m: Message): nat
    requires GoodMessage(m)
  {
    12 + |EncQuestions(m.questions)|
  }

  lemma Parts(m: Message)
    requires GoodMessage(m)
    ensures var p := Encode(m);
            && |p| == AnswerStart(m) + |EncAnswers(m.answers)| + |m.tail|
            && At(p, 0, EncHeader(m)) && At(p, 12, EncQuestions(m.questions))
            && At(p, AnswerStart(m), EncAnswers(m.answers))
  {
    hide EncQuestions, EncAnswers, At;
    var p := Encode(m);
    EncHeaderSize(m);
    AtWhole(p);
    AtSplit(p, 0, EncHeader(m), EncQuestions(m.questions) + (EncAnswers(m.answers) + m.tail));
    AtSplit(p, 12, EncQuestions(m.questions), EncAnswers(m.answers) + m.tail);
    AtSplit(p, AnswerStart(m), EncAnswers(m.answers), m.tail);
  }

  lemma EncHeaderSize(m: Message)
    requires GoodMessage(m)
    ensures |EncHeader(m)| == 12
  {
  }

  lemma AtWhole(p: seq<Byte>)
    ensures At(p, 0, p)
  {
  }

  lemma AtPrefix(p: seq<Byte>, k: nat, o: nat, b: seq<Byte>)
    requires k <= |p| && At(p, o, b) && o + |b| <= k
    ensures At(p[..k], o, b)
  {
    assert p[..k][o..o + |b|] == p[o..o + |b|];
  }

  lemma HeaderHeld(m: Message, k: nat)
    requires GoodMessage(m) && 12 <= k <= |Encode(m)|
    ensures var p := Encode(m)[..k]; p[2] == m.flags && U16(p, 4) == |m.questions| && U16(p, 6) == |m.answers|
  {
    hide EncQuestions, EncAnswers, EncHeader;
    EncHeaderSize(m);
    var h := EncHeader(m);
    assert forall i :: 0 <= i < 12 ==> Encode(m)[..k][i] == h[i];
  }

  /** Every cut of a well-formed response decodes to the wanted answers that stand whole in it, in order,
      under the name that the first question of the cut has; a cut inside the questions, and a query, to
      nothing. */
  lemma DecodeCut(m: Message, k: nat)
    requires GoodMessage(m) && k <= |Encode(m)|
    ensures var p := Encode(m)[..k];
            AddressAnswers(p) ==
            if m.flags < 128 || k < AnswerStart(m) then []
            else Wanted(NameOf(Qname(p)), Whole(m.answers, k - AnswerStart(m)))
  {
    hide At, Encode, EncHeader, EncQuestions, EncAnswers, Wanted, Whole, AnswersFrom, SkipQuestions, Qname, U16;
    if k >= 12 {
      var f := Encode(m);
      HeaderHeld(m, k);
      Parts(m);
      QuestionsHeld(f, k, 12, m.questions);
      if k >= AnswerStart(m) { AnswersHeld(f, k, AnswerStart(m), m.answers, NameOf(Qname(f[..k]))); }
    }
  }

  lemma FirstNameAt(m: Message, k: nat)
    requires GoodMessage(m) && m.questions != [] && AnswerStart(m) <= k <= |Encode(m)|
    ensures At(Encode(m)[..k], 12, EncName(m.questions[0].name))
  {
    hide EncQuestions, EncAnswers, EncQuestion, EncName, At, Encode, GoodName, EncHeader;
    var p, q := Encode(m), m.questions[0];
    Parts(m);
    EncQuestionsStep(m.questions);
    AtSplit(p, 12, EncQuestion(q), EncQuestions(m.questions[1..]));
    QuestionSplit(p, 12, q);
    AtPrefix(p, k, 12, EncName(q.name));
  }

  /** The name of a message and of its cuts behind the questions: of a name without a pointer, the text of
      its labels; of a name with one, that of the labels before it and of those where it leads, up to the
      step limit and to a second pointer. Without a question there is none, and so there are no pairs. */
  lemma FirstName(m: Message, k: nat)
    requires GoodMessage(m) && AnswerStart(m) <= k <= |Encode(m)|
    ensures m.questions == [] ==> NameOf(Qname(Encode(m)[..k])) == ""
    ensures m.questions != [] && m.questions[0].name.pointer.None? ==>
              NameOf(Qname(Encode(m)[..k])) == NameText(Texts(Read(m.questions[0].name.labels)))
    ensures m.questions != [] && m.questions[0].name.pointer.Some? ==>
              forall rest: Name ::
                GoodName(rest) && At(Encode(m)[..k], m.questions[0].name.pointer.value, EncName(rest)) ==>
                  NameOf(Qname(Encode(m)[..k])) == PointedText(m.questions[0].name.labels, rest)
  {
    hide At, Encode, EncHeader, EncQuestions, EncLabels, EncEnd, LabelsFrom, NameText, Texts, GoodLabel, U16, Qname;
    var p := Encode(m)[..k];
    HeaderHeld(m, k);
    if m.questions == [] {
      NoQuestionNoName(p);
    } else {
      var n := m.questions[0].name;
      FirstNameAt(m, k);
      if n.pointer.None? {
        QnameHeld(p, n.labels);
      } else {
        forall rest: Name | GoodName(rest) && At(p, n.pointer.value, EncName(rest))
          ensures NameOf(Qname(p)) == PointedText(n.labels, rest)
        {
          PointedName(p, n.labels, n.pointer.value, rest);
        }
      }
    }
  }

  lemma NoQuestionNoName(p: seq<Byte>)
    requires |p| >= 12 && U16(p, 4) == 0
    ensures NameOf(Qname(p)) == ""
  {
  }

  function PointedText(first: seq<seq<Byte>>, rest: Name): string {
    if |first| + 1 + |rest.labels| >= NAME_STEPS then NameText(Texts((first + rest.labels)[..Kept(first, rest)]))
    else if rest.pointer.None? then NameText(Texts(first + rest.labels))
    else ""
  }

  lemma PointedName(p: seq<Byte>, first: seq<seq<Byte>>, target: nat, rest: Name)
    requires |p| >= 12 && U16(p, 4) >= 1
    requires (forall k :: 0 <= k < |first| ==> GoodLabel(first[k])) && target < 64 * 256 && GoodName(rest)
    requires At(p, 12, EncLabels(first) + EncEnd(Some(target))) && At(p, target, EncName(rest))
    ensures NameOf(Qname(p)) == PointedText(first, rest)
  {
    hide At, EncLabels, EncEnd, EncName, LabelsFrom, NameText, Texts, U16, GoodName, GoodLabel;
    PointerFollowedOnce(p, 12, first, target, rest);
    var r := LabelsFrom(p, 12, NAME_STEPS, false);
    if r.Some? { hide Qname; NameIs(p, r.value); }
  }

  /** The round trip: a response decodes to exactly its class-IN A and AAAA answers, in order, under the
      name of the first question. */
  lemma DecodeInvertsEncode(m: Message)
    requires GoodMessage(m) && m.flags >= 128
    ensures AddressAnswers(Encode(m)) == Wanted(NameOf(Qname(Encode(m))), m.answers)
    ensures m.questions != [] && m.questions[0].name.pointer.None? ==>
              AddressAnswers(Encode(m)) == Wanted(NameText(Texts(Read(m.questions[0].name.labels))), m.answers)
  {
    hide Encode, EncAnswers, Wanted, Whole, AddressAnswers, EncQuestions, Qname, NameText, Texts;
    var p := Encode(m);
    Parts(m);
    DecodeCut(m, |p|);
    FirstName(m, |p|);
    assert p[..|p|] == p;
    WholeAll(m.answers, |p| - AnswerStart(m));
  }
}
