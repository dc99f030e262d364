/** The line classifier: one pass over the rules for two axes at once, and the counters built on it. */
module LineBuckets {
  import opened Text
  import opened MapSum

  /** A rule names a value for either axis or for both; the regex is whatever `pat` says of a body. */
  datatype Rule = Rule(service: Option<string>, subsystem: Option<string>, pat: string -> bool)

  /** The rules and the defaults a component brings along. */
  datatype Catalog = Catalog(
    rules: seq<Rule>, serviceDefaults: map<string, string>, subsystemDefaults: map<string, string>)

  datatype Via = Matched | FromComponent | Unresolved

  datatype Verdict = Verdict(service: string, subsystem: string, serviceVia: Via, subsystemVia: Via)

  const UNKNOWN := "unknown"

  // --- one axis on its own ---

  datatype Axis = Service | Subsystem

  function Names(r: Rule, axis: Axis): Option<string> {
    match axis
    case Service => r.service
    case Subsystem => r.subsystem
  }

  predicate Speaks(r: Rule, body: string, axis: Axis) {
    Names(r, axis).Some? && r.pat(body)
  }

  function FirstMatch(rules: seq<Rule>, body: string, axis: Axis): Option<string> {
    if rules == [] then None
    else if Speaks(rules[0], body, axis) then Names(rules[0], axis)
    else FirstMatch(rules[1..], body, axis)
  }

  /** It is the first rule that names this axis and matches the body, whatever the rules before it say
      about the other axis. */
  lemma {:induction false} FirstMatchIsFirst(rules: seq<Rule>, body: string, axis: Axis, i: nat)
    requires i <= |rules| && forall j :: 0 <= j < i ==> !Speaks(rules[j], body, axis)
    ensures i < |rules| && Speaks(rules[i], body, axis) ==> FirstMatch(rules, body, axis) == Names(rules[i], axis)
    ensures i == |rules| ==> FirstMatch(rules, body, axis) == None
    decreases |rules|
  {
    if i > 0 { FirstMatchIsFirst(rules[1..], body, axis, i - 1); }
  }

  /** Rule, then component default, then unknown. Python's `or` and `if` take an empty name for none. */
  function Resolve(found: Option<string>, defaults: map<string, string>, component: string): (string, Via) {
    match found
    case Some(name) => (if name != "" then name else UNKNOWN, Matched)
    case None =>
      if component in defaults && defaults[component] != "" then (defaults[component], FromComponent)
      else (UNKNOWN, Unresolved)
  }

  function Search(c: Catalog, body: string, axis: Axis): Option<string> {
    if body == "" then None else FirstMatch(c.rules, body, axis)
  }

  /** The two axes, each resolved on its own. */
  function Classify(c: Catalog, body: string, component: string): Verdict {
    var s := Resolve(Search(c, body, Service), c.serviceDefaults, component);
    var t := Resolve(Search(c, body, Subsystem), c.subsystemDefaults, component);
    Verdict(s.0, t.0, s.1, t.1)
  }

  /** What is still to be found out about an axis once `found` is known from the first rules. */
  function Rest(found: Option<string>, rules: seq<Rule>, body: string, axis: Axis): Option<string> {
    if found.Some? then found else FirstMatch(rules, body, axis)
  }

  lemma RestStep(found: Option<string>, rules: seq<Rule>, body: string, axis: Axis)
    requires rules != []
    ensures Rest(found, rules, body, axis) ==
            Rest(if found.None? && Speaks(rules[0], body, axis) then Names(rules[0], axis) else found, rules[1..],
                 body, axis)
  {
  }

  lemma NoRules(body: string)
    ensures FirstMatch([], body, Service) == None == FirstMatch([], body, Subsystem)
  {
  }

  /** The fused loop, with its skips and its early exit, is the two searches. */
  method ClassifyLine(c: Catalog, body: string, component: string) returns (v: Verdict)
    ensures v == Classify(c, body, component)
  {
    hide FirstMatch;
    var service: Option<string> := None;
    var subsystem: Option<string> := None;
    if body != "" {
      var i := 0;
      while i < |c.rules|
        invariant i <= |c.rules|
        invariant Rest(service, c.rules[i..], body, Service) == FirstMatch(c.rules, body, Service)
        invariant Rest(subsystem, c.rules[i..], body, Subsystem) == FirstMatch(c.rules, body, Subsystem)
      {
        var rule := c.rules[i];
        assert c.rules[i..][0] == rule && c.rules[i..][1..] == c.rules[i + 1..];
        RestStep(service, c.rules[i..], body, Service);
        RestStep(subsystem, c.rules[i..], body, Subsystem);
        i := i + 1;
        if (service.Some? || rule.service.None?) && (subsystem.Some? || rule.subsystem.None?) { continue; }
        if !rule.pat(body) { continue; }
        if service.None? && rule.service.Some? { service := rule.service; }
        if subsystem.None? && rule.subsystem.Some? { subsystem := rule.subsystem; }
        if service.Some? && subsystem.Some? { break; }
      }
      NoRules(body);
      assert i == |c.rules| ==> c.rules[i..] == [];
    }
    var serviceVia := if service.Some? then Matched else Unresolved;
    var subsystemVia := if subsystem.Some? then Matched else Unresolved;
    if service.None? && component in c.serviceDefaults && c.serviceDefaults[component] != "" {
      service, serviceVia := Some(c.serviceDefaults[component]), FromComponent;
    }
    if subsystem.None? && component in c.subsystemDefaults && c.subsystemDefaults[component] != "" {
      subsystem, subsystemVia := Some(c.subsystemDefaults[component]), FromComponent;
    }
    return Verdict(OrUnknown(service), OrUnknown(subsystem), serviceVia, subsystemVia);
  }

  /** `name or "unknown"` */
  function OrUnknown(name: Option<string>): string {
    if name.Some? && name.value != "" then name.value else UNKNOWN
  }

  // --- the report ---

  datatype Line = Line(body: string, component: string)

  datatype BucketedLine = BucketedLine(line: Line, verdict: Verdict)

  function ServiceOf(c: Catalog): Line -> string { (l: Line) => Classify(c, l.body, l.component).service }
  function SubsystemOf(c: Catalog): Line -> string { (l: Line) => Classify(c, l.body, l.component).subsystem }
  function PairOf(c: Catalog): Line -> (string, string) {
    (l: Line) => (Classify(c, l.body, l.component).service, Classify(c, l.body, l.component).subsystem)
  }
  function ServiceViaOf(c: Catalog): Line -> Via { (l: Line) => Classify(c, l.body, l.component).serviceVia }
  function SubsystemViaOf(c: Catalog): Line -> Via { (l: Line) => Classify(c, l.body, l.component).subsystemVia }
  function One(): Line -> int { (l: Line) => 1 }

  /** Lines without a subsystem count for their shape. */
  function Gap(c: Catalog): Line -> int {
    (l: Line) => if Classify(c, l.body, l.component).subsystem == UNKNOWN then 1 else 0
  }

  function Bucketed(c: Catalog, ls: seq<Line>): seq<BucketedLine> {
    seq(|ls|, i requires 0 <= i < |ls| => BucketedLine(ls[i], Classify(c, ls[i].body, ls[i].component)))
  }

  /** `shape` is the line-shape normaliser. */
  function Shapes(c: Catalog, ls: seq<Line>, shape: string -> string): map<string, int> {
    if ls == [] then map[]
    else
      var before, l := Shapes(c, ls[..|ls| - 1], shape), ls[|ls| - 1];
      if Gap(c)(l) == 1 then Add(before, shape(l.body), 1) else before
  }

  class BucketReport {
    var totalLines: nat
    var byService: map<string, int>
    var bySubsystem: map<string, int>
    var byPair: map<(string, string), int>
    var serviceViaCounts: map<Via, int>
    var subsystemViaCounts: map<Via, int>
    var unclassifiedService: nat
    var unclassifiedSubsystem: nat
    var unclassifiedBoth: nat
    var unmatchedShapes: map<string, int>
    var lines: seq<BucketedLine>

    /** The pivots count every line once. */
    ghost predicate Pivots(c: Catalog, ls: seq<Line>)
      reads `totalLines, `byService, `bySubsystem, `byPair, `serviceViaCounts, `subsystemViaCounts
    {
      && totalLines == |ls|
      && byService == Counter(ls, ServiceOf(c), One())
      && bySubsystem == Counter(ls, SubsystemOf(c), One())
      && byPair == Counter(ls, PairOf(c), One())
      && serviceViaCounts == Counter(ls, ServiceViaOf(c), One())
      && subsystemViaCounts == Counter(ls, SubsystemViaOf(c), One())
    }

    /** The gaps and, if kept, the lines. */
    ghost predicate Coverage(c: Catalog, ls: seq<Line>, shape: string -> string, keep: bool)
      reads `unclassifiedService, `unclassifiedSubsystem, `unclassifiedBoth, `unmatchedShapes, `lines
    {
      && unclassifiedService == Total(ls, For(ServiceOf(c), One(), UNKNOWN))
      && unclassifiedSubsystem == Total(ls, For(SubsystemOf(c), One(), UNKNOWN))
      && unclassifiedBoth == Total(ls, For(PairOf(c), One(), (UNKNOWN, UNKNOWN)))
      && unmatchedShapes == Shapes(c, ls, shape)
      && lines == if keep then Bucketed(c, ls) else []
    }

    constructor (c: Catalog, shape: string -> string, keep: bool)
      ensures Pivots(c, []) && Coverage(c, [], shape, keep)
    {
      totalLines, unclassifiedService, unclassifiedSubsystem, unclassifiedBoth := 0, 0, 0, 0;
      byService, bySubsystem, byPair := map[], map[], map[];
      serviceViaCounts, subsystemViaCounts, unmatchedShapes := map[], map[], map[];
      lines := [];
    }

    method CountPivots(c: Catalog, l: Line, v: Verdict, ghost before: seq<Line>)
      requires Pivots(c, before) && v == Classify(c, l.body, l.component)
      modifies `totalLines, `byService, `bySubsystem, `byPair, `serviceViaCounts, `subsystemViaCounts
      ensures Pivots(c, before + [l])
    {
      hide Classify, Counter;
      NextPivots(c, before, l);
      totalLines := totalLines + 1;
      byService := Add(byService, v.service, 1);
      bySubsystem := Add(bySubsystem, v.subsystem, 1);
      byPair := Add(byPair, (v.service, v.subsystem), 1);
      serviceViaCounts := Add(serviceViaCounts, v.serviceVia, 1);
      subsystemViaCounts := Add(subsystemViaCounts, v.subsystemVia, 1);
    }

    method CountGaps(c: Catalog, l: Line, v: Verdict, shape: string -> string, keep: bool, ghost before: seq<Line>)
      requires Coverage(c, before, shape, keep) && v == Classify(c, l.body, l.component)
      modifies `unclassifiedService, `unclassifiedSubsystem, `unclassifiedBoth, `unmatchedShapes, `lines
      ensures Coverage(c, before + [l], shape, keep)
    {
      hide Classify, Total, Shapes, Bucketed, For, Add;
      NextGaps(c, before, l, shape);
      if v.service == UNKNOWN { unclassifiedService := unclassifiedService + 1; }
      if v.subsystem == UNKNOWN {
        unclassifiedSubsystem := unclassifiedSubsystem + 1;
        unmatchedShapes := Add(unmatchedShapes, shape(l.body), 1);
      }
      if v.service == UNKNOWN && v.subsystem == UNKNOWN { unclassifiedBoth := unclassifiedBoth + 1; }
      if keep { lines := lines + [BucketedLine(l, v)]; }
    }

    method LinesFor(service: Option<string>, subsystem: Option<string>) returns (out: seq<BucketedLine>)
      ensures out == Chosen(lines, service, subsystem)
    {
      out := [];
      for i := 0 to |lines|
        invariant out == Chosen(lines[..i], service, subsystem)
      {
        assert lines[..i + 1][..i] == lines[..i];
        var l := lines[i];
        if service.Some? && l.verdict.service != service.value { continue; }
        if subsystem.Some? && l.verdict.subsystem != subsystem.value { continue; }
        out := out + [l];
      }
      assert lines[..|lines|] == lines;
    }
  }

  method BuildBuckets(c: Catalog, ls: seq<Line>, shape: string -> string, keep: bool) returns (rep: BucketReport)
    ensures fresh(rep) && rep.Pivots(c, ls) && rep.Coverage(c, ls, shape, keep)
  {
    hide Classify, BucketReport.Pivots, BucketReport.Coverage;
    rep := new BucketReport(c, shape, keep);
    for i := 0 to |ls|
      invariant fresh(rep) && rep.Pivots(c, ls[..i]) && rep.Coverage(c, ls[..i], shape, keep)
    {
      var v := ClassifyLine(c, ls[i].body, ls[i].component);
      rep.CountPivots(c, ls[i], v, ls[..i]);
      rep.CountGaps(c, ls[i], v, shape, keep, ls[..i]);
      assert ls[..i] + [ls[i]] == ls[..i + 1];
    }
    assert ls[..|ls|] == ls;
  }

  function Chosen(ls: seq<BucketedLine>, service: Option<string>, subsystem: Option<string>): seq<BucketedLine> {
    if ls == [] then []
    else
      var l := ls[|ls| - 1];
      Chosen(ls[..|ls| - 1], service, subsystem)
      + if (service.Some? && l.verdict.service != service.value)
           || (subsystem.Some? && l.verdict.subsystem != subsystem.value)
      then [] else [l]
  }

  lemma NextPivots(c: Catalog, ls: seq<Line>, l: Line)
    ensures var all := ls + [l];
            var v := Classify(c, l.body, l.component);
            && Counter(all, ServiceOf(c), One()) == Add(Counter(ls, ServiceOf(c), One()), v.service, 1)
            && Counter(all, SubsystemOf(c), One()) == Add(Counter(ls, SubsystemOf(c), One()), v.subsystem, 1)
            && Counter(all, PairOf(c), One()) == Add(Counter(ls, PairOf(c), One()), (v.service, v.subsystem), 1)
            && Counter(all, ServiceViaOf(c), One()) == Add(Counter(ls, ServiceViaOf(c), One()), v.serviceVia, 1)
            && Counter(all, SubsystemViaOf(c), One()) == Add(Counter(ls, SubsystemViaOf(c), One()), v.subsystemVia, 1)
  {
    hide Classify, Counter;
    CounterPush(ls, l, ServiceOf(c), One());
    CounterPush(ls, l, SubsystemOf(c), One());
    CounterPush(ls, l, PairOf(c), One());
    CounterPush(ls, l, ServiceViaOf(c), One());
    CounterPush(ls, l, SubsystemViaOf(c), One());
  }

  lemma NextGaps(c: Catalog, ls: seq<Line>, l: Line, shape: string -> string)
    ensures var all := ls + [l];
            var v := Classify(c, l.body, l.component);
            && Total(all, For(ServiceOf(c), One(), UNKNOWN)) ==
               Total(ls, For(ServiceOf(c), One(), UNKNOWN)) + (if v.service == UNKNOWN then 1 else 0)
            && Total(all, For(SubsystemOf(c), One(), UNKNOWN)) ==
               Total(ls, For(SubsystemOf(c), One(), UNKNOWN)) + (if v.subsystem == UNKNOWN then 1 else 0)
            && Total(all, For(PairOf(c), One(), (UNKNOWN, UNKNOWN))) ==
               Total(ls, For(PairOf(c), One(), (UNKNOWN, UNKNOWN)))
               + (if v.service == UNKNOWN == v.subsystem then 1 else 0)
            && Shapes(c, all, shape) ==
               (if v.subsystem == UNKNOWN then Add(Shapes(c, ls, shape), shape(l.body), 1) else Shapes(c, ls, shape))
            && Bucketed(c, all) == Bucketed(c, ls) + [BucketedLine(l, v)]
  {
    hide Classify, Total, Add;
    assert (ls + [l])[..|ls|] == ls;
    TotalPush(ls, l, For(ServiceOf(c), One(), UNKNOWN));
    TotalPush(ls, l, For(SubsystemOf(c), One(), UNKNOWN));
    TotalPush(ls, l, For(PairOf(c), One(), (UNKNOWN, UNKNOWN)));
  }

  // --- the counts fit together ---

  lemma {:induction false} Ones(ls: seq<Line>)
    ensures Total(ls, One()) == |ls|
    decreases |ls|
  {
    if ls != [] { Ones(ls[..|ls| - 1]); }
  }

  /** A counter over all lines sums to their number. */
  lemma SumsToAll<K>(ls: seq<Line>, key: Line -> K)
    ensures Sum(Counter(ls, key, One()), Picked(Every())) == |ls|
  {
    hide Counter, Sum;
    CounterSum(ls, key, One(), Every());
    TotalSame(ls, ForKeys(key, One(), Every()), One());
    Ones(ls);
  }

  function WithService(s: string): ((string, string)) -> bool { (p: (string, string)) => p.0 == s }
  function WithSubsystem(t: string): ((string, string)) -> bool { (p: (string, string)) => p.1 == t }

  /** Every pivot sums to the number of lines, and the pairs have the two single pivots as marginals. */
  lemma PivotsFit(c: Catalog, ls: seq<Line>, s: string, t: string)
    ensures Sum(Counter(ls, ServiceOf(c), One()), Picked(Every())) == |ls|
    ensures Sum(Counter(ls, SubsystemOf(c), One()), Picked(Every())) == |ls|
    ensures Sum(Counter(ls, PairOf(c), One()), Picked(Every())) == |ls|
    ensures Sum(Counter(ls, PairOf(c), One()), Picked(WithService(s))) == Get(Counter(ls, ServiceOf(c), One()), s)
    ensures Sum(Counter(ls, PairOf(c), One()), Picked(WithSubsystem(t))) == Get(Counter(ls, SubsystemOf(c), One()), t)
  {
    hide Counter, Sum, Classify, Total;
    SumsToAll(ls, ServiceOf(c));
    SumsToAll(ls, SubsystemOf(c));
    SumsToAll(ls, PairOf(c));
    CounterSum(ls, PairOf(c), One(), WithService(s));
    CounterSum(ls, PairOf(c), One(), WithSubsystem(t));
    CounterExact(ls, ServiceOf(c), One(), s);
    CounterExact(ls, SubsystemOf(c), One(), t);
    TotalSame(ls, ForKeys(PairOf(c), One(), WithService(s)), For(ServiceOf(c), One(), s));
    TotalSame(ls, ForKeys(PairOf(c), One(), WithSubsystem(t)), For(SubsystemOf(c), One(), t));
  }

  lemma OneMore(counts: map<string, int>, key: string)
    ensures Sum(Add(counts, key, 1), Picked(Every())) == Sum(counts, Picked(Every())) + 1
  {
    hide Sum;
    SumSet(counts, key, Get(counts, key) + 1, Picked(Every()));
  }

  /** The shapes account for every line without a subsystem. */
  lemma {:induction false} ShapesFillTheGap(c: Catalog, ls: seq<Line>, shape: string -> string)
    ensures Sum(Shapes(c, ls, shape), Picked(Every())) == Total(ls, For(SubsystemOf(c), One(), UNKNOWN))
    decreases |ls|
  {
    if ls != [] {
      hide Sum, Classify, Add;
      var l, before := ls[|ls| - 1], Shapes(c, ls[..|ls| - 1], shape);
      ShapesFillTheGap(c, ls[..|ls| - 1], shape);
      OneMore(before, shape(l.body));
    } else {
      assert Shapes(c, ls, shape) == map[];
    }
  }

  predicate WellNamed(name: string) {
    name != "" && name != UNKNOWN
  }

  function Defaults(c: Catalog, axis: Axis): map<string, string> {
    match axis
    case Service => c.serviceDefaults
    case Subsystem => c.subsystemDefaults
  }

  /** The rule found for the line is called "" or "unknown", or the default taken for it "unknown". */
  predicate Misnamed(c: Catalog, l: Line, axis: Axis) {
    match Search(c, l.body, axis)
    case Some(name) => !WellNamed(name)
    case None => l.component in Defaults(c, axis) && Defaults(c, axis)[l.component] == UNKNOWN
  }

  function Misnames(c: Catalog, axis: Axis): Line -> int {
    (l: Line) => if Misnamed(c, l, axis) then 1 else 0
  }

  /** A verdict is unknown if it is unresolved or misnamed, never both. */
  lemma UnknownExactly(c: Catalog, l: Line)
    ensures var v := Classify(c, l.body, l.component);
            && (v.service == UNKNOWN <==> v.serviceVia == Unresolved || Misnamed(c, l, Service))
            && !(v.serviceVia == Unresolved && Misnamed(c, l, Service))
            && (v.subsystem == UNKNOWN <==> v.subsystemVia == Unresolved || Misnamed(c, l, Subsystem))
            && !(v.subsystemVia == Unresolved && Misnamed(c, l, Subsystem))
  {
    hide FirstMatch;
  }

  /** The unclassified counts exceed the unresolved provenance counts by exactly the misnamed lines. */
  lemma UnknownsAreUnresolved(c: Catalog, ls: seq<Line>)
    ensures Total(ls, For(ServiceOf(c), One(), UNKNOWN)) ==
            Get(Counter(ls, ServiceViaOf(c), One()), Unresolved) + Total(ls, Misnames(c, Service))
    ensures Total(ls, For(SubsystemOf(c), One(), UNKNOWN)) ==
            Get(Counter(ls, SubsystemViaOf(c), One()), Unresolved) + Total(ls, Misnames(c, Subsystem))
  {
    hide Classify, Misnamed, Total, Counter;
    forall l | l in ls
      ensures For(ServiceOf(c), One(), UNKNOWN)(l) == For(ServiceViaOf(c), One(), Unresolved)(l)
                                                      + Misnames(c, Service)(l)
      ensures For(SubsystemOf(c), One(), UNKNOWN)(l) == For(SubsystemViaOf(c), One(), Unresolved)(l)
                                                        + Misnames(c, Subsystem)(l)
    {
      UnknownExactly(c, l);
    }
    CounterExact(ls, ServiceViaOf(c), One(), Unresolved);
    CounterExact(ls, SubsystemViaOf(c), One(), Unresolved);
    TotalPlus(ls, For(ServiceOf(c), One(), UNKNOWN), For(ServiceViaOf(c), One(), Unresolved), Misnames(c, Service));
    TotalPlus(ls, For(SubsystemOf(c), One(), UNKNOWN), For(SubsystemViaOf(c), One(), Unresolved),
              Misnames(c, Subsystem));
  }

  /** So they agree if and only if no line is misnamed; with well-named rules and defaults, always. */
  lemma {:induction false} NoneMisnamed(c: Catalog, ls: seq<Line>, axis: Axis)
    ensures Total(ls, Misnames(c, axis)) >= 0
    ensures Total(ls, Misnames(c, axis)) == 0 <==> forall l :: l in ls ==> !Misnamed(c, l, axis)
    ensures WellNamedAxis(c, axis) ==> Total(ls, Misnames(c, axis)) == 0
    decreases |ls|
  {
    hide Misnamed, WellNamedAxis;
    if ls != [] {
      var init, l := ls[..|ls| - 1], ls[|ls| - 1];
      NoneMisnamed(c, init, axis);
      assert ls == init + [l];
      if WellNamedAxis(c, axis) { NotMisnamed(c, l, axis); }
    }
  }

  ghost predicate WellNamedAxis(c: Catalog, axis: Axis) {
    && (forall i :: 0 <= i < |c.rules| && Names(c.rules[i], axis).Some? ==> WellNamed(Names(c.rules[i], axis).value))
    && (forall k :: k in Defaults(c, axis) ==> Defaults(c, axis)[k] != UNKNOWN)
  }

  lemma {:induction false} FoundIsNamed(rules: seq<Rule>, body: string, axis: Axis)
    requires forall i :: 0 <= i < |rules| && Names(rules[i], axis).Some? ==> WellNamed(Names(rules[i], axis).value)
    ensures FirstMatch(rules, body, axis).Some? ==> WellNamed(FirstMatch(rules, body, axis).value)
    decreases |rules|
  {
    hide WellNamed;
    if rules != [] {
      assert forall i :: 0 <= i < |rules[1..]| ==> rules[1..][i] == rules[i + 1];
      FoundIsNamed(rules[1..], body, axis);
    }
  }

  lemma NotMisnamed(c: Catalog, l: Line, axis: Axis)
    requires WellNamedAxis(c, axis)
    ensures !Misnamed(c, l, axis)
  {
    hide FirstMatch, Names, Defaults;
    FoundIsNamed(c.rules, l.body, axis);
  }

  /** A rule named "unknown" is counted as unclassified although it matched. */
  lemma NamedUnknown()
    ensures var c := Catalog([Rule(Some(UNKNOWN), None, (b: string) => true)], map[], map[]);
            Classify(c, "x", "").service == UNKNOWN && Classify(c, "x", "").serviceVia == Matched
  {
  }

  /** 1 for a line that `LinesFor` would list. */
  function Wants(c: Catalog, service: Option<string>, subsystem: Option<string>): Line -> int {
    (l: Line) =>
      var v := Classify(c, l.body, l.component);
      if (service.Some? && v.service != service.value) || (subsystem.Some? && v.subsystem != subsystem.value)
      then 0 else 1
  }

  lemma ChosenStep(c: Catalog, ls: seq<Line>, service: Option<string>, subsystem: Option<string>)
    requires ls != []
    ensures |Chosen(Bucketed(c, ls), service, subsystem)| ==
            |Chosen(Bucketed(c, ls[..|ls| - 1]), service, subsystem)| + Wants(c, service, subsystem)(ls[|ls| - 1])
  {
    hide Classify;
    var n := |ls| - 1;
    var b, l := Bucketed(c, ls), BucketedLine(ls[n], Classify(c, ls[n].body, ls[n].component));
    assert b[..|b| - 1] == Bucketed(c, ls[..n]) && b[|b| - 1] == l;
    assert Chosen(b, service, subsystem) == Chosen(b[..|b| - 1], service, subsystem)
                                            + if (service.Some? && l.verdict.service != service.value)
                                                 || (subsystem.Some? && l.verdict.subsystem != subsystem.value)
                                            then [] else [l];
    assert Wants(c, service, subsystem)(ls[n])
        == |Chosen(b, service, subsystem)| - |Chosen(b[..|b| - 1], service, subsystem)|;
  }

  lemma {:induction false} ChosenCount(c: Catalog, ls: seq<Line>, service: Option<string>, subsystem: Option<string>)
    ensures |Chosen(Bucketed(c, ls), service, subsystem)| == Total(ls, Wants(c, service, subsystem))
    decreases |ls|
  {
    hide Classify, Wants, Chosen, Bucketed;
    if ls != [] {
      ChosenStep(c, ls, service, subsystem);
      ChosenCount(c, ls[..|ls| - 1], service, subsystem);
    } else {
      NoneChosen(c, service, subsystem);
    }
  }

  lemma NoneChosen(c: Catalog, service: Option<string>, subsystem: Option<string>)
    ensures Chosen(Bucketed(c, []), service, subsystem) == []
  {
  }

  /** Drilling down lists as many kept lines as the pivots count: per pair, per service, per subsystem, and
      all of them. */
  lemma DrillDownCounts(c: Catalog, ls: seq<Line>, s: string, t: string)
    ensures |Chosen(Bucketed(c, ls), Some(s), Some(t))| == Get(Counter(ls, PairOf(c), One()), (s, t))
    ensures |Chosen(Bucketed(c, ls), Some(s), None)| == Get(Counter(ls, ServiceOf(c), One()), s)
    ensures |Chosen(Bucketed(c, ls), None, Some(t))| == Get(Counter(ls, SubsystemOf(c), One()), t)
    ensures |Chosen(Bucketed(c, ls), None, None)| == |ls|
  {
    hide Classify, Chosen, Bucketed, Counter, Total;
    ChosenCount(c, ls, Some(s), Some(t));
    ChosenCount(c, ls, Some(s), None);
    ChosenCount(c, ls, None, Some(t));
    ChosenCount(c, ls, None, None);
    CounterExact(ls, PairOf(c), One(), (s, t));
    CounterExact(ls, ServiceOf(c), One(), s);
    CounterExact(ls, SubsystemOf(c), One(), t);
    TotalSame(ls, Wants(c, Some(s), Some(t)), For(PairOf(c), One(), (s, t)));
    TotalSame(ls, Wants(c, Some(s), None), For(ServiceOf(c), One(), s));
    TotalSame(ls, Wants(c, None, Some(t)), For(SubsystemOf(c), One(), t));
    TotalSame(ls, Wants(c, None, None), One());
    Ones(ls);
  }
}
