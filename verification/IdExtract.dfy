/** Identifier extraction: the collecting loop with its cap and break, the substring gates, and the
    choice of identifier types. A regex is given by the values it finds in a text, in order. */
module IdExtract {
  import opened Text

  /** `find(text)` is the captured value of every match of the spec's regex, from left to right. */
  datatype Spec = Spec(idType: string, gates: seq<string>, find: string -> seq<string>, lower: bool, isUser: bool)

  type Id = (string, string)

  const CAP := 256
  const NOISE := {"", "true", "false", "null", "none", "nil", "unknown", "n/a", "na"}
  const MAX_NOISE_LEN := 7

  /** `val.replace("%40", "@")` */
  function DecodeAt(s: string): string {
    if |s| >= 3 && s[..3] == "%40" then "@" + DecodeAt(s[3..])
    else if s == "" then ""
    else [s[0]] + DecodeAt(s[1..])
  }

  /** The stored form of a found value; None for an empty or meaningless one. */
  function Normal(spec: Spec, val: string): Option<string> {
    var decoded := if spec.isUser then DecodeAt(val) else val;
    var v := if spec.lower then Lower(decoded) else decoded;
    if val == "" || Lower(v) in NOISE then None else Some(v)
  }

  function Count(ids: seq<Id>, t: string): nat {
    if ids == [] then 0 else (if ids[|ids| - 1].0 == t then 1 else 0) + Count(ids[..|ids| - 1], t)
  }

  /** The simple form of collecting: walk all values to the end, take each new one while its type has
      room. */
  function Taken(ids: seq<Id>, spec: Spec, vals: seq<string>): seq<Id>
    decreases |vals|
  {
    if vals == [] then ids
    else
      var v := Normal(spec, vals[0]);
      if v.None? || (spec.idType, v.value) in ids || Count(ids, spec.idType) >= CAP
      then Taken(ids, spec, vals[1..])
      else Taken(ids + [(spec.idType, v.value)], spec, vals[1..])
  }

  function TakenAll(ids: seq<Id>, specs: seq<Spec>, text: string): seq<Id>
    decreases |specs|
  {
    if specs == [] then ids else TakenAll(Taken(ids, specs[0], specs[0].find(text)), specs[1..], text)
  }

  predicate GateOpen(spec: Spec, text: string) {
    exists k :: 0 <= k < |spec.gates| && Contains(Lower(text), spec.gates[k])
  }

  function Open(specs: seq<Spec>, text: string): seq<Spec> {
    if specs == [] then [] else (if GateOpen(specs[0], text) then [specs[0]] else []) + Open(specs[1..], text)
  }

  /** The catalogue is split into specs with one gate and specs with several. */
  function Single(specs: seq<Spec>): seq<Spec> {
    if specs == [] then [] else (if |specs[0].gates| == 1 then [specs[0]] else []) + Single(specs[1..])
  }

  function Multi(specs: seq<Spec>): seq<Spec> {
    if specs == [] then [] else (if |specs[0].gates| > 1 then [specs[0]] else []) + Multi(specs[1..])
  }

  /** An empty list of specs stands for the default list. */
  function OrDefault(chosen: seq<Spec>, default: seq<Spec>): seq<Spec> {
    if chosen == [] then default else chosen
  }

  /** The specs `extract_ids` runs, in order. */
  function Run(catalogue: seq<Spec>, single: seq<Spec>, multi: seq<Spec>): seq<Spec> {
    OrDefault(single, Single(catalogue)) + OrDefault(multi, Multi(catalogue))
  }

  function Extract(catalogue: seq<Spec>, single: seq<Spec>, multi: seq<Spec>, text: string): seq<Id> {
    TakenAll([], Open(Run(catalogue, single, multi), text), text)
  }

  function ExtractUngated(catalogue: seq<Spec>, text: string): seq<Id> {
    TakenAll([], Run(catalogue, [], []), text)
  }

  // --- the loops ---

  class Collector {
    var out: seq<Id>
    var seen: set<Id>
    var perType: map<string, nat>

    constructor ()
      ensures Valid() && out == []
    {
      out, seen, perType := [], {}, map[];
    }

    ghost predicate Valid()
      reads this
    {
      && (forall id :: id in seen <==> id in out)
      && (forall t :: (if t in perType then perType[t] else 0) == Count(out, t))
    }

    /** Stops at the first new value its type has no room for. */
    method Collect(spec: Spec, text: string)
      requires Valid()
      modifies this
      ensures Valid() && out == Taken(old(out), spec, spec.find(text))
    {
      hide Normal, Count;
      var vals := spec.find(text);
      for k := 0 to |vals|
        invariant Valid() && Taken(out, spec, vals[k..]) == Taken(old(out), spec, vals)
      {
        assert vals[k..][0] == vals[k] && vals[k..][1..] == vals[k + 1..];
        var val := vals[k];
        NormalCases(spec, val);
        if val == "" {
          continue;
        }
        if spec.isUser {
          val := DecodeAt(val);
        }
        if spec.lower {
          val := Lower(val);
        }
        if |val| <= MAX_NOISE_LEN && Lower(val) in NOISE {
          continue;
        }
        var id := (spec.idType, val);
        if id in seen {
          continue;
        }
        var n := if spec.idType in perType then perType[spec.idType] else 0;
        if n >= CAP {
          FullStays(out, spec, vals[k..]);
          return;
        }
        CountAppend(out, id);
        seen := seen + {id};
        perType := perType[spec.idType := n + 1];
        out := out + [id];
      }
      assert vals[|vals|..] == [];
    }
  }

  lemma NormalCases(spec: Spec, val: string)
    ensures var d := if spec.isUser then DecodeAt(val) else val;
            var v := if spec.lower then Lower(d) else d;
            Normal(spec, val) == if val == "" || (|v| <= MAX_NOISE_LEN && Lower(v) in NOISE) then None else Some(v)
  {
    var d := if spec.isUser then DecodeAt(val) else val;
    var v := if spec.lower then Lower(d) else d;
    if Lower(v) in NOISE { NoiseIsShort(Lower(v)); }
  }

  lemma NoiseIsShort(v: string)
    requires v in NOISE
    ensures |v| <= MAX_NOISE_LEN
  {
  }

  lemma CountAppend(ids: seq<Id>, id: Id)
    ensures forall t :: Count(ids + [id], t) == Count(ids, t) + if t == id.0 then 1 else 0
  {
    assert (ids + [id])[..|ids|] == ids;
  }

  /** Once a type is full, walking on changes nothing: stopping equals skipping to the end. */
  lemma {:induction false} FullStays(ids: seq<Id>, spec: Spec, vals: seq<string>)
    requires Count(ids, spec.idType) >= CAP
    ensures Taken(ids, spec, vals) == ids
    decreases |vals|
  {
    if vals != [] { FullStays(ids, spec, vals[1..]); }
  }

  method ExtractIds(catalogue: seq<Spec>, single: seq<Spec>, multi: seq<Spec>, text: string) returns (ids: seq<Id>)
    ensures ids == Extract(catalogue, single, multi, text)
  {
    hide Taken, GateOpen;
    var c := new Collector();
    var specs := Run(catalogue, single, multi);
    for k := 0 to |specs|
      invariant c.Valid() && fresh(c)
      invariant TakenAll(c.out, Open(specs[k..], text), text) == Extract(catalogue, single, multi, text)
    {
      assert specs[k..][0] == specs[k] && specs[k..][1..] == specs[k + 1..];
      ghost var rest := Open(specs[k + 1..], text);
      if GateOpen(specs[k], text) {
        assert ([specs[k]] + rest)[1..] == rest;
        c.Collect(specs[k], text);
      } else {
        EmptyUnit(rest);
      }
    }
    assert specs[|specs|..] == [];
    return c.out;
  }

  // --- gates ---

  /** A gate that holds whenever its regex finds something. */
  predicate GateIsSuperset(spec: Spec, text: string) {
    spec.find(text) != [] ==> GateOpen(spec, text)
  }

  lemma {:induction false} GatesDropNothing(ids: seq<Id>, specs: seq<Spec>, text: string)
    requires forall k :: 0 <= k < |specs| ==> GateIsSuperset(specs[k], text)
    ensures TakenAll(ids, Open(specs, text), text) == TakenAll(ids, specs, text)
    decreases |specs|
  {
    if specs != [] {
      hide GateOpen;
      var rest := Open(specs[1..], text);
      var next := Taken(ids, specs[0], specs[0].find(text));
      GatesDropNothing(next, specs[1..], text);
      if GateOpen(specs[0], text) {
        assert ([specs[0]] + rest)[1..] == rest;
      } else {
        assert GateIsSuperset(specs[0], text);
        assert next == ids;
        EmptyUnit(rest);
      }
    }
  }

  lemma {:induction false} SplitMembers(specs: seq<Spec>, s: Spec)
    ensures s in Single(specs) ==> s in specs && |s.gates| == 1
    ensures s in Multi(specs) ==> s in specs && |s.gates| > 1
    decreases |specs|
  {
    if specs != [] { SplitMembers(specs[1..], s); }
  }

  /** Fast extraction equals slow extraction: same identifiers in the same order. */
  lemma FastEqualsSlow(catalogue: seq<Spec>, text: string)
    requires forall s :: s in catalogue ==> GateIsSuperset(s, text)
    ensures Extract(catalogue, [], [], text) == ExtractUngated(catalogue, text)
  {
    var specs := Run(catalogue, [], []);
    forall k | 0 <= k < |specs| ensures GateIsSuperset(specs[k], text) {
      SplitMembers(catalogue, specs[k]);
    }
    GatesDropNothing([], specs, text);
  }

  // --- what is in the result ---

  /** Found by one of the specs, in its stored form. */
  ghost predicate FoundBy(specs: seq<Spec>, text: string, id: Id) {
    exists k, m :: 0 <= k < |specs| && 0 <= m < |specs[k].find(text)|
                   && specs[k].idType == id.0 && Normal(specs[k], specs[k].find(text)[m]) == Some(id.1)
  }

  function Next(ids: seq<Id>, spec: Spec, val: string): seq<Id> {
    var v := Normal(spec, val);
    if v.None? || (spec.idType, v.value) in ids || Count(ids, spec.idType) >= CAP then ids
    else ids + [(spec.idType, v.value)]
  }

  lemma TakenNext(ids: seq<Id>, spec: Spec, vals: seq<string>)
    requires vals != []
    ensures Taken(ids, spec, vals) == Taken(Next(ids, spec, vals[0]), spec, vals[1..])
  {
  }

  lemma NextFacts(ids: seq<Id>, spec: Spec, val: string)
    requires Distinct(ids) && forall t :: Count(ids, t) <= CAP
    ensures var r := Next(ids, spec, val);
            && Distinct(r) && ids <= r && (forall t :: Count(ids, t) <= Count(r, t) <= CAP)
            && (forall id :: id in r ==> id in ids || (id.0 == spec.idType && Normal(spec, val) == Some(id.1)))
            && (Normal(spec, val).Some? ==> (spec.idType, Normal(spec, val).value) in r || Count(r, spec.idType) == CAP)
  {
    hide Normal, Count;
    var v := Normal(spec, val);
    if v.Some? { CountAppend(ids, (spec.idType, v.value)); }
  }

  lemma {:induction false} TakenFacts(ids: seq<Id>, spec: Spec, vals: seq<string>)
    requires Distinct(ids) && forall t :: Count(ids, t) <= CAP
    ensures var r := Taken(ids, spec, vals);
            Distinct(r) && ids <= r && (forall t :: Count(ids, t) <= Count(r, t) <= CAP)
    decreases |vals|
  {
    if vals != [] {
      hide Normal, Count, Taken, Next, Distinct;
      TakenNext(ids, spec, vals);
      NextFacts(ids, spec, vals[0]);
      TakenFacts(Next(ids, spec, vals[0]), spec, vals[1..]);
    }
  }

  ghost predicate AmongValues(spec: Spec, vals: seq<string>, id: Id) {
    id.0 == spec.idType && exists m :: 0 <= m < |vals| && Normal(spec, vals[m]) == Some(id.1)
  }

  lemma AmongSplits(spec: Spec, vals: seq<string>, id: Id)
    requires vals != []
    ensures AmongValues(spec, vals, id) <==>
            AmongValues(spec, vals[1..], id) || (id.0 == spec.idType && Normal(spec, vals[0]) == Some(id.1))
  {
    hide Normal;
    if AmongValues(spec, vals, id) {
      var m :| 0 <= m < |vals| && Normal(spec, vals[m]) == Some(id.1);
      if m > 0 { assert vals[1..][m - 1] == vals[m]; }
    }
    if AmongValues(spec, vals[1..], id) {
      var m :| 0 <= m < |vals[1..]| && Normal(spec, vals[1..][m]) == Some(id.1);
      assert vals[m + 1] == vals[1..][m];
    }
  }

  lemma {:induction false} TakenOne(ids: seq<Id>, spec: Spec, vals: seq<string>, id: Id)
    requires Distinct(ids) && forall t :: Count(ids, t) <= CAP
    ensures var r := Taken(ids, spec, vals);
            && (id in r ==> id in ids || AmongValues(spec, vals, id))
            && (AmongValues(spec, vals, id) ==> id in r || Count(r, id.0) == CAP)
    decreases |vals|
  {
    if vals != [] {
      hide Normal, Count, Taken, Next, Distinct, AmongValues;
      var next := Next(ids, spec, vals[0]);
      TakenNext(ids, spec, vals);
      NextFacts(ids, spec, vals[0]);
      TakenOne(next, spec, vals[1..], id);
      TakenFacts(next, spec, vals[1..]);
      AmongSplits(spec, vals, id);
    } else {
      assert Taken(ids, spec, vals) == ids;
    }
  }

  lemma {:induction false} TakenAllFacts(ids: seq<Id>, specs: seq<Spec>, text: string)
    requires Distinct(ids) && forall t :: Count(ids, t) <= CAP
    ensures var r := TakenAll(ids, specs, text);
            && Distinct(r) && ids <= r && (forall t :: Count(ids, t) <= Count(r, t) <= CAP)
            && (forall id :: id in r ==> id in ids || FoundBy(specs, text, id))
            && (forall id :: FoundBy(specs, text, id) ==> id in r || Count(r, id.0) == CAP)
    decreases |specs|
  {
    if specs != [] {
      hide Normal, Count, Taken, Distinct, FoundBy, AmongValues;
      var vals := specs[0].find(text);
      var next := Taken(ids, specs[0], vals);
      TakenFacts(ids, specs[0], vals);
      TakenAllFacts(next, specs[1..], text);
      var r := TakenAll(ids, specs, text);
      forall id
        ensures (id in r ==> id in ids || FoundBy(specs, text, id))
                && (FoundBy(specs, text, id) ==> id in r || Count(r, id.0) == CAP)
      {
        TakenOne(ids, specs[0], vals, id);
        FoundSplits(specs, text, id);
      }
    }
  }

  lemma FoundSplits(specs: seq<Spec>, text: string, id: Id)
    requires specs != []
    ensures FoundBy(specs, text, id) <==>
            AmongValues(specs[0], specs[0].find(text), id) || FoundBy(specs[1..], text, id)
  {
    hide Normal;
    if FoundBy(specs, text, id) {
      var k, m :| 0 <= k < |specs| && 0 <= m < |specs[k].find(text)|
                  && specs[k].idType == id.0 && Normal(specs[k], specs[k].find(text)[m]) == Some(id.1);
      if k > 0 { assert specs[1..][k - 1] == specs[k]; }
    }
    if FoundBy(specs[1..], text, id) {
      var k, m :| 0 <= k < |specs[1..]| && 0 <= m < |specs[1..][k].find(text)|
                  && specs[1..][k].idType == id.0 && Normal(specs[1..][k], specs[1..][k].find(text)[m]) == Some(id.1);
      assert specs[k + 1] == specs[1..][k];
    }
  }

  /** Per type at most the cap, nothing twice, nothing that was not found; and a found value is missing
      only when its type is full, which is when the truncation counter rises. */
  lemma ExtractedIds(catalogue: seq<Spec>, single: seq<Spec>, multi: seq<Spec>, text: string)
    ensures var r := Extract(catalogue, single, multi, text);
            var specs := Open(Run(catalogue, single, multi), text);
            && Distinct(r)
            && (forall t :: Count(r, t) <= CAP)
            && (forall id :: id in r ==> FoundBy(specs, text, id))
            && (forall id :: FoundBy(specs, text, id) && id !in r ==> Truncated(r))
  {
    hide Open, Run, TakenAll, FoundBy;
    var specs := Open(Run(catalogue, single, multi), text);
    TakenAllFacts([], specs, text);
    var r := Extract(catalogue, single, multi, text);
    forall id | FoundBy(specs, text, id) && id !in r ensures Truncated(r) {
      CountBounded(r, id.0);
      CountWitness(r, id.0);
      assert Full(r, id.0);
    }
  }

  predicate Full(ids: seq<Id>, t: string) {
    Count(ids, t) >= CAP
  }

  /** The test by which a closed record is counted as truncated: its fullest type has reached the cap. */
  predicate Truncated(ids: seq<Id>) {
    |ids| >= CAP && exists k :: 0 <= k < |ids| && Full(ids, ids[k].0)
  }

  lemma {:induction false} CountWitness(ids: seq<Id>, t: string)
    requires Count(ids, t) > 0
    ensures exists k :: 0 <= k < |ids| && ids[k].0 == t
    decreases |ids|
  {
    var n := |ids| - 1;
    if ids[n].0 != t {
      CountWitness(ids[..n], t);
      var k :| 0 <= k < |ids[..n]| && ids[..n][k].0 == t;
      assert ids[k].0 == t;
    }
  }

  lemma {:induction false} CountBounded(ids: seq<Id>, t: string)
    ensures Count(ids, t) <= |ids|
    decreases |ids|
  {
    if ids != [] { CountBounded(ids[..|ids| - 1], t); }
  }

  // --- choosing identifier types ---

  predicate Known(catalogue: seq<Spec>, t: string) {
    exists k :: 0 <= k < |catalogue| && catalogue[k].idType == t
  }

  function OfTypes(specs: seq<Spec>, wanted: seq<string>): seq<Spec> {
    if specs == [] then []
    else (if specs[0].idType in wanted then [specs[0]] else []) + OfTypes(specs[1..], wanted)
  }

  /** `select_id_specs`: no types asked for means all of them. */
  function Select(catalogue: seq<Spec>, wanted: seq<string>): Result<(seq<Spec>, seq<Spec>)> {
    if wanted == [] then Ok((Single(catalogue), Multi(catalogue)))
    else if exists k :: 0 <= k < |wanted| && !Known(catalogue, wanted[k]) then Err("unknown id_type")
    else Ok((OfTypes(Single(catalogue), wanted), OfTypes(Multi(catalogue), wanted)))
  }

  lemma {:induction false} OfTypesMember(specs: seq<Spec>, wanted: seq<string>, s: Spec)
    ensures s in OfTypes(specs, wanted) <==> s in specs && s.idType in wanted
    decreases |specs|
  {
    if specs != [] {
      OfTypesMember(specs[1..], wanted, s);
      assert specs == [specs[0]] + specs[1..];
    }
  }

  lemma {:induction false} OpenMember(specs: seq<Spec>, text: string, s: Spec)
    ensures s in Open(specs, text) ==> s in specs && GateOpen(s, text)
    decreases |specs|
  {
    if specs != [] { OpenMember(specs[1..], text, s); }
  }

  /** Which specs a selection runs: only wanted ones if and only if both halves of the catalogue keep a
      wanted spec or have nothing unwanted, because an empty half falls back to all its specs. */
  lemma SelectionExact(catalogue: seq<Spec>, wanted: seq<string>)
    requires wanted != [] && Select(catalogue, wanted).Ok?
    ensures var (single, multi) := Select(catalogue, wanted).value;
            (forall s :: s in Run(catalogue, single, multi) ==> s.idType in wanted)
            <==> (single == [] ==> Single(catalogue) == []) && (multi == [] ==> Multi(catalogue) == [])
  {
    var (single, multi) := Select(catalogue, wanted).value;
    var run := Run(catalogue, single, multi);
    forall s ensures s in single <==> s in Single(catalogue) && s.idType in wanted {
      OfTypesMember(Single(catalogue), wanted, s);
    }
    forall s ensures s in multi <==> s in Multi(catalogue) && s.idType in wanted {
      OfTypesMember(Multi(catalogue), wanted, s);
    }
    if single == [] && Single(catalogue) != [] {
      var s := Single(catalogue)[0];
      assert s in run && s !in single;
    } else if multi == [] && Multi(catalogue) != [] {
      var s := Multi(catalogue)[0];
      assert s in run && s !in multi;
    }
  }

  const CONN := Spec("conn_id", ["id="], (t: string) => ["7"], false, false)
  const USER := Spec("user", ["name", "upn"], (t: string) => ["ann"], false, true)

  lemma OfOne(s: Spec, wanted: seq<string>)
    ensures Single([s]) == (if |s.gates| == 1 then [s] else []) && Multi([s]) == (if |s.gates| > 1 then [s] else [])
    ensures OfTypes([s], wanted) == if s.idType in wanted then [s] else []
  {
    assert [s][1..] == [];
  }

  lemma OfTwo(s: Spec, t: Spec)
    ensures Single([s, t]) == Single([s]) + Single([t]) && Multi([s, t]) == Multi([s]) + Multi([t])
  {
    assert [s, t][1..] == [t] && [s][1..] == [];
  }

  /** With only users wanted, connection identifiers are indexed all the same. */
  lemma SelectionLeaks()
    ensures Select([CONN, USER], ["user"]) == Ok(([], [USER]))
    ensures CONN in Run([CONN, USER], [], [USER])
  {
    var both := [CONN, USER];
    assert both[1].idType == "user" && Known(both, "user");
    OfTwo(CONN, USER);
    OfOne(CONN, ["user"]);
    OfOne(USER, ["user"]);
    EmptyUnit([CONN]);
    EmptyUnit([USER]);
    assert Single(both) == [CONN] && Multi(both) == [USER];
    assert CONN.idType != "user" by { assert |CONN.idType| == 7; }
  }
}
