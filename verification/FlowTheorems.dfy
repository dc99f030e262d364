/** What the ledger promises: every line is accounted for, flows of a reused id do not overlap, and the
    aggregates partition the flows. */
module FlowTheorems {
  import opened Text
  import opened Order
  import opened LogStore
  import opened LogIndex
  import opened FlowLedger

  // --- time ---

  /** The lines of a flow lie after every earlier close of the same id and not after its own, so a flow
      starts no later than it ends and successive flows of one id do not overlap. */
  lemma FlowsDoNotOverlap(raw: seq<Close>, life: string -> seq<LineRow>, pat: Patterns, i: nat, j: nat)
    requires i < j < |raw| && raw[i].p.conn == raw[j].p.conn
    ensures forall k :: 0 <= k < |OwnLines(raw, life, j)| ==> raw[i].ts < OwnLines(raw, life, j)[k].ts <= raw[j].ts
    ensures Flows(raw, life, pat)[j].firstTs <= raw[j].ts
  {
    hide Owner, Bounds;
    var conn := raw[j].p.conn;
    var closes := ClosesOf(raw, conn);
    RankIsPlace(raw, i);
    RankIsPlace(raw, j);
    RankGrows(raw, i, j);
    OwnTimes(raw, life, j);
  }

  lemma OwnTimes(raw: seq<Close>, life: string -> seq<LineRow>, j: nat)
    requires j < |raw|
    ensures var closes := ClosesOf(raw, raw[j].p.conn);
            var own := OwnLines(raw, life, j);
            forall k :: 0 <= k < |own| ==>
                          && own[k].ts <= raw[j].ts
                          && forall r :: 0 <= r < Rank(raw, j) && r < |closes| ==> closes[r].ts < own[k].ts
  {
    hide Rank;
    var conn := raw[j].p.conn;
    var closes := ClosesOf(raw, conn);
    var own := OwnLines(raw, life, j);
    RankIsPlace(raw, j);
    forall k | 0 <= k < |own|
      ensures own[k].ts <= raw[j].ts && forall r :: 0 <= r < Rank(raw, j) && r < |closes| ==> closes[r].ts < own[k].ts
    {
      FilterMember(life(conn), (r: LineRow) => Owner(Bounds(closes), r.ts) == Rank(raw, j), own[k]);
      assert Bounds(closes)[Rank(raw, j)] == raw[j].ts;
      forall r | 0 <= r < Rank(raw, j) ensures closes[r].ts < own[k].ts {
        assert Bounds(closes)[r] == closes[r].ts;
      }
    }
  }

  lemma RankGrows(raw: seq<Close>, i: nat, j: nat)
    requires i < j < |raw| && raw[i].p.conn == raw[j].p.conn
    ensures Rank(raw, i) < Rank(raw, j)
  {
    var p := (c: Close) => c.p.conn == raw[j].p.conn;
    FilterNext(raw, i, p);
    assert raw[..j] == raw[..i + 1] + raw[i + 1..j];
    FilterAppend(raw[..i + 1], raw[i + 1..j], p);
  }

  /** Also the first flow of an id starts no later than it ends. */
  lemma FlowInOrder(raw: seq<Close>, life: string -> seq<LineRow>, pat: Patterns, j: nat)
    requires j < |raw|
    ensures Flows(raw, life, pat)[j].firstTs <= Flows(raw, life, pat)[j].close.ts
  {
    OwnTimes(raw, life, j);
  }

  // --- conservation of lines ---

  function SumTo(n: nat, f: nat -> nat): nat {
    if n == 0 then 0 else SumTo(n - 1, f) + f(n - 1)
  }

  function SumOver(conns: seq<string>, f: string -> nat): nat {
    if conns == [] then 0 else SumOver(conns[..|conns| - 1], f) + f(conns[|conns| - 1])
  }

  function Size(closes: seq<Close>, rows: seq<LineRow>): nat -> nat {
    (k: nat) => |Segment(closes, rows, k)|
  }

  lemma {:induction false} SizesAppend(closes: seq<Close>, rows: seq<LineRow>, row: LineRow, n: nat)
    ensures SumTo(n, Size(closes, rows + [row])) ==
            SumTo(n, Size(closes, rows)) + if Owner(Bounds(closes), row.ts) < n then 1 else 0
    decreases n
  {
    hide Owner;
    if n > 0 {
      SizesAppend(closes, rows, row, n - 1);
      FilterAppend(rows, [row], (r: LineRow) => Owner(Bounds(closes), r.ts) == n - 1);
      assert [row][1..] == [];
    }
  }

  /** Each line of a connection lies in exactly one segment, the one of its owner; and counted with
      repetitions, the segments hold as many lines as the connection. */
  lemma SegmentsPartition(closes: seq<Close>, rows: seq<LineRow>)
    ensures forall line, k :: line in Segment(closes, rows, k) <==> line in rows && k == Owner(Bounds(closes), line.ts)
    ensures forall line: LineRow :: Owner(Bounds(closes), line.ts) <= |closes|
    ensures SumTo(|closes|, Size(closes, rows)) + |Segment(closes, rows, |closes|)| == |rows|
  {
    hide Owner;
    SegmentSizes(closes, rows);
    forall line, k ensures line in Segment(closes, rows, k) <==> line in rows && k == Owner(Bounds(closes), line.ts) {
      FilterMember(rows, (r: LineRow) => Owner(Bounds(closes), r.ts) == k, line);
    }
  }

  lemma {:induction false} SegmentSizes(closes: seq<Close>, rows: seq<LineRow>)
    ensures SumTo(|closes|, Size(closes, rows)) + |Segment(closes, rows, |closes|)| == |rows|
    decreases |rows|
  {
    if rows == [] {
      AllEmpty(closes, |closes|);
    } else {
      var n := |rows| - 1;
      SegmentSizes(closes, rows[..n]);
      assert rows == rows[..n] + [rows[n]];
      SizesAppend(closes, rows[..n], rows[n], |closes|);
      SizesAppend(closes, rows[..n], rows[n], |closes| + 1);
    }
  }

  lemma {:induction false} AllEmpty(closes: seq<Close>, n: nat)
    ensures SumTo(n, Size(closes, [])) == 0
  {
    if n > 0 { AllEmpty(closes, n - 1); }
  }

  /** The i-th close as (id, rank). */
  function RankValue(raw: seq<Close>, f: (string, nat) -> nat, i: nat): nat {
    if i < |raw| then f(raw[i].p.conn, Rank(raw, i)) else 0
  }

  function AtRank(raw: seq<Close>, f: (string, nat) -> nat): nat -> nat {
    (i: nat) => RankValue(raw, f, i)
  }

  function UpToRank(raw: seq<Close>, f: (string, nat) -> nat): string -> nat {
    (c: string) => SumTo(|ClosesOf(raw, c)|, (k: nat) => f(c, k))
  }

  lemma {:induction false} SumOverChange(conns: seq<string>, f: string -> nat, g: string -> nat, c: string, d: nat)
    requires forall i, j :: 0 <= i < j < |conns| ==> conns[i] != conns[j]
    requires forall x :: g(x) == f(x) + if x == c then d else 0
    ensures SumOver(conns, g) == SumOver(conns, f) + if c in conns then d else 0
    decreases |conns|
  {
    if conns != [] {
      var n := |conns| - 1;
      SumOverChange(conns[..n], f, g, c, d);
      assert conns == conns[..n] + [conns[n]];
    }
  }

  lemma {:induction false} SumToSame(n: nat, f: nat -> nat, g: nat -> nat)
    requires forall i :: 0 <= i < n ==> f(i) == g(i)
    ensures SumTo(n, f) == SumTo(n, g)
  {
    if n > 0 { SumToSame(n - 1, f, g); }
  }

  /** Summing over closes is summing over ids and, within an id, over its closes. */
  lemma {:induction false} Regroup(raw: seq<Close>, f: (string, nat) -> nat)
    ensures SumTo(|raw|, AtRank(raw, f)) == SumOver(Conns(raw), UpToRank(raw, f))
    decreases |raw|
  {
    if raw != [] {
      hide Conns, ClosesOf, SumOver, Rank, UpToRank, AtRank;
      var n := |raw| - 1;
      var part := raw[..n];
      var c := raw[n].p.conn;
      Regroup(part, f);
      RanksSame(raw, f);
      SumToSame(n, AtRank(part, f), AtRank(raw, f));
      UpToNext(raw, f);
      ConnsFacts(part);
      SumOverChange(Conns(part), UpToRank(part, f), UpToRank(raw, f), c, f(c, Rank(raw, n)));
      ConnsNext(raw, f);
    }
  }

  lemma RanksSame(raw: seq<Close>, f: (string, nat) -> nat)
    requires raw != []
    ensures var n := |raw| - 1;
            && (forall i :: 0 <= i < n ==> AtRank(raw[..n], f)(i) == AtRank(raw, f)(i))
            && AtRank(raw, f)(n) == f(raw[n].p.conn, Rank(raw, n))
  {
    hide ClosesOf;
    var n := |raw| - 1;
    forall i | 0 <= i < n ensures AtRank(raw[..n], f)(i) == AtRank(raw, f)(i) {
      assert raw[..n][..i] == raw[..i];
    }
  }

  lemma UpToNext(raw: seq<Close>, f: (string, nat) -> nat)
    requires raw != []
    ensures var n := |raw| - 1;
            var c := raw[n].p.conn;
            forall x :: UpToRank(raw, f)(x) == UpToRank(raw[..n], f)(x) + if x == c then f(c, Rank(raw, n)) else 0
  {
    hide ClosesOf;
    var n := |raw| - 1;
    var c := raw[n].p.conn;
    forall x ensures UpToRank(raw, f)(x) == UpToRank(raw[..n], f)(x) + if x == c then f(c, Rank(raw, n)) else 0 {
      ClosesNext(raw, x);
    }
  }

  lemma ClosesNext(raw: seq<Close>, x: string)
    requires raw != []
    ensures var n := |raw| - 1;
            |ClosesOf(raw, x)| == |ClosesOf(raw[..n], x)| + if raw[n].p.conn == x then 1 else 0
  {
    var n := |raw| - 1;
    assert raw[..n + 1] == raw;
    FilterNext(raw, n, (c: Close) => c.p.conn == x);
  }

  lemma ConnsNext(raw: seq<Close>, f: (string, nat) -> nat)
    requires raw != []
    ensures var n := |raw| - 1;
            var c := raw[n].p.conn;
            var all := SumOver(Conns(raw), UpToRank(raw, f));
            all == SumOver(Conns(raw[..n]), UpToRank(raw, f)) + if c in Conns(raw[..n]) then 0 else f(c, Rank(raw, n))
  {
    var n := |raw| - 1;
    var c := raw[n].p.conn;
    var before := Conns(raw[..n]);
    if c !in before {
      hide ClosesOf, SumOver;
      ConnsFacts(raw[..n]);
      NoCloseYet(raw[..n], c);
      UpToNext(raw, f);
      SumOverEnd(before, c, UpToRank(raw, f));
    }
  }

  lemma SumOverEnd(conns: seq<string>, c: string, f: string -> nat)
    ensures SumOver(conns + [c], f) == SumOver(conns, f) + f(c)
  {
    assert (conns + [c])[..|conns|] == conns;
  }

  lemma NoCloseYet(raw: seq<Close>, c: string)
    requires forall k :: 0 <= k < |raw| ==> raw[k].p.conn != c
    ensures ClosesOf(raw, c) == []
  {
    if ClosesOf(raw, c) != [] {
      FilterMember(raw, (r: Close) => r.p.conn == c, ClosesOf(raw, c)[0]);
    }
  }

  function SegmentSize(raw: seq<Close>, life: string -> seq<LineRow>): (string, nat) -> nat {
    (c: string, k: nat) => |Segment(ClosesOf(raw, c), life(c), k)|
  }

  function LinesIn(fs: seq<Flow>): nat -> nat {
    (i: nat) => if i < |fs| then fs[i].lifetimeLines else 0
  }

  function Counts(life: string -> seq<LineRow>): string -> nat {
    (c: string) => |life(c)|
  }

  /** Conservation: the lines of all flows and the lines after the last closes are together all lines of
      the connections that closed. */
  lemma LinesConserved(raw: seq<Close>, life: string -> seq<LineRow>, pat: Patterns)
    ensures var fs := Flows(raw, life, pat);
            SumTo(|fs|, LinesIn(fs)) + AfterTotal(raw, life, Conns(raw))
            == SumOver(Conns(raw), Counts(life))
  {
    hide Segment, ClosesOf, Rank, Conns;
    var fs := Flows(raw, life, pat);
    var f := SegmentSize(raw, life);
    Regroup(raw, f);
    SumToSame(|raw|, LinesIn(fs), AtRank(raw, f));
    EachConserved(raw, life, Conns(raw));
  }

  /** The lines whose record text yields the connection's id, oldest first. */
  function LinesOf(cfg: Config, t: Tables): string -> seq<LineRow> {
    (conn: string) => Filter(Sort(t.lines, LineKey), l => ("conn_id", conn) in Ids(cfg, RecordText(t, l)))
  }

  lemma {:induction false} SumOverSame(conns: seq<string>, f: string -> nat, g: string -> nat)
    requires forall c :: f(c) == g(c)
    ensures SumOver(conns, f) == SumOver(conns, g)
    decreases |conns|
  {
    if conns != [] { SumOverSame(conns[..|conns| - 1], f, g); }
  }

  /** After any build a connection's lines, as the ledger looks them up, are exactly the lines whose record
      text yields its id. */
  lemma LifetimeIsScan(cfg: Config, files: seq<InFile>)
    requires NoRepeats(cfg) && LogFiles(files)
    ensures forall c :: Lifetime(Built(cfg, files), true)(c) == LinesOf(cfg, Built(cfg, files))(c)
  {
    hide Built, LinesForId, LogFiles, Sort, RecordText, Ids;
    forall c: string ensures Lifetime(Built(cfg, files), true)(c) == LinesOf(cfg, Built(cfg, files))(c) {
      LinesForIdAgrees(cfg, files, ("conn_id", c), None);
    }
  }

  /** So the lines of all flows and the lines after the last closes are together exactly the lines whose
      record text yields the id of a connection that closed. */
  lemma BuiltLinesConserved(cfg: Config, files: seq<InFile>, raw: seq<Close>, pat: Patterns)
    requires NoRepeats(cfg) && LogFiles(files)
    ensures var fs := Flows(raw, Lifetime(Built(cfg, files), true), pat);
            SumTo(|fs|, LinesIn(fs))
            + AfterTotal(raw, Lifetime(Built(cfg, files), true), Conns(raw))
            == SumOver(Conns(raw), Counts(LinesOf(cfg, Built(cfg, files))))
  {
    hide Built, Lifetime, LinesOf, Flows, Conns, LogFiles, AfterTotal;
    var t := Built(cfg, files);
    LifetimeIsScan(cfg, files);
    LinesConserved(raw, Lifetime(t, true), pat);
    SumOverSame(Conns(raw), Counts(Lifetime(t, true)), Counts(LinesOf(cfg, t)));
  }

  lemma {:induction false} EachConserved(raw: seq<Close>, life: string -> seq<LineRow>, conns: seq<string>)
    ensures SumOver(conns, UpToRank(raw, SegmentSize(raw, life))) + AfterTotal(raw, life, conns)
         == SumOver(conns, Counts(life))
    decreases |conns|
  {
    hide Segment, ClosesOf;
    if conns != [] {
      var n := |conns| - 1;
      var c := conns[n];
      var closes := ClosesOf(raw, c);
      EachConserved(raw, life, conns[..n]);
      SegmentSizes(closes, life(c));
      SumToSame(|closes|, Size(closes, life(c)), (k: nat) => SegmentSize(raw, life)(c, k));
    }
  }

  // --- aggregation ---

  datatype AggRow = AggRow(
    key: string, count: nat, client: nat, server: nat, firstTs: int, lastTs: int, flowIds: seq<nat>,
    provenance: seq<Addr>, provenanceComplete: bool)

  type Buckets = seq<(string, seq<nat>)>

  /** `buckets[key].append(i)`: a new key goes to the end. */
  function Add(buckets: Buckets, key: string, i: nat): Buckets {
    if buckets == [] then [(key, [i])]
    else if buckets[0].0 == key then [(key, buckets[0].1 + [i])] + buckets[1..]
    else [buckets[0]] + Add(buckets[1..], key, i)
  }

  function BucketsOf(flows: seq<Flow>, keyOf: Flow -> string): Buckets {
    if flows == [] then []
    else
      var n := |flows| - 1; Add(BucketsOf(flows[..n], keyOf), keyOf(flows[n]), n)
  }

  function SumIds(ids: seq<nat>, f: nat -> nat): nat {
    if ids == [] then 0 else SumIds(ids[..|ids| - 1], f) + f(ids[|ids| - 1])
  }

  function ClientOf(flows: seq<Flow>): nat -> nat {
    (i: nat) => if i < |flows| then flows[i].close.p.client else 0
  }

  function ServerOf(flows: seq<Flow>): nat -> nat {
    (i: nat) => if i < |flows| then flows[i].close.p.server else 0
  }

  function One(): nat -> nat {
    (i: nat) => 1
  }

  predicate InRange(ids: seq<nat>, n: nat) {
    forall k :: 0 <= k < |ids| ==> ids[k] < n
  }

  function Pick(flows: seq<Flow>, ids: seq<nat>): seq<Flow>
    requires InRange(ids, |flows|)
  {
    seq(|ids|, k requires 0 <= k < |ids| => flows[ids[k]])
  }

  function MinFirst(fl: seq<Flow>): (r: int)
    requires fl != []
    ensures (forall k :: 0 <= k < |fl| ==> r <= fl[k].firstTs) && exists k :: 0 <= k < |fl| && fl[k].firstTs == r
  {
    if |fl| == 1 then fl[0].firstTs
    else
      var r := MinFirst(fl[1..]);
      assert exists k :: 1 <= k < |fl| && fl[k].firstTs == r by {
        var k :| 0 <= k < |fl[1..]| && fl[1..][k].firstTs == r;
        assert fl[k + 1] == fl[1..][k];
      }
      assert forall k :: 1 <= k < |fl| ==> fl[k] == fl[1..][k - 1];
      if fl[0].firstTs <= r then fl[0].firstTs else r
  }

  function MaxLast(fl: seq<Flow>): (r: int)
    requires fl != []
    ensures (forall k :: 0 <= k < |fl| ==> fl[k].close.ts <= r) && exists k :: 0 <= k < |fl| && fl[k].close.ts == r
  {
    if |fl| == 1 then fl[0].close.ts
    else
      var r := MaxLast(fl[1..]);
      assert exists k :: 1 <= k < |fl| && fl[k].close.ts == r by {
        var k :| 0 <= k < |fl[1..]| && fl[1..][k].close.ts == r;
        assert fl[k + 1] == fl[1..][k];
      }
      assert forall k :: 1 <= k < |fl| ==> fl[k] == fl[1..][k - 1];
      if fl[0].close.ts >= r then fl[0].close.ts else r
  }

  function RowOf(flows: seq<Flow>, key: string, ids: seq<nat>, limit: nat): AggRow
    requires ids != [] && InRange(ids, |flows|)
  {
    var fl := Pick(flows, ids);
    var shown := if limit < |fl| then fl[..limit] else fl;
    AggRow(key, |fl|, SumIds(ids, ClientOf(flows)), SumIds(ids, ServerOf(flows)), MinFirst(fl), MaxLast(fl), ids,
           seq(|shown|, k requires 0 <= k < |shown| => AddrOf(shown[k].close)), |shown| == |fl|)
  }

  predicate WellFormed(buckets: Buckets, n: nat) {
    && (forall b :: 0 <= b < |buckets| ==> buckets[b].1 != [] && InRange(buckets[b].1, n))
    && (forall a, b :: 0 <= a < b < |buckets| ==> buckets[a].0 != buckets[b].0)
  }

  function Rows(flows: seq<Flow>, buckets: Buckets, limit: nat): seq<AggRow>
    requires WellFormed(buckets, |flows|)
  {
    seq(|buckets|, b requires 0 <= b < |buckets| => RowOf(flows, buckets[b].0, buckets[b].1, limit))
  }

  /** The indices of the flows with a key, ascending. */
  function WithKey(flows: seq<Flow>, keyOf: Flow -> string, key: string): seq<nat> {
    if flows == [] then []
    else
      var n := |flows| - 1; WithKey(flows[..n], keyOf, key) + if keyOf(flows[n]) == key then [n] else []
  }

  function Lookup(buckets: Buckets, key: string): seq<nat> {
    if buckets == [] then [] else if buckets[0].0 == key then buckets[0].1 else Lookup(buckets[1..], key)
  }

  lemma AddStep(buckets: Buckets, key: string, i: nat)
    requires buckets != [] && buckets[0].0 != key
    ensures Add(buckets, key, i) == [buckets[0]] + Add(buckets[1..], key, i)
    ensures Add(buckets, key, i)[1..] == Add(buckets[1..], key, i)
  {
  }

  lemma AddFound(buckets: Buckets, key: string, i: nat)
    requires buckets == [] || buckets[0].0 == key
    ensures var r := Add(buckets, key, i);
            && |r| == (if buckets == [] then 1 else |buckets|)
            && r[0] == (key, if buckets == [] then [i] else buckets[0].1 + [i])
            && r[1..] == if buckets == [] then [] else buckets[1..]
  {
    if buckets == [] {
      assert [(key, [i])][1..] == [];
    } else {
      assert ([(key, buckets[0].1 + [i])] + buckets[1..])[1..] == buckets[1..];
    }
  }

  lemma {:induction false} AddLookup(buckets: Buckets, key: string, i: nat, k: string)
    ensures Lookup(Add(buckets, key, i), k) == if k == key then Lookup(buckets, key) + [i] else Lookup(buckets, k)
    decreases |buckets|
  {
    hide Add;
    if buckets == [] || buckets[0].0 == key {
      AddFound(buckets, key, i);
    } else {
      AddStep(buckets, key, i);
      AddLookup(buckets[1..], key, i, k);
    }
  }

  /** A key stands in the buckets once at most. */
  lemma {:induction false} AddKeys(buckets: Buckets, key: string, i: nat, b: nat)
    requires b < |Add(buckets, key, i)|
    ensures Add(buckets, key, i)[b].0 == key
            || exists a :: 0 <= a < |buckets| && buckets[a].0 == Add(buckets, key, i)[b].0
    decreases |buckets|
  {
    hide Add;
    var r := Add(buckets, key, i);
    if buckets == [] || buckets[0].0 == key {
      AddFound(buckets, key, i);
      assert b > 0 ==> r[b] == r[1..][b - 1] == buckets[b];
    } else {
      AddStep(buckets, key, i);
      if b > 0 {
        AddKeys(buckets[1..], key, i, b - 1);
        assert r[b] == r[1..][b - 1];
        if r[b].0 != key {
          var a :| 0 <= a < |buckets[1..]| && buckets[1..][a].0 == r[b].0;
          assert buckets[a + 1].0 == r[b].0;
        }
      }
    }
  }

  lemma {:induction false} AddWellFormed(buckets: Buckets, key: string, i: nat)
    requires WellFormed(buckets, i)
    ensures WellFormed(Add(buckets, key, i), i + 1)
    decreases |buckets|
  {
    hide Add;
    var r := Add(buckets, key, i);
    if buckets == [] || buckets[0].0 == key {
      AddFound(buckets, key, i);
      forall b | 0 < b < |r| ensures r[b] == buckets[b] { assert r[b] == r[1..][b - 1]; }
    } else {
      AddStep(buckets, key, i);
      AddWellFormed(buckets[1..], key, i);
      var rest := Add(buckets[1..], key, i);
      forall b | 0 < b < |r| ensures r[b] == rest[b - 1] && r[b].0 != buckets[0].0 {
        assert r[b] == r[1..][b - 1];
        AddKeys(buckets[1..], key, i, b - 1);
      }
    }
  }

  lemma AddFacts(buckets: Buckets, key: string, i: nat)
    requires WellFormed(buckets, i)
    ensures WellFormed(Add(buckets, key, i), i + 1)
    ensures forall k ::
              Lookup(Add(buckets, key, i), k) == if k == key then Lookup(buckets, key) + [i] else Lookup(buckets, k)
  {
    hide Add, Lookup, WellFormed;
    AddWellFormed(buckets, key, i);
    forall k
      ensures Lookup(Add(buckets, key, i), k) == if k == key then Lookup(buckets, key) + [i] else Lookup(buckets, k)
    {
      AddLookup(buckets, key, i, k);
    }
  }

  /** Each bucket holds exactly the flows with its key, in order. */
  lemma {:induction false} BucketsExact(flows: seq<Flow>, keyOf: Flow -> string)
    ensures WellFormed(BucketsOf(flows, keyOf), |flows|)
    ensures forall k :: Lookup(BucketsOf(flows, keyOf), k) == WithKey(flows, keyOf, k)
    decreases |flows|
  {
    if flows != [] {
      var n := |flows| - 1;
      BucketsExact(flows[..n], keyOf);
      AddFacts(BucketsOf(flows[..n], keyOf), keyOf(flows[n]), n);
      forall k ensures WithKey(flows[..n], keyOf, k) + [] == WithKey(flows[..n], keyOf, k) {
        EmptyUnit(WithKey(flows[..n], keyOf, k));
      }
    }
  }

  lemma {:induction false} LookupAt(buckets: Buckets, b: nat)
    requires b < |buckets| && forall x, y :: 0 <= x < y < |buckets| ==> buckets[x].0 != buckets[y].0
    ensures Lookup(buckets, buckets[b].0) == buckets[b].1
    decreases |buckets|
  {
    if b > 0 {
      assert buckets[0].0 != buckets[b].0;
      LookupAt(buckets[1..], b - 1);
    }
  }

  function SumBuckets(buckets: Buckets, f: nat -> nat): nat {
    if buckets == [] then 0 else SumIds(buckets[0].1, f) + SumBuckets(buckets[1..], f)
  }

  lemma {:induction false} AddSum(buckets: Buckets, key: string, i: nat, f: nat -> nat)
    ensures SumBuckets(Add(buckets, key, i), f) == SumBuckets(buckets, f) + f(i)
    decreases |buckets|
  {
    if buckets == [] {
      var one, only := [i], [(key, [i])];
      assert one[..|one| - 1] == [] && SumIds(one, f) == f(i);
      assert only[1..] == [] && SumBuckets(only, f) == SumIds(one, f);
    } else if buckets[0].0 == key {
      var ids := buckets[0].1 + [i];
      assert ids[..|ids| - 1] == buckets[0].1;
      assert Add(buckets, key, i)[1..] == buckets[1..];
    } else {
      AddSum(buckets[1..], key, i, f);
      assert Add(buckets, key, i)[1..] == Add(buckets[1..], key, i);
    }
  }

  lemma {:induction false} BucketsConserve(flows: seq<Flow>, keyOf: Flow -> string, f: nat -> nat)
    ensures SumBuckets(BucketsOf(flows, keyOf), f) == SumTo(|flows|, f)
    decreases |flows|
  {
    if flows != [] {
      var n := |flows| - 1;
      BucketsConserve(flows[..n], keyOf, f);
      AddSum(BucketsOf(flows[..n], keyOf), keyOf(flows[n]), n, f);
    }
  }

  function SumRows(rows: seq<AggRow>, f: AggRow -> nat): nat {
    if rows == [] then 0 else f(rows[0]) + SumRows(rows[1..], f)
  }

  lemma {:induction false} SumInsert(x: AggRow, s: seq<AggRow>, key: AggRow -> Key, f: AggRow -> nat)
    ensures SumRows(Insert(x, s, key), f) == f(x) + SumRows(s, f)
    decreases |s|
  {
    if s == [] || Le(key(x), key(s[0])) {
      assert ([x] + s)[1..] == s;
    } else {
      SumInsert(x, s[1..], key, f);
      assert Insert(x, s, key)[1..] == Insert(x, s[1..], key);
    }
  }

  lemma {:induction false} SumSort(s: seq<AggRow>, key: AggRow -> Key, f: AggRow -> nat)
    ensures SumRows(Sort(s, key), f) == SumRows(s, f)
    decreases |s|
  {
    if s != [] {
      SumSort(s[1..], key, f);
      SumInsert(s[0], Sort(s[1..], key), key, f);
    }
  }

  /** Rows sorted by a key made from them: `_row` per bucket, then sort. */
  function Aggregate(flows: seq<Flow>, keyOf: Flow -> string, order: AggRow -> Key, limit: nat): seq<AggRow>
  {
    BucketsExact(flows, keyOf);
    Sort(Rows(flows, BucketsOf(flows, keyOf), limit), order)
  }

  method Aggregated(flows: seq<Flow>, keyOf: Flow -> string, order: AggRow -> Key, limit: nat)
    returns (rows: seq<AggRow>)
    ensures rows == Aggregate(flows, keyOf, order, limit)
  {
    hide RowOf, Sort, Add, WellFormed, Lookup, WithKey;
    var buckets: Buckets := [];
    assert flows[..0] == [];
    for i := 0 to |flows|
      invariant buckets == BucketsOf(flows[..i], keyOf)
    {
      assert flows[..i + 1][..i] == flows[..i];
      buckets := Add(buckets, keyOf(flows[i]), i);
    }
    assert flows[..|flows|] == flows;
    BucketsExact(flows, keyOf);
    rows := Sort(Rows(flows, buckets, limit), order);
  }

  /** Aggregation loses and invents nothing: over all rows the flow counts and the bytes in both
      directions are those of the ledger. */
  lemma AggregationConserves(flows: seq<Flow>, keyOf: Flow -> string, order: AggRow -> Key, limit: nat)
    ensures var rows := Aggregate(flows, keyOf, order, limit);
            && SumRows(rows, (r: AggRow) => r.count) == |flows|
            && SumRows(rows, (r: AggRow) => r.client) == SumTo(|flows|, ClientOf(flows))
            && SumRows(rows, (r: AggRow) => r.server) == SumTo(|flows|, ServerOf(flows))
  {
    hide RowOf, Sort, ClientOf, ServerOf, One, Lookup, WithKey, WellFormed;
    var buckets := BucketsOf(flows, keyOf);
    BucketsExact(flows, keyOf);
    var rows := Rows(flows, buckets, limit);
    SumSort(rows, order, (r: AggRow) => r.count);
    SumSort(rows, order, (r: AggRow) => r.client);
    SumSort(rows, order, (r: AggRow) => r.server);
    BucketsConserve(flows, keyOf, One());
    BucketsConserve(flows, keyOf, ClientOf(flows));
    BucketsConserve(flows, keyOf, ServerOf(flows));
    RowSums(flows, buckets, limit);
    SumOnes(|flows|);
  }

  lemma {:induction false} SumOnes(n: nat)
    ensures SumTo(n, One()) == n
  {
    if n > 0 { SumOnes(n - 1); }
  }

  lemma {:induction false} SumIdsOnes(ids: seq<nat>)
    ensures SumIds(ids, One()) == |ids|
    decreases |ids|
  {
    if ids != [] { SumIdsOnes(ids[..|ids| - 1]); }
  }

  lemma {:induction false} RowSums(flows: seq<Flow>, buckets: Buckets, limit: nat)
    requires WellFormed(buckets, |flows|)
    ensures var rows := Rows(flows, buckets, limit);
            && SumRows(rows, (r: AggRow) => r.count) == SumBuckets(buckets, One())
            && SumRows(rows, (r: AggRow) => r.client) == SumBuckets(buckets, ClientOf(flows))
            && SumRows(rows, (r: AggRow) => r.server) == SumBuckets(buckets, ServerOf(flows))
    decreases |buckets|
  {
    hide MinFirst, MaxLast, ClientOf, ServerOf, One;
    if buckets != [] {
      var rows := Rows(flows, buckets, limit);
      assert rows[1..] == Rows(flows, buckets[1..], limit);
      RowSums(flows, buckets[1..], limit);
      SumIdsOnes(buckets[0].1);
    }
  }

  lemma {:induction false} PickFilter(flows: seq<Flow>, keyOf: Flow -> string, key: string)
    ensures InRange(WithKey(flows, keyOf, key), |flows|)
    ensures Pick(flows, WithKey(flows, keyOf, key)) == Filter(flows, (f: Flow) => keyOf(f) == key)
    decreases |flows|
  {
    if flows != [] {
      var n := |flows| - 1;
      PickFilter(flows[..n], keyOf, key);
      assert flows[..n + 1] == flows;
      FilterNext(flows, n, (f: Flow) => keyOf(f) == key);
      var ids := WithKey(flows[..n], keyOf, key);
      forall k | 0 <= k < |ids| ensures Pick(flows[..n], ids)[k] == flows[ids[k]] {
      }
      assert Pick(flows, WithKey(flows, keyOf, key)) ==
             Pick(flows[..n], ids) + if keyOf(flows[n]) == key then [flows[n]] else [];
    }
  }

  /** Drilling down from a row gives exactly the flows with the row's key, in order, and the row's bytes
      and times are theirs; no two rows share a key. */
  lemma DrillDown(flows: seq<Flow>, keyOf: Flow -> string, order: AggRow -> Key, limit: nat, row: AggRow)
    requires row in Aggregate(flows, keyOf, order, limit)
    ensures row.flowIds == WithKey(flows, keyOf, row.key) && row.flowIds != [] && InRange(row.flowIds, |flows|)
    ensures Pick(flows, row.flowIds) == Filter(flows, (f: Flow) => keyOf(f) == row.key)
    ensures row == RowOf(flows, row.key, row.flowIds, limit)
    ensures multiset(Aggregate(flows, keyOf, order, limit))[row] == 1
  {
    hide RowOf, Sort, Pick, WithKey, Lookup, Add;
    var buckets := BucketsOf(flows, keyOf);
    BucketsExact(flows, keyOf);
    var rows := Rows(flows, buckets, limit);
    SortSorts(rows, order);
    assert row in multiset(Sort(rows, order));
    var b :| 0 <= b < |rows| && rows[b] == row;
    LookupAt(buckets, b);
    RowKey(flows, buckets[b].0, buckets[b].1, limit);
    PickFilter(flows, keyOf, row.key);
    RowOnce(flows, buckets, limit, b);
  }

  lemma RowKey(flows: seq<Flow>, key: string, ids: seq<nat>, limit: nat)
    requires ids != [] && InRange(ids, |flows|)
    ensures RowOf(flows, key, ids, limit).key == key && RowOf(flows, key, ids, limit).flowIds == ids
  {
  }

  lemma RowOnce(flows: seq<Flow>, buckets: Buckets, limit: nat, b: nat)
    requires WellFormed(buckets, |flows|) && b < |buckets|
    ensures multiset(Rows(flows, buckets, limit))[Rows(flows, buckets, limit)[b]] == 1
  {
    hide RowOf;
    var rows := Rows(flows, buckets, limit);
    forall i, j | 0 <= i < j < |rows| ensures rows[i] != rows[j] {
      RowKey(flows, buckets[i].0, buckets[i].1, limit);
      RowKey(flows, buckets[j].0, buckets[j].1, limit);
    }
    DistinctOnce(rows, rows[b]);
  }
}
