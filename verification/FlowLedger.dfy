/** The flow ledger: close records of reused connection ids, duplicate carriers, and the two-pointer
    assignment of a connection's lines to its successive closes. */
module FlowLedger {
  import opened Text
  import opened Order
  import opened LogStore
  import opened LogIndex

  datatype Carrier = TcpConnClose | UdpConnClose | FlowDestructor

  /** What `_parse_close` reads from a record's text. */
  datatype Parsed = Parsed(
    carrier: Carrier, proto: string, conn: string, client: nat, server: nat,
    packetsTx: Option<nat>, packetsRx: Option<nat>, dest: Option<string>, port: Option<nat>)

  /** A close record: what was read, and where and when it stands. */
  datatype Close = Close(p: Parsed, ts: int, file: string, no: nat)

  type Addr = (string, nat)

  /** A destination with the address of the line that names it. */
  datatype Dest = Dest(host: string, port: Option<nat>, at: Addr)

  datatype Flow = Flow(close: Close, firstTs: int, dest: Option<Dest>, lifetimeLines: nat)

  /** The patterns of the ledger: the prefilter, the close record, and a destination in a body. */
  datatype Patterns = Patterns(
    like: string -> bool,
    parse: string -> Option<Parsed>,
    destHost: string -> Option<(string, Option<nat>)>)

  function AddrOf(c: Close): Addr {
    (c.file, c.no)
  }

  function CloseKey(c: Close): Key {
    Key(c.ts, c.file, c.no)
  }

  // --- close records ---

  /** Records whose body passes the prefilter, then those that pass only by their continuation. */
  function Candidates(t: Tables, pat: Patterns): seq<LineRow> {
    Filter(t.lines, (l: LineRow) => pat.like(l.body))
    + Filter(t.lines, (l: LineRow) => pat.like(Continuation(t, l)) && !pat.like(l.body))
  }

  function ClosesAmong(t: Tables, pat: Patterns, lines: seq<LineRow>): seq<Close> {
    if lines == [] then []
    else
      var p := pat.parse(RecordText(t, lines[0]));
      (if p.Some? then [Close(p.value, lines[0].ts, lines[0].file, lines[0].no)] else [])
      + ClosesAmong(t, pat, lines[1..])
  }

  function UnparsedCount(t: Tables, pat: Patterns, lines: seq<LineRow>): nat {
    if lines == [] then 0
    else (if pat.parse(RecordText(t, lines[0])).None? then 1 else 0) + UnparsedCount(t, pat, lines[1..])
  }

  predicate HasTcpClose(records: seq<Close>, conn: string) {
    exists k :: 0 <= k < |records| && records[k].p.carrier.TcpConnClose? && records[k].p.conn == conn
  }

  predicate Duplicate(records: seq<Close>, r: Close) {
    r.p.carrier.FlowDestructor? && HasTcpClose(records, r.p.conn)
  }

  function Deduped(records: seq<Close>): seq<Close> {
    Filter(records, (r: Close) => !Duplicate(records, r))
  }

  method DedupeCarriers(records: seq<Close>) returns (kept: seq<Close>, dropped: nat)
    ensures kept == Deduped(records)
    ensures |kept| + dropped == |records|
  {
    var tcpIds: set<string> := {};
    for i := 0 to |records|
      invariant forall c :: c in tcpIds <==> HasTcpClose(records[..i], c)
    {
      assert forall c :: HasTcpClose(records[..i + 1], c) <==>
                         HasTcpClose(records[..i], c)
                         || (records[i].p.carrier.TcpConnClose? && records[i].p.conn == c) by {
        forall c ensures HasTcpClose(records[..i + 1], c) <==>
                         HasTcpClose(records[..i], c) || (records[i].p.carrier.TcpConnClose? && records[i].p.conn == c)
        {
          TcpCloseNext(records, i, c);
        }
      }
      if records[i].p.carrier.TcpConnClose? {
        tcpIds := tcpIds + {records[i].p.conn};
      }
    }
    assert records[..|records|] == records;
    kept, dropped := [], 0;
    for i := 0 to |records|
      invariant kept == Filter(records[..i], (r: Close) => !Duplicate(records, r)) && |kept| + dropped == i
    {
      FilterNext(records, i, (r: Close) => !Duplicate(records, r));
      if records[i].p.carrier.FlowDestructor? && records[i].p.conn in tcpIds {
        dropped := dropped + 1;
        continue;
      }
      kept := kept + [records[i]];
    }
  }

  lemma TcpCloseNext(records: seq<Close>, i: nat, c: string)
    requires i < |records|
    ensures HasTcpClose(records[..i + 1], c) <==>
            HasTcpClose(records[..i], c) || (records[i].p.carrier.TcpConnClose? && records[i].p.conn == c)
  {
    var a, b := records[..i], records[..i + 1];
    if HasTcpClose(a, c) {
      var k :| 0 <= k < |a| && a[k].p.carrier.TcpConnClose? && a[k].p.conn == c;
      assert b[k] == a[k];
    }
    if HasTcpClose(b, c) {
      var k :| 0 <= k < |b| && b[k].p.carrier.TcpConnClose? && b[k].p.conn == c;
      if k < i { assert a[k] == b[k]; }
    }
    assert b[i] == records[i];
  }

  // --- segmentation ---

  /** The first close at or after `ts`; the number of closes if there is none. */
  function Owner(bounds: seq<int>, ts: int): (r: nat)
    ensures r <= |bounds|
    ensures r < |bounds| ==> ts <= bounds[r]
    ensures forall k :: 0 <= k < r ==> bounds[k] < ts
  {
    if bounds == [] || ts <= bounds[0] then 0 else 1 + Owner(bounds[1..], ts)
  }

  lemma OwnerUnique(bounds: seq<int>, ts: int, j: nat)
    requires j <= |bounds| && (j < |bounds| ==> ts <= bounds[j]) && forall k :: 0 <= k < j ==> bounds[k] < ts
    ensures Owner(bounds, ts) == j
  {
  }

  function Bounds(closes: seq<Close>): seq<int> {
    seq(|closes|, k requires 0 <= k < |closes| => closes[k].ts)
  }

  function ClosesOf(raw: seq<Close>, conn: string): seq<Close> {
    Filter(raw, (c: Close) => c.p.conn == conn)
  }

  /** The lines of a connection that belong to its k-th close; those with k = number of closes come
      after the last one. */
  function Segment(closes: seq<Close>, rows: seq<LineRow>, k: nat): seq<LineRow> {
    Filter(rows, (r: LineRow) => Owner(Bounds(closes), r.ts) == k)
  }

  function Rank(raw: seq<Close>, i: nat): nat
    requires i < |raw|
  {
    |ClosesOf(raw[..i], raw[i].p.conn)|
  }

  /** The lines of the i-th close record. */
  function OwnLines(raw: seq<Close>, life: string -> seq<LineRow>, i: nat): seq<LineRow>
    requires i < |raw|
  {
    Segment(ClosesOf(raw, raw[i].p.conn), life(raw[i].p.conn), Rank(raw, i))
  }

  ghost predicate TimeOrdered(rows: seq<LineRow>) {
    forall i, j :: 0 <= i < j < |rows| ==> rows[i].ts <= rows[j].ts
  }

  ghost predicate DistinctAddrs(raw: seq<Close>) {
    forall i, j :: 0 <= i < j < |raw| ==> AddrOf(raw[i]) != AddrOf(raw[j])
  }

  function Get(owned: map<Addr, seq<LineRow>>, a: Addr): seq<LineRow> {
    if a in owned then owned[a] else []
  }

  /** `now` is `before` with the lines of each close added under the close's address, and nothing else. */
  ghost predicate Spread(closes: seq<Close>, rows: seq<LineRow>, before: map<Addr, seq<LineRow>>,
                         now: map<Addr, seq<LineRow>>) {
    && (forall k :: 0 <= k < |closes| ==>
                      Get(now, AddrOf(closes[k])) == Get(before, AddrOf(closes[k])) + Segment(closes, rows, k))
    && (forall a :: (forall k :: 0 <= k < |closes| ==> AddrOf(closes[k]) != a) ==> Get(now, a) == Get(before, a))
  }

  ghost predicate Passed(bounds: seq<int>, j: nat, rows: seq<LineRow>, i: nat) {
    j <= |bounds| && forall k, m :: 0 <= k < j && i <= m < |rows| ==> bounds[k] < rows[m].ts
  }

  /** The two-pointer loop over one connection: `j` only moves forward. */
  method SegmentOne(closes: seq<Close>, rows: seq<LineRow>, before: map<Addr, seq<LineRow>>)
    returns (owned: map<Addr, seq<LineRow>>, after: nat)
    requires TimeOrdered(rows) && DistinctAddrs(closes)
    ensures Spread(closes, rows, before, owned)
    ensures after == |Segment(closes, rows, |closes|)|
  {
    hide Owner, Spread, Segment, Passed;
    owned, after := before, 0;
    var bounds := Bounds(closes);
    var j := 0;
    SegmentStart(closes, rows, before);
    for i := 0 to |rows|
      invariant Passed(bounds, j, rows, i)
      invariant Spread(closes, rows[..i], before, owned)
      invariant after == |Segment(closes, rows[..i], |closes|)|
    {
      var row := rows[i];
      PassedBounds(bounds, j, rows, i);
      while j < |bounds| && row.ts > bounds[j]
        invariant Passed(bounds, j, rows, i) && j <= |bounds|
      {
        PassOne(bounds, j, rows, i);
        j := j + 1;
      }
      OwnerFound(bounds, j, rows, i);
      SegmentNext(closes, rows, i, j);
      if j >= |bounds| {
        SpreadPast(closes, rows, i, before, owned);
        after := after + 1;
        continue;
      }
      SpreadNext(closes, rows, i, j, before, owned);
      var a := AddrOf(closes[j]);
      owned := owned[a := Get(owned, a) + [row]];
    }
    assert rows[..|rows|] == rows;
  }

  lemma SegmentStart(closes: seq<Close>, rows: seq<LineRow>, before: map<Addr, seq<LineRow>>)
    ensures Passed(Bounds(closes), 0, rows, 0)
    ensures Spread(closes, rows[..0], before, before) && Segment(closes, rows[..0], |closes|) == []
  {
    assert rows[..0] == [];
    forall s: seq<LineRow> ensures s + [] == s { EmptyUnit(s); }
  }

  lemma PassedBounds(bounds: seq<int>, j: nat, rows: seq<LineRow>, i: nat)
    requires Passed(bounds, j, rows, i)
    ensures j <= |bounds|
  {
  }

  lemma PassOne(bounds: seq<int>, j: nat, rows: seq<LineRow>, i: nat)
    requires TimeOrdered(rows) && Passed(bounds, j, rows, i) && i < |rows| && j < |bounds| && rows[i].ts > bounds[j]
    ensures Passed(bounds, j + 1, rows, i)
  {
  }

  lemma OwnerFound(bounds: seq<int>, j: nat, rows: seq<LineRow>, i: nat)
    requires Passed(bounds, j, rows, i) && i < |rows| && (j < |bounds| ==> rows[i].ts <= bounds[j])
    ensures Owner(bounds, rows[i].ts) == j && Passed(bounds, j, rows, i + 1)
  {
    OwnerUnique(bounds, rows[i].ts, j);
  }

  lemma SegmentNext(closes: seq<Close>, rows: seq<LineRow>, i: nat, j: nat)
    requires i < |rows| && Owner(Bounds(closes), rows[i].ts) == j
    ensures forall k: nat ::
              Segment(closes, rows[..i + 1], k) == Segment(closes, rows[..i], k) + if k == j then [rows[i]] else []
  {
    hide Owner;
    forall k: nat
      ensures Segment(closes, rows[..i + 1], k) == Segment(closes, rows[..i], k) + if k == j then [rows[i]] else []
    {
      FilterNext(rows, i, (r: LineRow) => Owner(Bounds(closes), r.ts) == k);
    }
  }

  lemma SpreadNext(closes: seq<Close>, rows: seq<LineRow>, i: nat, j: nat, before: map<Addr, seq<LineRow>>,
                   now: map<Addr, seq<LineRow>>)
    requires i < |rows| && j < |closes| && DistinctAddrs(closes) && Spread(closes, rows[..i], before, now)
    requires forall k: nat ::
               Segment(closes, rows[..i + 1], k) == Segment(closes, rows[..i], k) + if k == j then [rows[i]] else []
    ensures var a := AddrOf(closes[j]); Spread(closes, rows[..i + 1], before, now[a := Get(now, a) + [rows[i]]])
  {
    hide Segment;
    var a := AddrOf(closes[j]);
    var next := now[a := Get(now, a) + [rows[i]]];
    forall k | 0 <= k < |closes|
      ensures Get(next, AddrOf(closes[k])) == Get(before, AddrOf(closes[k])) + Segment(closes, rows[..i + 1], k)
    {
      var was := Segment(closes, rows[..i], k);
      Assoc(Get(before, AddrOf(closes[k])), was, if k == j then [rows[i]] else []);
      EmptyUnit(Get(before, AddrOf(closes[k])) + was);
    }
  }

  lemma SpreadPast(closes: seq<Close>, rows: seq<LineRow>, i: nat, before: map<Addr, seq<LineRow>>,
                   now: map<Addr, seq<LineRow>>)
    requires i < |rows| && Spread(closes, rows[..i], before, now)
    requires forall k: nat ::
               Segment(closes, rows[..i + 1], k) ==
               Segment(closes, rows[..i], k) + if k == |closes| then [rows[i]] else []
    ensures Spread(closes, rows[..i + 1], before, now)
  {
    hide Segment;
    forall k | 0 <= k < |closes| ensures Segment(closes, rows[..i + 1], k) == Segment(closes, rows[..i], k) {
      EmptyUnit(Segment(closes, rows[..i], k));
    }
  }

  /** Connection ids in the order of their first close. */
  function Conns(raw: seq<Close>): seq<string> {
    if raw == [] then []
    else
      var n := |raw| - 1;
      var rest := Conns(raw[..n]);
      if raw[n].p.conn in rest then rest else rest + [raw[n].p.conn]
  }

  function AfterTotal(raw: seq<Close>, life: string -> seq<LineRow>, conns: seq<string>): nat {
    if conns == [] then 0
    else
      var n := |conns| - 1;
      var closes := ClosesOf(raw, conns[n]);
      AfterTotal(raw, life, conns[..n]) + |Segment(closes, life(conns[n]), |closes|)|
  }

  lemma {:induction false} ConnsFacts(raw: seq<Close>)
    ensures forall i, j :: 0 <= i < j < |Conns(raw)| ==> Conns(raw)[i] != Conns(raw)[j]
    ensures forall c :: c in Conns(raw) <==> exists k :: 0 <= k < |raw| && raw[k].p.conn == c
    decreases |raw|
  {
    if raw != [] {
      var n := |raw| - 1;
      ConnsFacts(raw[..n]);
      forall c ensures c in Conns(raw) <==> exists k :: 0 <= k < |raw| && raw[k].p.conn == c {
        if c in Conns(raw[..n]) {
          var k :| 0 <= k < n && raw[..n][k].p.conn == c;
          assert raw[k].p.conn == c;
        }
        if k :| 0 <= k < |raw| && raw[k].p.conn == c && k < n {
          assert raw[..n][k].p.conn == c;
        }
      }
    }
  }

  /** Closes grouped by connection id, in order. */
  method GroupCloses(raw: seq<Close>) returns (byId: map<string, seq<Close>>, ids: seq<string>)
    ensures ids == Conns(raw)
    ensures forall c :: (if c in byId then byId[c] else []) == ClosesOf(raw, c)
    ensures forall c :: c in byId <==> c in ids
  {
    byId, ids := map[], [];
    for i := 0 to |raw|
      invariant ids == Conns(raw[..i])
      invariant forall c :: (if c in byId then byId[c] else []) == ClosesOf(raw[..i], c)
      invariant forall c :: c in byId <==> c in ids
    {
      assert raw[..i + 1][..i] == raw[..i];
      forall c
        ensures ClosesOf(raw[..i + 1], c) == ClosesOf(raw[..i], c) + if raw[i].p.conn == c then [raw[i]] else []
      {
        FilterNext(raw, i, (r: Close) => r.p.conn == c);
      }
      var c := raw[i].p.conn;
      if c !in byId {
        ids := ids + [c];
      }
      byId := byId[c := (if c in byId then byId[c] else []) + [raw[i]]];
    }
    assert raw[..|raw|] == raw;
  }

  lemma {:induction false} KeptDistinct(cs: seq<Close>, p: Close -> bool)
    requires DistinctAddrs(cs)
    ensures DistinctAddrs(Filter(cs, p))
    ensures forall k :: 0 <= k < |Filter(cs, p)| ==> p(Filter(cs, p)[k]) && Filter(cs, p)[k] in cs
    decreases |cs|
  {
    if cs != [] {
      KeptDistinct(cs[1..], p);
      assert cs == [cs[0]] + cs[1..];
      var rest := Filter(cs[1..], p);
      forall k | 0 <= k < |rest| ensures AddrOf(rest[k]) != AddrOf(cs[0]) {
        assert rest[k] in cs[1..];
      }
    }
  }

  /** The rank of a close is its place among the closes of its connection. */
  lemma RankIsPlace(raw: seq<Close>, i: nat)
    requires i < |raw|
    ensures var closes := ClosesOf(raw, raw[i].p.conn); Rank(raw, i) < |closes| && closes[Rank(raw, i)] == raw[i]
  {
    var p := (c: Close) => c.p.conn == raw[i].p.conn;
    assert raw == raw[..i + 1] + raw[i + 1..];
    FilterAppend(raw[..i + 1], raw[i + 1..], p);
    FilterNext(raw, i, p);
  }

  /** The closes of the first `n` connections have their lines, the others none. */
  ghost predicate Done(raw: seq<Close>, life: string -> seq<LineRow>, conns: seq<string>,
                       owned: map<Addr, seq<LineRow>>) {
    forall i :: 0 <= i < |raw| ==>
                  Get(owned, AddrOf(raw[i])) == if raw[i].p.conn in conns then OwnLines(raw, life, i) else []
  }

  /** All connections, one after the other: afterwards every close record has exactly its own lines. */
  method AssignLines(raw: seq<Close>, life: string -> seq<LineRow>) returns (owned: map<Addr, seq<LineRow>>, after: nat)
    requires DistinctAddrs(raw) && forall c :: TimeOrdered(life(c))
    ensures forall i :: 0 <= i < |raw| ==> Get(owned, AddrOf(raw[i])) == OwnLines(raw, life, i)
    ensures after == AfterTotal(raw, life, Conns(raw))
  {
    hide Segment, Rank, TimeOrdered, DistinctAddrs, Done, Spread, Conns, ClosesOf, OwnLines;
    var byId, ids := GroupCloses(raw);
    ConnsFacts(raw);
    owned, after := map[], 0;
    assert ids[..0] == [];
    NothingDone(raw, life);
    for n := 0 to |ids|
      invariant after == AfterTotal(raw, life, ids[..n])
      invariant Done(raw, life, ids[..n], owned)
    {
      var closes := byId[ids[n]];
      ClosesDistinctToo(raw, ids[n]);
      ghost var was := owned;
      var more;
      owned, more := SegmentOne(closes, life(ids[n]), owned);
      after := after + more;
      assert ids[..n + 1][..n] == ids[..n];
      DoneNext(raw, life, ids, n, was, owned);
    }
    assert ids[..|ids|] == ids;
    AllDone(raw, life, owned);
  }

  lemma ClosesDistinctToo(raw: seq<Close>, conn: string)
    requires DistinctAddrs(raw)
    ensures DistinctAddrs(ClosesOf(raw, conn))
  {
    KeptDistinct(raw, (c: Close) => c.p.conn == conn);
  }

  lemma NothingDone(raw: seq<Close>, life: string -> seq<LineRow>)
    ensures Done(raw, life, [], map[])
  {
  }

  lemma AllDone(raw: seq<Close>, life: string -> seq<LineRow>, owned: map<Addr, seq<LineRow>>)
    requires Done(raw, life, Conns(raw), owned)
    ensures forall i :: 0 <= i < |raw| ==> Get(owned, AddrOf(raw[i])) == OwnLines(raw, life, i)
  {
    hide Conns, OwnLines, Get;
    ConnsFacts(raw);
  }

  lemma DoneNext(raw: seq<Close>, life: string -> seq<LineRow>, ids: seq<string>, n: nat,
                 was: map<Addr, seq<LineRow>>, now: map<Addr, seq<LineRow>>)
    requires n < |ids| && DistinctAddrs(raw) && forall a, b :: 0 <= a < b < |ids| ==> ids[a] != ids[b]
    requires Done(raw, life, ids[..n], was) && Spread(ClosesOf(raw, ids[n]), life(ids[n]), was, now)
    ensures Done(raw, life, ids[..n + 1], now)
  {
    hide OwnLines, Segment, Get, ClosesOf;
    assert ids[..n + 1] == ids[..n] + [ids[n]];
    assert ids[n] !in ids[..n];
    forall i | 0 <= i < |raw|
      ensures Get(now, AddrOf(raw[i])) == if raw[i].p.conn in ids[..n + 1] then OwnLines(raw, life, i) else []
    {
      if raw[i].p.conn == ids[n] {
        OwnPlace(raw, life, i);
        EmptyUnit(OwnLines(raw, life, i));
      } else {
        OtherPlace(raw, ids[n], i);
      }
    }
  }

  lemma OwnPlace(raw: seq<Close>, life: string -> seq<LineRow>, i: nat)
    requires i < |raw|
    ensures var closes := ClosesOf(raw, raw[i].p.conn);
            var k := Rank(raw, i);
            k < |closes| && closes[k] == raw[i] && OwnLines(raw, life, i) == Segment(closes, life(raw[i].p.conn), k)
  {
    hide Segment;
    RankIsPlace(raw, i);
  }

  lemma OtherPlace(raw: seq<Close>, conn: string, i: nat)
    requires i < |raw| && raw[i].p.conn != conn && DistinctAddrs(raw)
    ensures forall k :: 0 <= k < |ClosesOf(raw, conn)| ==> AddrOf(ClosesOf(raw, conn)[k]) != AddrOf(raw[i])
  {
    var closes := ClosesOf(raw, conn);
    KeptDistinct(raw, (c: Close) => c.p.conn == conn);
    forall k | 0 <= k < |closes| ensures AddrOf(closes[k]) != AddrOf(raw[i]) {
      var m :| 0 <= m < |raw| && raw[m] == closes[k];
      assert closes[k].p.conn == conn;
      assert m != i;
    }
  }

  // --- flows ---

  function FirstDest(rows: seq<LineRow>, pat: Patterns): Option<Dest> {
    if rows == [] then None
    else
      match pat.destHost(rows[0].body)
      case Some((host, port)) => Some(Dest(host, port, (rows[0].file, rows[0].no)))
      case None => FirstDest(rows[1..], pat)
  }

  /** A destination on the close record itself wins over one on the connection's lines. */
  function DestOf(c: Close, own: seq<LineRow>, pat: Patterns): Option<Dest> {
    match c.p.dest
    case Some(host) => Some(Dest(host, c.p.port, AddrOf(c)))
    case None => FirstDest(own, pat)
  }

  function FlowOf(c: Close, own: seq<LineRow>, pat: Patterns): Flow {
    Flow(c, if own == [] then c.ts else own[0].ts, DestOf(c, own, pat), |own|)
  }

  function Flows(raw: seq<Close>, life: string -> seq<LineRow>, pat: Patterns): seq<Flow> {
    seq(|raw|, i requires 0 <= i < |raw| => FlowOf(raw[i], OwnLines(raw, life, i), pat))
  }

  /** The lines of a connection, oldest first, from the identifier index. */
  function Lifetime(t: Tables, available: bool): string -> seq<LineRow> {
    (conn: string) => if available then LinesForId(t, ("conn_id", conn), None) else []
  }

  function RawCloses(t: Tables, pat: Patterns): seq<Close> {
    Sort(Deduped(ClosesAmong(t, pat, Candidates(t, pat))), CloseKey)
  }

  class Ledger {
    var flows: seq<Flow>
    var duplicateCarriers: nat
    var unmatchedCandidates: nat
    var linesAfterLastClose: nat
    var lifetimeAvailable: bool
    var connIdsReused: nat

    constructor ()
    {
      flows, duplicateCarriers, unmatchedCandidates, linesAfterLastClose, connIdsReused := [], 0, 0, 0, 0;
      lifetimeAvailable := true;
    }

    method Build(t: Tables, pat: Patterns, lifetime: bool, idsIndexed: bool)
      requires AddressIsKey(t)
      modifies this
      ensures lifetimeAvailable == (lifetime && idsIndexed)
      ensures flows == Flows(RawCloses(t, pat), Lifetime(t, lifetime && idsIndexed), pat)
      ensures unmatchedCandidates == UnparsedCount(t, pat, Candidates(t, pat))
      ensures duplicateCarriers == |ClosesAmong(t, pat, Candidates(t, pat))| - |flows|
      ensures linesAfterLastClose ==
              AfterTotal(RawCloses(t, pat), Lifetime(t, lifetime && idsIndexed), Conns(RawCloses(t, pat)))
      ensures connIdsReused == Reused(RawCloses(t, pat), Conns(RawCloses(t, pat)))
    {
      hide RawCloses, OwnLines, AfterTotal, Candidates, LinesForId, Conns, ClosesAmong, Reused, Flows, UnparsedCount;
      var raw;
      raw, unmatchedCandidates, duplicateCarriers := FindCloses(t, pat);
      RawAddressed(t, pat);
      lifetimeAvailable := lifetime && idsIndexed;
      var life := Lifetime(t, lifetime && idsIndexed);
      LifetimeOrdered(t, lifetime && idsIndexed);
      connIdsReused := CountReused(raw);
      var owned;
      owned, linesAfterLastClose := AssignLines(raw, life);
      FlowsLength(raw, life, pat);
      flows := MakeFlows(raw, life, owned, pat);
    }
  }

  lemma FlowsLength(raw: seq<Close>, life: string -> seq<LineRow>, pat: Patterns)
    ensures |Flows(raw, life, pat)| == |raw|
  {
  }

  method FindCloses(t: Tables, pat: Patterns) returns (raw: seq<Close>, unmatched: nat, dropped: nat)
    ensures raw == RawCloses(t, pat)
    ensures unmatched == UnparsedCount(t, pat, Candidates(t, pat))
    ensures |raw| + dropped == |ClosesAmong(t, pat, Candidates(t, pat))|
  {
    hide Sort, Deduped, Candidates, ClosesAmong, UnparsedCount;
    var found, kept;
    found, unmatched := ReadCloses(t, pat, Candidates(t, pat));
    kept, dropped := DedupeCarriers(found);
    raw := Sort(kept, CloseKey);
    SortSorts(kept, CloseKey);
    assert |multiset(raw)| == |raw| && |multiset(kept)| == |kept|;
  }

  method CountReused(raw: seq<Close>) returns (n: nat)
    ensures n == Reused(raw, Conns(raw))
  {
    hide ClosesOf, Conns;
    var byId, ids := GroupCloses(raw);
    n := 0;
    for k := 0 to |ids|
      invariant n == Reused(raw, ids[..k])
    {
      assert ids[..k + 1][..k] == ids[..k];
      if |byId[ids[k]]| > 1 {
        n := n + 1;
      }
    }
    assert ids[..|ids|] == ids;
  }

  method MakeFlows(raw: seq<Close>, life: string -> seq<LineRow>, owned: map<Addr, seq<LineRow>>, pat: Patterns)
    returns (out: seq<Flow>)
    requires forall i :: 0 <= i < |raw| ==> Get(owned, AddrOf(raw[i])) == OwnLines(raw, life, i)
    ensures out == Flows(raw, life, pat)
  {
    hide OwnLines, FlowOf;
    out := [];
    for i := 0 to |raw|
      invariant |out| == i && forall k :: 0 <= k < i ==> out[k] == FlowOf(raw[k], OwnLines(raw, life, k), pat)
    {
      out := out + [FlowOf(raw[i], Get(owned, AddrOf(raw[i])), pat)];
    }
  }

  function Reused(raw: seq<Close>, conns: seq<string>): nat {
    if conns == [] then 0
    else Reused(raw, conns[..|conns| - 1]) + if |ClosesOf(raw, conns[|conns| - 1])| > 1 then 1 else 0
  }

  method ReadCloses(t: Tables, pat: Patterns, lines: seq<LineRow>) returns (found: seq<Close>, unmatched: nat)
    ensures found == ClosesAmong(t, pat, lines) && unmatched == UnparsedCount(t, pat, lines)
  {
    hide RecordText, ClosesAmong, UnparsedCount;
    found, unmatched := [], 0;
    assert lines[..0] == [];
    NoCloses(t, pat);
    for i := 0 to |lines|
      invariant found == ClosesAmong(t, pat, lines[..i]) && unmatched == UnparsedCount(t, pat, lines[..i])
    {
      OneMoreLine(t, pat, lines[..i], lines[i]);
      assert lines[..i + 1] == lines[..i] + [lines[i]];
      var p := pat.parse(RecordText(t, lines[i]));
      if p.None? {
        unmatched := unmatched + 1;
        continue;
      }
      found := found + [Close(p.value, lines[i].ts, lines[i].file, lines[i].no)];
    }
    assert lines[..|lines|] == lines;
  }

  lemma NoCloses(t: Tables, pat: Patterns)
    ensures ClosesAmong(t, pat, []) == [] && UnparsedCount(t, pat, []) == 0
  {
  }

  lemma {:induction false} OneMoreLine(t: Tables, pat: Patterns, lines: seq<LineRow>, l: LineRow)
    ensures var p := pat.parse(RecordText(t, l));
            && ClosesAmong(t, pat, lines + [l]) == ClosesAmong(t, pat, lines)
                                                   + (if p.Some? then [Close(p.value, l.ts, l.file, l.no)] else [])
            && UnparsedCount(t, pat, lines + [l]) == UnparsedCount(t, pat, lines) + if p.None? then 1 else 0
    decreases |lines|
  {
    hide RecordText;
    if lines == [] {
      assert ([] + [l])[1..] == [];
    } else {
      assert (lines + [l])[1..] == lines[1..] + [l];
      OneMoreLine(t, pat, lines[1..], l);
    }
  }

  // --- the address is a key of the close records too ---

  ghost predicate DistinctLines(lines: seq<LineRow>) {
    forall i, j :: 0 <= i < j < |lines| ==> lines[i].file != lines[j].file || lines[i].no != lines[j].no
  }

  ghost predicate AddressIsKey(t: Tables) {
    DistinctLines(t.lines)
  }

  /** The address is a key of the line table of every build of log files. */
  lemma BuiltAddressIsKey(cfg: Config, files: seq<InFile>)
    requires LogFiles(files)
    ensures AddressIsKey(Built(cfg, files))
  {
    hide AllRecords, Built, Records, LogFiles;
    BuiltFromRecords(cfg, files);
    RecordAddresses(files);
    RecordsNamed(files);
    var rs := Records(files);
    LinesMatch(cfg, rs);
    forall i, j | 0 <= i < j < |rs|
      ensures var ls := AllRecords(cfg, rs).lines; ls[i].file != ls[j].file || ls[i].no != ls[j].no
    {
      LineScanned(cfg, rs, i);
      LineScanned(cfg, rs, j);
    }
  }

  lemma {:induction false} FilterLines(lines: seq<LineRow>, p: LineRow -> bool)
    requires DistinctLines(lines)
    ensures DistinctLines(Filter(lines, p))
    ensures forall k :: 0 <= k < |Filter(lines, p)| ==> Filter(lines, p)[k] in lines && p(Filter(lines, p)[k])
    decreases |lines|
  {
    if lines != [] {
      FilterLines(lines[1..], p);
      assert lines == [lines[0]] + lines[1..];
      var rest := Filter(lines[1..], p);
      forall k | 0 <= k < |rest| ensures rest[k].file != lines[0].file || rest[k].no != lines[0].no {
        assert rest[k] in lines[1..];
      }
    }
  }

  lemma CandidatesDistinct(t: Tables, pat: Patterns)
    requires AddressIsKey(t)
    ensures DistinctLines(Candidates(t, pat))
  {
    hide Continuation;
    var p := (l: LineRow) => pat.like(l.body);
    var q := (l: LineRow) => pat.like(Continuation(t, l)) && !pat.like(l.body);
    FilterLines(t.lines, p);
    FilterLines(t.lines, q);
    var a, b := Filter(t.lines, p), Filter(t.lines, q);
    forall i, j | 0 <= i < |a| && 0 <= j < |b| ensures a[i].file != b[j].file || a[i].no != b[j].no {
      var x :| 0 <= x < |t.lines| && t.lines[x] == a[i];
      var y :| 0 <= y < |t.lines| && t.lines[y] == b[j];
      assert x != y;
    }
  }

  lemma {:induction false} ClosesDistinct(t: Tables, pat: Patterns, lines: seq<LineRow>)
    requires DistinctLines(lines)
    ensures var cs := ClosesAmong(t, pat, lines);
            && DistinctAddrs(cs)
            && forall k :: 0 <= k < |cs| ==>
                             exists m :: 0 <= m < |lines| && AddrOf(cs[k]) == (lines[m].file, lines[m].no)
    decreases |lines|
  {
    if lines != [] {
      hide RecordText;
      ClosesDistinct(t, pat, lines[1..]);
      var rest := ClosesAmong(t, pat, lines[1..]);
      forall k | 0 <= k < |rest|
        ensures exists m :: 1 <= m < |lines| && AddrOf(rest[k]) == (lines[m].file, lines[m].no)
      {
        var m :| 0 <= m < |lines[1..]| && AddrOf(rest[k]) == (lines[1..][m].file, lines[1..][m].no);
        assert lines[m + 1] == lines[1..][m];
      }
    }
  }

  /** As multisets of addresses: each address at most once. */
  ghost predicate OnceEach(ms: multiset<Close>) {
    && (forall c :: c in ms ==> ms[c] == 1)
    && (forall c, d :: c in ms && d in ms && AddrOf(c) == AddrOf(d) ==> c == d)
  }

  lemma DistinctOnceEach(cs: seq<Close>)
    ensures DistinctAddrs(cs) <==> OnceEach(multiset(cs))
  {
    if DistinctAddrs(cs) {
      forall c | c in cs ensures multiset(cs)[c] == 1 { DistinctOnce(cs, c); }
    }
    if OnceEach(multiset(cs)) {
      forall i, j | 0 <= i < j < |cs| ensures AddrOf(cs[i]) != AddrOf(cs[j]) {
        assert cs[i] in multiset(cs) && cs[j] in multiset(cs);
        if cs[i] == cs[j] { TwiceCounted(cs, i, j); }
      }
    }
  }

  lemma RawAddressed(t: Tables, pat: Patterns)
    requires AddressIsKey(t)
    ensures DistinctAddrs(RawCloses(t, pat))
  {
    hide Candidates, ClosesAmong, Sort;
    var found := ClosesAmong(t, pat, Candidates(t, pat));
    CandidatesDistinct(t, pat);
    ClosesDistinct(t, pat, Candidates(t, pat));
    KeptDistinct(found, (r: Close) => !Duplicate(found, r));
    var kept := Deduped(found);
    SortSorts(kept, CloseKey);
    DistinctOnceEach(kept);
    DistinctOnceEach(RawCloses(t, pat));
  }

  lemma LifetimeOrdered(t: Tables, available: bool)
    ensures forall c :: TimeOrdered(Lifetime(t, available)(c))
  {
    hide JoinOn;
    forall c ensures TimeOrdered(Lifetime(t, available)(c)) {
      if available {
        SortSorts(JoinOn(t.lines, t.ids, ("conn_id", c)), LineKey);
        var rows := LinesForId(t, ("conn_id", c), None);
        assert Sorted(rows, LineKey);
        forall i, j | 0 <= i < j < |rows| ensures rows[i].ts <= rows[j].ts {
          assert Le(LineKey(rows[i]), LineKey(rows[j]));
        }
      }
    }
  }
}
