/** The packet tables agree with each other, and merging captures agrees with scanning them as one. */
module PcapTheorems {
  import opened Text
  import opened Endpoints
  import opened MapSum
  import opened PcapTables

  datatype Column = Packets | Bytes | TxPackets | TxBytes | RxPackets | RxBytes

  function Col(r: Row, c: Column): int {
    match c
    case Packets => r.packets
    case Bytes => r.bytes
    case TxPackets => r.txPackets
    case TxBytes => r.txBytes
    case RxPackets => r.rxPackets
    case RxBytes => r.rxBytes
  }

  /** Each end is counted as sent or received. */
  predicate Lawful(r: Row) {
    r.packets == r.txPackets + r.rxPackets && r.bytes == r.txBytes + r.rxBytes
  }

  // --- one table ---

  function EventCol(c: Column): Event -> int {
    (e: Event) => Col(EventRow(e), c)
  }

  /** What the events with key `k` put into a column. */
  function ColFor(k: string, c: Column): Event -> int {
    (e: Event) => if e.key == k then Col(EventRow(e), c) else 0
  }

  function RowCol(c: Column): (string, Row) -> int {
    (k: string, r: Row) => Col(r, c)
  }

  /** A row holds its own events' packets and bytes, and a key has a row if and only if it has events. */
  lemma {:induction false} RowExact(es: seq<Event>, k: string, c: Column)
    ensures k in Table(es) <==> exists i :: 0 <= i < |es| && es[i].key == k
    ensures Col(RowAt(Table(es), k), c) == Total(es, ColFor(k, c))
    decreases |es|
  {
    if es != [] {
      hide Col, RowAt, Bumped, EventRow;
      var n := |es| - 1;
      RowExact(es[..n], k, c);
      BumpCol(Table(es[..n]), es[n], k, c);
      BumpKeys(Table(es[..n]), es[n], k);
      if i :| 0 <= i < |es| && es[i].key == k { assert i < n ==> es[..n][i] == es[i]; }
    }
  }

  lemma BumpKeys(rows: map<string, Row>, e: Event, k: string)
    ensures k in Bumped(rows, e) <==> k in rows || k == e.key
  {
  }

  lemma {:induction false} RowsLawful(es: seq<Event>)
    ensures forall k :: k in Table(es) ==> Lawful(Table(es)[k])
    decreases |es|
  {
    if es != [] { RowsLawful(es[..|es| - 1]); }
  }

  /** A column summed over all rows is the column summed over all events. */
  lemma {:induction false} ColumnTotal(es: seq<Event>, c: Column)
    ensures Sum(Table(es), RowCol(c)) == Total(es, EventCol(c))
    decreases |es|
  {
    if es != [] {
      var e, before := es[|es| - 1], Table(es[..|es| - 1]);
      ColumnTotal(es[..|es| - 1], c);
      SumSet(before, e.key, Plus(RowAt(before, e.key), EventRow(e)), RowCol(c));
    }
  }

  function Size(): Packet -> int { (p: Packet) => p.size }

  /** What a packet adds to the two ends' rows together. */
  lemma TwoEnds(from: string, to: string, size: nat, c: Column)
    ensures EventCol(c)(Event(from, true, size)) + EventCol(c)(Event(to, false, size)) ==
            match c
            case Packets => 2
            case Bytes => 2 * size
            case TxPackets => 1
            case TxBytes => size
            case RxPackets => 1
            case RxBytes => size
  {
  }

  lemma {:induction false} EndTotals(ps: seq<Packet>, name: Endpoint -> string, c: Column)
    ensures Total(Ends(ps, name), EventCol(c)) ==
            match c
            case Packets => 2 * |ps|
            case Bytes => 2 * Total(ps, Size())
            case TxPackets => |ps|
            case TxBytes => Total(ps, Size())
            case RxPackets => |ps|
            case RxBytes => Total(ps, Size())
    decreases |ps|
  {
    if ps != [] {
      hide Ends, Total, EventCol;
      var p, init := ps[|ps| - 1], ps[..|ps| - 1];
      EndTotals(init, name, c);
      TwoEnds(name(p.from), name(p.to), p.size, c);
      assert init + [p] == ps;
      EndsPush(init, p, name);
      TotalPush(init, p, Size());
      var es, a, b := Ends(init, name), Event(name(p.from), true, p.size), Event(name(p.to), false, p.size);
      assert es + [a, b] == es + [a] + [b];
      TotalPush(es + [a], b, EventCol(c));
      TotalPush(es, a, EventCol(c));
    }
  }

  /** At every packet, in the address table and in the transport table: each row is sent plus received, and
      over all rows sent equals received equals the parsed packets and their bytes. */
  lemma TablesBalance(ps: seq<Packet>, name: Endpoint -> string)
    ensures var rows := Table(Ends(ps, name));
            && (forall k :: k in rows ==> Lawful(rows[k]))
            && Sum(rows, RowCol(TxPackets)) == |ps| == Sum(rows, RowCol(RxPackets))
            && Sum(rows, RowCol(TxBytes)) == Total(ps, Size()) == Sum(rows, RowCol(RxBytes))
  {
    hide Ends, Sum, Total, Table, Lawful;
    var es := Ends(ps, name);
    RowsLawful(es);
    EndTotals(ps, name, TxPackets);
    EndTotals(ps, name, RxPackets);
    EndTotals(ps, name, TxBytes);
    EndTotals(ps, name, RxBytes);
    ColumnTotal(es, TxPackets);
    ColumnTotal(es, RxPackets);
    ColumnTotal(es, TxBytes);
    ColumnTotal(es, RxBytes);
  }

  // --- one table against another ---

  lemma TablePushed(ps: seq<Packet>, p: Packet, name: Endpoint -> string)
    ensures Table(Ends(ps + [p], name)) ==
            Bumped(Bumped(Table(Ends(ps, name)), Event(name(p.from), true, p.size)), Event(name(p.to), false, p.size))
  {
    hide Ends, Table, Bumped;
    EndsPush(ps, p, name);
    TablePush2(Ends(ps, name), Event(name(p.from), true, p.size), Event(name(p.to), false, p.size));
  }

  lemma BumpRow(rows: map<string, Row>, e: Event, k: string)
    ensures RowAt(Bumped(rows, e), k) == if e.key == k then Plus(RowAt(rows, k), EventRow(e)) else RowAt(rows, k)
  {
  }

  /** The destination counters are the received columns of the endpoint tables. */
  lemma {:induction false} DestinationsAreReceived(ps: seq<Packet>, name: Endpoint -> string, k: string)
    ensures Get(Counter(ps, To(name), One()), k) == RowAt(Table(Ends(ps, name)), k).rxPackets
    decreases |ps|
  {
    if ps != [] {
      hide Table, Counter, Ends, Bumped, RowAt;
      var p, init := ps[|ps| - 1], ps[..|ps| - 1];
      DestinationsAreReceived(init, name, k);
      assert init + [p] == ps;
      TablePushed(init, p, name);
      CounterPush(init, p, To(name), One());
      var rows, a, b := Table(Ends(init, name)), Event(name(p.from), true, p.size), Event(name(p.to), false, p.size);
      BumpRow(rows, a, k);
      BumpRow(Bumped(rows, a), b, k);
    } else {
      assert Ends(ps, name) == [];
    }
  }

  function OfAddress(ip: string, c: Column): (string, Row) -> int {
    (k: string, r: Row) => if SplitEndpoint(k).ip == ip then Col(r, c) else 0
  }

  /** One end of a packet adds the same to its address row and to its transport row. */
  lemma EndStep(r: map<string, Row>, t: map<string, Row>, e: Endpoint, sent: bool, size: nat, ip: string, c: Column)
    requires Good(e) && Col(RowAt(r, ip), c) == Sum(t, OfAddress(ip, c))
    ensures Col(RowAt(Bumped(r, Event(e.ip, sent, size)), ip), c)
         == Sum(Bumped(t, Event(Format(e), sent, size)), OfAddress(ip, c))
  {
    hide Format, SplitEndpoint, Good, Col, Bumped, EventRow, Sum, RowAt, OfAddress;
    SplitFormat(e);
    SameRow(e, sent, size);
    BumpSum(t, Event(Format(e), sent, size), ip, c);
    BumpCol(r, Event(e.ip, sent, size), ip, c);
  }

  /** An address row is the sum of the transport rows whose key splits to that address. */
  lemma {:induction false} AddressFromTransport(ps: seq<Packet>, ip: string, c: Column)
    requires forall p :: p in ps ==> GoodPacket(p)
    ensures Col(RowAt(Table(Ends(ps, Ip())), ip), c) == Sum(Table(Ends(ps, Key())), OfAddress(ip, c))
    decreases |ps|
  {
    if ps != [] {
      hide Format, Table, Ends, SplitEndpoint, Good, Col, Bumped, EventRow, Sum, RowAt, OfAddress;
      var p, init := ps[|ps| - 1], ps[..|ps| - 1];
      assert p in ps;
      AddressFromTransport(init, ip, c);
      assert init + [p] == ps;
      TablePushed(init, p, Ip());
      TablePushed(init, p, Key());
      var r, t := Table(Ends(init, Ip())), Table(Ends(init, Key()));
      EndStep(r, t, p.from, true, p.size, ip, c);
      EndStep(Bumped(r, Event(p.from.ip, true, p.size)), Bumped(t, Event(Format(p.from), true, p.size)), p.to, false,
              p.size, ip, c);
    } else {
      assert Ends(ps, Ip()) == [] == Ends(ps, Key());
    }
  }

  lemma SameRow(e: Endpoint, sent: bool, size: nat)
    ensures EventRow(Event(e.ip, sent, size)) == EventRow(Event(Format(e), sent, size))
  {
    hide Format;
  }

  lemma ColPlus(a: Row, b: Row, c: Column)
    ensures Col(Plus(a, b), c) == Col(a, c) + Col(b, c) && Col(NO_ROW, c) == 0
  {
  }

  lemma BumpCol(rows: map<string, Row>, e: Event, k: string, c: Column)
    ensures Col(RowAt(Bumped(rows, e), k), c) == Col(RowAt(rows, k), c) + if e.key == k then Col(EventRow(e), c) else 0
  {
    hide Col, Plus, EventRow;
    ColPlus(RowAt(rows, e.key), EventRow(e), c);
  }

  lemma BumpSum(rows: map<string, Row>, e: Event, ip: string, c: Column)
    ensures Sum(Bumped(rows, e), OfAddress(ip, c)) ==
            Sum(rows, OfAddress(ip, c)) + if SplitEndpoint(e.key).ip == ip then Col(EventRow(e), c) else 0
  {
    hide Col, Plus, EventRow, SplitEndpoint, Sum;
    ColPlus(RowAt(rows, e.key), EventRow(e), c);
    SumSet(rows, e.key, Plus(RowAt(rows, e.key), EventRow(e)), OfAddress(ip, c));
  }

  /** The bytes of the flows whose key names the server `e`. */
  function OnServer(e: string): (string, Interval) -> int {
    (k: string, f: Interval) => if Format(ServerOfKey(k)) == e then f.bytes else 0
  }

  lemma GoodServer(p: Packet)
    requires GoodPacket(p)
    ensures ServerKey()(p) == Format(ServerOfKey(FlowKey(p.from, p.to)))
  {
    hide ServerOfKey, Format, FlowKey, ServerSide;
    ServerOfFlow(p.from, p.to);
  }

  lemma ContinuedSum(flows: map<string, Interval>, p: Packet, e: string)
    ensures Sum(Continued(flows, p), OnServer(e)) ==
            Sum(flows, OnServer(e)) + if Format(ServerOfKey(FlowKey(p.from, p.to))) == e then p.length else 0
  {
    hide ServerOfKey, Format, FlowKey, Sum;
    var k := FlowKey(p.from, p.to);
    SumSet(flows, k, Continued(flows, p)[k], OnServer(e));
  }

  lemma TalkersPush(ps: seq<Packet>, p: Packet, e: string)
    ensures Get(Talkers(ps + [p]), e) == Get(Talkers(ps), e) + if ServerKey()(p) == e then p.length else 0
  {
    hide Counter, Format, ServerSide;
    CounterPush(ps, p, ServerKey(), Length());
  }

  /** A packet adds as much to its server as to the flows of that server. */
  lemma TalkersStep(ps: seq<Packet>, p: Packet, e: string)
    requires GoodPacket(p)
    ensures Get(Talkers(ps + [p]), e) - Get(Talkers(ps), e)
         == Sum(Flows(ps + [p]), OnServer(e)) - Sum(Flows(ps), OnServer(e))
  {
    hide ServerOfKey, Format, FlowKey, Talkers, ServerKey, GoodPacket, Continued, Flows, Sum, Get, OnServer;
    TalkersPush(ps, p, e);
    FlowsPush(ps, p);
    GoodServer(p);
    ContinuedSum(Flows(ps), p, e);
  }

  /** The bytes charged to a server are the bytes of the flows whose server it is. */
  lemma {:induction false} TalkersFromFlows(ps: seq<Packet>, e: string)
    requires forall p :: p in ps ==> GoodPacket(p)
    ensures Get(Talkers(ps), e) == Sum(Flows(ps), OnServer(e))
    decreases |ps|
  {
    if ps != [] {
      hide ServerOfKey, Format, FlowKey, Talkers, ServerKey, GoodPacket, Continued, Flows, Sum, Get, OnServer;
      var p, init := ps[|ps| - 1], ps[..|ps| - 1];
      assert p in ps;
      TalkersFromFlows(init, e);
      assert init + [p] == ps;
      TalkersStep(init, p, e);
    }
  }

  /** A server has an entry if and only if a flow names it. */
  lemma TalkersAreServers(ps: seq<Packet>, e: string)
    requires forall p :: p in ps ==> GoodPacket(p)
    ensures e in Talkers(ps) <==> exists k :: k in Flows(ps) && Format(ServerOfKey(k)) == e
  {
    hide ServerOfKey, Format, FlowKey, ServerSide, Counter, GoodPacket, Flows;
    CounterKeys(ps, ServerKey(), Length(), e);
    if e in Talkers(ps) {
      var i :| 0 <= i < |ps| && ServerKey()(ps[i]) == e;
      GoodServer(ps[i]);
      FlowKeys(ps, FlowKey(ps[i].from, ps[i].to));
      assert FlowKey(ps[i].from, ps[i].to) in Flows(ps);
    }
    if k :| k in Flows(ps) && Format(ServerOfKey(k)) == e {
      FlowKeys(ps, k);
      var i :| 0 <= i < |ps| && FlowKey(ps[i].from, ps[i].to) == k;
      GoodServer(ps[i]);
    }
  }

  // --- a flow's interval ---

  lemma ContinuedKeys(flows: map<string, Interval>, p: Packet)
    ensures Continued(flows, p).Keys == flows.Keys + {FlowKey(p.from, p.to)}
  {
    hide FlowKey;
  }

  lemma {:induction false} FlowKeySet(ps: seq<Packet>)
    ensures Flows(ps).Keys == Counter(ps, FlowOf(), Length()).Keys
    decreases |ps|
  {
    if ps != [] {
      hide FlowKey, Continued;
      var n := |ps| - 1;
      FlowKeySet(ps[..n]);
      ContinuedKeys(Flows(ps[..n]), ps[n]);
    }
  }

  lemma FlowKeys(ps: seq<Packet>, k: string)
    ensures k in Flows(ps) <==> exists i :: 0 <= i < |ps| && FlowKey(ps[i].from, ps[i].to) == k
  {
    hide FlowKey, Flows, Counter;
    FlowKeySet(ps);
    CounterKeys(ps, FlowOf(), Length(), k);
    forall i | 0 <= i < |ps| ensures FlowOf()(ps[i]) == FlowKey(ps[i].from, ps[i].to) {}
  }

  /** The interval holds the bytes of all packets of its flow. */
  lemma {:induction false} FlowBytes(ps: seq<Packet>, k: string)
    ensures (if k in Flows(ps) then Flows(ps)[k].bytes else 0) == Total(ps, For(FlowOf(), Length(), k))
    decreases |ps|
  {
    if ps != [] {
      hide FlowKey;
      FlowBytes(ps[..|ps| - 1], k);
    }
  }

  /** It runs from the first packet of its flow to the last, whichever way they go. */
  lemma {:induction false} FlowSpan(ps: seq<Packet>, i: nat, j: nat, k: string)
    requires i <= j < |ps| && FlowKey(ps[i].from, ps[i].to) == k == FlowKey(ps[j].from, ps[j].to)
    requires forall l :: 0 <= l < i || j < l < |ps| ==> FlowKey(ps[l].from, ps[l].to) != k
    ensures k in Flows(ps) && Flows(ps)[k].first == ps[i].ts && Flows(ps)[k].last == ps[j].ts
    decreases |ps|
  {
    hide FlowKey;
    var n := |ps| - 1;
    var init := ps[..n];
    if j < n {
      FlowSpan(init, i, j, k);
    } else if i == j {
      FlowKeys(init, k);
    } else {
      var m := LastBefore(ps, n, k, i);
      FlowSpan(init, i, m, k);
    }
  }

  lemma {:induction false} LastBefore(ps: seq<Packet>, n: nat, k: string, i: nat) returns (m: nat)
    requires i < n <= |ps| && FlowKey(ps[i].from, ps[i].to) == k
    ensures i <= m < n && FlowKey(ps[m].from, ps[m].to) == k
    ensures forall l :: m < l < n ==> FlowKey(ps[l].from, ps[l].to) != k
  {
    hide FlowKey;
    m := n - 1;
    if FlowKey(ps[m].from, ps[m].to) != k { m := LastBefore(ps, n - 1, k, i); }
  }

  // --- merging captures ---

  /** Row by row sum of two tables. */
  function Merged(a: map<string, Row>, b: map<string, Row>): map<string, Row> {
    map k | k in a.Keys + b.Keys :: Plus(RowAt(a, k), RowAt(b, k))
  }

  function Merge(tables: seq<map<string, Row>>): map<string, Row> {
    if tables == [] then map[] else Merged(Merge(tables[..|tables| - 1]), tables[|tables| - 1])
  }

  /** `a` with the rows of `b` under the keys `ks` added. */
  function MergedOn(a: map<string, Row>, b: map<string, Row>, ks: set<string>): map<string, Row>
    requires ks <= b.Keys
  {
    map k | k in a.Keys + ks :: if k in ks then Plus(RowAt(a, k), b[k]) else a[k]
  }

  lemma MergedOnNext(a: map<string, Row>, b: map<string, Row>, ks: set<string>, k: string)
    requires ks <= b.Keys && k in b.Keys - ks
    ensures RowAt(MergedOn(a, b, ks), k) == RowAt(a, k)
    ensures MergedOn(a, b, ks + {k}) == MergedOn(a, b, ks)[k := Plus(RowAt(a, k), b[k])]
  {
    hide Plus;
  }

  lemma MergedOnAll(a: map<string, Row>, b: map<string, Row>)
    ensures MergedOn(a, b, {}) == a && MergedOn(a, b, b.Keys) == Merged(a, b)
  {
    hide Plus;
    forall k: string ensures Plus(RowAt(a, k), NO_ROW) == RowAt(a, k) { PlusNone(RowAt(a, k)); }
  }

  method MergeStatRows(tables: seq<map<string, Row>>) returns (totals: map<string, Row>)
    ensures totals == Merge(tables)
  {
    hide Plus, Merge, Merged, MergedOn;
    totals := map[];
    MergeStep(tables, 0);
    for i := 0 to |tables|
      invariant totals == Merge(tables[..i])
    {
      var table := tables[i];
      ghost var before := totals;
      var left := table.Keys;
      MergedOnAll(before, table);
      assert table.Keys - left == {};
      while left != {}
        invariant left <= table.Keys && totals == MergedOn(before, table, table.Keys - left)
        decreases |left|
      {
        var name :| name in left;
        MergedOnNext(before, table, table.Keys - left, name);
        assert table.Keys - (left - {name}) == table.Keys - left + {name};
        var target := if name in totals then totals[name] else NO_ROW;
        totals := totals[name := Plus(target, table[name])];
        left := left - {name};
      }
      assert table.Keys - left == table.Keys;
      MergeStep(tables, i);
    }
    assert tables[..|tables|] == tables;
  }

  lemma MergeStep(tables: seq<map<string, Row>>, i: nat)
    ensures i < |tables| ==> Merge(tables[..i + 1]) == Merged(Merge(tables[..i]), tables[i])
    ensures i == 0 ==> Merge(tables[..i]) == map[]
  {
    hide Merged;
    if i < |tables| { assert tables[..i + 1][..i] == tables[..i]; }
  }

  lemma PlusNone(r: Row)
    ensures Plus(r, NO_ROW) == r == Plus(NO_ROW, r)
  {
  }

  lemma PlusAssoc(a: Row, b: Row, c: Row)
    ensures Plus(Plus(a, b), c) == Plus(a, Plus(b, c))
  {
  }

  lemma MergedBump(a: map<string, Row>, b: map<string, Row>, e: Event)
    ensures Merged(a, Bumped(b, e)) == Bumped(Merged(a, b), e)
  {
    hide Plus, EventRow;
    PlusAssoc(RowAt(a, e.key), RowAt(b, e.key), EventRow(e));
    PlusNone(NO_ROW);
    assert RowAt(Merged(a, b), e.key) == Plus(RowAt(a, e.key), RowAt(b, e.key));
  }

  lemma MergedNone(a: map<string, Row>)
    ensures Merged(a, map[]) == a
  {
    hide Plus;
    forall k | k in a ensures Plus(a[k], NO_ROW) == a[k] { PlusNone(a[k]); }
  }

  /** Merging the tables of two event streams is the table of both. */
  lemma {:induction false} MergedTables(a: seq<Event>, b: seq<Event>)
    ensures Merged(Table(a), Table(b)) == Table(a + b)
    decreases |b|
  {
    hide Merged, Bumped;
    if b == [] {
      EmptyUnit(a);
      MergedNone(Table(a));
    } else {
      var c, e := b[..|b| - 1], b[|b| - 1];
      MergedTables(a, c);
      assert (a + b)[..|a + b| - 1] == a + c;
      MergedBump(Table(a), Table(c), e);
    }
  }

  function Tables(captures: seq<seq<Packet>>, name: Endpoint -> string): seq<map<string, Row>> {
    seq(|captures|, i requires 0 <= i < |captures| => Table(Ends(captures[i], name)))
  }

  function Flat(captures: seq<seq<Packet>>): seq<Packet> {
    if captures == [] then [] else Flat(captures[..|captures| - 1]) + captures[|captures| - 1]
  }

  lemma {:induction false} EndsAppend(a: seq<Packet>, b: seq<Packet>, name: Endpoint -> string)
    ensures Ends(a + b, name) == Ends(a, name) + Ends(b, name)
    decreases |b|
  {
    if b == [] {
      EmptyUnit(a);
      EmptyUnit(Ends(a, name));
    } else {
      hide Ends;
      var c, p := b[..|b| - 1], b[|b| - 1];
      assert a + b == (a + c) + [p] && b == c + [p];
      EndsAppend(a, c, name);
      EndsPush(a + c, p, name);
      EndsPush(c, p, name);
      Assoc(Ends(a, name), Ends(c, name), [Event(name(p.from), true, p.size), Event(name(p.to), false, p.size)]);
    }
  }

  /** Merging the tables of several captures gives the table of one scan over all their packets. */
  lemma {:induction false} MergeIsOneScan(captures: seq<seq<Packet>>, name: Endpoint -> string)
    ensures Merge(Tables(captures, name)) == Table(Ends(Flat(captures), name))
    decreases |captures|
  {
    if captures != [] {
      hide Table, Ends, Merged;
      var n := |captures| - 1;
      MergeIsOneScan(captures[..n], name);
      assert Tables(captures, name)[..n] == Tables(captures[..n], name);
      MergedTables(Ends(Flat(captures[..n]), name), Ends(captures[n], name));
      EndsAppend(Flat(captures[..n]), captures[n], name);
    } else {
      assert Tables(captures, name) == [];
    }
  }

  /** Whatever the tables, merging keeps the row law and every column total. */
  lemma {:induction false} MergeKeepsLaw(tables: seq<map<string, Row>>)
    requires forall i, k :: 0 <= i < |tables| && k in tables[i] ==> Lawful(tables[i][k])
    ensures forall k :: k in Merge(tables) ==> Lawful(Merge(tables)[k])
    decreases |tables|
  {
    if tables != [] {
      var init := tables[..|tables| - 1];
      assert forall i :: 0 <= i < |init| ==> init[i] == tables[i];
      MergeKeepsLaw(init);
    }
  }

  lemma {:induction false} MergedColumn(a: map<string, Row>, b: map<string, Row>, c: Column)
    ensures Sum(Merged(a, b), RowCol(c)) == Sum(a, RowCol(c)) + Sum(b, RowCol(c))
    decreases |b|
  {
    if b == map[] {
      forall k | k in a ensures Plus(a[k], NO_ROW) == a[k] {}
      assert Merged(a, b) == a;
    } else {
      hide Sum;
      var k :| k in b;
      var rest := b - {k};
      MergedColumn(a, rest, c);
      SumRemove(b, k, RowCol(c));
      SumSet(Merged(a, rest), k, Plus(RowAt(a, k), b[k]), RowCol(c));
      MergedSet(a, b, k);
    }
  }

  lemma MergedSet(a: map<string, Row>, b: map<string, Row>, k: string)
    requires k in b
    ensures Merged(a, b) == Merged(a, b - {k})[k := Plus(RowAt(a, k), b[k])]
    ensures k in Merged(a, b - {k}) ==> Merged(a, b - {k})[k] == RowAt(a, k)
    ensures k !in Merged(a, b - {k}) ==> RowAt(a, k) == NO_ROW
  {
  }

  lemma {:induction false} MergeColumn(tables: seq<map<string, Row>>, c: Column)
    ensures Sum(Merge(tables), RowCol(c)) == Total(tables, (t: map<string, Row>) => Sum(t, RowCol(c)))
    decreases |tables|
  {
    if tables != [] {
      hide Sum;
      MergeColumn(tables[..|tables| - 1], c);
      MergedColumn(Merge(tables[..|tables| - 1]), tables[|tables| - 1], c);
    }
  }
}
