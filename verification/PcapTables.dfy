/** The per-packet accounting of a capture scan: endpoint rows, top talkers and flow intervals, all
    updated by every parsed packet. */
module PcapTables {
  import opened Text
  import opened Endpoints
  import opened MapSum
  import Labels

  /** A parsed packet: the frame's size on the wire and the IP header's total length. */
  datatype Packet = Packet(ts: int, from: Endpoint, to: Endpoint, size: nat, length: nat)

  datatype Frame = Frame(ts: int, packet: Option<Packet>)

  predicate GoodPacket(p: Packet) {
    Good(p.from) && Good(p.to) && p.from.proto == p.to.proto
  }

  // --- Wireshark-style rows ---

  datatype Row = Row(packets: int, bytes: int, txPackets: int, txBytes: int, rxPackets: int, rxBytes: int)

  const NO_ROW := Row(0, 0, 0, 0, 0, 0)

  function Plus(a: Row, b: Row): Row {
    Row(a.packets + b.packets, a.bytes + b.bytes, a.txPackets + b.txPackets, a.txBytes + b.txBytes,
        a.rxPackets + b.rxPackets, a.rxBytes + b.rxBytes)
  }

  /** One end of one packet. */
  datatype Event = Event(key: string, sent: bool, size: nat)

  /** The row of a single event. */
  function EventRow(e: Event): Row {
    if e.sent then Row(1, e.size, 1, e.size, 0, 0) else Row(1, e.size, 0, 0, 1, e.size)
  }

  function RowAt(rows: map<string, Row>, key: string): Row {
    if key in rows then rows[key] else NO_ROW
  }

  function Bumped(rows: map<string, Row>, e: Event): map<string, Row> {
    rows[e.key := Plus(RowAt(rows, e.key), EventRow(e))]
  }

  function Table(es: seq<Event>): map<string, Row> {
    if es == [] then map[] else Bumped(Table(es[..|es| - 1]), es[|es| - 1])
  }

  class EndpointTable {
    var rows: map<string, Row>

    constructor ()
      ensures rows == map[]
    {
      rows := map[];
    }

    method Bump(key: string, sent: bool, size: nat)
      modifies this
      ensures rows == Bumped(old(rows), Event(key, sent, size))
    {
      if key !in rows { rows := rows[key := NO_ROW]; }
      var row := rows[key];
      row := row.(packets := row.packets + 1);
      row := row.(bytes := row.bytes + size);
      if sent {
        row := row.(txPackets := row.txPackets + 1);
        row := row.(txBytes := row.txBytes + size);
      } else {
        row := row.(rxPackets := row.rxPackets + 1);
        row := row.(rxBytes := row.rxBytes + size);
      }
      rows := rows[key := row];
    }
  }

  // --- what the tables hold for a list of packets ---

  /** Both ends of every packet, under the name the table gives an endpoint. */
  function Ends(ps: seq<Packet>, name: Endpoint -> string): seq<Event> {
    if ps == [] then []
    else
      var p := ps[|ps| - 1];
      Ends(ps[..|ps| - 1], name) + [Event(name(p.from), true, p.size), Event(name(p.to), false, p.size)]
  }

  function Ip(): Endpoint -> string { (e: Endpoint) => e.ip }
  function Key(): Endpoint -> string { (e: Endpoint) => Format(e) }

  function ServerKey(): Packet -> string { (p: Packet) => Format(ServerSide(p.from, p.to)) }
  function FlowOf(): Packet -> string { (p: Packet) => FlowKey(p.from, p.to) }
  function To(name: Endpoint -> string): Packet -> string { (p: Packet) => name(p.to) }
  function Length(): Packet -> int { (p: Packet) => p.length }
  function One(): Packet -> int { (p: Packet) => 1 }

  function Talkers(ps: seq<Packet>): map<string, int> {
    Counter(ps, ServerKey(), Length())
  }

  datatype Interval = Interval(first: int, last: int, bytes: int)

  function Continued(flows: map<string, Interval>, p: Packet): map<string, Interval> {
    var k := FlowKey(p.from, p.to);
    flows[k := if k in flows then Interval(flows[k].first, p.ts, flows[k].bytes + p.length)
    else Interval(p.ts, p.ts, p.length)]
  }

  function Flows(ps: seq<Packet>): map<string, Interval> {
    if ps == [] then map[] else Continued(Flows(ps[..|ps| - 1]), ps[|ps| - 1])
  }

  /** The parsed packets of the frames that a scan looks at. */
  function Parsed(frames: seq<Frame>): seq<Packet> {
    if frames == [] then []
    else
      var f := frames[|frames| - 1];
      Parsed(frames[..|frames| - 1]) + (if f.packet.Some? then [f.packet.value] else [])
  }

  class Summary {
    var totalPackets: nat
    var tsFirst: Option<int>
    var tsLast: Option<int>
    var parseErrors: seq<string>
    var destIps: map<string, int>
    var destEndpoints: map<string, int>
    const addressStats: EndpointTable
    const transportStats: EndpointTable
    var bytesPerEndpoint: map<string, int>
    var flowIntervals: map<string, Interval>

    ghost predicate Holds(ps: seq<Packet>)
      reads `destIps, `destEndpoints, `bytesPerEndpoint, `flowIntervals, addressStats, transportStats
    {
      && addressStats != transportStats
      && addressStats.rows == Table(Ends(ps, Ip()))
      && transportStats.rows == Table(Ends(ps, Key()))
      && destIps == Counter(ps, To(Ip()), One())
      && destEndpoints == Counter(ps, To(Key()), One())
      && bytesPerEndpoint == Talkers(ps)
      && flowIntervals == Flows(ps)
    }

    constructor ()
      ensures Holds([]) && fresh(addressStats) && fresh(transportStats)
      ensures totalPackets == 0 && tsFirst == tsLast == None && parseErrors == []
    {
      totalPackets, tsFirst, tsLast, parseErrors := 0, None, None, [];
      destIps, destEndpoints, bytesPerEndpoint, flowIntervals := map[], map[], map[], map[];
      addressStats := new EndpointTable();
      transportStats := new EndpointTable();
    }

    /** Every table is updated by the same packet. */
    method AddPacket(p: Packet, ghost before: seq<Packet>)
      requires Holds(before)
      modifies this`destIps, this`destEndpoints, this`bytesPerEndpoint, this`flowIntervals, addressStats, transportStats
      ensures Holds(before + [p])
    {
      hide Table, Ends, Counter, Flows, Bumped, FlowKey, ServerSide, Format;
      Pushed(before, p);
      destIps := Add(destIps, p.to.ip, 1);
      destEndpoints := Add(destEndpoints, Format(p.to), 1);
      addressStats.Bump(p.from.ip, true, p.size);
      addressStats.Bump(p.to.ip, false, p.size);
      transportStats.Bump(Format(p.from), true, p.size);
      transportStats.Bump(Format(p.to), false, p.size);
      var server := Format(ServerSide(p.from, p.to));
      bytesPerEndpoint := Add(bytesPerEndpoint, server, p.length);
      var key := FlowKey(p.from, p.to);
      if key !in flowIntervals {
        flowIntervals := flowIntervals[key := Interval(p.ts, p.ts, p.length)];
      } else {
        var prev := flowIntervals[key];
        flowIntervals := flowIntervals[key := Interval(prev.first, p.ts, prev.bytes + p.length)];
      }
    }

    /** `scan_pcap`: the frames the reader gives, and the error it ends with, if any. */
    method Scan(frames: seq<Frame>, broken: Option<string>, maxPackets: nat)
      requires Holds([]) && totalPackets == 0 && tsFirst == tsLast == None && parseErrors == []
      modifies this`totalPackets, this`tsFirst, this`tsLast, this`parseErrors, this`destIps, this`destEndpoints,
               this`bytesPerEndpoint, this`flowIntervals, addressStats, transportStats
      ensures var n := if |frames| <= maxPackets then |frames| else maxPackets;
              && Holds(Parsed(frames[..n])) && totalPackets == n
              && tsFirst == (if n > 0 then Some(frames[0].ts) else None)
              && tsLast == (if n > 0 then Some(frames[n - 1].ts) else None)
              && parseErrors ==
                 if n < |frames| then ["Stopped at packet cap (" + Labels.Dec(maxPackets) + ")"]
                 else if broken.Some? then ["pcapng read error: " + broken.value] else []
    {
      hide Holds, Parsed, Labels.Dec;
      ParsedNone();
      assert frames[..0] == [];
      var k := 0;
      while k < |frames|
        invariant k <= |frames| && k <= maxPackets
        invariant Holds(Parsed(frames[..k])) && totalPackets == k && parseErrors == []
        invariant tsFirst == (if k > 0 then Some(frames[0].ts) else None)
        invariant tsLast == (if k > 0 then Some(frames[k - 1].ts) else None)
      {
        var f := frames[k];
        if totalPackets >= maxPackets {
          parseErrors := parseErrors + ["Stopped at packet cap (" + Labels.Dec(maxPackets) + ")"];
          return;
        }
        totalPackets := totalPackets + 1;
        if tsFirst.None? { tsFirst := Some(f.ts); }
        tsLast := Some(f.ts);
        ParsedNext(frames, k);
        if f.packet.Some? { AddPacket(f.packet.value, Parsed(frames[..k])); }
        k := k + 1;
      }
      assert frames[..k] == frames;
      if broken.Some? { parseErrors := parseErrors + ["pcapng read error: " + broken.value]; }
    }
  }

  lemma ParsedNext(frames: seq<Frame>, k: nat)
    requires k < |frames|
    ensures Parsed(frames[..k + 1]) ==
            if frames[k].packet.Some? then Parsed(frames[..k]) + [frames[k].packet.value] else Parsed(frames[..k])
  {
    assert frames[..k + 1][..k] == frames[..k];
  }

  lemma ParsedNone()
    ensures Parsed([]) == []
  {
  }

  /** What one more packet does to the contents of the tables. */
  lemma Pushed(ps: seq<Packet>, p: Packet)
    ensures var all := ps + [p];
            && Table(Ends(all, Ip())) ==
               Bumped(Bumped(Table(Ends(ps, Ip())), Event(p.from.ip, true, p.size)), Event(p.to.ip, false, p.size))
            && Table(Ends(all, Key())) ==
               Bumped(Bumped(Table(Ends(ps, Key())), Event(Format(p.from), true, p.size)),
                      Event(Format(p.to), false, p.size))
            && Counter(all, To(Ip()), One()) == Add(Counter(ps, To(Ip()), One()), p.to.ip, 1)
            && Counter(all, To(Key()), One()) == Add(Counter(ps, To(Key()), One()), Format(p.to), 1)
            && Talkers(all) == Add(Talkers(ps), Format(ServerSide(p.from, p.to)), p.length)
            && Flows(all) == Continued(Flows(ps), p)
  {
    hide Table, Bumped, FlowKey, ServerSide, Format, Ends, Continued;
    assert (ps + [p])[..|ps|] == ps;
    EndsPush(ps, p, Ip());
    EndsPush(ps, p, Key());
    TablePush2(Ends(ps, Ip()), Event(p.from.ip, true, p.size), Event(p.to.ip, false, p.size));
    TablePush2(Ends(ps, Key()), Event(Format(p.from), true, p.size), Event(Format(p.to), false, p.size));
  }

  lemma EndsPush(ps: seq<Packet>, p: Packet, name: Endpoint -> string)
    ensures Ends(ps + [p], name) == Ends(ps, name)
                                    + [Event(name(p.from), true, p.size), Event(name(p.to), false, p.size)]
  {
    assert (ps + [p])[..|ps|] == ps;
  }

  lemma FlowsPush(ps: seq<Packet>, p: Packet)
    ensures Flows(ps + [p]) == Continued(Flows(ps), p)
  {
    hide Continued;
    assert (ps + [p])[..|ps|] == ps;
  }

  lemma TablePush2(es: seq<Event>, a: Event, b: Event)
    ensures Table(es + [a, b]) == Bumped(Bumped(Table(es), a), b)
  {
    hide Bumped;
    var all := es + [a, b];
    assert all[..|all| - 1] == es + [a] && (es + [a])[..|es|] == es;
  }
}
