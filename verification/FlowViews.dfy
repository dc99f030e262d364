/** The three views of a ledger: what their rows are, in which order, and what a cut leaves out. */
module FlowViews {
  import opened Text
  import opened Order
  import opened LogStore
  import opened FlowLedger
  import opened FlowTheorems
  import Labels

  // --- what a view holds ---

  /** Every row is the row of its key's flows, and no two rows share a key. */
  ghost predicate IsView(flows: seq<Flow>, keyOf: Flow -> string, limit: nat, rows: seq<AggRow>) {
    && (forall i :: 0 <= i < |rows| ==> IsRow(flows, keyOf, limit, rows[i]))
    && (forall i, j :: 0 <= i < j < |rows| ==> rows[i].key != rows[j].key)
  }

  ghost predicate IsRow(flows: seq<Flow>, keyOf: Flow -> string, limit: nat, row: AggRow) {
    var ids := WithKey(flows, keyOf, row.key);
    ids != [] && InRange(ids, |flows|) && row == RowOf(flows, row.key, ids, limit)
  }

  /** Every flow has its row. */
  ghost predicate Complete(flows: seq<Flow>, keyOf: Flow -> string, rows: seq<AggRow>) {
    forall k :: 0 <= k < |flows| ==> HasRow(rows, keyOf(flows[k]))
  }

  ghost predicate HasRow(rows: seq<AggRow>, key: string) {
    exists i :: 0 <= i < |rows| && rows[i].key == key
  }

  lemma AggregateIsView(flows: seq<Flow>, keyOf: Flow -> string, order: AggRow -> Key, limit: nat)
    ensures var rows := Aggregate(flows, keyOf, order, limit);
            IsView(flows, keyOf, limit, rows) && Complete(flows, keyOf, rows) && Sorted(rows, order)
  {
    hide RowOf, Aggregate, WithKey;
    var rows := Aggregate(flows, keyOf, order, limit);
    forall i | 0 <= i < |rows| ensures IsRow(flows, keyOf, limit, rows[i]) {
      DrillDown(flows, keyOf, order, limit, rows[i]);
    }
    forall i, j | 0 <= i < j < |rows| ensures rows[i].key != rows[j].key {
      DrillDown(flows, keyOf, order, limit, rows[i]);
      if rows[i] == rows[j] { TwiceCounted(rows, i, j); }
    }
    AggregateSorted(flows, keyOf, order, limit);
    forall k | 0 <= k < |flows| ensures HasRow(rows, keyOf(flows[k])) {
      FlowHasRow(flows, keyOf, order, limit, k);
    }
  }

  lemma AggregateSorted(flows: seq<Flow>, keyOf: Flow -> string, order: AggRow -> Key, limit: nat)
    ensures Sorted(Aggregate(flows, keyOf, order, limit), order)
  {
    hide RowOf, Sort, WithKey, Lookup, Sorted;
    BucketsExact(flows, keyOf);
    SortSorts(Rows(flows, BucketsOf(flows, keyOf), limit), order);
  }

  lemma FlowHasRow(flows: seq<Flow>, keyOf: Flow -> string, order: AggRow -> Key, limit: nat, k: nat)
    requires k < |flows|
    ensures HasRow(Aggregate(flows, keyOf, order, limit), keyOf(flows[k]))
  {
    hide RowOf, Sort, WithKey, Lookup, WellFormed, BucketsOf;
    var buckets, key := BucketsOf(flows, keyOf), keyOf(flows[k]);
    BucketsExact(flows, keyOf);
    FlowCounted(flows, keyOf, k);
    LookupFinds(buckets, key);
    var b :| 0 <= b < |buckets| && buckets[b].0 == key;
    var rows := Rows(flows, buckets, limit);
    BucketGood(buckets, |flows|, b);
    RowKey(flows, key, buckets[b].1, limit);
    SortSorts(rows, order);
    assert rows[b] in multiset(Sort(rows, order));
    var i :| 0 <= i < |Sort(rows, order)| && Sort(rows, order)[i] == rows[b];
  }

  lemma BucketGood(buckets: Buckets, n: nat, b: nat)
    requires WellFormed(buckets, n) && b < |buckets|
    ensures buckets[b].1 != [] && InRange(buckets[b].1, n)
  {
  }

  lemma {:induction false} FlowCounted(flows: seq<Flow>, keyOf: Flow -> string, k: nat)
    requires k < |flows|
    ensures WithKey(flows, keyOf, keyOf(flows[k])) != []
    decreases |flows|
  {
    if k < |flows| - 1 { FlowCounted(flows[..|flows| - 1], keyOf, k); }
  }

  lemma {:induction false} LookupFinds(buckets: Buckets, key: string)
    requires Lookup(buckets, key) != []
    ensures exists b :: 0 <= b < |buckets| && buckets[b].0 == key
    decreases |buckets|
  {
    if buckets[0].0 != key {
      LookupFinds(buckets[1..], key);
      var b :| 0 <= b < |buckets[1..]| && buckets[1..][b].0 == key;
      assert buckets[b + 1].0 == key;
    }
  }

  // --- orders ---

  function Volume(r: AggRow): nat {
    r.client + r.server
  }

  /** More bytes, or as many under an earlier key. */
  predicate Busier(a: AggRow, b: AggRow) {
    Volume(a) > Volume(b) || (Volume(a) == Volume(b) && a.key != b.key && StrLe(a.key, b.key))
  }

  ghost predicate BusiestFirst(rows: seq<AggRow>) {
    forall i, j :: 0 <= i < j < |rows| ==> Busier(rows[i], rows[j])
  }

  ghost predicate KeysAscend(rows: seq<AggRow>) {
    forall i, j :: 0 <= i < j < |rows| ==> rows[i].key != rows[j].key && StrLe(rows[i].key, rows[j].key)
  }

  /** By total bytes, largest first, then by key. */
  function Busiest(): AggRow -> Key {
    (r: AggRow) => Key(-(r.client + r.server), r.key, 0)
  }

  function ByKey(): AggRow -> Key {
    (r: AggRow) => Key(0, r.key, 0)
  }

  lemma SortedBusiest(flows: seq<Flow>, keyOf: Flow -> string, limit: nat, rows: seq<AggRow>)
    requires IsView(flows, keyOf, limit, rows) && Sorted(rows, Busiest())
    ensures BusiestFirst(rows)
  {
    hide IsRow, StrLe;
    forall i, j | 0 <= i < j < |rows| ensures Busier(rows[i], rows[j]) {
      assert Le(Busiest()(rows[i]), Busiest()(rows[j]));
    }
  }

  lemma SortedByKey(flows: seq<Flow>, keyOf: Flow -> string, limit: nat, rows: seq<AggRow>)
    requires IsView(flows, keyOf, limit, rows) && Sorted(rows, ByKey())
    ensures KeysAscend(rows)
  {
    hide IsRow, StrLe;
    forall i, j | 0 <= i < j < |rows| ensures StrLe(rows[i].key, rows[j].key) {
      assert Le(ByKey()(rows[i]), ByKey()(rows[j]));
    }
  }

  // --- the three views ---

  /** `Flow.destination`: the port is shown unless it is missing or zero. */
  function Destination(f: Flow): string {
    match f.dest
    case Some(d) =>
      if d.host == "" then "(no destination on record)"
      else if d.port.Some? && d.port.value > 0 then d.host + ":" + Labels.Dec(d.port.value)
      else d.host
    case None => "(no destination on record)"
  }

  /** `rows[:top] if top else rows` */
  function Top(rows: seq<AggRow>, top: Option<int>): seq<AggRow> {
    match top
    case None => rows
    case Some(k) =>
      if k == 0 || k >= |rows| then rows
      else if k > 0 then rows[..k]
      else if -k >= |rows| then []
      else rows[..|rows| + k]
  }

  /** The rows kept are the busiest: whoever is left out is less busy than each of them. */
  method ByDestination(flows: seq<Flow>, top: Option<int>, limit: nat) returns (rows: seq<AggRow>)
    ensures rows == Top(Aggregate(flows, Destination, Busiest(), limit), top)
    ensures IsView(flows, Destination, limit, rows) && BusiestFirst(rows)
    ensures top.None? || top.value == 0 ==> Complete(flows, Destination, rows)
    ensures forall row, kept ::
              row in Aggregate(flows, Destination, Busiest(), limit) && row !in rows && kept in rows ==>
                Busier(kept, row)
  {
    hide Aggregate, IsRow, Busier, Destination, Sorted;
    var all := Aggregated(flows, Destination, Busiest(), limit);
    AggregateIsView(flows, Destination, Busiest(), limit);
    SortedBusiest(flows, Destination, limit, all);
    rows := Top(all, top);
    TopIsPrefix(all, top);
    forall row, kept | row in all && row !in rows && kept in rows ensures Busier(kept, row) {
      var i :| 0 <= i < |rows| && rows[i] == kept;
      var j :| 0 <= j < |all| && all[j] == row;
    }
  }

  lemma TopIsPrefix(rows: seq<AggRow>, top: Option<int>)
    ensures Top(rows, top) <= rows && (top.None? || top.value == 0 ==> Top(rows, top) == rows)
  {
  }

  /** Hours are written so that later hours come later in text order. */
  ghost predicate Chronological(hour: int -> string) {
    forall t, u :: t <= u ==> StrLe(hour(t), hour(u))
  }

  /** One row an hour, oldest first: the flows of an earlier row closed before those of a later one. */
  method ByHour(flows: seq<Flow>, hour: int -> string, limit: nat) returns (rows: seq<AggRow>)
    ensures var keyOf := (f: Flow) => hour(f.close.ts);
            && rows == Aggregate(flows, keyOf, ByKey(), limit)
            && IsView(flows, keyOf, limit, rows) && Complete(flows, keyOf, rows)
    ensures KeysAscend(rows)
    ensures Chronological(hour) ==>
              forall i, j, t, u ::
                0 <= i < j < |rows| && hour(t) == rows[i].key && hour(u) == rows[j].key ==> t < u
  {
    hide Aggregate, IsRow, StrLe, Complete, Sorted;
    ghost var keyOf := (f: Flow) => hour(f.close.ts);
    rows := Aggregated(flows, (f: Flow) => hour(f.close.ts), ByKey(), limit);
    AggregateIsView(flows, keyOf, ByKey(), limit);
    SortedByKey(flows, keyOf, limit, rows);
    if Chronological(hour) {
      forall i, j, t, u | 0 <= i < j < |rows| && hour(t) == rows[i].key && hour(u) == rows[j].key ensures t < u {
        if u <= t {
          assert StrLe(hour(u), hour(t));
          StrAntisymmetric(rows[i].key, rows[j].key);
        }
      }
    }
  }

  /** One row a protocol, busiest first. */
  method ByProto(flows: seq<Flow>, limit: nat) returns (rows: seq<AggRow>)
    ensures var keyOf := (f: Flow) => f.close.p.proto;
            && rows == Aggregate(flows, keyOf, Busiest(), limit)
            && IsView(flows, keyOf, limit, rows) && Complete(flows, keyOf, rows)
    ensures BusiestFirst(rows)
  {
    hide Aggregate, IsRow, Busier, Complete, Sorted;
    ghost var keyOf := (f: Flow) => f.close.p.proto;
    rows := Aggregated(flows, (f: Flow) => f.close.p.proto, Busiest(), limit);
    AggregateIsView(flows, keyOf, Busiest(), limit);
    SortedBusiest(flows, keyOf, limit, rows);
  }
}
