/** A whole build, and the queries on its tables: the identifier index agrees with the naive scan over
    record texts that it replaces. */
module LogIndex {
  import opened Text
  import opened Order
  import opened IdExtract
  import opened LogStore
  import opened Labels
  import LineSequence

  datatype InFile = InFile(name: string, comp: string, phys: seq<Physical>)

  function Names(files: seq<InFile>): seq<string> {
    seq(|files|, k requires 0 <= k < |files| => files[k].name)
  }

  /** The tables of a build over `files`, in the order they are read. */
  function Built(cfg: Config, files: seq<InFile>): Tables {
    if files == [] then EMPTY
    else
      var n := |files| - 1;
      Plus(Built(cfg, files[..n]), FileTables(cfg, files[n].phys, LabelAt(Names(files), n), files[n].comp))
  }

  /** Reads every file under its label. Batches may be written at any point of a file: the tables only
      depend on the files. */
  method Build(cfg: Config, files: seq<InFile>) returns (store: Store)
    ensures Tables(store.lines, store.conts, store.ids, store.counts) == Built(cfg, files)
  {
    hide Plus, Stream, FileTables, LabelAt, Built, Names;
    BuiltNothing(cfg);
    assert files[..0] == [];
    store := new Store();
    var ingestor := new Ingestor(store, cfg);
    var labeller := new Labeller();
    for k := 0 to |files|
      invariant fresh(store) && fresh(ingestor) && fresh(labeller) && ingestor.store == store && ingestor.cfg == cfg
      invariant labeller.Valid() && labeller.names == Names(files[..k])
      invariant ingestor.OpenNow() == Nothing && ingestor.Now() == Built(cfg, files[..k])
      invariant ingestor.batch == [] && ingestor.contBatch == [] && ingestor.idBatch == []
    {
      var f := files[k];
      var tag := labeller.Label(f.name);
      BuiltNext(cfg, files, k);
      ingestor.Feed(f.phys, tag, f.comp);
      FilesAreIsolated(cfg, f.phys, tag, f.comp);
    }
    assert files[..|files|] == files;
    EmptyUnit(store.lines);
    EmptyUnit(store.conts);
    EmptyUnit(store.ids);
  }

  lemma BuiltNothing(cfg: Config)
    ensures Built(cfg, []) == EMPTY && Names([]) == []
  {
  }

  lemma BuiltNext(cfg: Config, files: seq<InFile>, k: nat)
    requires k < |files|
    ensures var f := files[k];
            var names := Names(files[..k + 1]);
            && names == Names(files[..k]) + [f.name] && |names| == k + 1
            && Built(cfg, files[..k + 1]) ==
               Plus(Built(cfg, files[..k]), FileTables(cfg, f.phys, LabelAt(names, k), f.comp))
  {
    hide Plus, FileTables, LabelAt;
    assert files[..k + 1][..k] == files[..k];
    assert Names(files[..k + 1]) == Names(files[..k]) + [files[k].name];
  }

  // --- a build as one list of records ---

  predicate SameRows(t: Tables, u: Tables) {
    t.lines == u.lines && t.conts == u.conts && t.ids == u.ids
  }

  lemma SkipsAreNoRows(t: Tables, u: Tables, g: Tables, orphans: nat, bad: nat)
    requires SameRows(t, u)
    ensures SameRows(Plus(t, Plus(g, Skips(orphans, bad))), Plus(u, g))
  {
    EmptyUnit(g.lines);
    EmptyUnit(g.conts);
    EmptyUnit(g.ids);
  }

  function Records(files: seq<InFile>): seq<Record> {
    if files == [] then []
    else
      var n := |files| - 1;
      Records(files[..n]) + Group(files[n].phys, 1, LabelAt(Names(files), n), files[n].comp)
  }

  lemma {:induction false} RecordsAppend(cfg: Config, a: seq<Record>, b: seq<Record>)
    ensures AllRecords(cfg, a + b) == Plus(AllRecords(cfg, a), AllRecords(cfg, b))
    decreases |a|
  {
    hide Plus, RecordTables;
    if a == [] {
      EmptyUnit(b);
      PlusEmpty(AllRecords(cfg, b));
    } else {
      assert (a + b)[1..] == a[1..] + b;
      RecordsAppend(cfg, a[1..], b);
      PlusAssoc(RecordTables(cfg, a[0]), AllRecords(cfg, a[1..]), AllRecords(cfg, b));
    }
  }

  /** Apart from counters, a build's tables are those of its records. */
  lemma {:induction false} BuiltFromRecords(cfg: Config, files: seq<InFile>)
    ensures SameRows(Built(cfg, files), AllRecords(cfg, Records(files)))
    decreases |files|
  {
    if files != [] {
      hide AllRecords, Group, LabelAt, Plus, SameRows, Skips;
      var n := |files| - 1;
      var phys := files[n].phys;
      var g := Group(phys, 1, LabelAt(Names(files), n), files[n].comp);
      BuiltFromRecords(cfg, files[..n]);
      RecordsAppend(cfg, Records(files[..n]), g);
      SkipsAreNoRows(Built(cfg, files[..n]), AllRecords(cfg, Records(files[..n])), AllRecords(cfg, g), |RunOf(phys)|,
                     BadStamps(phys));
    }
  }

  // --- the address is a key ---

  /** Different records have different addresses. */
  ghost predicate Addressed(rs: seq<Record>) {
    forall i, j :: 0 <= i < j < |rs| ==> rs[i].row.file != rs[j].row.file || rs[i].row.no != rs[j].row.no
  }

  lemma {:induction false} GroupAddresses(phys: seq<Physical>, at: nat, file: string, comp: string)
    ensures var rs := Group(phys, at, file, comp);
            && Addressed(rs)
            && forall k :: 0 <= k < |rs| ==> rs[k].row.file == file && rs[k].row.no >= at
    decreases |phys|
  {
    if phys != [] { GroupAddresses(phys[1..], at + 1, file, comp); }
  }

  ghost predicate LabelsUsed(rs: seq<Record>, names: seq<string>, n: nat)
    requires n <= |names|
  {
    forall k :: 0 <= k < |rs| ==> exists f :: 0 <= f < n && rs[k].row.file == LabelAt(names, f)
  }

  lemma LabelPrefix(names: seq<string>, n: nat, f: nat)
    requires f < n <= |names|
    ensures LabelAt(names[..n], f) == LabelAt(names, f)
  {
    assert names[..n][..f + 1] == names[..f + 1];
  }

  ghost predicate LogFiles(files: seq<InFile>) {
    forall k :: 0 <= k < |files| ==> LogName(files[k].name)
  }

  lemma {:induction false} RecordAddresses(files: seq<InFile>)
    requires LogFiles(files)
    ensures Addressed(Records(files)) && LabelsUsed(Records(files), Names(files), |files|)
    decreases |files|
  {
    hide LabelAt, LogName, Group;
    if files != [] {
      var n := |files| - 1;
      var names := Names(files);
      var tag := LabelAt(names, n);
      var old', new' := Records(files[..n]), Group(files[n].phys, 1, tag, files[n].comp);
      RecordAddresses(files[..n]);
      GroupAddresses(files[n].phys, 1, tag, files[n].comp);
      assert Names(files[..n]) == names[..n];
      forall k | 0 <= k < |old'|
        ensures exists f :: 0 <= f < n && old'[k].row.file == LabelAt(names, f) && old'[k].row.file != tag
      {
        var f :| 0 <= f < n && old'[k].row.file == LabelAt(names[..n], f);
        LabelPrefix(names, n, f);
        LabelsDiffer(names, f, n);
      }
    }
  }

  // --- queries ---

  function LineKey(l: LineRow): Key {
    Key(l.ts, l.file, l.no)
  }

  /** The text columns of `line_cont` at an address; the query takes the first. */
  function ContsAt(rows: seq<ContRow>, file: string, no: nat): seq<string> {
    if rows == [] then []
    else (if rows[0].file == file && rows[0].no == no then [rows[0].cont] else []) + ContsAt(rows[1..], file, no)
  }

  function Continuation(t: Tables, line: LineRow): string {
    if line.file == "" then ""
    else
      var found := ContsAt(t.conts, line.file, line.no);
      if found == [] then "" else found[0]
  }

  function RecordText(t: Tables, line: LineRow): string {
    FullText(line.body, Continuation(t, line))
  }

  /** The identifiers stored at an address. */
  function IdsAt(rows: seq<IdRow>, file: string, no: nat): seq<Id> {
    if rows == [] then []
    else (if rows[0].file == file && rows[0].no == no then [rows[0].id] else []) + IdsAt(rows[1..], file, no)
  }

  /** `ORDER BY id_type, id_value` */
  predicate IdLe(a: Id, b: Id) {
    if a.0 == b.0 then StrLe(a.1, b.1) else StrLe(a.0, b.0)
  }

  function InsertId(id: Id, ids: seq<Id>): seq<Id> {
    if ids == [] || IdLe(id, ids[0]) then [id] + ids else [ids[0]] + InsertId(id, ids[1..])
  }

  function SortIds(ids: seq<Id>): seq<Id> {
    if ids == [] then [] else InsertId(ids[0], SortIds(ids[1..]))
  }

  function IdsForLine(t: Tables, line: LineRow): seq<Id> {
    if line.file == "" then [] else SortIds(IdsAt(t.ids, line.file, line.no))
  }

  function Repeat<T>(x: T, n: nat): seq<T> {
    seq(n, _ => x)
  }

  /** `lines JOIN line_ids` on the address, for one identifier: a line once per matching row. */
  function JoinOn(lines: seq<LineRow>, ids: seq<IdRow>, id: Id): seq<LineRow> {
    if lines == [] then []
    else Repeat(lines[0], multiset(IdsAt(ids, lines[0].file, lines[0].no))[id]) + JoinOn(lines[1..], ids, id)
  }

  /** A limit that is None, zero or negative does not limit. */
  function Limited<T>(rows: seq<T>, limit: Option<int>): seq<T> {
    if limit.Some? && 0 < limit.value < |rows| then rows[..limit.value] else rows
  }

  function LinesForId(t: Tables, id: Id, limit: Option<int>): seq<LineRow> {
    Limited(Sort(JoinOn(t.lines, t.ids, id), LineKey), limit)
  }

  /** The self-join of `related_ids`: pairs of rows at one address, one with `id`, one with `other`. */
  function SharedRows(rows: seq<IdRow>, ids: seq<IdRow>, id: Id, other: Id): nat {
    if rows == [] then 0
    else
      (if rows[0].id == id then multiset(IdsAt(ids, rows[0].file, rows[0].no))[other] else 0)
      + SharedRows(rows[1..], ids, id, other)
  }

  /** The identifiers in rows joined with `id`, once per joined pair of rows. */
  function Others(rows: seq<IdRow>, ids: seq<IdRow>, id: Id): seq<Id> {
    if rows == [] then []
    else
      (if rows[0].id == id then Filter(IdsAt(ids, rows[0].file, rows[0].no), x => x != id) else [])
      + Others(rows[1..], ids, id)
  }

  /** GROUP BY: one entry for each identifier of a type, with its count. */
  function Entries(others: seq<Id>, ty: string, count: Id -> nat): seq<(string, nat)> {
    if others == [] then []
    else
      (if others[0].0 == ty && others[0] !in others[1..] then [(others[0].1, count(others[0]))] else [])
      + Entries(others[1..], ty, count)
  }

  /** Most shared records first, then by value. */
  function EntryKey(e: (string, nat)): Key {
    Key(0 - e.1 as int, e.0, 0)
  }

  function First<T>(s: seq<T>, limit: int): seq<T> {
    if limit <= 0 then [] else if limit >= |s| then s else s[..limit]
  }

  /** Per type, the first `limit` entries. */
  function Related(others: seq<Id>, count: Id -> nat, limit: int): map<string, seq<(string, nat)>> {
    map ty | ty in (set x | x in others :: x.0) :: First(Sort(Entries(others, ty, count), EntryKey), limit)
  }

  function RelatedIds(t: Tables, id: Id, limit: int): map<string, seq<(string, nat)>> {
    Related(Others(t.ids, t.ids, id), other => SharedRows(t.ids, t.ids, id, other), limit)
  }

  // --- what stands at an address ---

  lemma {:induction false} IdsAtAppend(a: seq<IdRow>, b: seq<IdRow>, file: string, no: nat)
    ensures IdsAt(a + b, file, no) == IdsAt(a, file, no) + IdsAt(b, file, no)
    decreases |a|
  {
    if a == [] {
      EmptyUnit(b);
    } else {
      assert (a + b)[1..] == a[1..] + b;
      IdsAtAppend(a[1..], b, file, no);
    }
  }

  lemma {:induction false} ContsAtAppend(a: seq<ContRow>, b: seq<ContRow>, file: string, no: nat)
    ensures ContsAt(a + b, file, no) == ContsAt(a, file, no) + ContsAt(b, file, no)
    decreases |a|
  {
    if a == [] {
      EmptyUnit(b);
    } else {
      assert (a + b)[1..] == a[1..] + b;
      ContsAtAppend(a[1..], b, file, no);
    }
  }

  lemma {:induction false} IdRowsAt(file: string, no: nat, ids: seq<Id>, f: string, n: nat)
    ensures IdsAt(IdRows(file, no, ids), f, n) == if f == file && n == no then ids else []
    decreases |ids|
  {
    if ids != [] {
      assert IdRows(file, no, ids)[1..] == IdRows(file, no, ids[1..]);
      IdRowsAt(file, no, ids[1..], f, n);
    }
  }

  /** The text of a record: its body and what is kept of its run. */
  function TextOf(r: Record): string {
    FullText(r.row.body, JoinLines(Kept(r.run, 0, 0)))
  }

  lemma RecordAt(cfg: Config, r: Record, file: string, no: nat)
    ensures var t := RecordTables(cfg, r);
            var here := file == r.row.file && no == r.row.no;
            var cont := JoinLines(Kept(r.run, 0, 0));
            && t.lines == [r.row]
            && t.ids == IdRows(r.row.file, r.row.no, Ids(cfg, TextOf(r)))
            && IdsAt(t.ids, file, no) == (if here then Ids(cfg, TextOf(r)) else [])
            && ContsAt(t.conts, file, no) == (if here && cont != "" then [cont] else [])
  {
    hide Ids, Kept, JoinLines, FullText, Truncated;
    var cont := JoinLines(Kept(r.run, 0, 0));
    IdRowsAt(r.row.file, r.row.no, Ids(cfg, TextOf(r)), file, no);
    EmptyUnit([r.row]);
    EmptyUnit(IdRows(r.row.file, r.row.no, Ids(cfg, TextOf(r))));
    if cont != "" { assert [ContRow(r.row.file, r.row.no, cont, |Kept(r.run, 0, 0)|)][1..] == []; }
  }

  ghost predicate Absent(rs: seq<Record>, file: string, no: nat) {
    forall k :: 0 <= k < |rs| ==> rs[k].row.file != file || rs[k].row.no != no
  }

  lemma AbsentTail(rs: seq<Record>, file: string, no: nat)
    requires Absent(rs, file, no) && rs != []
    ensures Absent(rs[1..], file, no) && (rs[0].row.file != file || rs[0].row.no != no)
  {
  }

  lemma AddressedTail(rs: seq<Record>)
    requires Addressed(rs) && rs != []
    ensures Addressed(rs[1..]) && Absent(rs[1..], rs[0].row.file, rs[0].row.no)
    ensures forall k :: 0 < k < |rs| ==> rs[k].row.file != rs[0].row.file || rs[k].row.no != rs[0].row.no
  {
  }

  lemma TablesCons(cfg: Config, rs: seq<Record>, file: string, no: nat)
    requires rs != []
    ensures var t, a, b := AllRecords(cfg, rs), RecordTables(cfg, rs[0]), AllRecords(cfg, rs[1..]);
            && t.lines == a.lines + b.lines && t.ids == a.ids + b.ids && t.conts == a.conts + b.conts
            && IdsAt(t.ids, file, no) == IdsAt(a.ids, file, no) + IdsAt(b.ids, file, no)
            && ContsAt(t.conts, file, no) == ContsAt(a.conts, file, no) + ContsAt(b.conts, file, no)
  {
    hide RecordTables;
    var a, b := RecordTables(cfg, rs[0]), AllRecords(cfg, rs[1..]);
    IdsAtAppend(a.ids, b.ids, file, no);
    ContsAtAppend(a.conts, b.conts, file, no);
  }

  lemma {:induction false} NothingAt(cfg: Config, rs: seq<Record>, file: string, no: nat)
    requires Absent(rs, file, no)
    ensures var t := AllRecords(cfg, rs); IdsAt(t.ids, file, no) == [] && ContsAt(t.conts, file, no) == []
    decreases |rs|
  {
    if rs != [] {
      hide RecordTables, AllRecords, IdsAt, ContsAt, Ids, Kept, JoinLines, IdRows, Absent;
      AbsentTail(rs, file, no);
      TablesCons(cfg, rs, file, no);
      RecordAt(cfg, rs[0], file, no);
      NothingAt(cfg, rs[1..], file, no);
      EmptyUnit<Id>([]);
      EmptyUnit<string>([]);
    }
  }

  /** At the address of a record stand its identifiers and its continuation, and nothing else. */
  lemma {:induction false} RecordFound(cfg: Config, rs: seq<Record>, k: nat)
    requires Addressed(rs) && k < |rs|
    ensures var t := AllRecords(cfg, rs);
            var row := rs[k].row;
            var cont := JoinLines(Kept(rs[k].run, 0, 0));
            && |t.lines| == |rs| && t.lines[k] == row
            && IdsAt(t.ids, row.file, row.no) == Ids(cfg, TextOf(rs[k]))
            && ContsAt(t.conts, row.file, row.no) == (if cont != "" then [cont] else [])
    decreases |rs|
  {
    hide RecordTables, AllRecords, Ids, Kept, JoinLines, TextOf, Addressed, Absent, IdsAt, ContsAt, IdRows;
    var row := rs[k].row;
    AddressedTail(rs);
    EmptyUnit(Ids(cfg, TextOf(rs[k])));
    EmptyUnit([JoinLines(Kept(rs[k].run, 0, 0))]);
    EmptyUnit<string>([]);
    TablesCons(cfg, rs, row.file, row.no);
    RecordAt(cfg, rs[0], row.file, row.no);
    LinesMatch(cfg, rs[1..]);
    if k == 0 {
      NothingAt(cfg, rs[1..], row.file, row.no);
    } else {
      assert rs[1..][k - 1] == rs[k];
      RecordFound(cfg, rs[1..], k - 1);
    }
  }

  lemma {:induction false} LinesMatch(cfg: Config, rs: seq<Record>)
    ensures |AllRecords(cfg, rs).lines| == |rs|
    decreases |rs|
  {
    hide Closing, Kept, RecordTables;
    if rs != [] {
      hide RecordTables, AllRecords;
      TablesCons(cfg, rs, "", 0);
      RecordAt(cfg, rs[0], "", 0);
      LinesMatch(cfg, rs[1..]);
    } else {
    }
  }

  // --- agreement ---

  /** What the naive scan finds on a line. */
  function Scan(cfg: Config, t: Tables, line: LineRow): seq<Id> {
    Ids(cfg, RecordText(t, line))
  }

  lemma LineScanned(cfg: Config, rs: seq<Record>, k: nat)
    requires Addressed(rs) && k < |rs| && rs[k].row.file != ""
    ensures var t := AllRecords(cfg, rs);
            && |t.lines| == |rs| && t.lines[k] == rs[k].row
            && RecordText(t, rs[k].row) == TextOf(rs[k])
            && IdsAt(t.ids, rs[k].row.file, rs[k].row.no) == Scan(cfg, t, rs[k].row)
  {
    hide AllRecords, Ids, Kept, JoinLines;
    RecordFound(cfg, rs, k);
  }

  ghost predicate Named(rs: seq<Record>) {
    forall k :: 0 <= k < |rs| ==> rs[k].row.file != ""
  }

  lemma IdsDistinct(cfg: Config, text: string, id: Id)
    requires NoRepeats(cfg)
    ensures Distinct(Ids(cfg, text))
    ensures multiset(Ids(cfg, text))[id] == if id in Ids(cfg, text) then 1 else 0
  {
    DistinctOnce(Ids(cfg, text), id);
  }

  predicate Carries(cfg: Config, t: Tables, id: Id, line: LineRow) {
    id in Scan(cfg, t, line)
  }

  lemma {:induction false} JoinIsFilter(cfg: Config, t: Tables, lines: seq<LineRow>, id: Id)
    requires NoRepeats(cfg)
    requires forall k :: 0 <= k < |lines| ==> IdsAt(t.ids, lines[k].file, lines[k].no) == Scan(cfg, t, lines[k])
    ensures JoinOn(lines, t.ids, id) == Filter(lines, l => Carries(cfg, t, id, l))
    decreases |lines|
  {
    if lines != [] {
      hide Ids, RecordText, IdsAt;
      var l := lines[0];
      assert IdsAt(t.ids, l.file, l.no) == Scan(cfg, t, l);
      IdsDistinct(cfg, RecordText(t, l), id);
      JoinIsFilter(cfg, t, lines[1..], id);
      assert Repeat(l, multiset(Scan(cfg, t, l))[id]) == if Carries(cfg, t, id, l) then [l] else [];
    }
  }

  lemma LinesKeyed(cfg: Config, rs: seq<Record>)
    requires Addressed(rs) && Named(rs)
    ensures Keyed(AllRecords(cfg, rs).lines, LineKey)
  {
    hide AllRecords;
    var lines := AllRecords(cfg, rs).lines;
    LinesMatch(cfg, rs);
    forall x, y | x in lines && y in lines && LineKey(x) == LineKey(y) ensures x == y {
      var i :| 0 <= i < |lines| && lines[i] == x;
      var j :| 0 <= j < |lines| && lines[j] == y;
      LineScanned(cfg, rs, i);
      LineScanned(cfg, rs, j);
    }
  }

  /** Index agreement on a list of records with distinct addresses: the index lists, oldest first and
      each once, exactly the lines whose record text carries the identifier. */
  lemma IndexAgrees(cfg: Config, rs: seq<Record>, id: Id)
    requires NoRepeats(cfg) && Addressed(rs) && Named(rs)
    ensures var t := AllRecords(cfg, rs);
            LinesForId(t, id, None) == Filter(Sort(t.lines, LineKey), l => Carries(cfg, t, id, l))
  {
    hide AllRecords, Scan, IdsAt;
    var t := AllRecords(cfg, rs);
    LinesMatch(cfg, rs);
    forall k | 0 <= k < |t.lines| ensures IdsAt(t.ids, t.lines[k].file, t.lines[k].no) == Scan(cfg, t, t.lines[k]) {
      LineScanned(cfg, rs, k);
    }
    JoinIsFilter(cfg, t, t.lines, id);
    LinesKeyed(cfg, rs);
    SortFilter(t.lines, l => Carries(cfg, t, id, l), LineKey);
  }

  /** Lines that carry both identifiers, by the naive scan. */
  function SharedScan(cfg: Config, t: Tables, lines: seq<LineRow>, id: Id, other: Id): nat {
    if lines == [] then 0
    else
      (if Carries(cfg, t, id, lines[0]) && Carries(cfg, t, other, lines[0]) then 1 else 0)
      + SharedScan(cfg, t, lines[1..], id, other)
  }

  lemma {:induction false} SharedAppend(a: seq<IdRow>, b: seq<IdRow>, ids: seq<IdRow>, id: Id, other: Id)
    ensures SharedRows(a + b, ids, id, other) == SharedRows(a, ids, id, other) + SharedRows(b, ids, id, other)
    decreases |a|
  {
    hide IdsAt;
    if a == [] {
      EmptyUnit(b);
    } else {
      assert (a + b)[1..] == a[1..] + b;
      SharedAppend(a[1..], b, ids, id, other);
    }
  }

  lemma OneMore(c: nat, m: nat)
    ensures (c + 1) * m == c * m + m && (c + 0) * m == c * m
  {
  }

  lemma {:induction false} SharedOfRecord(file: string, no: nat, own: seq<Id>, ids: seq<IdRow>, id: Id, other: Id)
    ensures SharedRows(IdRows(file, no, own), ids, id, other)
         == multiset(own)[id] * multiset(IdsAt(ids, file, no))[other]
    decreases |own|
  {
    hide IdsAt;
    if own != [] {
      assert IdRows(file, no, own)[1..] == IdRows(file, no, own[1..]);
      assert own == [own[0]] + own[1..];
      SharedOfRecord(file, no, own[1..], ids, id, other);
      assert multiset(own)[id] == multiset(own[1..])[id] + if own[0] == id then 1 else 0;
      OneMore(multiset(own[1..])[id], multiset(IdsAt(ids, file, no))[other]);
    }
  }

  /** A record shares two identifiers in the join as often as the scan says: once or not at all. */
  lemma OneShared(cfg: Config, t: Tables, r: Record, id: Id, other: Id)
    requires NoRepeats(cfg)
    requires r.row.file != "" && RecordText(t, r.row) == TextOf(r)
    requires IdsAt(t.ids, r.row.file, r.row.no) == Scan(cfg, t, r.row)
    ensures SharedRows(IdRows(r.row.file, r.row.no, Ids(cfg, TextOf(r))), t.ids, id, other)
         == if Carries(cfg, t, id, r.row) && Carries(cfg, t, other, r.row) then 1 else 0
  {
    hide Ids, RecordText, IdsAt, SharedRows, TextOf;
    var own := Ids(cfg, TextOf(r));
    SharedOfRecord(r.row.file, r.row.no, own, t.ids, id, other);
    IdsDistinct(cfg, TextOf(r), id);
    IdsDistinct(cfg, TextOf(r), other);
  }

  lemma {:induction false} SharedFrom(cfg: Config, t: Tables, rs: seq<Record>, id: Id, other: Id)
    requires NoRepeats(cfg)
    requires forall k :: 0 <= k < |rs| ==>
                           && rs[k].row.file != "" && RecordText(t, rs[k].row) == TextOf(rs[k])
                           && IdsAt(t.ids, rs[k].row.file, rs[k].row.no) == Scan(cfg, t, rs[k].row)
    ensures SharedRows(AllRecords(cfg, rs).ids, t.ids, id, other)
         == SharedScan(cfg, t, AllRecords(cfg, rs).lines, id, other)
    decreases |rs|
  {
    hide Ids, RecordText, IdsAt, TextOf, RecordTables, Scan;
    if rs != [] {
      hide AllRecords, Carries;
      var a, b := RecordTables(cfg, rs[0]), AllRecords(cfg, rs[1..]);
      TablesCons(cfg, rs, "", 0);
      RecordAt(cfg, rs[0], "", 0);
      OneShared(cfg, t, rs[0], id, other);
      SharedAppend(a.ids, b.ids, t.ids, id, other);
      assert (a.lines + b.lines)[0] == rs[0].row && (a.lines + b.lines)[1..] == b.lines;
      SharedFrom(cfg, t, rs[1..], id, other);
    }
  }

  /** The counts of `related_ids` are the numbers of records that carry both identifiers. */
  lemma SharedAgrees(cfg: Config, rs: seq<Record>, id: Id, other: Id)
    requires NoRepeats(cfg) && Addressed(rs) && Named(rs)
    ensures var t := AllRecords(cfg, rs);
            SharedRows(t.ids, t.ids, id, other) == SharedScan(cfg, t, t.lines, id, other)
  {
    hide AllRecords, Scan, IdsAt, RecordText, TextOf, SharedRows, SharedScan;
    forall k | 0 <= k < |rs|
      ensures var t := AllRecords(cfg, rs);
              && RecordText(t, rs[k].row) == TextOf(rs[k])
              && IdsAt(t.ids, rs[k].row.file, rs[k].row.no) == Scan(cfg, t, rs[k].row)
    {
      LineScanned(cfg, rs, k);
    }
    SharedFrom(cfg, AllRecords(cfg, rs), rs, id, other);
  }

  // --- the theorems about builds ---

  lemma RecordsNamed(files: seq<InFile>)
    requires LogFiles(files)
    ensures Named(Records(files))
  {
    hide LabelAt, LogName;
    RecordAddresses(files);
    forall k | 0 <= k < |Records(files)| ensures Records(files)[k].row.file != "" {
      var f :| 0 <= f < |files| && Records(files)[k].row.file == LabelAt(Names(files), f);
      LabelNotEmpty(Names(files), f);
    }
  }

  lemma LabelNotEmpty(names: seq<string>, f: nat)
    requires f < |names| && LogName(names[f])
    ensures LabelAt(names, f) != ""
  {
    LastChar(names[f]);
  }

  /** The queries look at the tables only. */
  lemma CountersDoNotMatter(cfg: Config, t: Tables, u: Tables, id: Id)
    requires t.lines == u.lines && t.conts == u.conts && t.ids == u.ids
    ensures LinesForId(t, id, None) == LinesForId(u, id, None)
    ensures forall l :: Carries(cfg, t, id, l) == Carries(cfg, u, id, l)
    ensures forall l :: IdsForLine(t, l) == IdsForLine(u, l) && Scan(cfg, t, l) == Scan(cfg, u, l)
  {
    forall l ensures RecordText(t, l) == RecordText(u, l) {
      assert Continuation(t, l) == Continuation(u, l);
    }
  }

  lemma {:induction false} FilterSame<T(!new)>(s: seq<T>, p: T -> bool, q: T -> bool)
    requires forall x :: p(x) == q(x)
    ensures Filter(s, p) == Filter(s, q)
    decreases |s|
  {
    if s != [] { FilterSame(s[1..], p, q); }
  }

  lemma AllThenLimited(t: Tables, id: Id, limit: Option<int>)
    ensures LinesForId(t, id, limit) == Limited(LinesForId(t, id, None), limit)
  {
    hide Sort, JoinOn;
  }

  /** After any build of log files: the lines listed for an identifier are the sorted lines whose record
      text yields it, each once, and with a limit the first of them. */
  lemma LinesForIdAgrees(cfg: Config, files: seq<InFile>, id: Id, limit: Option<int>)
    requires NoRepeats(cfg) && LogFiles(files)
    ensures var t := Built(cfg, files);
            LinesForId(t, id, limit) ==
            Limited(Filter(Sort(t.lines, LineKey), l => id in Ids(cfg, RecordText(t, l))), limit)
  {
    hide AllRecords, Built, Records, Sort, JoinOn, Ids, RecordText, LogFiles;
    var t, u := Built(cfg, files), AllRecords(cfg, Records(files));
    BuiltFromRecords(cfg, files);
    RecordAddresses(files);
    RecordsNamed(files);
    IndexAgrees(cfg, Records(files), id);
    CountersDoNotMatter(cfg, t, u, id);
    FilterSame(Sort(t.lines, LineKey), l => Carries(cfg, u, id, l), l => id in Ids(cfg, RecordText(t, l)));
    AllThenLimited(t, id, limit);
  }

  /** The identifiers listed for a stored line are those of its record text, sorted. */
  lemma IdsForLineAgrees(cfg: Config, files: seq<InFile>, line: LineRow)
    requires LogFiles(files)
    ensures var t := Built(cfg, files);
            line in t.lines ==> IdsForLine(t, line) == SortIds(Ids(cfg, RecordText(t, line)))
  {
    hide AllRecords, Built, Records, Ids, RecordText, LogFiles, IdsAt, Sort, JoinOn;
    var t, u := Built(cfg, files), AllRecords(cfg, Records(files));
    if line !in t.lines { return; }
    BuiltFromRecords(cfg, files);
    RecordAddresses(files);
    RecordsNamed(files);
    LinesMatch(cfg, Records(files));
    var k :| 0 <= k < |t.lines| && t.lines[k] == line;
    LineScanned(cfg, Records(files), k);
    CountersDoNotMatter(cfg, t, u, ("", ""));
  }

  /** The shared-record counts are those of the naive scan. */
  lemma SharedCountsAgree(cfg: Config, files: seq<InFile>, id: Id, other: Id)
    requires NoRepeats(cfg) && LogFiles(files)
    ensures var t := Built(cfg, files);
            SharedRows(t.ids, t.ids, id, other) == SharedScan(cfg, t, t.lines, id, other)
  {
    hide AllRecords, Built, Records, Ids, RecordText, LogFiles, IdsAt, SharedRows, SharedScan;
    var t, u := Built(cfg, files), AllRecords(cfg, Records(files));
    BuiltFromRecords(cfg, files);
    RecordAddresses(files);
    RecordsNamed(files);
    SharedAgrees(cfg, Records(files), id, other);
    CountersDoNotMatter(cfg, t, u, id);
    CountersDoNotMatter(cfg, t, u, other);
    SharedScanSame(cfg, t, u, t.lines, id, other);
  }

  /** The other identifiers on the lines that carry `id`, by the naive scan. */
  function ScanOthers(cfg: Config, t: Tables, lines: seq<LineRow>, id: Id): seq<Id> {
    if lines == [] then []
    else
      (if Carries(cfg, t, id, lines[0]) then Filter(Scan(cfg, t, lines[0]), x => x != id) else [])
      + ScanOthers(cfg, t, lines[1..], id)
  }

  lemma {:induction false} OthersShare(rows: seq<IdRow>, ids: seq<IdRow>, id: Id, x: Id)
    ensures x in Others(rows, ids, id) <==> x != id && SharedRows(rows, ids, id, x) > 0
    decreases |rows|
  {
    if rows != [] {
      hide IdsAt, Filter;
      var own := IdsAt(ids, rows[0].file, rows[0].no);
      OthersShare(rows[1..], ids, id, x);
      FilterMember(own, y => y != id, x);
      assert x in own <==> multiset(own)[x] > 0;
    }
  }

  lemma {:induction false} ScanOthersShare(cfg: Config, t: Tables, lines: seq<LineRow>, id: Id, x: Id)
    ensures x in ScanOthers(cfg, t, lines, id) <==> x != id && SharedScan(cfg, t, lines, id, x) > 0
    decreases |lines|
  {
    if lines != [] {
      hide Scan, Filter;
      ScanOthersShare(cfg, t, lines[1..], id, x);
      FilterMember(Scan(cfg, t, lines[0]), y => y != id, x);
    }
  }

  /** An identifier of the type stands in the entries once, with its count. */
  lemma {:induction false} EntriesExact(others: seq<Id>, ty: string, count: Id -> nat, e: (string, nat))
    ensures multiset(Entries(others, ty, count))[e] == if (ty, e.0) in others && e.1 == count((ty, e.0)) then 1 else 0
    decreases |others|
  {
    if others != [] {
      EntriesExact(others[1..], ty, count, e);
      assert others == [others[0]] + others[1..];
      assert others[0] == (others[0].0, others[0].1);
    }
  }

  /** The grouped, sorted and cut result depends only on which identifiers there are and on their counts. */
  lemma RelatedForced(a: seq<Id>, b: seq<Id>, f: Id -> nat, g: Id -> nat, limit: int)
    requires forall x :: x in a <==> x in b
    requires forall x :: x in a ==> f(x) == g(x)
    ensures Related(a, f, limit) == Related(b, g, limit)
  {
    hide Sort, Entries, First;
    forall ty ensures Sort(Entries(a, ty, f), EntryKey) == Sort(Entries(b, ty, g), EntryKey) {
      var x, y := Entries(a, ty, f), Entries(b, ty, g);
      forall e ensures multiset(x)[e] == multiset(y)[e] {
        EntriesExact(a, ty, f, e);
        EntriesExact(b, ty, g, e);
      }
      SortSorts(x, EntryKey);
      SortSorts(y, EntryKey);
      SortedUnique(Sort(x, EntryKey), Sort(y, EntryKey), EntryKey);
    }
    assert (set x | x in a :: x.0) == (set x | x in b :: x.0);
  }

  /** After any build, `related_ids` gives per type the other identifiers on the records that carry `id`,
      each with the number of records that carry both, most first, cut to the limit. */
  lemma RelatedIdsAgree(cfg: Config, files: seq<InFile>, id: Id, limit: int)
    requires NoRepeats(cfg) && LogFiles(files)
    ensures var t := Built(cfg, files);
            RelatedIds(t, id, limit) ==
            Related(ScanOthers(cfg, t, t.lines, id), other => SharedScan(cfg, t, t.lines, id, other), limit)
  {
    hide Built, Others, ScanOthers, SharedRows, SharedScan, Related, LogFiles;
    var t := Built(cfg, files);
    var a, b := Others(t.ids, t.ids, id), ScanOthers(cfg, t, t.lines, id);
    forall x ensures (x in a <==> x in b) && SharedRows(t.ids, t.ids, id, x) == SharedScan(cfg, t, t.lines, id, x) {
      OthersShare(t.ids, t.ids, id, x);
      ScanOthersShare(cfg, t, t.lines, id, x);
      SharedCountsAgree(cfg, files, id, x);
    }
    RelatedForced(a, b, other => SharedRows(t.ids, t.ids, id, other), other => SharedScan(cfg, t, t.lines, id, other),
                  limit);
  }

  lemma {:induction false} SharedScanSame(cfg: Config, t: Tables, u: Tables, lines: seq<LineRow>, id: Id, other: Id)
    requires forall l :: Carries(cfg, t, id, l) == Carries(cfg, u, id, l)
    requires forall l :: Carries(cfg, t, other, l) == Carries(cfg, u, other, l)
    ensures SharedScan(cfg, t, lines, id, other) == SharedScan(cfg, u, lines, id, other)
    decreases |lines|
  {
    hide Carries;
    if lines != [] { SharedScanSame(cfg, t, u, lines[1..], id, other); }
  }

  /** After any build of log files the address is a key, so the order of the queries is strict and every
      page of the lazy sequence is a page of one sorted list. */
  lemma LazySequenceIsSortedList(cfg: Config, files: seq<InFile>, ordered: seq<LineRow>)
    requires LogFiles(files)
    requires LineSequence.Ordering(ordered, Built(cfg, files).lines, LineKey)
    ensures ordered == Sort(Built(cfg, files).lines, LineKey) && |ordered| == Built(cfg, files).counts.total
  {
    hide AllRecords, Built, Records, LogFiles, Sort;
    var t := Built(cfg, files);
    BuiltFromRecords(cfg, files);
    RecordAddresses(files);
    RecordsNamed(files);
    LinesKeyed(cfg, Records(files));
    LineSequence.QueriesAgree(ordered, t.lines, LineKey);
    TotalIsLines(cfg, files);
  }

  lemma OneRow(cfg: Config, r: Record)
    ensures RecordTables(cfg, r).counts.total == |RecordTables(cfg, r).lines| == 1
  {
    hide Ids, Kept, JoinLines, Truncated;
  }

  lemma {:induction false} RecordsTotal(cfg: Config, rs: seq<Record>)
    ensures AllRecords(cfg, rs).counts.total == |AllRecords(cfg, rs).lines|
    decreases |rs|
  {
    hide Closing, RecordTables;
    if rs != [] {
      OneRow(cfg, rs[0]);
      RecordsTotal(cfg, rs[1..]);
    }
  }

  lemma OneFileTotal(cfg: Config, phys: seq<Physical>, file: string, comp: string)
    ensures FileTables(cfg, phys, file, comp).counts.total == |FileTables(cfg, phys, file, comp).lines|
  {
    hide AllRecords, Group, RunOf, BadStamps;
    RecordsTotal(cfg, Group(phys, 1, file, comp));
  }

  lemma {:induction false} TotalIsLines(cfg: Config, files: seq<InFile>)
    ensures Built(cfg, files).counts.total == |Built(cfg, files).lines|
    decreases |files|
  {
    hide FileTables, LabelAt, Built, Names;
    if files == [] {
      BuiltNothing(cfg);
    } else {
      var n := |files| - 1;
      assert files[..n + 1] == files;
      BuiltNext(cfg, files, n);
      TotalIsLines(cfg, files[..n]);
      OneFileTotal(cfg, files[n].phys, LabelAt(Names(files), n), files[n].comp);
    }
  }
}
