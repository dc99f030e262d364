/** Record assembly: the ingestor that streams physical lines into records, continuation text and
    identifier rows, and the grouping it refines. */
module LogStore {
  import opened Text
  import opened IdExtract

  /** A physical line as the line regex and the time stamp parser see it. */
  datatype Physical =
    | Unmatched(stripped: string)
    | BadStamp
    | Stamped(ts: int, head: seq<string>, body: string)

  datatype LineRow = LineRow(ts: int, head: seq<string>, body: string, component: string, file: string, no: nat)
  datatype ContRow = ContRow(file: string, no: nat, cont: string, lines: nat)
  datatype IdRow = IdRow(file: string, no: nat, id: Id)

  datatype Counts = Counts(
    total: nat, withCont: nat, attached: nat, truncated: nat, orphans: nat, skipped: nat, edges: nat, idTruncated: nat)

  const ZERO := Counts(0, 0, 0, 0, 0, 0, 0, 0)

  /** The three tables and the counters. */
  datatype Tables = Tables(lines: seq<LineRow>, conts: seq<ContRow>, ids: seq<IdRow>, counts: Counts)

  const EMPTY := Tables([], [], [], ZERO)

  function AddCounts(a: Counts, b: Counts): Counts {
    Counts(a.total + b.total, a.withCont + b.withCont, a.attached + b.attached, a.truncated + b.truncated,
           a.orphans + b.orphans, a.skipped + b.skipped, a.edges + b.edges, a.idTruncated + b.idTruncated)
  }

  function Plus(a: Tables, b: Tables): Tables {
    Tables(a.lines + b.lines, a.conts + b.conts, a.ids + b.ids, AddCounts(a.counts, b.counts))
  }

  lemma PlusAssoc(a: Tables, b: Tables, c: Tables)
    ensures Plus(Plus(a, b), c) == Plus(a, Plus(b, c))
  {
    Assoc(a.lines, b.lines, c.lines);
    Assoc(a.conts, b.conts, c.conts);
    Assoc(a.ids, b.ids, c.ids);
  }

  lemma PlusEmpty(a: Tables)
    ensures Plus(a, EMPTY) == a && Plus(EMPTY, a) == a
  {
    EmptyUnit(a.lines);
    EmptyUnit(a.conts);
    EmptyUnit(a.ids);
  }

  // --- settings ---

  datatype Config = Config(indexIds: bool, extract: string -> seq<Id>)

  /** All that the index relies on in an extractor: it lists nothing twice. */
  ghost predicate NoRepeats(cfg: Config) {
    forall text :: Distinct(cfg.extract(text))
  }

  /** The settings of a build: `extract_ids` over a catalogue with the selected specs. */
  function Settings(indexIds: bool, catalogue: seq<Spec>, single: seq<Spec>, multi: seq<Spec>): (cfg: Config)
    ensures NoRepeats(cfg)
  {
    SettingsDistinct(indexIds, catalogue, single, multi);
    Config(indexIds, (text: string) => Extract(catalogue, single, multi, text))
  }

  lemma SettingsDistinct(indexIds: bool, catalogue: seq<Spec>, single: seq<Spec>, multi: seq<Spec>)
    ensures NoRepeats(Config(indexIds, (text: string) => Extract(catalogue, single, multi, text)))
  {
    hide Extract, Distinct;
    forall text ensures Distinct(Extract(catalogue, single, multi, text)) {
      ExtractedIds(catalogue, single, multi, text);
    }
  }

  function Ids(cfg: Config, text: string): seq<Id> {
    if cfg.indexIds then cfg.extract(text) else []
  }

  const MAX_CONT_LINES := 4_000
  const MAX_CONT_CHARS := 400_000
  const BATCH := 20_000

  // --- closing a record ---

  function JoinLines(ls: seq<string>): string {
    if ls == [] then "" else ls[0] + LaterLines(ls[1..])
  }

  /** Each line after a line break. */
  function LaterLines(ls: seq<string>): string {
    if ls == [] then "" else "\n" + ls[0] + LaterLines(ls[1..])
  }

  function FullText(body: string, cont: string): string {
    if cont != "" then body + "\n" + cont else body
  }

  function IdRows(file: string, no: nat, ids: seq<Id>): seq<IdRow> {
    seq(|ids|, k requires 0 <= k < |ids| => IdRow(file, no, ids[k]))
  }

  /** What closing a record adds to the tables. */
  function Closing(cfg: Config, file: string, no: nat, body: string, kept: seq<string>, dropped: bool): Tables {
    var cont := JoinLines(kept);
    var ids := Ids(cfg, FullText(body, cont));
    Tables([],
           if cont != "" then [ContRow(file, no, cont, |kept|)] else [],
           IdRows(file, no, ids),
           Counts(0, if cont != "" then 1 else 0, if cont != "" then |kept| else 0,
                  if cont != "" && dropped then 1 else 0, 0, 0, |ids|, if Truncated(ids) then 1 else 0))
  }

  /** The record open for continuation lines, if any. */
  datatype Open = Nothing | Open(file: string, no: nat, body: string, cont: seq<string>, chars: nat, dropped: bool)

  function CloseOpen(cfg: Config, open: Open): Tables {
    match open
    case Nothing => EMPTY
    case Open(file, no, body, cont, _, dropped) => Closing(cfg, file, no, body, cont, dropped)
  }

  predicate Room(lines: nat, chars: nat) {
    lines < MAX_CONT_LINES && chars < MAX_CONT_CHARS
  }

  function Attach(open: Open, s: string): Open
    requires open.Open?
  {
    if Room(|open.cont|, open.chars) then open.(cont := open.cont + [s], chars := open.chars + |s| + 1)
    else open.(dropped := true)
  }

  // --- the stream, one line at a time ---

  const SKIP := Tables([], [], [], ZERO.(skipped := 1))
  const ORPHAN := Tables([], [], [], ZERO.(skipped := 1, orphans := 1))

  function RowTables(row: LineRow): Tables {
    Tables([row], [], [], ZERO.(total := 1))
  }

  /** What the lines from physical line `at` on add to the tables, with `open` the record open there. */
  function Stream(cfg: Config, open: Open, phys: seq<Physical>, at: nat, file: string, comp: string): Tables
    decreases |phys|
  {
    if phys == [] then CloseOpen(cfg, open)
    else
      match phys[0]
      case Unmatched(s) =>
        if s == "" then Stream(cfg, open, phys[1..], at + 1, file, comp)
        else if open.Nothing? then Plus(ORPHAN, Stream(cfg, open, phys[1..], at + 1, file, comp))
        else Stream(cfg, Attach(open, s), phys[1..], at + 1, file, comp)
      case BadStamp => Plus(SKIP, Stream(cfg, open, phys[1..], at + 1, file, comp))
      case Stamped(ts, head, body) =>
        Plus(CloseOpen(cfg, open),
             Plus(RowTables(LineRow(ts, head, body, comp, file, at)),
                  Stream(cfg, Open(file, at, body, [], 0, false), phys[1..], at + 1, file, comp)))
  }

  // --- the ingestor ---

  class Store {
    var lines: seq<LineRow>
    var conts: seq<ContRow>
    var ids: seq<IdRow>
    var counts: Counts

    constructor ()
      ensures Tables(lines, conts, ids, counts) == EMPTY
    {
      lines, conts, ids, counts := [], [], [], ZERO;
    }
  }

  class Ingestor {
    const store: Store
    const cfg: Config
    var batch: seq<LineRow>
    var contBatch: seq<ContRow>
    var idBatch: seq<IdRow>
    var owner: Option<(string, nat)>
    var ownerBody: string
    var cont: seq<string>
    var contChars: nat
    var contDropped: bool

    constructor (store: Store, cfg: Config)
      ensures this.store == store && this.cfg == cfg && OpenNow() == Nothing
      ensures Now() == Tables(store.lines, store.conts, store.ids, store.counts)
    {
      this.store, this.cfg := store, cfg;
      batch, contBatch, idBatch := [], [], [];
      owner, ownerBody, cont, contChars, contDropped := None, "", [], 0, false;
      new;
      EmptyUnit(store.lines);
      EmptyUnit(store.conts);
      EmptyUnit(store.ids);
    }

    /** The tables as they will be once the batches are written. */
    ghost function Now(): Tables
      reads this, store
    {
      Tables(store.lines + batch, store.conts + contBatch, store.ids + idBatch, store.counts)
    }

    ghost function OpenNow(): Open
      reads this
    {
      if owner.None? then Nothing else Open(owner.value.0, owner.value.1, ownerBody, cont, contChars, contDropped)
    }

    method Flush()
      modifies this`batch, this`contBatch, this`idBatch, store
      ensures Now() == old(Now()) && batch == [] && contBatch == [] && idBatch == []
    {
      store.lines, batch := store.lines + batch, [];
      store.conts, contBatch := store.conts + contBatch, [];
      store.ids, idBatch := store.ids + idBatch, [];
      EmptyUnit(store.lines);
      EmptyUnit(store.conts);
      EmptyUnit(store.ids);
    }

    method IndexRecord(src: string, ln: nat, text: string) returns (ids: seq<Id>)
      modifies this`idBatch, store`counts
      ensures ids == Ids(cfg, text)
      ensures idBatch == old(idBatch) + IdRows(src, ln, ids)
      ensures store.counts == old(store.counts).(
                              edges := old(store.counts.edges) + |ids|,
                              idTruncated := old(store.counts.idTruncated)
                              + if |ids| >= CAP && Truncated(ids) then 1 else 0)
    {
      hide Truncated;
      ids := [];
      if cfg.indexIds {
        ids := cfg.extract(text);
        idBatch := idBatch + IdRows(src, ln, ids);
        store.counts := store.counts.(edges := store.counts.edges + |ids|);
        if |ids| >= CAP && Truncated(ids) {
          store.counts := store.counts.(idTruncated := store.counts.idTruncated + 1);
        }
      }
    }

    method CloseRecord()
      modifies this, store
      ensures Now() == Plus(old(Now()), CloseOpen(cfg, old(OpenNow())))
      ensures OpenNow() == Nothing && batch == old(batch) && store.lines == old(store.lines)
    {
      hide Truncated, Plus, Closing, JoinLines, FullText, IdRows, Ids;
      ghost var was := Now();
      if owner.Some? {
        var (src, ln) := owner.value;
        var text := JoinLines(cont);
        var rows := if text != "" then [ContRow(src, ln, text, |cont|)] else [];
        if text != "" {
          contBatch := contBatch + rows;
          store.counts := store.counts.(withCont := store.counts.withCont + 1,
          attached := store.counts.attached + |cont|);
          if contDropped {
            store.counts := store.counts.(truncated := store.counts.truncated + 1);
          }
        }
        var ids := IndexRecord(src, ln, FullText(ownerBody, text));
        Assoc(store.conts, old(contBatch), rows);
        Assoc(store.ids, old(idBatch), IdRows(src, ln, ids));
        ClosingAdds(was, Now(), cfg, src, ln, ownerBody, cont, contDropped);
      } else {
        PlusEmpty(was);
      }
      owner, ownerBody, cont, contChars, contDropped := None, "", [], 0, false;
    }

    /** Stores the row of a stamped line and opens its record; a full batch is written. */
    method OpenRecord(row: LineRow)
      requires OpenNow() == Nothing
      modifies this, store
      ensures Now() == Plus(old(Now()), RowTables(row))
      ensures OpenNow() == Open(row.file, row.no, row.body, [], 0, false)
    {
      hide Plus, RowTables;
      ghost var was := Now();
      Assoc(store.lines, batch, [row]);
      batch := batch + [row];
      owner, ownerBody := Some((row.file, row.no)), row.body;
      cont, contChars, contDropped := [], 0, false;
      store.counts := store.counts.(total := store.counts.total + 1);
      Rowed(was, Now(), row);
      if |batch| >= BATCH {
        Flush();
      }
    }

    /** Streams one file. What it adds is `Stream`, from whatever record was open at entry; nothing is
        open or unwritten at the end. */
    method Feed(phys: seq<Physical>, file: string, comp: string)
      modifies this, store
      ensures Now() == Plus(old(Now()), Stream(cfg, old(OpenNow()), phys, 1, file, comp))
      ensures OpenNow() == Nothing && batch == [] && contBatch == [] && idBatch == []
    {
      hide Plus, CloseOpen, AddCounts, RowTables;
      ghost var goal := Plus(Now(), Stream(cfg, OpenNow(), phys, 1, file, comp));
      assert phys[0..] == phys;
      for i := 0 to |phys|
        invariant Plus(Now(), Stream(cfg, OpenNow(), phys[i..], i + 1, file, comp)) == goal
      {
        assert phys[i..][0] == phys[i] && phys[i..][1..] == phys[i + 1..];
        ghost var was, before := Now(), OpenNow();
        match phys[i] {
          case Unmatched(stripped) =>
            if stripped == "" {
              continue;
            }
            if owner.Some? {
              if |cont| < MAX_CONT_LINES && contChars < MAX_CONT_CHARS {
                cont := cont + [stripped];
                contChars := contChars + |stripped| + 1;
              } else {
                contDropped := true;
              }
              continue;
            }
            store.counts := store.counts.(orphans := store.counts.orphans + 1, skipped := store.counts.skipped + 1);
            Skipped(was, Now(), 1);
            PlusAssoc(was, ORPHAN, Stream(cfg, before, phys[i + 1..], i + 2, file, comp));
          case BadStamp =>
            store.counts := store.counts.(skipped := store.counts.skipped + 1);
            Skipped(was, Now(), 0);
            PlusAssoc(was, SKIP, Stream(cfg, before, phys[i + 1..], i + 2, file, comp));
          case Stamped(ts, head, body) =>
            CloseRecord();
            ghost var closed := Now();
            var row := LineRow(ts, head, body, comp, file, i + 1);
            OpenRecord(row);
            ghost var rest := Stream(cfg, OpenNow(), phys[i + 1..], i + 2, file, comp);
            PlusAssoc(closed, RowTables(row), rest);
            PlusAssoc(was, CloseOpen(cfg, before), Plus(RowTables(row), rest));
        }
      }
      assert phys[|phys|..] == [];
      CloseRecord();
      Flush();
    }
  }

  lemma ClosingAdds(was: Tables, now: Tables, cfg: Config, file: string, no: nat, body: string, kept: seq<string>,
                    dropped: bool)
    requires var cont := JoinLines(kept);
             var ids := Ids(cfg, FullText(body, cont));
             && now.lines == was.lines
             && now.conts == (if cont != "" then was.conts + [ContRow(file, no, cont, |kept|)] else was.conts)
             && now.ids == was.ids + IdRows(file, no, ids)
             && now.counts == was.counts.(
                              withCont := was.counts.withCont + if cont != "" then 1 else 0,
                              attached := was.counts.attached + if cont != "" then |kept| else 0,
                              truncated := was.counts.truncated + if cont != "" && dropped then 1 else 0,
                              edges := was.counts.edges + |ids|,
                              idTruncated := was.counts.idTruncated + if |ids| >= CAP && Truncated(ids) then 1 else 0)
    ensures now == Plus(was, Closing(cfg, file, no, body, kept, dropped))
  {
    hide Ids, Truncated, JoinLines, FullText;
    EmptyUnit(was.lines);
    EmptyUnit(was.conts);
    EmptyUnit(was.ids);
    var ids := Ids(cfg, FullText(body, JoinLines(kept)));
    NotTruncated(ids);
  }

  lemma NotTruncated(ids: seq<Id>)
    ensures Truncated(ids) ==> |ids| >= CAP
  {
  }

  lemma Skipped(was: Tables, now: Tables, orphans: nat)
    requires now == was.(counts := was.counts.(orphans := was.counts.orphans + orphans,
                    skipped := was.counts.skipped + 1))
    ensures orphans == 0 ==> now == Plus(was, SKIP)
    ensures orphans == 1 ==> now == Plus(was, ORPHAN)
  {
    EmptyUnit(was.lines);
    EmptyUnit(was.conts);
    EmptyUnit(was.ids);
  }

  lemma Rowed(was: Tables, now: Tables, row: LineRow)
    requires now == was.(lines := was.lines + [row], counts := was.counts.(total := was.counts.total + 1))
    ensures now == Plus(was, RowTables(row))
  {
    EmptyUnit(was.conts);
    EmptyUnit(was.ids);
  }

  // --- the grouping the stream refines ---

  /** A stamped line and the run of non-blank lines without a stamp before the next stamped one. */
  datatype Record = Record(row: LineRow, run: seq<string>)

  function RunOf(phys: seq<Physical>): seq<string> {
    if phys == [] || phys[0].Stamped? then []
    else (if phys[0].Unmatched? && phys[0].stripped != "" then [phys[0].stripped] else []) + RunOf(phys[1..])
  }

  function Group(phys: seq<Physical>, at: nat, file: string, comp: string): seq<Record> {
    if phys == [] then []
    else
      (match phys[0]
       case Stamped(ts, head, body) => [Record(LineRow(ts, head, body, comp, file, at), RunOf(phys[1..]))]
       case _ => [])
      + Group(phys[1..], at + 1, file, comp)
  }

  /** The part of a run that the caps let in: a prefix. */
  function Kept(run: seq<string>, lines: nat, chars: nat): (r: seq<string>)
    ensures r <= run
  {
    if run == [] || !Room(lines, chars) then [] else [run[0]] + Kept(run[1..], lines + 1, chars + |run[0]| + 1)
  }

  function Dropped(run: seq<string>): nat {
    |run| - |Kept(run, 0, 0)|
  }

  function RecordTables(cfg: Config, r: Record): Tables {
    Plus(RowTables(r.row),
         Closing(cfg, r.row.file, r.row.no, r.row.body, Kept(r.run, 0, 0), Kept(r.run, 0, 0) != r.run))
  }

  function AllRecords(cfg: Config, rs: seq<Record>): Tables {
    if rs == [] then EMPTY else Plus(RecordTables(cfg, rs[0]), AllRecords(cfg, rs[1..]))
  }

  function BadStamps(phys: seq<Physical>): nat {
    if phys == [] then 0 else (if phys[0].BadStamp? then 1 else 0) + BadStamps(phys[1..])
  }

  /** What a file adds: its records, and counts for the lines before the first record and for bad
      stamps. */
  function FileTables(cfg: Config, phys: seq<Physical>, file: string, comp: string): Tables {
    Plus(AllRecords(cfg, Group(phys, 1, file, comp)), Skips(|RunOf(phys)|, BadStamps(phys)))
  }

  function Skips(orphans: nat, bad: nat): Tables {
    Tables([], [], [], ZERO.(orphans := orphans, skipped := orphans + bad))
  }

  /** The open record once its whole run has been read. */
  function Finished(open: Open, run: seq<string>): Open {
    match open
    case Nothing => Nothing
    case Open(file, no, body, cont, chars, dropped) =>
      var more := Kept(run, |cont|, chars);
      Open(file, no, body, cont + more, chars, dropped || |more| < |run|)
  }

  lemma AttachFinishes(cfg: Config, open: Open, s: string, run: seq<string>)
    requires open.Open? && (open.dropped ==> !Room(|open.cont|, open.chars))
    ensures CloseOpen(cfg, Finished(open, [s] + run)) == CloseOpen(cfg, Finished(Attach(open, s), run))
  {
    hide Closing;
    assert ([s] + run)[1..] == run;
    var more := Kept([s] + run, |open.cont|, open.chars);
    if Room(|open.cont|, open.chars) {
      Assoc(open.cont, [s], Kept(run, |open.cont| + 1, open.chars + |s| + 1));
    } else {
      assert Kept(run, |open.cont|, open.chars) == [];
    }
  }

  /** Counters can be taken out of a sum of tables. */
  lemma SkipsMove(a: Tables, b: Tables, orphans: nat, bad: nat, o: nat, k: nat)
    ensures Plus(Skips(o, k), Plus(a, Plus(b, Skips(orphans, bad)))) == Plus(a, Plus(b, Skips(orphans + o, bad + k)))
  {
  }

  /** Streaming refines grouping, whatever record is open at the start. */
  lemma {:induction false} StreamGroups(cfg: Config, open: Open, phys: seq<Physical>, at: nat, file: string,
                                        comp: string)
    requires open.Open? && open.dropped ==> !Room(|open.cont|, open.chars)
    ensures Stream(cfg, open, phys, at, file, comp) ==
            Plus(CloseOpen(cfg, Finished(open, RunOf(phys))),
                 Plus(AllRecords(cfg, Group(phys, at, file, comp)),
                      Skips(if open.Nothing? then |RunOf(phys)| else 0, BadStamps(phys))))
    decreases |phys|
  {
    hide Plus, CloseOpen, Finished, Attach, Closing, Kept, RecordTables, AddCounts;
    if phys == [] {
      NothingMore(cfg, open);
    } else {
      var rest := phys[1..];
      var rs := AllRecords(cfg, Group(rest, at + 1, file, comp));
      var run := RunOf(rest);
      var bad := BadStamps(rest);
      match phys[0]
      case Unmatched(s) =>
        EmptyUnit(Group(rest, at + 1, file, comp));
        EmptyUnit(run);
        if s == "" {
          StreamGroups(cfg, open, rest, at + 1, file, comp);
        } else if open.Nothing? {
          StreamGroups(cfg, open, rest, at + 1, file, comp);
          OrphanIsSkip();
          NothingFinished(cfg, run, phys);
          SkipsMove(EMPTY, rs, |run|, bad, 1, 0);
        } else {
          AttachKeeps(open, s);
          StreamGroups(cfg, Attach(open, s), rest, at + 1, file, comp);
          AttachFinishes(cfg, open, s, run);
        }
      case BadStamp =>
        EmptyUnit(Group(rest, at + 1, file, comp));
        EmptyUnit(run);
        StreamGroups(cfg, open, rest, at + 1, file, comp);
        SkipsMove(CloseOpen(cfg, Finished(open, run)), rs, if open.Nothing? then |run| else 0, bad, 0, 1);
        OrphanIsSkip();
      case Stamped(ts, head, body) =>
        var row := LineRow(ts, head, body, comp, file, at);
        var next := Open(file, at, body, [], 0, false);
        StreamGroups(cfg, next, rest, at + 1, file, comp);
        NewRecord(cfg, row, run);
        FinishedNow(cfg, open);
        var closed := CloseOpen(cfg, Finished(next, run));
        PlusAssoc(RowTables(row), closed, Plus(rs, Skips(0, bad)));
        PlusAssoc(RecordTables(cfg, Record(row, run)), rs, Skips(0, bad));
        assert Group(phys, at, file, comp)[1..] == Group(rest, at + 1, file, comp);
    }
  }

  lemma NothingMore(cfg: Config, open: Open)
    ensures CloseOpen(cfg, open) == Plus(CloseOpen(cfg, Finished(open, [])), Plus(EMPTY, Skips(0, 0)))
  {
    hide Plus, Closing;
    FinishedNow(cfg, open);
    assert Skips(0, 0) == EMPTY;
    PlusEmpty(EMPTY);
    PlusEmpty(CloseOpen(cfg, open));
  }

  lemma FinishedNow(cfg: Config, open: Open)
    ensures CloseOpen(cfg, Finished(open, [])) == CloseOpen(cfg, open)
  {
    if open.Open? { EmptyUnit(open.cont); }
  }

  lemma NothingFinished(cfg: Config, run: seq<string>, phys: seq<Physical>)
    ensures CloseOpen(cfg, Finished(Nothing, run)) == EMPTY && CloseOpen(cfg, Finished(Nothing, RunOf(phys))) == EMPTY
  {
  }

  lemma OrphanIsSkip()
    ensures ORPHAN == Skips(1, 0) && SKIP == Skips(0, 1)
  {
  }

  lemma AttachKeeps(open: Open, s: string)
    requires open.Open? && (open.dropped ==> !Room(|open.cont|, open.chars))
    ensures var next := Attach(open, s); next.Open? && (next.dropped ==> !Room(|next.cont|, next.chars))
  {
  }

  lemma NewRecord(cfg: Config, row: LineRow, run: seq<string>)
    ensures Plus(RowTables(row), CloseOpen(cfg, Finished(Open(row.file, row.no, row.body, [], 0, false), run)))
         == RecordTables(cfg, Record(row, run))
  {
    hide Closing, Plus;
    EmptyUnit(Kept(run, 0, 0));
  }

  /** With no record open at entry, feeding a file adds exactly the file's own groups: files do not run
      into each other. */
  lemma FilesAreIsolated(cfg: Config, phys: seq<Physical>, file: string, comp: string)
    ensures Stream(cfg, Nothing, phys, 1, file, comp) == FileTables(cfg, phys, file, comp)
  {
    hide Plus;
    StreamGroups(cfg, Nothing, phys, 1, file, comp);
    NothingFinished(cfg, RunOf(phys), phys);
    PlusEmpty(Plus(AllRecords(cfg, Group(phys, 1, file, comp)), Skips(|RunOf(phys)|, BadStamps(phys))));
  }

  // --- accounting ---

  function NonBlank(phys: seq<Physical>): nat {
    if phys == [] then 0 else (if phys[0] == Unmatched("") then 0 else 1) + NonBlank(phys[1..])
  }

  function AllDropped(rs: seq<Record>): nat {
    if rs == [] then 0 else Dropped(rs[0].run) + AllDropped(rs[1..])
  }

  /** The records of which the caps dropped something. */
  function Capped(rs: seq<Record>): nat {
    if rs == [] then 0 else (if Dropped(rs[0].run) > 0 then 1 else 0) + Capped(rs[1..])
  }

  lemma {:induction false} KeptJoins(ls: seq<string>)
    requires ls != [] && ls[0] != ""
    ensures JoinLines(ls) != ""
  {
  }

  lemma {:induction false} RunNonEmpty(phys: seq<Physical>, k: nat)
    requires k < |RunOf(phys)|
    ensures RunOf(phys)[k] != ""
    decreases |phys|
  {
    var first := if phys[0].Unmatched? && phys[0].stripped != "" then 1 else 0;
    if k >= first { RunNonEmpty(phys[1..], k - first); }
  }

  /** Every non-blank physical line is counted once: as a record, as attached to one, as dropped by the
      caps, or as skipped. As many records are flagged as the caps dropped something from. */
  lemma {:induction false} EveryLineCounted(cfg: Config, phys: seq<Physical>, at: nat, file: string, comp: string)
    ensures Balanced(cfg, phys, at, file, comp)
    decreases |phys|
  {
    hide Balanced;
    if phys == [] {
      NothingCounted(cfg, at, file, comp);
    } else {
      EveryLineCounted(cfg, phys[1..], at + 1, file, comp);
      FirstCounted(cfg, phys, at, file, comp);
    }
  }

  ghost predicate Balanced(cfg: Config, phys: seq<Physical>, at: nat, file: string, comp: string) {
    var rs := Group(phys, at, file, comp);
    var c := AllRecords(cfg, rs).counts;
    && NonBlank(phys) == |RunOf(phys)| + BadStamps(phys) + c.total + c.attached + AllDropped(rs)
    && c.truncated == Capped(rs)
  }

  lemma FirstCounted(cfg: Config, phys: seq<Physical>, at: nat, file: string, comp: string)
    requires phys != [] && Balanced(cfg, phys[1..], at + 1, file, comp)
    ensures Balanced(cfg, phys, at, file, comp)
  {
    hide NonBlank, RunOf, BadStamps, Group, AllRecords, RecordTables, Dropped, AllDropped, Capped, Kept;
    var rest := phys[1..];
    FirstLine(phys, at, file, comp);
    if phys[0].Stamped? {
      var r := Record(LineRow(phys[0].ts, phys[0].head, phys[0].body, comp, file, at), RunOf(rest));
      AttachedCount(cfg, r, rest);
      RecordsCount(cfg, r, Group(rest, at + 1, file, comp), Group(phys, at, file, comp));
    }
  }

  lemma NothingCounted(cfg: Config, at: nat, file: string, comp: string)
    ensures Balanced(cfg, [], at, file, comp)
  {
  }

  lemma FirstLine(phys: seq<Physical>, at: nat, file: string, comp: string)
    requires phys != []
    ensures var rest := phys[1..];
            var rs := Group(rest, at + 1, file, comp);
            match phys[0]
            case Stamped(ts, head, body) =>
              && Group(phys, at, file, comp) == [Record(LineRow(ts, head, body, comp, file, at), RunOf(rest))] + rs
              && NonBlank(phys) == 1 + NonBlank(rest) && RunOf(phys) == [] && BadStamps(phys) == BadStamps(rest)
            case _ =>
              && Group(phys, at, file, comp) == rs
              && NonBlank(phys) - |RunOf(phys)| - BadStamps(phys) == NonBlank(rest) - |RunOf(rest)| - BadStamps(rest)
  {
    EmptyUnit(Group(phys[1..], at + 1, file, comp));
  }

  lemma RecordsCount(cfg: Config, r: Record, rs: seq<Record>, all: seq<Record>)
    requires all == [r] + rs
    ensures var a, b, c := AllRecords(cfg, all).counts, RecordTables(cfg, r).counts, AllRecords(cfg, rs).counts;
            a.total == b.total + c.total && a.attached == b.attached + c.attached
            && a.truncated == b.truncated + c.truncated
    ensures AllDropped(all) == Dropped(r.run) + AllDropped(rs)
    ensures Capped(all) == (if Dropped(r.run) > 0 then 1 else 0) + Capped(rs)
  {
    assert all[1..] == rs;
  }

  lemma AttachedCount(cfg: Config, r: Record, rest: seq<Physical>)
    requires r.run == RunOf(rest)
    ensures var c := RecordTables(cfg, r).counts;
            c.total == 1 && c.attached + Dropped(r.run) == |r.run| && c.truncated == if Dropped(r.run) > 0 then 1 else 0
  {
    hide Ids, Truncated;
    var kept := Kept(r.run, 0, 0);
    if r.run != [] {
      RunNonEmpty(rest, 0);
      assert kept[0] == r.run[0];
      KeptJoins(kept);
    }
  }

  lemma AccountsAddUp(cfg: Config, phys: seq<Physical>, file: string, comp: string)
    ensures var c := FileTables(cfg, phys, file, comp).counts;
            NonBlank(phys) == c.total + c.attached + AllDropped(Group(phys, 1, file, comp)) + c.skipped
    ensures FileTables(cfg, phys, file, comp).counts.orphans == |RunOf(phys)|
    ensures FileTables(cfg, phys, file, comp).counts.truncated == Capped(Group(phys, 1, file, comp))
  {
    hide AllRecords, Group, AllDropped, Capped, RunOf, NonBlank, BadStamps;
    EveryLineCounted(cfg, phys, 1, file, comp);
    NoOrphans(cfg, Group(phys, 1, file, comp));
  }

  lemma {:induction false} NoOrphans(cfg: Config, rs: seq<Record>)
    ensures var c := AllRecords(cfg, rs).counts; c.orphans == 0 && c.skipped == 0
    decreases |rs|
  {
    if rs != [] { NoOrphans(cfg, rs[1..]); }
  }
}
