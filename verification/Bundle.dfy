/** Concurrent extraction of nested archives: workers share a byte counter, a file list and a skip list.
    The increment is locked, the limit check that follows it is not, and the write comes later still. */
module Bundle {
  import opened Text

  datatype Limits = Limits(total: nat, member: nat, members: nat, ratio: nat, depth: nat)

  /** What a file holds: something that is no zip, or members. */
  datatype Archive = NotZip | Zip(members: seq<Member>)

  /** A member: its header, the chunks its stream really gives, and what they are as a file. `unsafe` is
      the reason `_safe_target` gives for rejecting the name. Names are normalised. */
  datatype Member = Member(
    name: string, symlink: bool, unsafe: Option<string>, declared: nat, compressed: nat, isDir: bool,
    chunks: seq<nat>, content: Archive)

  /** One atomic step of a worker. `Read` is every access to an archive file: it stands for what the
      worker takes to be in it. `MakeDir` and `MakeParents` make a directory, or only those above a file. */
  datatype Action =
    | Skip(reason: string)
    | Read(path: string, archive: Archive)
    | MakeDir(path: string)
    | MakeParents(path: string)
    | Create(path: string)
    | Add(n: nat)
    | Check(n: nat)
    | Write(n: nat)
    | Save(path: string, content: Archive)
    | Done(path: string)
    | Raise

  // --- paths ---

  function PathOf(dir: string, m: Member): string {
    dir + "/" + m.name
  }

  /** `Path(name).suffix.lower() == ".zip"`; a name that begins with its only dot has no suffix. */
  predicate ZipName(name: string) {
    |name| > 4 && Lower(name[|name| - 4..]) == ".zip" && name[|name| - 5] != '/'
  }

  /** `nz.parent / (nz.stem + "_extracted")` */
  function NestedDir(path: string): string {
    (if |path| < 4 then path else path[..|path| - 4]) + "_extracted"
  }

  /** `path.name` */
  function Base(path: string): string {
    if path == "" || path[|path| - 1] == '/' then "" else Base(path[..|path| - 1]) + [path[|path| - 1]]
  }

  /** The directories on the way to a path. */
  function Above(path: string): set<string> {
    set k | 0 < k < |path| && path[k] == '/' :: path[..k]
  }

  function Makes(a: Action): set<string> {
    match a
    case MakeDir(path) => Above(path) + {path}
    case MakeParents(path) => Above(path)
    case _ => {}
  }

  // --- what one open archive does ---

  function Refusal(lim: Limits, m: Member): Option<string> {
    if m.symlink then Some(m.name + ": symlink rejected")
    else if m.unsafe.Some? then Some(m.name + ": " + m.unsafe.value)
    else if m.declared > lim.member then Some(m.name + ": member size exceeds cap")
    else if m.compressed > 0 && m.declared > lim.ratio * m.compressed then Some(m.name + ": compression ratio too high")
    else None
  }

  /** The members that are written to a file. */
  predicate Taken(lim: Limits, m: Member) {
    Refusal(lim, m).None? && !m.isDir
  }

  function Size(chunks: seq<nat>): nat {
    if chunks == [] then 0 else chunks[0] + Size(chunks[1..])
  }

  /** The stream of the member keeps to the member cap. */
  predicate Fits(lim: Limits, m: Member) {
    Taken(lim, m) ==> Size(m.chunks) <= lim.member
  }

  predicate AllFit(lim: Limits, ms: seq<Member>) {
    ms == [] || (Fits(lim, ms[0]) && AllFit(lim, ms[1..]))
  }

  /** One call of `_extract_zip`: the archive file, where its members go, what is in the file, the depth. */
  datatype Visit = Visit(path: string, dir: string, archive: Archive, depth: nat)

  /** The copy loop of one member, `written` bytes in: read, count under the lock, check, write. */
  function Copy(lim: Limits, v: Visit, chunks: seq<nat>, written: nat): seq<Action> {
    if chunks == [] then []
    else
      var w := written + chunks[0];
      [Read(v.path, v.archive)]
      + ([Add(chunks[0]), Check(chunks[0])]
         + (if w > lim.member then [Raise] else [Write(chunks[0])] + Copy(lim, v, chunks[1..], w)))
  }

  /** The stream of a member passes the member cap. */
  predicate TooLong(lim: Limits, chunks: seq<nat>, written: nat) {
    chunks != [] && (written + chunks[0] > lim.member || TooLong(lim, chunks[1..], written + chunks[0]))
  }

  function OneMember(lim: Limits, v: Visit, m: Member): seq<Action> {
    match Refusal(lim, m)
    case Some(reason) => [Skip(reason)]
    case None =>
      if m.isDir then [MakeDir(PathOf(v.dir, m))]
      else
        [MakeParents(PathOf(v.dir, m))]
        + ([Read(v.path, v.archive)]
           + ([Create(PathOf(v.dir, m))]
              + (Copy(lim, v, m.chunks, 0) + (if TooLong(lim, m.chunks, 0) then [] else Finish(v, m)))))
  }

  function Finish(v: Visit, m: Member): seq<Action> {
    [Save(PathOf(v.dir, m), m.content), Done(PathOf(v.dir, m))]
  }

  /** A member that breaks the cap is the last. */
  function AllMembers(lim: Limits, v: Visit, ms: seq<Member>): seq<Action> {
    if ms == [] then []
    else OneMember(lim, v, ms[0]) + (if Fits(lim, ms[0]) then AllMembers(lim, v, ms[1..]) else [])
  }

  function VisitProgram(lim: Limits, v: Visit): seq<Action> {
    if v.depth > lim.depth then [Skip(Base(v.path) + ": max recursion depth")]
    else
      [Read(v.path, v.archive)]
      + (match v.archive
         case NotZip => if v.depth == 1 then [Raise] else [Skip(Base(v.path) + ": not a zip")]
         case Zip(ms) => if |ms| > lim.members then [Raise] else AllMembers(lim, v, ms))
  }

  /** The caps of the archive and of the members streamed from it are respected. */
  predicate Kept(lim: Limits, v: Visit) {
    v.depth > lim.depth ||
    (match v.archive
     case NotZip => v.depth > 1
     case Zip(ms) => |ms| <= lim.members && AllFit(lim, ms))
  }

  predicate AllKept(lim: Limits, vs: seq<Visit>) {
    vs == [] || (Kept(lim, vs[0]) && AllKept(lim, vs[1..]))
  }

  /** The members that are extracted and opened in turn. */
  predicate Opens(lim: Limits, m: Member) {
    Taken(lim, m) && ZipName(m.name)
  }

  function Nested(lim: Limits, ms: seq<Member>): seq<Member> {
    if ms == [] then [] else (if Opens(lim, ms[0]) then [ms[0]] else []) + Nested(lim, ms[1..])
  }

  /** The members of the archive that are opened after it, unless it is not opened itself. */
  function Children(lim: Limits, v: Visit): seq<Member> {
    if v.depth > lim.depth || v.archive.NotZip? then [] else Nested(lim, v.archive.members)
  }

  // --- the disk, and what is opened on it ---

  /** A file on disk: being written, or finished. */
  datatype Cell = Partial | Whole(content: Archive)

  type Disk = map<string, Cell>

  function Written(d: Disk, a: Action): Disk {
    match a
    case Create(path) => d[path := Partial]
    case Save(path, content) => d[path := Whole(content)]
    case _ => d
  }

  function After(d: Disk, todo: seq<Action>): Disk
    decreases |todo|
  {
    if todo == [] then d else After(Written(d, todo[0]), todo[1..])
  }

  /** What a file holds; one that is missing or unfinished is no zip. */
  function Held(d: Disk, path: string): Archive {
    if path in d && d[path].Whole? then d[path].content else NotZip
  }

  function Run(lim: Limits, vs: seq<Visit>): seq<Action> {
    if vs == [] then [] else VisitProgram(lim, vs[0]) + Run(lim, vs[1..])
  }

  function Levels(lim: Limits, depth: nat): nat {
    if depth > lim.depth then 0 else lim.depth + 1 - depth
  }

  /** `_extract_zip` where it recurses one archive after the other: each is what its file holds by then. An
      archive that breaks a cap is the last. */
  function Visits(lim: Limits, d: Disk, path: string, dir: string, depth: nat): seq<Visit>
    decreases Levels(lim, depth), 0
  {
    var v := Visit(path, dir, Held(d, path), depth);
    if v.depth > lim.depth || !Kept(lim, v) then [v]
    else [v] + NestedVisits(lim, After(d, VisitProgram(lim, v)), dir, Children(lim, v), depth + 1)
  }

  function NestedVisits(lim: Limits, d: Disk, dir: string, ns: seq<Member>, depth: nat): seq<Visit>
    decreases Levels(lim, depth), 1 + |ns|
  {
    if ns == [] then []
    else
      var first := MemberVisits(lim, d, dir, ns[0], depth);
      if AllKept(lim, first) then first + NestedVisits(lim, After(d, Run(lim, first)), dir, ns[1..], depth) else first
  }

  function MemberVisits(lim: Limits, d: Disk, dir: string, m: Member, depth: nat): seq<Visit>
    decreases Levels(lim, depth), 1
  {
    Visits(lim, d, PathOf(dir, m), NestedDir(PathOf(dir, m)), depth)
  }

  /** The bundle itself. */
  function Root(path: string, dir: string, a: Archive): Visit {
    Visit(path, dir, a, 1)
  }

  /** The disk when the members of the bundle have been extracted. */
  function Extracted(lim: Limits, path: string, dir: string, a: Archive): Disk {
    After(map[path := Whole(a)], VisitProgram(lim, Root(path, dir, a)))
  }

  predicate FansOut(lim: Limits, path: string, dir: string, a: Archive) {
    Kept(lim, Root(path, dir, a)) && |Children(lim, Root(path, dir, a))| > 1
  }

  /** What each thread of `open_bundle` visits: the main thread first, then one worker for each nested archive
      when there are several. A worker opens what the file holds when the main thread has finished. */
  function Jobs(lim: Limits, path: string, dir: string, a: Archive): seq<seq<Visit>> {
    var root := Root(path, dir, a);
    if FansOut(lim, path, dir, a) then [[root]] + Workers(lim, Extracted(lim, path, dir, a), dir, Children(lim, root))
    else [Visits(lim, map[path := Whole(a)], path, dir, 1)]
  }

  function Workers(lim: Limits, d: Disk, dir: string, ns: seq<Member>): seq<seq<Visit>> {
    seq(|ns|, k requires 0 <= k < |ns| => MemberVisits(lim, d, dir, ns[k], 2))
  }

  function Runs(lim: Limits, jobs: seq<seq<Visit>>): seq<seq<Action>> {
    if jobs == [] then [] else [Run(lim, jobs[0])] + Runs(lim, jobs[1..])
  }

  function Programs(lim: Limits, path: string, dir: string, a: Archive): seq<seq<Action>> {
    Runs(lim, Jobs(lim, path, dir, a))
  }

  // --- the machine ---

  datatype Thread = Thread(todo: seq<Action>, failed: bool)

  /** `passed` counts the bytes whose check succeeded, `written` those on disk. */
  datatype State = State(
    bytes: nat, passed: nat, written: nat, files: multiset<string>, skipped: multiset<string>,
    disk: Disk, dirs: set<string>, threads: seq<Thread>)

  function Threads(programs: seq<seq<Action>>): seq<Thread> {
    seq(|programs|, k requires 0 <= k < |programs| => Thread(programs[k], false))
  }

  function Start(path: string, a: Archive, programs: seq<seq<Action>>): State {
    State(0, 0, 0, multiset{}, multiset{}, map[path := Whole(a)], {}, Threads(programs))
  }

  /** The start of an extraction of the archive at `path` into `dir`. */
  function Begin(lim: Limits, path: string, dir: string, a: Archive): State {
    Start(path, a, Programs(lim, path, dir, a))
  }

  /** A worker can act once the main thread has finished without an error. */
  predicate Enabled(s: State, k: nat) {
    k < |s.threads| && s.threads[k].todo != [] && !s.threads[k].failed
    && (k > 0 ==> s.threads[0].todo == [] && !s.threads[0].failed)
  }

  /** A file stands where a directory is to be made, or a directory where a file is. */
  predicate Blocked(s: State, a: Action) {
    Makes(a) * s.disk.Keys != {} || (a.Create? && a.path in s.dirs)
  }

  /** The thread stops at this action with an error. */
  predicate Stops(lim: Limits, s: State, a: Action) {
    a.Raise? || (a.Check? && s.bytes > lim.total) || Blocked(s, a)
  }

  function Act(lim: Limits, s: State, k: nat): State
    requires Enabled(s, k)
  {
    var t := s.threads[k];
    var on := s.(threads := s.threads[k := Thread(t.todo[1..], false)], disk := Written(s.disk, t.todo[0]),
              dirs := s.dirs + Makes(t.todo[0]));
    if Stops(lim, s, t.todo[0]) then s.(threads := s.threads[k := Thread(t.todo, true)])
    else
      match t.todo[0]
      case Skip(reason) => on.(skipped := s.skipped + multiset{reason})
      case Add(n) => on.(bytes := s.bytes + n)
      case Check(n) => on.(passed := s.passed + n)
      case Write(n) => on.(written := s.written + n)
      case Done(path) => on.(files := s.files + multiset{path})
      case _ => on
  }

  /** A schedule names the thread that acts next; naming one that cannot act changes nothing. */
  function Exec(lim: Limits, s: State, schedule: seq<nat>): State {
    if schedule == [] then s
    else
      var r := Exec(lim, s, schedule[..|schedule| - 1]);
      var k := schedule[|schedule| - 1];
      if Enabled(r, k) then Act(lim, r, k) else r
  }

  ghost predicate Final(s: State) {
    forall k :: !Enabled(s, k)
  }

  ghost predicate Failed(s: State) {
    exists k :: 0 <= k < |s.threads| && s.threads[k].failed
  }

  // --- sums over threads ---

  function Sum(ts: seq<Thread>, f: Thread -> nat): nat {
    if ts == [] then 0 else f(ts[0]) + Sum(ts[1..], f)
  }

  lemma {:induction false} SumUpdate(ts: seq<Thread>, k: nat, t: Thread, f: Thread -> nat)
    requires k < |ts|
    ensures Sum(ts[k := t], f) + f(ts[k]) == Sum(ts, f) + f(t)
    decreases |ts|
  {
    if k == 0 {
      assert ts[0 := t][1..] == ts[1..];
    } else {
      assert ts[k := t][1..] == ts[1..][k - 1 := t];
      SumUpdate(ts[1..], k - 1, t, f);
    }
  }

  lemma {:induction false} SumAtLeast(ts: seq<Thread>, k: nat, f: Thread -> nat)
    requires k < |ts|
    ensures f(ts[k]) <= Sum(ts, f)
    decreases |ts|
  {
    if k > 0 { SumAtLeast(ts[1..], k - 1, f); }
  }

  lemma {:induction false} SumZero(ts: seq<Thread>, f: Thread -> nat)
    requires forall k :: 0 <= k < |ts| ==> f(ts[k]) == 0
    ensures Sum(ts, f) == 0
    decreases |ts|
  {
    if ts != [] { SumZero(ts[1..], f); }
  }

  function Bag(ts: seq<Thread>, f: Thread -> multiset<string>): multiset<string> {
    if ts == [] then multiset{} else f(ts[0]) + Bag(ts[1..], f)
  }

  lemma {:induction false} BagUpdate(ts: seq<Thread>, k: nat, t: Thread, f: Thread -> multiset<string>)
    requires k < |ts|
    ensures Bag(ts[k := t], f) + f(ts[k]) == Bag(ts, f) + f(t)
    decreases |ts|
  {
    if k == 0 {
      assert ts[0 := t][1..] == ts[1..];
    } else {
      assert ts[k := t][1..] == ts[1..][k - 1 := t];
      BagUpdate(ts[1..], k - 1, t, f);
      Exchange(f(ts[0]), Bag(ts[1..][k - 1 := t], f), f(ts[k]), Bag(ts[1..], f), f(t));
    }
  }

  lemma Exchange(x: multiset<string>, a: multiset<string>, b: multiset<string>, c: multiset<string>,
                 d: multiset<string>)
    requires a + b == c + d
    ensures x + a + b == x + c + d
  {
    assert x + a + b == x + (a + b) && x + c + d == x + (c + d);
  }

  /** What leaves the threads and enters the shared state is not lost. */
  lemma Moved(got: multiset<string>, left: multiset<string>, more: multiset<string>, rest: multiset<string>,
              now: multiset<string>)
    requires now + (more + rest) == left + rest
    ensures got + more + now == got + left
  {
    forall s ensures (got + more + now)[s] == (got + left)[s] {
      assert (now + (more + rest))[s] == (left + rest)[s];
    }
  }

  lemma {:induction false} BagEmpty(ts: seq<Thread>, f: Thread -> multiset<string>)
    requires forall k :: 0 <= k < |ts| ==> f(ts[k]) == multiset{}
    ensures Bag(ts, f) == multiset{}
    decreases |ts|
  {
    if ts != [] { BagEmpty(ts[1..], f); }
  }

  // --- what a program still does ---

  function Adds(todo: seq<Action>): nat {
    if todo == [] then 0 else (if todo[0].Add? then todo[0].n else 0) + Adds(todo[1..])
  }

  function Writes(todo: seq<Action>): nat {
    if todo == [] then 0 else (if todo[0].Write? then todo[0].n else 0) + Writes(todo[1..])
  }

  function Raises(todo: seq<Action>): nat {
    if todo == [] then 0 else (if todo[0].Raise? then 1 else 0) + Raises(todo[1..])
  }

  function Dones(todo: seq<Action>): multiset<string> {
    if todo == [] then multiset{} else (if todo[0].Done? then multiset{todo[0].path} else multiset{}) + Dones(todo[1..])
  }

  function Skips(todo: seq<Action>): multiset<string> {
    if todo == [] then multiset{}
    else (if todo[0].Skip? then multiset{todo[0].reason} else multiset{}) + Skips(todo[1..])
  }

  function AddsOf(): Thread -> nat { (t: Thread) => Adds(t.todo) }
  function WritesOf(): Thread -> nat { (t: Thread) => Writes(t.todo) }
  function RaisesOf(): Thread -> nat { (t: Thread) => Raises(t.todo) }
  function DonesOf(): Thread -> multiset<string> { (t: Thread) => Dones(t.todo) }
  function SkipsOf(): Thread -> multiset<string> { (t: Thread) => Skips(t.todo) }

  /** Bytes counted by a thread that has yet to check them. */
  function Unchecked(): Thread -> nat {
    (t: Thread) => if t.todo != [] && t.todo[0].Check? then t.todo[0].n else 0
  }

  function Checking(): Thread -> nat {
    (t: Thread) => if t.todo != [] && t.todo[0].Check? then 1 else 0
  }

  /** Bytes checked by a thread that has yet to write them. */
  function Unwritten(): Thread -> nat {
    (t: Thread) => if t.todo != [] && t.todo[0].Write? then t.todo[0].n else 0
  }

  /** Every count is followed by its check, every check by its write or by an error. */
  predicate Disciplined(todo: seq<Action>)
    decreases |todo|
  {
    todo == [] ||
    (match todo[0]
     case Add(n) =>
       && |todo| >= 3 && todo[1] == Check(n) && (todo[2] == Write(n) || todo[2].Raise?)
       && Disciplined(todo[3..])
     case Check(_) => false
     case Write(_) => false
     case _ => Disciplined(todo[1..]))
  }

  /** A thread may stand between a count and its write. */
  predicate InStep(todo: seq<Action>) {
    || Disciplined(todo)
    || (|todo| >= 2 && todo[0].Check? && (todo[1] == Write(todo[0].n) || todo[1].Raise?) && Disciplined(todo[2..]))
    || (|todo| >= 1 && todo[0].Write? && Disciplined(todo[1..]))
  }

  // --- the invariant of every interleaving ---

  datatype Totals = Totals(bytes: nat, writes: nat, raises: nat, files: multiset<string>, skipped: multiset<string>)

  function TotalsOf(ts: seq<Thread>): Totals {
    Totals(Sum(ts, AddsOf()), Sum(ts, WritesOf()), Sum(ts, RaisesOf()), Bag(ts, DonesOf()), Bag(ts, SkipsOf()))
  }

  /** Nothing is lost between the programs and the shared state. */
  ghost predicate Conserved(s: State, all: Totals) {
    var left := TotalsOf(s.threads);
    && s.bytes + left.bytes == all.bytes
    && s.written + left.writes == all.writes
    && left.raises == all.raises
    && s.files + left.files == all.files
    && s.skipped + left.skipped == all.skipped
  }

  ghost predicate Safe(lim: Limits, s: State) {
    && (forall k :: 0 <= k < |s.threads| ==> InStep(s.threads[k].todo))
    && s.passed + Sum(s.threads, Unchecked()) <= s.bytes
    && s.passed <= lim.total
    && s.written + Sum(s.threads, Unwritten()) <= s.passed
    && (!Failed(s) && Sum(s.threads, Checking()) == 0 ==> s.bytes <= lim.total)
    && (forall k :: 0 <= k < |s.threads| && s.threads[k].failed ==> Caused(lim, s, s.threads[k].todo))
  }

  /** Why a thread that stands before `todo` has failed. */
  predicate Caused(lim: Limits, s: State, todo: seq<Action>) {
    todo != [] && (todo[0].Raise? || s.bytes > lim.total || Blocked(s, todo[0]))
  }

  lemma Cancel(a: multiset<string>, b: multiset<string>, rest: multiset<string>)
    requires a + rest == b + rest
    ensures a == b
  {
    forall s ensures a[s] == b[s] {
      assert (a + rest)[s] == (b + rest)[s];
    }
  }

  function DoneName(a: Action): multiset<string> {
    if a.Done? then multiset{a.path} else multiset{}
  }

  function SkipReason(a: Action): multiset<string> {
    if a.Skip? then multiset{a.reason} else multiset{}
  }

  function Added(a: Action): nat {
    if a.Add? then a.n else 0
  }

  function Wrote(a: Action): nat {
    if a.Write? then a.n else 0
  }

  lemma FirstCounts(todo: seq<Action>)
    requires todo != []
    ensures Adds(todo) == Added(todo[0]) + Adds(todo[1..])
    ensures Writes(todo) == Wrote(todo[0]) + Writes(todo[1..])
    ensures !todo[0].Raise? ==> Raises(todo) == Raises(todo[1..])
    ensures Dones(todo) == DoneName(todo[0]) + Dones(todo[1..])
    ensures Skips(todo) == SkipReason(todo[0]) + Skips(todo[1..])
  {
  }

  lemma ActMoves(lim: Limits, s: State, k: nat)
    requires Enabled(s, k)
    ensures var t, first, next := s.threads[k], s.threads[k].todo[0], Act(lim, s, k);
            if Stops(lim, s, first)
            then next == s.(threads := s.threads[k := Thread(t.todo, true)])
            else
              && next.threads == s.threads[k := Thread(t.todo[1..], false)]
              && next.bytes == s.bytes + Added(first) && next.written == s.written + Wrote(first)
              && next.files == s.files + DoneName(first) && next.skipped == s.skipped + SkipReason(first)
  {
    hide Makes, Blocked;
    assert s.files + multiset{} == s.files && s.skipped + multiset{} == s.skipped;
  }

  /** Files and directories stay, so a cause of failure stays. */
  lemma CauseStays(lim: Limits, s: State, k: nat, todo: seq<Action>)
    requires Enabled(s, k)
    ensures Caused(lim, s, todo) ==> Caused(lim, Act(lim, s, k), todo)
    ensures var t, next := s.threads[k].todo, Act(lim, s, k); next.threads[k].failed ==> Caused(lim, next, t)
  {
    hide Makes;
    var next := Act(lim, s, k);
    assert s.disk.Keys <= next.disk.Keys && s.dirs <= next.dirs;
  }

  lemma ActConserves(lim: Limits, s: State, k: nat, all: Totals)
    requires Enabled(s, k) && Conserved(s, all)
    ensures Conserved(Act(lim, s, k), all)
  {
    hide TotalsOf, Adds, Writes, Raises, Dones, Skips, Act, DoneName, SkipReason, Added, Wrote;
    var t := s.threads[k];
    var first := t.todo[0];
    var was := TotalsOf(s.threads);
    ActMoves(lim, s, k);
    if Stops(lim, s, first) {
      UpdateTotals(s.threads, k, Thread(t.todo, true));
      var now := TotalsOf(s.threads[k := Thread(t.todo, true)]);
      Cancel(now.files, was.files, Dones(t.todo));
      Cancel(now.skipped, was.skipped, Skips(t.todo));
    } else {
      UpdateTotals(s.threads, k, Thread(t.todo[1..], false));
      FirstCounts(t.todo);
      var now := TotalsOf(s.threads[k := Thread(t.todo[1..], false)]);
      Moved(s.files, was.files, DoneName(first), Dones(t.todo[1..]), now.files);
      Moved(s.skipped, was.skipped, SkipReason(first), Skips(t.todo[1..]), now.skipped);
    }
  }

  lemma UpdateTotals(ts: seq<Thread>, k: nat, t: Thread)
    requires k < |ts|
    ensures var a, b := TotalsOf(ts), TotalsOf(ts[k := t]);
            && b.bytes + Adds(ts[k].todo) == a.bytes + Adds(t.todo)
            && b.writes + Writes(ts[k].todo) == a.writes + Writes(t.todo)
            && b.raises + Raises(ts[k].todo) == a.raises + Raises(t.todo)
            && b.files + Dones(ts[k].todo) == a.files + Dones(t.todo)
            && b.skipped + Skips(ts[k].todo) == a.skipped + Skips(t.todo)
  {
    hide Sum, Bag;
    SumUpdate(ts, k, t, AddsOf());
    SumUpdate(ts, k, t, WritesOf());
    SumUpdate(ts, k, t, RaisesOf());
    BagUpdate(ts, k, t, DonesOf());
    BagUpdate(ts, k, t, SkipsOf());
  }

  /** How one thread's change moves the sums that safety is about. */
  lemma UpdateSums(ts: seq<Thread>, k: nat, t: Thread)
    requires k < |ts|
    ensures Sum(ts[k := t], Unchecked()) + Unchecked()(ts[k]) == Sum(ts, Unchecked()) + Unchecked()(t)
    ensures Sum(ts[k := t], Checking()) + Checking()(ts[k]) == Sum(ts, Checking()) + Checking()(t)
    ensures Sum(ts[k := t], Unwritten()) + Unwritten()(ts[k]) == Sum(ts, Unwritten()) + Unwritten()(t)
    ensures Unchecked()(t) <= Sum(ts[k := t], Unchecked()) && Checking()(t) <= Sum(ts[k := t], Checking())
    ensures Unchecked()(ts[k]) <= Sum(ts, Unchecked())
  {
    hide Sum;
    SumUpdate(ts, k, t, Unchecked());
    SumUpdate(ts, k, t, Checking());
    SumUpdate(ts, k, t, Unwritten());
    SumAtLeast(ts[k := t], k, Unchecked());
    SumAtLeast(ts[k := t], k, Checking());
    SumAtLeast(ts, k, Unchecked());
  }

  /** What stands first after a thread has acted. */
  lemma NextAction(todo: seq<Action>)
    requires InStep(todo) && todo != []
    ensures InStep(todo[1..])
    ensures match todo[0]
            case Add(n) => |todo| > 1 && todo[1] == Check(n)
            case Check(n) => |todo| > 1 && (todo[1] == Write(n) || todo[1].Raise?)
            case _ => |todo| > 1 ==> !todo[1].Check? && !todo[1].Write?
  {
    if todo[0].Add? {
      assert todo[1..][0] == todo[1] && todo[1..][1] == todo[2] && todo[1..][2..] == todo[3..];
    } else if todo[0].Check? {
      assert todo[1..][0] == todo[1] && todo[1..][1..] == todo[2..];
    }
  }

  lemma ActSafe(lim: Limits, s: State, k: nat)
    requires Enabled(s, k) && Safe(lim, s)
    ensures Safe(lim, Act(lim, s, k))
  {
    hide Sum, InStep, Makes, Blocked, Caused;
    var t := s.threads[k];
    var next := Act(lim, s, k);
    var moved := next.threads[k];
    NextAction(t.todo);
    forall i | 0 <= i < |s.threads| && next.threads[i].failed ensures Caused(lim, next, next.threads[i].todo) {
      CauseStays(lim, s, k, s.threads[i].todo);
    }
    UpdateSums(s.threads, k, moved);
    assert next.threads == s.threads[k := moved];
    if !Failed(next) {
      forall i | 0 <= i < |s.threads| ensures !s.threads[i].failed {
        assert !next.threads[i].failed;
      }
    }
  }

  lemma ExecStep(lim: Limits, s: State, schedule: seq<nat>)
    requires schedule != []
    ensures var n := |schedule| - 1;
            var r := Exec(lim, s, schedule[..n]);
            Exec(lim, s, schedule) == if Enabled(r, schedule[n]) then Act(lim, r, schedule[n]) else r
  {
  }

  /** The invariant holds at every point of every interleaving. */
  lemma {:induction false} ExecKeeps(lim: Limits, s: State, schedule: seq<nat>, all: Totals)
    requires Safe(lim, s) && Conserved(s, all)
    ensures Safe(lim, Exec(lim, s, schedule)) && Conserved(Exec(lim, s, schedule), all)
    decreases |schedule|
  {
    hide Safe, Conserved, Act, Enabled;
    if schedule != [] {
      hide Exec;
      var n := |schedule| - 1;
      var r := Exec(lim, s, schedule[..n]);
      ExecKeeps(lim, s, schedule[..n], all);
      ExecStep(lim, s, schedule);
      if Enabled(r, schedule[n]) {
        ActSafe(lim, r, schedule[n]);
        ActConserves(lim, r, schedule[n], all);
      }
    } else {
      assert Exec(lim, s, []) == s;
    }
  }

  /** Every act finishes something, so a run has only finitely many. */
  function Remaining(s: State): nat {
    Sum(s.threads, (t: Thread) => if t.failed then 0 else |t.todo|)
  }

  lemma ActProgresses(lim: Limits, s: State, k: nat)
    requires Enabled(s, k)
    ensures Remaining(Act(lim, s, k)) < Remaining(s)
  {
    hide Sum;
    var f := (t: Thread) => if t.failed then 0 else |t.todo|;
    var t := s.threads[k];
    SumUpdate(s.threads, k, Thread(t.todo[1..], false), f);
    SumUpdate(s.threads, k, Thread(t.todo, true), f);
  }

  /** How many steps of a schedule act. */
  function Acts(lim: Limits, s: State, schedule: seq<nat>): nat {
    if schedule == [] then 0
    else
      var n := |schedule| - 1;
      Acts(lim, s, schedule[..n]) + if Enabled(Exec(lim, s, schedule[..n]), schedule[n]) then 1 else 0
  }

  /** No interleaving runs for ever. */
  lemma {:induction false} ActsAreBounded(lim: Limits, s: State, schedule: seq<nat>)
    ensures Acts(lim, s, schedule) + Remaining(Exec(lim, s, schedule)) <= Remaining(s)
    decreases |schedule|
  {
    hide Enabled, Act, Remaining;
    if schedule != [] {
      var n := |schedule| - 1;
      var r := Exec(lim, s, schedule[..n]);
      ActsAreBounded(lim, s, schedule[..n]);
      ExecStep(lim, s, schedule);
      if Enabled(r, schedule[n]) { ActProgresses(lim, r, schedule[n]); }
    }
  }

  /** No interleaving gets stuck: every schedule can be extended to a finished run. */
  lemma EveryRunFinishes(lim: Limits, s: State, schedule: seq<nat>) returns (whole: seq<nat>)
    ensures schedule <= whole && Final(Exec(lim, s, whole))
    decreases Remaining(Exec(lim, s, schedule))
  {
    hide Enabled, Act, Remaining;
    var now := Exec(lim, s, schedule);
    if Final(now) {
      whole := schedule;
    } else {
      var k :| Enabled(now, k);
      assert (schedule + [k])[..|schedule|] == schedule;
      ExecStep(lim, s, schedule + [k]);
      ActProgresses(lim, now, k);
      whole := EveryRunFinishes(lim, s, schedule + [k]);
    }
  }

  // --- the start of a run ---

  lemma StartSafe(lim: Limits, path: string, a: Archive, programs: seq<seq<Action>>)
    requires forall k :: 0 <= k < |programs| ==> Disciplined(programs[k])
    ensures var s := Start(path, a, programs); Safe(lim, s) && Conserved(s, TotalsOf(s.threads))
  {
    hide Disciplined;
    var s := Start(path, a, programs);
    forall k | 0 <= k < |s.threads| ensures Unchecked()(s.threads[k]) == 0 && Unwritten()(s.threads[k]) == 0 {
      FirstAction(programs[k]);
    }
    SumZero(s.threads, Unchecked());
    SumZero(s.threads, Unwritten());
  }

  lemma FirstAction(todo: seq<Action>)
    requires Disciplined(todo)
    ensures todo != [] ==> !todo[0].Check? && !todo[0].Write?
  {
  }

  // --- the end of a run ---

  lemma FinalEmpty(s: State)
    requires Final(s) && !Failed(s)
    ensures forall k :: 0 <= k < |s.threads| ==> s.threads[k].todo == []
  {
    forall k | 0 <= k < |s.threads| ensures s.threads[k].todo == [] {
      assert !Enabled(s, 0) && !Enabled(s, k);
    }
  }

  lemma EmptyTotals(ts: seq<Thread>)
    requires forall k :: 0 <= k < |ts| ==> ts[k].todo == []
    ensures TotalsOf(ts) == Totals(0, 0, 0, multiset{}, multiset{}) && Sum(ts, Checking()) == 0
  {
    hide Sum, Bag;
    SumZero(ts, AddsOf());
    SumZero(ts, WritesOf());
    SumZero(ts, RaisesOf());
    SumZero(ts, Checking());
    BagEmpty(ts, DonesOf());
    BagEmpty(ts, SkipsOf());
  }

  /** Some thread stands before a step for which a file or a directory is in the way. */
  ghost predicate Obstructed(s: State) {
    exists k :: 0 <= k < |s.threads| && s.threads[k].todo != [] && Blocked(s, s.threads[k].todo[0])
  }

  lemma FailureHasCause(lim: Limits, s: State, all: Totals)
    requires Safe(lim, s) && Conserved(s, all) && Failed(s)
    ensures all.raises > 0 || all.bytes > lim.total || Obstructed(s)
  {
    hide Blocked;
    var k :| 0 <= k < |s.threads| && s.threads[k].failed;
    SumAtLeast(s.threads, k, RaisesOf());
    assert all.raises == 0 && all.bytes <= lim.total ==> s.threads[k].todo != [] && Blocked(s, s.threads[k].todo[0]);
  }
}
