/** What a finished extraction leaves on the disk: when it ends without an error, whatever the schedule, and
    which files it lists. */
module BundleDisk {
  import opened Text
  import opened Bundle
  import opened BundlePrograms
  import opened BundlePaths

  // --- everything that is visited ---

  /** The visits of all threads, each archive as its file holds it when its thread comes to it alone. */
  function All(lim: Limits, path: string, dir: string, a: Archive): seq<Visit> {
    Flat(Jobs(lim, path, dir, a))
  }

  /** No file that is written, nor the bundle itself, stands where a directory is made. */
  predicate FilesFit(lim: Limits, path: string, vs: seq<Visit>) {
    forall p :: p in [path] + PathsOf(lim, vs) ==> p !in DirsMade(lim, vs)
  }

  lemma {:induction false} PathsAppend(lim: Limits, a: seq<Visit>, b: seq<Visit>)
    ensures PathsOf(lim, a + b) == PathsOf(lim, a) + PathsOf(lim, b)
    ensures DirsMade(lim, a + b) == DirsMade(lim, a) + DirsMade(lim, b)
    ensures OpenedBy(lim, a + b) == OpenedBy(lim, a) + OpenedBy(lim, b)
    decreases |a|
  {
    hide VisitPaths, VisitDirs;
    if a == [] {
      EmptyUnit(b);
      EmptyUnit(PathsOf(lim, b));
    } else {
      assert (a + b)[1..] == a[1..] + b;
      PathsAppend(lim, a[1..], b);
      Assoc(VisitPaths(lim, a[0]), PathsOf(lim, a[1..]), PathsOf(lim, b));
    }
  }

  lemma {:induction false} InFlat(lim: Limits, jobs: seq<seq<Visit>>, p: string)
    ensures p in PathsOf(lim, Flat(jobs)) <==> exists k :: 0 <= k < |jobs| && p in PathsOf(lim, jobs[k])
    ensures p in DirsMade(lim, Flat(jobs)) <==> exists k :: 0 <= k < |jobs| && p in DirsMade(lim, jobs[k])
    decreases |jobs|
  {
    hide PathsOf, DirsMade, OpenedBy;
    if jobs == [] {
      NothingWritten(lim);
    } else {
      InFlat(lim, jobs[1..], p);
      PathsAppend(lim, jobs[0], Flat(jobs[1..]));
      assert jobs == [jobs[0]] + jobs[1..];
      FirstOrLater(jobs[0], jobs[1..], vs => p in PathsOf(lim, vs));
      FirstOrLater(jobs[0], jobs[1..], vs => p in DirsMade(lim, vs));
    }
  }

  lemma NothingWritten(lim: Limits)
    ensures PathsOf(lim, []) == [] && DirsMade(lim, []) == {} && OpenedBy(lim, []) == {}
  {
  }

  lemma FirstOrLater<T>(x: T, rest: seq<T>, f: T -> bool)
    ensures var all := [x] + rest;
            (exists k :: 0 <= k < |all| && f(all[k])) <==> f(x) || exists k :: 0 <= k < |rest| && f(rest[k])
  {
    var all := [x] + rest;
    if k :| 0 <= k < |all| && f(all[k]) { assert k > 0 ==> all[k] == rest[k - 1]; }
    if k :| 0 <= k < |rest| && f(rest[k]) { assert all[k + 1] == rest[k]; }
    assert all[0] == x;
  }

  // --- files and directories, in every interleaving ---

  /** The path is a file, or a thread still writes it. */
  ghost predicate Filed(s: State, p: string) {
    p in s.disk || exists k :: 0 <= k < |s.threads| && p in Touch(s.threads[k].todo)
  }

  ghost predicate Directed(s: State, d: string) {
    d in s.dirs || exists k :: 0 <= k < |s.threads| && d in Made(s.threads[k].todo)
  }

  /** Files and directories, those still to come included, are given, and no path is both by now. */
  ghost predicate Placed(s: State, files: set<string>, dirs: set<string>) {
    && (forall p :: Filed(s, p) <==> p in files)
    && (forall d :: Directed(s, d) <==> d in dirs)
    && s.disk.Keys !! s.dirs
    && (forall k :: 0 <= k < |s.threads| ==> Opened(s.threads[k].todo, s.disk.Keys))
  }

  /** What one action adds to the disk. */
  lemma ActPlaces(lim: Limits, s: State, k: nat)
    requires Enabled(s, k)
    ensures var first, next := s.threads[k].todo[0], Act(lim, s, k);
            && (Stops(lim, s, first) ==> next.disk == s.disk && next.dirs == s.dirs)
            && (!Stops(lim, s, first) ==>
                  && next.disk.Keys == s.disk.Keys + TouchOne(first) && next.dirs == s.dirs + Makes(first)
                  && Makes(first) !! s.disk.Keys && (first.Create? ==> first.path !in s.dirs))
  {
    hide Above;
  }

  lemma OneOrOther(a: Action)
    ensures TouchOne(a) == {} || Makes(a) == {}
    ensures a.Create? || a.Save? ==> TouchOne(a) == {a.path}
    ensures !a.Create? && !a.Save? ==> TouchOne(a) == {}
  {
    hide Above;
  }

  lemma FirstPlaced(todo: seq<Action>, open: set<string>)
    requires todo != []
    ensures Touch(todo) == TouchOne(todo[0]) + Touch(todo[1..]) && Made(todo) == Makes(todo[0]) + Made(todo[1..])
    ensures Opened(todo, open) ==>
              (todo[0].Save? ==> todo[0].path in open) && Opened(todo[1..], open + TouchOne(todo[0]))
  {
  }

  lemma ActPlaced(lim: Limits, s: State, k: nat, files: set<string>, dirs: set<string>)
    requires Enabled(s, k) && Placed(s, files, dirs)
    ensures Placed(Act(lim, s, k), files, dirs)
  {
    hide Act, Touch, Made, Opened, TouchOne, Makes, Stops;
    var t, next := s.threads[k], Act(lim, s, k);
    ThreadsMoved(lim, s, k);
    ActPlaces(lim, s, k);
    FirstPlaced(t.todo, s.disk.Keys);
    OneOrOther(t.todo[0]);
    forall p ensures Filed(next, p) <==> Filed(s, p) { FiledSame(lim, s, k, p); }
    forall d ensures Directed(next, d) <==> Directed(s, d) { DirectedSame(lim, s, k, d); }
    forall j | 0 <= j < |next.threads| ensures Opened(next.threads[j].todo, next.disk.Keys) {
      if j != k || Stops(lim, s, t.todo[0]) { OpenedMore(s.threads[j].todo, s.disk.Keys, next.disk.Keys); }
    }
  }

  lemma FiledSame(lim: Limits, s: State, k: nat, p: string)
    requires Enabled(s, k)
    ensures Filed(Act(lim, s, k), p) <==> Filed(s, p)
  {
    hide Act, Touch, Made, Opened, TouchOne, Makes, Stops;
    var t, next := s.threads[k], Act(lim, s, k);
    ThreadsMoved(lim, s, k);
    ActPlaces(lim, s, k);
    FirstPlaced(t.todo, {});
    if j :| 0 <= j < |s.threads| && p in Touch(s.threads[j].todo) {
      assert p in next.disk || p in Touch(next.threads[j].todo);
    }
    if j :| 0 <= j < |next.threads| && p in Touch(next.threads[j].todo) { assert p in Touch(s.threads[j].todo); }
    assert p in Touch(t.todo) ==> Filed(s, p);
  }

  lemma DirectedSame(lim: Limits, s: State, k: nat, d: string)
    requires Enabled(s, k)
    ensures Directed(Act(lim, s, k), d) <==> Directed(s, d)
  {
    hide Act, Touch, Made, Opened, TouchOne, Makes, Stops;
    var t, next := s.threads[k], Act(lim, s, k);
    ThreadsMoved(lim, s, k);
    ActPlaces(lim, s, k);
    FirstPlaced(t.todo, {});
    if j :| 0 <= j < |s.threads| && d in Made(s.threads[j].todo) {
      assert d in next.dirs || d in Made(next.threads[j].todo);
    }
    if j :| 0 <= j < |next.threads| && d in Made(next.threads[j].todo) { assert d in Made(s.threads[j].todo); }
    assert d in Made(t.todo) ==> Directed(s, d);
  }

  lemma {:induction false} ExecPlaced(lim: Limits, s: State, schedule: seq<nat>, files: set<string>, dirs: set<string>)
    requires Placed(s, files, dirs)
    ensures Placed(Exec(lim, s, schedule), files, dirs)
    decreases |schedule|
  {
    hide Placed, Act, Enabled, Exec;
    if schedule == [] {
      ExecNothing(lim, s);
    } else {
      var n := |schedule| - 1;
      var now := Exec(lim, s, schedule[..n]);
      ExecPlaced(lim, s, schedule[..n], files, dirs);
      ExecStep(lim, s, schedule);
      if Enabled(now, schedule[n]) { ActPlaced(lim, now, schedule[n], files, dirs); }
    }
  }

  lemma ExecNothing(lim: Limits, s: State)
    ensures Exec(lim, s, []) == s
  {
  }

  function AllFiles(lim: Limits, path: string, vs: seq<Visit>): set<string> {
    set p | p in [path] + PathsOf(lim, vs)
  }

  lemma BeginPlaced(lim: Limits, path: string, dir: string, a: Archive)
    ensures var vs := All(lim, path, dir, a);
            Placed(Begin(lim, path, dir, a), AllFiles(lim, path, vs), DirsMade(lim, vs))
  {
    hide Programs, Jobs, Run, Touch, Made, Opened, PathsOf, DirsMade, OpenedBy, Reads, Flat;
    var s, jobs, vs := Begin(lim, path, dir, a), Jobs(lim, path, dir, a), All(lim, path, dir, a);
    JobsAre(lim, path, dir, a);
    forall k | 0 <= k < |jobs|
      ensures Leaves(s.threads[k].todo, OpenedBy(lim, jobs[k]), PathsOf(lim, jobs[k]), DirsMade(lim, jobs[k]))
      ensures Opened(s.threads[k].todo, s.disk.Keys)
    {
      RunLeaves(lim, jobs[k]);
      OpenedMore(Run(lim, jobs[k]), {}, s.disk.Keys);
    }
    forall p ensures Filed(s, p) <==> p in AllFiles(lim, path, vs) {
      InFlat(lim, jobs, p);
      if k :| 0 <= k < |jobs| && p in PathsOf(lim, jobs[k]) { assert p in Touch(s.threads[k].todo); }
    }
    forall d ensures Directed(s, d) <==> d in DirsMade(lim, vs) {
      InFlat(lim, jobs, d);
      if k :| 0 <= k < |jobs| && d in DirsMade(lim, jobs[k]) { assert d in Made(s.threads[k].todo); }
    }
  }

  // --- the end of a run ---

  lemma EndPlaced(s: State, files: set<string>, dirs: set<string>)
    requires Placed(s, files, dirs) && forall k :: 0 <= k < |s.threads| ==> s.threads[k].todo == []
    ensures files !! dirs
  {
    assert Touch([]) == {} && Made([]) == {};
  }

  lemma ObstructionClashes(s: State, files: set<string>, dirs: set<string>)
    requires Placed(s, files, dirs) && Obstructed(s)
    ensures !(files !! dirs)
  {
    hide Touch, Made, Opened, Makes;
    var k :| 0 <= k < |s.threads| && s.threads[k].todo != [] && Blocked(s, s.threads[k].todo[0]);
    var todo := s.threads[k].todo;
    FirstPlaced(todo, {});
    if todo[0].Create? && todo[0].path in s.dirs {
      assert Filed(s, todo[0].path) && Directed(s, todo[0].path);
    } else {
      var d :| d in Makes(todo[0]) && d in s.disk.Keys;
      assert Filed(s, d) && Directed(s, d);
    }
  }

  lemma FitsApart(lim: Limits, path: string, vs: seq<Visit>)
    ensures FilesFit(lim, path, vs) <==> AllFiles(lim, path, vs) !! DirsMade(lim, vs)
  {
    hide PathsOf, DirsMade;
    var files, dirs := AllFiles(lim, path, vs), DirsMade(lim, vs);
    if FilesFit(lim, path, vs) {
      forall p | p in files ensures p !in dirs { assert p in [path] + PathsOf(lim, vs); }
    }
    if files !! dirs {
      forall p | p in [path] + PathsOf(lim, vs) ensures p !in dirs { assert p in files; }
    }
  }

  lemma RunCounts(lim: Limits, path: string, dir: string, a: Archive, schedule: seq<nat>)
    requires Final(Exec(lim, Begin(lim, path, dir, a), schedule))
    ensures var s, vs := Exec(lim, Begin(lim, path, dir, a), schedule), All(lim, path, dir, a);
            var y := YieldOf(lim, vs);
            && (!Failed(s) <==> AllKept(lim, vs) && y.bytes <= lim.total && FilesFit(lim, path, vs))
            && (!Failed(s) ==> s.bytes == s.written == y.bytes && s.files == y.files && s.skipped == y.skipped)
  {
    hide Exec, Programs, Jobs, Sum, Bag, AllKept, YieldOf, Final, Placed, PathsOf, DirsMade, Obstructed, Flat, FilesFit;
    var start, vs := Begin(lim, path, dir, a), All(lim, path, dir, a);
    var s, all := Exec(lim, start, schedule), TotalsOf(start.threads);
    var files, dirs := AllFiles(lim, path, vs), DirsMade(lim, vs);
    BeginConserved(lim, path, dir, a);
    ExecKeeps(lim, start, schedule, all);
    BeginPlaced(lim, path, dir, a);
    ExecPlaced(lim, start, schedule, files, dirs);
    FitsApart(lim, path, vs);
    if Failed(s) {
      FailureHasCause(lim, s, all);
      if Obstructed(s) { ObstructionClashes(s, files, dirs); }
    } else {
      FinalEmpty(s);
      EmptyTotals(s.threads);
      EndPlaced(s, files, dirs);
    }
  }

  /** The programs of all threads together do what the visits yield. */
  lemma BeginConserved(lim: Limits, path: string, dir: string, a: Archive)
    ensures var s, vs := Begin(lim, path, dir, a), All(lim, path, dir, a);
            && Safe(lim, s) && Conserved(s, TotalsOf(s.threads))
            && TogetherDo(s.threads, AllKept(lim, vs), YieldOf(lim, vs))
  {
    hide Runs, Jobs, Safe, Conserved, TogetherDo, AllKept, YieldOf, Flat, Disciplined;
    ProgramsDisciplined(lim, path, dir, a);
    StartSafe(lim, path, a, Programs(lim, path, dir, a));
    JobsDeep(lim, path, dir, a);
    RunsDo(lim, Jobs(lim, path, dir, a));
  }

  /** Whatever the schedule, when no worker writes an archive that another opens: a finished run has read every
      archive right; it is without an error if and only if the caps are kept, the total size is within the limit
      and no file stands where a directory is made; and then the byte count, the bytes on disk, the files and
      the skips are those of the visits. */
  lemma RunYields(lim: Limits, path: string, dir: string, a: Archive, schedule: seq<nat>)
    requires Spares(lim, path, dir, a) && OpensApart(lim, Jobs(lim, path, dir, a))
    requires Final(Exec(lim, Begin(lim, path, dir, a), schedule))
    ensures forall n, k: nat :: 0 <= n <= |schedule| ==>
                                  ReadRight(Exec(lim, Begin(lim, path, dir, a), schedule[..n]), k)
    ensures var s, vs := Exec(lim, Begin(lim, path, dir, a), schedule), All(lim, path, dir, a);
            var y := YieldOf(lim, vs);
            && (!Failed(s) <==> AllKept(lim, vs) && y.bytes <= lim.total && FilesFit(lim, path, vs))
            && (!Failed(s) ==> s.bytes == s.written == y.bytes && s.files == y.files && s.skipped == y.skipped)
  {
    hide Exec, Begin, Jobs, AllKept, YieldOf, Final, Failed, FilesFit, Spares, OpensApart, All;
    RunCounts(lim, path, dir, a, schedule);
    forall n, k: nat | 0 <= n <= |schedule| ensures ReadRight(Exec(lim, Begin(lim, path, dir, a), schedule[..n]), k) {
      ReadsAreRight(lim, path, dir, a, schedule[..n], k);
    }
  }

  // --- the files listed ---

  lemma {:induction false} MemberFiles(lim: Limits, dir: string, ms: seq<Member>)
    requires AllFit(lim, ms)
    ensures MembersYield(lim, dir, ms).files == multiset(MemberPaths(lim, dir, ms))
    decreases |ms|
  {
    hide PathOf, Refusal, Size;
    if ms != [] { MemberFiles(lim, dir, ms[1..]); }
  }

  lemma {:induction false} FilesArePaths(lim: Limits, vs: seq<Visit>)
    requires AllKept(lim, vs)
    ensures YieldOf(lim, vs).files == multiset(PathsOf(lim, vs))
    decreases |vs|
  {
    hide MembersYield, MemberPaths, Base, AllFit;
    if vs != [] {
      FilesArePaths(lim, vs[1..]);
      if Extracts(lim, vs[0]) { MemberFiles(lim, vs[0].dir, vs[0].archive.members); }
    }
  }

  lemma DistinctCounts(ps: seq<string>)
    ensures Distinct(ps) <==> forall p :: multiset(ps)[p] <= 1
  {
    if Distinct(ps) {
      forall p ensures multiset(ps)[p] <= 1 { DistinctOnce(ps, p); }
    }
    if i, j :| 0 <= i < j < |ps| && ps[i] == ps[j] { TwiceCounted(ps, i, j); }
  }

  /** The files that a run lists are the paths of the visits; each is listed once if and only if they differ. */
  lemma FilesListedOnce(lim: Limits, path: string, dir: string, a: Archive, schedule: seq<nat>)
    requires Spares(lim, path, dir, a) && OpensApart(lim, Jobs(lim, path, dir, a))
    requires var s := Exec(lim, Begin(lim, path, dir, a), schedule); Final(s) && !Failed(s)
    ensures var s, ps := Exec(lim, Begin(lim, path, dir, a), schedule), PathsOf(lim, All(lim, path, dir, a));
            s.files == multiset(ps) && ((forall p :: s.files[p] <= 1) <==> Distinct(ps))
  {
    hide Exec, Begin, Final, Failed, AllKept, PathsOf, YieldOf, Distinct, FilesFit, Jobs, OpensApart, Spares, All;
    RunYields(lim, path, dir, a, schedule);
    FilesArePaths(lim, All(lim, path, dir, a));
    DistinctCounts(PathsOf(lim, All(lim, path, dir, a)));
  }

  /** A run lists more files than the cap on members if and only if the visits have more paths, though none of
      the archives may have more members. */
  lemma FilesOverCap(lim: Limits, path: string, dir: string, a: Archive, schedule: seq<nat>)
    requires Spares(lim, path, dir, a) && OpensApart(lim, Jobs(lim, path, dir, a))
    requires var s := Exec(lim, Begin(lim, path, dir, a), schedule); Final(s) && !Failed(s)
    ensures |Exec(lim, Begin(lim, path, dir, a), schedule).files| > lim.members <==>
            |PathsOf(lim, All(lim, path, dir, a))| > lim.members
  {
    hide Exec, Begin, Final, Failed, PathsOf, Distinct, Jobs, OpensApart, Spares, All;
    FilesListedOnce(lim, path, dir, a, schedule);
  }

  // --- when a read goes wrong ---

  /** Nothing can stop a thread: no program raises, the total is within the limit and nothing is in the way. */
  ghost predicate Smooth(lim: Limits, s: State, all: Totals, files: set<string>, dirs: set<string>) {
    && Conserved(s, all) && all.raises == 0 && all.bytes <= lim.total
    && Placed(s, files, dirs) && files !! dirs && !Failed(s)
  }

  lemma SmoothStep(lim: Limits, s: State, k: nat, all: Totals, files: set<string>, dirs: set<string>)
    requires Smooth(lim, s, all, files, dirs) && Enabled(s, k)
    ensures var next, first := Act(lim, s, k), s.threads[k].todo[0];
            && Smooth(lim, next, all, files, dirs)
            && next.threads == s.threads[k := Thread(s.threads[k].todo[1..], false)]
            && next.disk == Written(s.disk, first)
  {
    hide Act, Conserved, Placed, Written, Makes;
    var first := s.threads[k].todo[0];
    NothingStops(lim, s, k, all, files, dirs);
    ActConserves(lim, s, k, all);
    ActPlaced(lim, s, k, files, dirs);
    ActMoves(lim, s, k);
    ActDisk(lim, s, k);
    var next := Act(lim, s, k);
    forall j | 0 <= j < |next.threads| ensures !next.threads[j].failed {
      assert j != k ==> next.threads[j] == s.threads[j];
    }
  }

  lemma NothingStops(lim: Limits, s: State, k: nat, all: Totals, files: set<string>, dirs: set<string>)
    requires Smooth(lim, s, all, files, dirs) && Enabled(s, k)
    ensures !Stops(lim, s, s.threads[k].todo[0])
  {
    hide Sum, Bag, Makes, Touch, Made, Opened;
    SumAtLeast(s.threads, k, RaisesOf());
    if Blocked(s, s.threads[k].todo[0]) { ObstructionClashes(s, files, dirs); }
  }

  /** One thread alone, `n` steps on. */
  lemma {:induction false} RunOn(lim: Limits, start: State, schedule: seq<nat>, k: nat, n: nat, all: Totals,
                                 files: set<string>, dirs: set<string>) returns (more: seq<nat>)
    requires var s := Exec(lim, start, schedule);
             && Smooth(lim, s, all, files, dirs) && k < |s.threads| && n <= |s.threads[k].todo|
             && (k > 0 ==> s.threads[0].todo == [])
    ensures var s, end := Exec(lim, start, schedule), Exec(lim, start, more);
            && Smooth(lim, end, all, files, dirs)
            && end.threads == s.threads[k := Thread(s.threads[k].todo[n..], false)]
    decreases n
  {
    hide Exec, Act, Smooth;
    var s := Exec(lim, start, schedule);
    SmoothUnfailed(lim, s, all, files, dirs);
    if n == 0 {
      more := schedule;
      assert s.threads[k] == Thread(s.threads[k].todo[0..], false);
    } else {
      SmoothStep(lim, s, k, all, files, dirs);
      assert (schedule + [k])[..|schedule|] == schedule;
      ExecStep(lim, start, schedule + [k]);
      more := RunOn(lim, start, schedule + [k], k, n - 1, all, files, dirs);
      assert s.threads[k].todo[1..][n - 1..] == s.threads[k].todo[n..];
    }
  }

  /** A file is created before it is finished. */
  lemma {:induction false} CreatedAt(todo: seq<Action>, open: set<string>, p: string) returns (i: nat)
    requires Opened(todo, open) && p in Touch(todo) && p !in open
    ensures i < |todo| && todo[i] == Create(p)
    decreases |todo|
  {
    assert todo != [];
    hide Opened, Touch, TouchOne;
    FirstPlaced(todo, open);
    OneOrOther(todo[0]);
    if todo[0] == Create(p) {
      i := 0;
    } else {
      OpenedFirst(todo, open);
      var j := CreatedAt(todo[1..], open + TouchOne(todo[0]), p);
      i := j + 1;
    }
  }

  lemma OpenedFirst(todo: seq<Action>, open: set<string>)
    requires todo != [] && Opened(todo, open)
    ensures forall p :: p !in open && todo[0] != Create(p) ==> p !in TouchOne(todo[0])
  {
  }

  lemma {:induction false} OpenedAt(lim: Limits, vs: seq<Visit>, p: string) returns (i: nat)
    requires p in OpenedBy(lim, vs)
    ensures i < |Run(lim, vs)| && Run(lim, vs)[i].Read? && Run(lim, vs)[i].path == p
    decreases |vs|
  {
    if vs[0].depth <= lim.depth && vs[0].path == p {
      hide AllMembers;
      i := 0;
    } else {
      hide VisitProgram;
      var j := OpenedAt(lim, vs[1..], p);
      i := |VisitProgram(lim, vs[0])| + j;
    }
  }

  /** A worker that writes an archive which another opens makes a read go wrong, in some interleaving. */
  lemma Misread(lim: Limits, path: string, dir: string, a: Archive, j: nat, k: nat, p: string)
    returns (schedule: seq<nat>)
    requires var vs := All(lim, path, dir, a);
             AllKept(lim, vs) && YieldOf(lim, vs).bytes <= lim.total && FilesFit(lim, path, vs)
    requires var jobs := Jobs(lim, path, dir, a);
             0 < j < |jobs| && 0 < k < |jobs| && j != k && p in PathsOf(lim, jobs[j]) && p in OpenedBy(lim, jobs[k])
    ensures !ReadRight(Exec(lim, Begin(lim, path, dir, a), schedule), k)
  {
    hide Exec, Begin, Programs, Jobs, Smooth, Run, AllKept, YieldOf, FilesFit, All, Act, PathsOf, OpenedBy, Touch,
      Opened, Made, Reads, DirsMade;
    var start, jobs, vs := Begin(lim, path, dir, a), Jobs(lim, path, dir, a), All(lim, path, dir, a);
    var all, files, dirs := TotalsOf(start.threads), AllFiles(lim, path, vs), DirsMade(lim, vs);
    var ps := Programs(lim, path, dir, a);
    JobsAre(lim, path, dir, a);
    RunLeaves(lim, jobs[j]);
    var c := CreatedAt(ps[j], {}, p);
    var r := OpenedAt(lim, jobs[k], p);
    BeginSmooth(lim, path, dir, a);
    ExecNothing(lim, start);
    ThreadsAt(lim, path, dir, a);
    var done := RunOn(lim, start, [], 0, |ps[0]|, all, files, dirs);
    var toRead := RunOn(lim, start, done, k, r, all, files, dirs);
    var toCreate := RunOn(lim, start, toRead, j, c, all, files, dirs);
    var s := Exec(lim, start, toCreate);
    assert s.threads[0].todo == [] && s.threads[j].todo == ps[j][c..] && s.threads[k].todo == ps[k][r..];
    SmoothUnfailed(lim, s, all, files, dirs);
    schedule := toCreate + [j];
    assert schedule[..|toCreate|] == toCreate;
    ExecStep(lim, start, schedule);
    SmoothStep(lim, s, j, all, files, dirs);
    SmoothUnfailed(lim, Act(lim, s, j), all, files, dirs);
  }

  lemma SmoothUnfailed(lim: Limits, s: State, all: Totals, files: set<string>, dirs: set<string>)
    requires Smooth(lim, s, all, files, dirs)
    ensures forall k :: 0 <= k < |s.threads| ==> !s.threads[k].failed
  {
  }

  lemma ThreadsAt(lim: Limits, path: string, dir: string, a: Archive)
    ensures var ps, s := Programs(lim, path, dir, a), Begin(lim, path, dir, a);
            |s.threads| == |ps| && forall k :: 0 <= k < |ps| ==> s.threads[k].todo == ps[k]
  {
    hide Programs;
  }

  lemma BeginSmooth(lim: Limits, path: string, dir: string, a: Archive)
    requires var vs := All(lim, path, dir, a);
             AllKept(lim, vs) && YieldOf(lim, vs).bytes <= lim.total && FilesFit(lim, path, vs)
    ensures var s, vs := Begin(lim, path, dir, a), All(lim, path, dir, a);
            Smooth(lim, s, TotalsOf(s.threads), AllFiles(lim, path, vs), DirsMade(lim, vs))
  {
    hide Programs, TotalsOf, Conserved, Placed, AllKept, YieldOf, FilesFit, All, DirsMade, AllFiles;
    BeginConserved(lim, path, dir, a);
    BeginPlaced(lim, path, dir, a);
    FitsApart(lim, path, All(lim, path, dir, a));
  }

  /** Every read is right in every interleaving if and only if no worker writes an archive that another opens,
      for bundles that break no cap and fit on the disk. */
  lemma ReadsExactly(lim: Limits, path: string, dir: string, a: Archive)
    requires Spares(lim, path, dir, a)
    requires var vs := All(lim, path, dir, a);
             AllKept(lim, vs) && YieldOf(lim, vs).bytes <= lim.total && FilesFit(lim, path, vs)
    ensures (forall schedule, k: nat :: ReadRight(Exec(lim, Begin(lim, path, dir, a), schedule), k)) <==>
            OpensApart(lim, Jobs(lim, path, dir, a))
  {
    hide Exec, Begin, Jobs, AllKept, YieldOf, FilesFit, All, ReadRight, Spares, PathsOf, OpenedBy;
    var jobs := Jobs(lim, path, dir, a);
    if OpensApart(lim, jobs) {
      forall schedule, k: nat ensures ReadRight(Exec(lim, Begin(lim, path, dir, a), schedule), k) {
        ReadsAreRight(lim, path, dir, a, schedule, k);
      }
    } else {
      var j, k, p :| 0 < j < |jobs| && 0 < k < |jobs| && j != k
                     && p in PathsOf(lim, jobs[j]) && p in OpenedBy(lim, jobs[k]);
      var schedule := Misread(lim, path, dir, a, j, k, p);
    }
  }
}
