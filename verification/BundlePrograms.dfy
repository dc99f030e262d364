/** What the programs of an extraction do: they count, check and write in step, and what they write, list and
    note are the sums over the archives that are visited. */
module BundlePrograms {
  import opened Text
  import opened Bundle

  // --- programs keep the discipline ---

  lemma {:induction false} DisciplinedAppend(a: seq<Action>, b: seq<Action>)
    requires Disciplined(a) && Disciplined(b)
    ensures Disciplined(a + b)
    decreases |a|
  {
    if a == [] {
      EmptyUnit(b);
    } else if a[0].Add? {
      assert (a + b)[3..] == a[3..] + b;
      DisciplinedAppend(a[3..], b);
    } else {
      assert (a + b)[1..] == a[1..] + b;
      DisciplinedAppend(a[1..], b);
    }
  }

  lemma {:induction false} CopyDisciplined(lim: Limits, v: Visit, chunks: seq<nat>, written: nat)
    ensures Disciplined(Copy(lim, v, chunks, written))
    decreases |chunks|
  {
    if chunks != [] {
      var w := written + chunks[0];
      var rest := if w > lim.member then [Raise] else [Write(chunks[0])] + Copy(lim, v, chunks[1..], w);
      var c := [Add(chunks[0]), Check(chunks[0])] + rest;
      assert Copy(lim, v, chunks, written)[1..] == c;
      if w > lim.member {
        assert c[3..] == [];
      } else {
        CopyDisciplined(lim, v, chunks[1..], w);
        assert c[3..] == Copy(lim, v, chunks[1..], w);
      }
    }
  }

  predicate Simple(a: Action) {
    !a.Add? && !a.Check? && !a.Write?
  }

  lemma {:induction false} SimpleDisciplined(todo: seq<Action>)
    requires forall k :: 0 <= k < |todo| ==> Simple(todo[k])
    ensures Disciplined(todo)
    decreases |todo|
  {
    if todo != [] { SimpleDisciplined(todo[1..]); }
  }

  lemma MemberDisciplined(lim: Limits, v: Visit, m: Member)
    ensures Disciplined(OneMember(lim, v, m))
  {
    hide Disciplined, Copy, TooLong, Refusal, PathOf;
    SimpleDisciplined([]);
    SimpleDisciplined(Finish(v, m));
    SimpleDisciplined([Create(PathOf(v.dir, m))]);
    SimpleDisciplined([MakeDir(PathOf(v.dir, m))]);
    SimpleDisciplined([MakeParents(PathOf(v.dir, m))]);
    SimpleDisciplined([Read(v.path, v.archive)]);
    match Refusal(lim, m)
    case Some(reason) => SimpleDisciplined([Skip(reason)]);
    case None =>
      var copy := Copy(lim, v, m.chunks, 0);
      CopyDisciplined(lim, v, m.chunks, 0);
      var rest := if TooLong(lim, m.chunks, 0) then [] else Finish(v, m);
      DisciplinedAppend(copy, rest);
      DisciplinedAppend([Create(PathOf(v.dir, m))], copy + rest);
      var file := [Create(PathOf(v.dir, m))] + (copy + rest);
      DisciplinedAppend([Read(v.path, v.archive)], file);
      DisciplinedAppend([MakeParents(PathOf(v.dir, m))], [Read(v.path, v.archive)] + file);
  }

  lemma {:induction false} MembersDisciplined(lim: Limits, v: Visit, ms: seq<Member>)
    ensures Disciplined(AllMembers(lim, v, ms))
    decreases |ms|
  {
    if ms != [] {
      hide Disciplined, OneMember, Fits;
      MemberDisciplined(lim, v, ms[0]);
      MembersDisciplined(lim, v, ms[1..]);
      DisciplinedAppend(OneMember(lim, v, ms[0]), AllMembers(lim, v, ms[1..]));
      EmptyUnit(OneMember(lim, v, ms[0]));
    } else {
      SimpleDisciplined([]);
    }
  }

  lemma VisitDisciplined(lim: Limits, v: Visit)
    ensures Disciplined(VisitProgram(lim, v))
  {
    hide Disciplined, AllMembers, Base;
    var read := [Read(v.path, v.archive)];
    SimpleDisciplined(read);
    SimpleDisciplined([Raise]);
    SimpleDisciplined([Skip(Base(v.path) + ": max recursion depth")]);
    SimpleDisciplined([Skip(Base(v.path) + ": not a zip")]);
    DisciplinedAppend(read, [Raise]);
    DisciplinedAppend(read, [Skip(Base(v.path) + ": not a zip")]);
    if v.archive.Zip? {
      MembersDisciplined(lim, v, v.archive.members);
      DisciplinedAppend(read, AllMembers(lim, v, v.archive.members));
    }
  }

  lemma {:induction false} RunDisciplined(lim: Limits, vs: seq<Visit>)
    ensures Disciplined(Run(lim, vs))
    decreases |vs|
  {
    hide Disciplined, VisitProgram;
    SimpleDisciplined([]);
    if vs != [] {
      VisitDisciplined(lim, vs[0]);
      RunDisciplined(lim, vs[1..]);
      DisciplinedAppend(VisitProgram(lim, vs[0]), Run(lim, vs[1..]));
    }
  }

  lemma {:induction false} RunsAt(lim: Limits, jobs: seq<seq<Visit>>)
    ensures |Runs(lim, jobs)| == |jobs| && forall k :: 0 <= k < |jobs| ==> Runs(lim, jobs)[k] == Run(lim, jobs[k])
    decreases |jobs|
  {
    hide Run;
    if jobs != [] { RunsAt(lim, jobs[1..]); }
  }

  lemma RunsDisciplined(lim: Limits, jobs: seq<seq<Visit>>)
    ensures forall k :: 0 <= k < |Runs(lim, jobs)| ==> Disciplined(Runs(lim, jobs)[k])
  {
    hide Disciplined, Run, Runs;
    RunsAt(lim, jobs);
    forall k | 0 <= k < |jobs| ensures Disciplined(Run(lim, jobs[k])) { RunDisciplined(lim, jobs[k]); }
  }

  // --- what the visits yield ---

  /** Bytes, file paths and skip notes of an extraction. */
  datatype Yield = Yield(bytes: nat, files: multiset<string>, skipped: multiset<string>)

  const NO_YIELD := Yield(0, multiset{}, multiset{})

  function Both(a: Yield, b: Yield): Yield {
    Yield(a.bytes + b.bytes, a.files + b.files, a.skipped + b.skipped)
  }

  function MemberYield(lim: Limits, dir: string, m: Member): Yield {
    match Refusal(lim, m)
    case Some(reason) => Yield(0, multiset{}, multiset{reason})
    case None => if m.isDir then NO_YIELD else Yield(Size(m.chunks), multiset{PathOf(dir, m)}, multiset{})
  }

  function MembersYield(lim: Limits, dir: string, ms: seq<Member>): Yield {
    if ms == [] then NO_YIELD else Both(MemberYield(lim, dir, ms[0]), MembersYield(lim, dir, ms[1..]))
  }

  function VisitYield(lim: Limits, v: Visit): Yield {
    if v.depth > lim.depth then Yield(0, multiset{}, multiset{Base(v.path) + ": max recursion depth"})
    else
      match v.archive
      case NotZip => Yield(0, multiset{}, multiset{Base(v.path) + ": not a zip"})
      case Zip(ms) => MembersYield(lim, v.dir, ms)
  }

  function YieldOf(lim: Limits, vs: seq<Visit>): Yield {
    if vs == [] then NO_YIELD else Both(VisitYield(lim, vs[0]), YieldOf(lim, vs[1..]))
  }

  /** A program raises nothing and does what the yield says, or raises. */
  ghost predicate Does(todo: seq<Action>, ok: bool, y: Yield) {
    && (Raises(todo) == 0 <==> ok)
    && (ok ==> Adds(todo) == Writes(todo) == y.bytes && Dones(todo) == y.files && Skips(todo) == y.skipped)
  }

  lemma {:induction false} CountsAppend(a: seq<Action>, b: seq<Action>)
    ensures Adds(a + b) == Adds(a) + Adds(b) && Writes(a + b) == Writes(a) + Writes(b)
            && Raises(a + b) == Raises(a) + Raises(b)
    ensures Dones(a + b) == Dones(a) + Dones(b) && Skips(a + b) == Skips(a) + Skips(b)
    decreases |a|
  {
    if a == [] {
      EmptyUnit(b);
    } else {
      assert (a + b)[1..] == a[1..] + b;
      CountsAppend(a[1..], b);
    }
  }

  lemma DoesAppend(a: seq<Action>, oka: bool, ya: Yield, b: seq<Action>, okb: bool, yb: Yield)
    requires Does(a, oka, ya) && Does(b, okb, yb)
    ensures Does(a + b, oka && okb, Both(ya, yb))
  {
    hide Adds, Writes, Raises, Dones, Skips;
    CountsAppend(a, b);
  }

  lemma DoesNothing()
    ensures Does([], true, NO_YIELD)
  {
  }

  /** A step that neither counts nor lists anything. */
  predicate Silent(a: Action) {
    a.Read? || a.MakeDir? || a.MakeParents? || a.Create? || a.Save?
  }

  lemma DoesOne(a: Action)
    ensures a.Skip? ==> Does([a], true, Yield(0, multiset{}, multiset{a.reason}))
    ensures a.Done? ==> Does([a], true, Yield(0, multiset{a.path}, multiset{}))
    ensures Silent(a) ==> Does([a], true, NO_YIELD)
    ensures a.Raise? ==> forall y :: Does([a], false, y)
  {
    assert [a][1..] == [];
  }

  /** A step without a yield before or after a program changes nothing about what it does. */
  lemma DoesAfter(a: Action, b: seq<Action>, ok: bool, y: Yield)
    requires Silent(a) && Does(b, ok, y)
    ensures Does([a] + b, ok, y)
  {
    hide Does;
    DoesOne(a);
    DoesAppend([a], true, NO_YIELD, b, ok, y);
    BothNothing(y);
  }

  lemma BothNothing(y: Yield)
    ensures Both(NO_YIELD, y) == y && Both(y, NO_YIELD) == y
  {
  }

  lemma ChunkCounts(c: nat)
    ensures var first := [Add(c), Check(c)];
            && Adds(first) == c && Writes(first) == 0 && Raises(first) == 0
            && Dones(first) == multiset{} == Skips(first)
            && Adds([Write(c)]) == 0 && Writes([Write(c)]) == c && Raises([Write(c)]) == 0
            && Dones([Write(c)]) == multiset{} == Skips([Write(c)])
  {
    assert [Add(c)][1..] == [] && [Check(c)][1..] == [] && [Write(c)][1..] == [];
    CountsAppend([Add(c)], [Check(c)]);
    assert [Add(c), Check(c)] == [Add(c)] + [Check(c)];
  }

  lemma ChunkDoes(c: nat, rest: seq<Action>, ok: bool, n: nat)
    requires Does(rest, ok, Yield(n, multiset{}, multiset{}))
    ensures Does([Add(c), Check(c)] + ([Write(c)] + rest), ok, Yield(c + n, multiset{}, multiset{}))
  {
    hide Adds, Writes, Raises, Dones, Skips;
    ChunkCounts(c);
    CountsAppend([Write(c)], rest);
    CountsAppend([Add(c), Check(c)], [Write(c)] + rest);
  }

  lemma ChunkRaises(c: nat, y: Yield)
    ensures Does([Add(c), Check(c)] + [Raise], false, y)
  {
    hide Adds, Writes, Dones, Skips;
    CountsAppend([Add(c), Check(c)], [Raise]);
    DoesOne(Raise);
  }

  lemma {:induction false} DoesCopy(lim: Limits, v: Visit, chunks: seq<nat>, written: nat)
    requires written <= lim.member
    ensures TooLong(lim, chunks, written) <==> written + Size(chunks) > lim.member
    ensures Does(Copy(lim, v, chunks, written), !TooLong(lim, chunks, written),
                 Yield(Size(chunks), multiset{}, multiset{}))
    decreases |chunks|
  {
    hide Does;
    if chunks == [] {
      DoesNothing();
    } else {
      var c := chunks[0];
      var w := written + c;
      var y := Yield(Size(chunks), multiset{}, multiset{});
      var read := Read(v.path, v.archive);
      if w > lim.member {
        ChunkRaises(c, y);
        DoesAfter(read, [Add(c), Check(c)] + [Raise], false, y);
      } else {
        DoesCopy(lim, v, chunks[1..], w);
        var rest := Copy(lim, v, chunks[1..], w);
        ChunkDoes(c, rest, !TooLong(lim, chunks[1..], w), Size(chunks[1..]));
        DoesAfter(read, [Add(c), Check(c)] + ([Write(c)] + rest), !TooLong(lim, chunks[1..], w), y);
      }
    }
  }

  lemma DoesFinish(v: Visit, m: Member)
    ensures Does(Finish(v, m), true, Yield(0, multiset{PathOf(v.dir, m)}, multiset{}))
  {
    hide Does, PathOf;
    var path := PathOf(v.dir, m);
    DoesOne(Done(path));
    DoesAfter(Save(path, m.content), [Done(path)], true, Yield(0, multiset{path}, multiset{}));
    assert [Save(path, m.content)] + [Done(path)] == Finish(v, m);
  }

  lemma DoesMember(lim: Limits, v: Visit, m: Member)
    ensures Does(OneMember(lim, v, m), Fits(lim, m), MemberYield(lim, v.dir, m))
  {
    hide Does, Copy, TooLong, Refusal, Size, PathOf, Finish;
    match Refusal(lim, m)
    case Some(reason) => DoesOne(Skip(reason));
    case None =>
      var path := PathOf(v.dir, m);
      DoesOne(MakeDir(path));
      if !m.isDir {
        var copy, y := Copy(lim, v, m.chunks, 0), MemberYield(lim, v.dir, m);
        var n := Yield(Size(m.chunks), multiset{}, multiset{});
        DoesCopy(lim, v, m.chunks, 0);
        if TooLong(lim, m.chunks, 0) {
          DoesNotOk(copy, n, y);
          EmptyUnit(copy);
          DoesAfter(Create(path), copy, false, y);
          DoesAfter(Read(v.path, v.archive), [Create(path)] + copy, false, y);
          DoesAfter(MakeParents(path), [Read(v.path, v.archive)] + ([Create(path)] + copy), false, y);
        } else {
          DoesFinish(v, m);
          DoesAppend(copy, true, n, Finish(v, m), true, Yield(0, multiset{PathOf(v.dir, m)}, multiset{}));
          assert Both(n, Yield(0, multiset{PathOf(v.dir, m)}, multiset{})) == y;
          DoesAfter(Create(path), copy + Finish(v, m), true, y);
          DoesAfter(Read(v.path, v.archive), [Create(path)] + (copy + Finish(v, m)), true, y);
          DoesAfter(MakeParents(path), [Read(v.path, v.archive)] + ([Create(path)] + (copy + Finish(v, m))), true, y);
        }
      }
  }

  lemma DoesNotOk(todo: seq<Action>, y: Yield, z: Yield)
    ensures Does(todo, false, y) ==> Does(todo, false, z)
  {
  }

  lemma {:induction false} DoesMembers(lim: Limits, v: Visit, ms: seq<Member>)
    ensures Does(AllMembers(lim, v, ms), AllFit(lim, ms), MembersYield(lim, v.dir, ms))
    decreases |ms|
  {
    hide Does, OneMember, MemberYield, Fits;
    if ms == [] {
      DoesNothing();
    } else {
      DoesMember(lim, v, ms[0]);
      DoesMembers(lim, v, ms[1..]);
      if Fits(lim, ms[0]) {
        DoesAppend(OneMember(lim, v, ms[0]), true, MemberYield(lim, v.dir, ms[0]),
                   AllMembers(lim, v, ms[1..]), AllFit(lim, ms[1..]), MembersYield(lim, v.dir, ms[1..]));
      } else {
        EmptyUnit(OneMember(lim, v, ms[0]));
        DoesNotOk(OneMember(lim, v, ms[0]), MemberYield(lim, v.dir, ms[0]), MembersYield(lim, v.dir, ms));
      }
    }
  }

  lemma DoesVisit(lim: Limits, v: Visit)
    requires v.depth >= 1
    ensures Does(VisitProgram(lim, v), Kept(lim, v), VisitYield(lim, v))
  {
    hide Does, AllMembers, MembersYield, AllFit, Base;
    var y := VisitYield(lim, v);
    DoesOne(Skip(Base(v.path) + ": max recursion depth"));
    if v.depth <= lim.depth {
      var read := Read(v.path, v.archive);
      DoesOne(Raise);
      match v.archive
      case NotZip =>
        DoesOne(Skip(Base(v.path) + ": not a zip"));
        DoesAfter(read, [if v.depth == 1 then Raise else Skip(Base(v.path) + ": not a zip")], v.depth > 1, y);
      case Zip(ms) =>
        DoesMembers(lim, v, ms);
        DoesAfter(read, if |ms| > lim.members then [Raise] else AllMembers(lim, v, ms), Kept(lim, v), y);
    }
  }

  predicate Deep(vs: seq<Visit>) {
    forall k :: 0 <= k < |vs| ==> vs[k].depth >= 1
  }

  lemma {:induction false} DoesRun(lim: Limits, vs: seq<Visit>)
    requires Deep(vs)
    ensures Does(Run(lim, vs), AllKept(lim, vs), YieldOf(lim, vs))
    decreases |vs|
  {
    hide Does, VisitProgram, Kept, VisitYield;
    DoesNothing();
    if vs != [] {
      DoesVisit(lim, vs[0]);
      DoesRun(lim, vs[1..]);
      DoesAppend(VisitProgram(lim, vs[0]), Kept(lim, vs[0]), VisitYield(lim, vs[0]),
                 Run(lim, vs[1..]), AllKept(lim, vs[1..]), YieldOf(lim, vs[1..]));
    }
  }

  /** The threads together do what a yield says, or some of them raises. */
  ghost predicate TogetherDo(ts: seq<Thread>, ok: bool, y: Yield) {
    var t := TotalsOf(ts);
    && (t.raises == 0 <==> ok)
    && (ok ==> t.bytes == t.writes == y.bytes && t.files == y.files && t.skipped == y.skipped)
  }

  lemma TogetherCons(p: seq<Action>, okp: bool, yp: Yield, rest: seq<seq<Action>>, ok: bool, y: Yield)
    requires Does(p, okp, yp) && TogetherDo(Threads(rest), ok, y)
    ensures TogetherDo(Threads([p] + rest), okp && ok, Both(yp, y))
  {
    hide Adds, Writes, Raises, Dones, Skips;
    var ts := Threads([p] + rest);
    assert ts[0] == Thread(p, false) && ts[1..] == Threads(rest);
  }

  lemma TogetherNothing()
    ensures TogetherDo(Threads([]), true, NO_YIELD)
  {
  }

  /** The visits of all threads. */
  function Flat(jobs: seq<seq<Visit>>): seq<Visit> {
    if jobs == [] then [] else jobs[0] + Flat(jobs[1..])
  }

  lemma {:induction false} KeptAppend(lim: Limits, a: seq<Visit>, b: seq<Visit>)
    ensures AllKept(lim, a + b) <==> AllKept(lim, a) && AllKept(lim, b)
    decreases |a|
  {
    hide Kept;
    if a == [] {
      EmptyUnit(b);
    } else {
      assert (a + b)[1..] == a[1..] + b;
      KeptAppend(lim, a[1..], b);
    }
  }

  lemma {:induction false} YieldAppend(lim: Limits, a: seq<Visit>, b: seq<Visit>)
    ensures YieldOf(lim, a + b) == Both(YieldOf(lim, a), YieldOf(lim, b))
    decreases |a|
  {
    hide VisitYield, Both;
    if a == [] {
      EmptyUnit(b);
      BothNothing(YieldOf(lim, b));
    } else {
      assert (a + b)[1..] == a[1..] + b;
      YieldAppend(lim, a[1..], b);
      BothAssoc(VisitYield(lim, a[0]), YieldOf(lim, a[1..]), YieldOf(lim, b));
    }
  }

  lemma {:induction false} RunAppend(lim: Limits, a: seq<Visit>, b: seq<Visit>)
    ensures Run(lim, a + b) == Run(lim, a) + Run(lim, b)
    decreases |a|
  {
    hide VisitProgram;
    if a == [] {
      EmptyUnit(b);
      EmptyUnit(Run(lim, b));
    } else {
      assert (a + b)[1..] == a[1..] + b;
      RunAppend(lim, a[1..], b);
      Assoc(VisitProgram(lim, a[0]), Run(lim, a[1..]), Run(lim, b));
    }
  }

  lemma BothAssoc(a: Yield, b: Yield, c: Yield)
    ensures Both(Both(a, b), c) == Both(a, Both(b, c))
  {
    assert (a.files + b.files) + c.files == a.files + (b.files + c.files);
    assert (a.skipped + b.skipped) + c.skipped == a.skipped + (b.skipped + c.skipped);
  }

  /** All threads together do what the visits of all of them yield. */
  lemma {:induction false} RunsDo(lim: Limits, jobs: seq<seq<Visit>>)
    requires forall k :: 0 <= k < |jobs| ==> Deep(jobs[k])
    ensures TogetherDo(Threads(Runs(lim, jobs)), AllKept(lim, Flat(jobs)), YieldOf(lim, Flat(jobs)))
    decreases |jobs|
  {
    hide TogetherDo, Does, Run, AllKept, YieldOf, Deep;
    NothingFlat(lim);
    TogetherNothing();
    if jobs != [] {
      DoesRun(lim, jobs[0]);
      RunsDo(lim, jobs[1..]);
      KeptAppend(lim, jobs[0], Flat(jobs[1..]));
      YieldAppend(lim, jobs[0], Flat(jobs[1..]));
      TogetherCons(Run(lim, jobs[0]), AllKept(lim, jobs[0]), YieldOf(lim, jobs[0]), Runs(lim, jobs[1..]),
                   AllKept(lim, Flat(jobs[1..])), YieldOf(lim, Flat(jobs[1..])));
    }
  }

  lemma NothingFlat(lim: Limits)
    ensures AllKept(lim, []) && YieldOf(lim, []) == NO_YIELD
  {
  }

  lemma {:induction false} VisitsDeep(lim: Limits, d: Disk, path: string, dir: string, depth: nat)
    requires depth >= 1
    ensures Deep(Visits(lim, d, path, dir, depth))
    decreases Levels(lim, depth), 0
  {
    hide After, VisitProgram, NestedVisits, Children, Kept, Held;
    var v := Visit(path, dir, Held(d, path), depth);
    if v.depth <= lim.depth && Kept(lim, v) {
      NestedDeep(lim, After(d, VisitProgram(lim, v)), dir, Children(lim, v), depth + 1);
    }
  }

  lemma {:induction false} NestedDeep(lim: Limits, d: Disk, dir: string, ns: seq<Member>, depth: nat)
    requires depth >= 1
    ensures Deep(NestedVisits(lim, d, dir, ns, depth))
    decreases Levels(lim, depth), 1 + |ns|
  {
    hide After, Run, Visits, AllKept;
    if ns != [] {
      VisitsDeep(lim, d, PathOf(dir, ns[0]), NestedDir(PathOf(dir, ns[0])), depth);
      NestedDeep(lim, After(d, Run(lim, MemberVisits(lim, d, dir, ns[0], depth))), dir, ns[1..], depth);
    }
  }

  lemma JobsDeep(lim: Limits, path: string, dir: string, a: Archive)
    ensures var jobs := Jobs(lim, path, dir, a); jobs != [] && forall k :: 0 <= k < |jobs| ==> Deep(jobs[k])
  {
    hide Visits, Kept, Children, Extracted, Deep, PathOf, NestedDir;
    VisitsDeep(lim, map[path := Whole(a)], path, dir, 1);
    RootDeep(path, dir, a);
    var d, ns := Extracted(lim, path, dir, a), Children(lim, Root(path, dir, a));
    forall k | 0 <= k < |ns| ensures Deep(MemberVisits(lim, d, dir, ns[k], 2)) {
      VisitsDeep(lim, d, PathOf(dir, ns[k]), NestedDir(PathOf(dir, ns[k])), 2);
    }
  }

  lemma RootDeep(path: string, dir: string, a: Archive)
    ensures Deep([Root(path, dir, a)])
  {
  }

  // --- what the visits write ---

  /** The files that members are written to, up to one that breaks the cap. */
  function MemberPaths(lim: Limits, dir: string, ms: seq<Member>): seq<string> {
    if ms == [] then []
    else
      (if Taken(lim, ms[0]) then [PathOf(dir, ms[0])] else [])
      + (if Fits(lim, ms[0]) then MemberPaths(lim, dir, ms[1..]) else [])
  }

  /** What extracting one member makes: the directory it is, or those above it. */
  function DirsOf(lim: Limits, dir: string, m: Member): set<string> {
    if Refusal(lim, m).Some? then {}
    else if m.isDir then Above(PathOf(dir, m)) + {PathOf(dir, m)}
    else Above(PathOf(dir, m))
  }

  function MemberDirs(lim: Limits, dir: string, ms: seq<Member>): set<string> {
    if ms == [] then {}
    else DirsOf(lim, dir, ms[0]) + (if Fits(lim, ms[0]) then MemberDirs(lim, dir, ms[1..]) else {})
  }

  predicate Extracts(lim: Limits, v: Visit) {
    v.depth <= lim.depth && v.archive.Zip? && |v.archive.members| <= lim.members
  }

  function VisitPaths(lim: Limits, v: Visit): seq<string> {
    if Extracts(lim, v) then MemberPaths(lim, v.dir, v.archive.members) else []
  }

  function VisitDirs(lim: Limits, v: Visit): set<string> {
    if Extracts(lim, v) then MemberDirs(lim, v.dir, v.archive.members) else {}
  }

  function PathsOf(lim: Limits, vs: seq<Visit>): seq<string> {
    if vs == [] then [] else VisitPaths(lim, vs[0]) + PathsOf(lim, vs[1..])
  }

  function DirsMade(lim: Limits, vs: seq<Visit>): set<string> {
    if vs == [] then {} else VisitDirs(lim, vs[0]) + DirsMade(lim, vs[1..])
  }

  /** The archive files that are opened. */
  function OpenedBy(lim: Limits, vs: seq<Visit>): set<string> {
    if vs == [] then {} else (if vs[0].depth <= lim.depth then {vs[0].path} else {}) + OpenedBy(lim, vs[1..])
  }

  /** The paths that a program still writes. */
  function Touch(todo: seq<Action>): set<string> {
    if todo == [] then {} else TouchOne(todo[0]) + Touch(todo[1..])
  }

  function TouchOne(a: Action): set<string> {
    match a
    case Create(path) => {path}
    case Save(path, _) => {path}
    case _ => {}
  }

  /** The directories that a program still makes. */
  function Made(todo: seq<Action>): set<string> {
    if todo == [] then {} else Makes(todo[0]) + Made(todo[1..])
  }

  /** The archives that a program still reads. */
  function Reads(todo: seq<Action>): set<string> {
    if todo == [] then {} else ReadsOne(todo[0]) + Reads(todo[1..])
  }

  function ReadsOne(a: Action): set<string> {
    if a.Read? then {a.path} else {}
  }

  /** No file is finished that has not been created before. */
  predicate Opened(todo: seq<Action>, open: set<string>) {
    todo == [] || ((todo[0].Save? ==> todo[0].path in open) && Opened(todo[1..], open + TouchOne(todo[0])))
  }

  lemma {:induction false} OpenedMore(todo: seq<Action>, open: set<string>, more: set<string>)
    requires Opened(todo, open) && open <= more
    ensures Opened(todo, more)
    decreases |todo|
  {
    hide TouchOne;
    if todo != [] { OpenedMore(todo[1..], open + TouchOne(todo[0]), more + TouchOne(todo[0])); }
  }

  lemma {:induction false} OpenedAppend(a: seq<Action>, b: seq<Action>, open: set<string>)
    requires Opened(a, open) && Opened(b, open + Touch(a))
    ensures Opened(a + b, open)
    decreases |a|
  {
    hide TouchOne;
    if a == [] {
      EmptyUnit(b);
      assert open + {} == open;
    } else {
      assert (a + b)[1..] == a[1..] + b;
      assert open + TouchOne(a[0]) + Touch(a[1..]) == open + Touch(a);
      OpenedAppend(a[1..], b, open + TouchOne(a[0]));
    }
  }

  lemma {:induction false} TouchAppend(a: seq<Action>, b: seq<Action>)
    ensures Touch(a + b) == Touch(a) + Touch(b) && Made(a + b) == Made(a) + Made(b)
    ensures Reads(a + b) == Reads(a) + Reads(b)
    decreases |a|
  {
    hide TouchOne, Makes, ReadsOne;
    if a == [] {
      EmptyUnit(b);
    } else {
      assert (a + b)[1..] == a[1..] + b;
      TouchAppend(a[1..], b);
    }
  }

  /** A program reads no other archives, writes just these files and makes just these directories, and creates a
      file before it finishes it. */
  ghost predicate Leaves(t: seq<Action>, from: set<string>, files: seq<string>, dirs: set<string>) {
    Reads(t) <= from && (forall p :: p in Touch(t) <==> p in files) && Made(t) == dirs && Opened(t, {})
  }

  lemma LeavesNothing(from: set<string>)
    ensures Leaves([], from, [], {})
  {
  }

  lemma LeavesOne(a: Action, from: set<string>)
    requires ReadsOne(a) <= from
    ensures !a.Create? && !a.Save? ==> Leaves([a], from, [], Makes(a))
    ensures a.Create? ==> Leaves([a], from, [a.path], {})
    ensures a.Skip? || a.Read? || a.Add? || a.Check? || a.Write? || a.Done? || a.Raise? ==> Makes(a) == {}
  {
    assert [a][1..] == [];
  }

  lemma LeavesAppend(r: set<string>, a: seq<Action>, fa: seq<string>, da: set<string>, b: seq<Action>,
                     fb: seq<string>, db: set<string>)
    requires Leaves(a, r, fa, da) && Leaves(b, r, fb, db)
    ensures Leaves(a + b, r, fa + fb, da + db)
  {
    hide Touch, Made, Opened, Reads;
    TouchAppend(a, b);
    OpenedMore(b, {}, {} + Touch(a));
    OpenedAppend(a, b, {});
  }

  /** A step that writes and makes nothing. */
  lemma LeavesAfter(a: Action, b: seq<Action>, from: set<string>, files: seq<string>, dirs: set<string>)
    requires a.Skip? || a.Read? || a.Add? || a.Check? || a.Write? || a.Done? || a.Raise?
    requires ReadsOne(a) <= from && Leaves(b, from, files, dirs)
    ensures Leaves([a] + b, from, files, dirs)
  {
    hide Leaves, Makes, ReadsOne;
    LeavesOne(a, from);
    LeavesAppend(from, [a], [], {}, b, files, dirs);
    EmptyUnit(files);
    assert {} + dirs == dirs;
  }

  lemma {:induction false} CopyLeaves(lim: Limits, v: Visit, chunks: seq<nat>, written: nat)
    ensures Leaves(Copy(lim, v, chunks, written), {v.path}, [], {})
    decreases |chunks|
  {
    hide Leaves;
    var r := {v.path};
    LeavesNothing(r);
    if chunks != [] {
      var c, w := chunks[0], written + chunks[0];
      var rest := if w > lim.member then [Raise] else [Write(c)] + Copy(lim, v, chunks[1..], w);
      CopyLeaves(lim, v, chunks[1..], w);
      LeavesAfter(Write(c), Copy(lim, v, chunks[1..], w), r, [], {});
      LeavesAfter(Raise, [], r, [], {});
      EmptyUnit([Raise]);
      LeavesAfter(Check(c), rest, r, [], {});
      LeavesAfter(Add(c), [Check(c)] + rest, r, [], {});
      assert [Add(c)] + ([Check(c)] + rest) == [Add(c), Check(c)] + rest;
      LeavesAfter(Read(v.path, v.archive), [Add(c), Check(c)] + rest, r, [], {});
    }
  }

  lemma MemberLeaves(lim: Limits, v: Visit, m: Member)
    ensures Leaves(OneMember(lim, v, m), {v.path}, if Taken(lim, m) then [PathOf(v.dir, m)] else [],
                   DirsOf(lim, v.dir, m))
  {
    hide Leaves, Copy, Refusal, PathOf, TooLong, Above;
    var p, r := PathOf(v.dir, m), {v.path};
    LeavesNothing(r);
    match Refusal(lim, m)
    case Some(reason) => LeavesOne(Skip(reason), r);
    case None =>
      LeavesOne(MakeDir(p), r);
      if !m.isDir {
        CopyLeaves(lim, v, m.chunks, 0);
        FileLeaves(v, p, Copy(lim, v, m.chunks, 0), m.content);
      }
  }

  /** The program of one file, whether its copy raises or it is finished. */
  lemma FileLeaves(v: Visit, p: string, copy: seq<Action>, content: Archive)
    requires Leaves(copy, {v.path}, [], {})
    ensures var start := (end: seq<Action>) =>
                           [MakeParents(p)] + ([Read(v.path, v.archive)] + ([Create(p)] + (copy + end)));
            && Leaves(start([]), {v.path}, [p], Above(p))
            && Leaves(start([Save(p, content), Done(p)]), {v.path}, [p], Above(p))
  {
    hide Leaves, Above;
    var r := {v.path};
    LeavesOne(Create(p), r);
    LeavesAppend(r, [Create(p)], [p], {}, copy, [], {});
    var none: set<string> := {};
    assert [p] + [] == [p] && none + none == none;
    FinishLeaves([Create(p)] + copy, r, p, content);
    Assoc([Create(p)], copy, [Save(p, content), Done(p)]);
    ParentsLeave(v, p, [Create(p)] + copy);
    ParentsLeave(v, p, [Create(p)] + (copy + [Save(p, content), Done(p)]));
    EmptyUnit(copy);
  }

  lemma ParentsLeave(v: Visit, p: string, t: seq<Action>)
    requires Leaves(t, {v.path}, [p], {})
    ensures Leaves([MakeParents(p)] + ([Read(v.path, v.archive)] + t), {v.path}, [p], Above(p))
  {
    hide Leaves, Above;
    LeavesAfter(Read(v.path, v.archive), t, {v.path}, [p], {});
    LeavesOne(MakeParents(p), {v.path});
    LeavesAppend({v.path}, [MakeParents(p)], [], Above(p), [Read(v.path, v.archive)] + t, [p], {});
    assert [] + [p] == [p] && Above(p) + {} == Above(p);
  }

  lemma FinishLeaves(t: seq<Action>, from: set<string>, p: string, content: Archive)
    requires Leaves(t, from, [p], {})
    ensures Leaves(t + [Save(p, content), Done(p)], from, [p], {})
  {
    hide Touch, Made, Opened, Reads;
    var end := [Save(p, content), Done(p)];
    FinishOpened(p, content);
    TouchAppend(t, end);
    assert p in Touch(t);
    OpenedMore(end, {p}, {} + Touch(t));
    OpenedAppend(t, end, {});
  }

  lemma FinishOpened(p: string, content: Archive)
    ensures var end := [Save(p, content), Done(p)];
            Touch(end) == {p} && Made(end) == {} && Opened(end, {p}) && Reads(end) == {}
  {
    var end := [Save(p, content), Done(p)];
    assert [Done(p)][1..] == [];
    assert Touch([Done(p)]) == {} && Made([Done(p)]) == {} && Opened([Done(p)], {p} + {p}) && Reads([Done(p)]) == {};
    assert end[1..] == [Done(p)];
  }

  lemma {:induction false} MembersLeave(lim: Limits, v: Visit, ms: seq<Member>)
    ensures Leaves(AllMembers(lim, v, ms), {v.path}, MemberPaths(lim, v.dir, ms), MemberDirs(lim, v.dir, ms))
    decreases |ms|
  {
    hide Leaves, OneMember, DirsOf, PathOf, Taken, Fits;
    LeavesNothing({v.path});
    if ms != [] {
      var files := if Taken(lim, ms[0]) then [PathOf(v.dir, ms[0])] else [];
      MemberLeaves(lim, v, ms[0]);
      MembersLeave(lim, v, ms[1..]);
      if Fits(lim, ms[0]) {
        LeavesAppend({v.path}, OneMember(lim, v, ms[0]), files, DirsOf(lim, v.dir, ms[0]),
                     AllMembers(lim, v, ms[1..]), MemberPaths(lim, v.dir, ms[1..]), MemberDirs(lim, v.dir, ms[1..]));
      } else {
        EmptyUnit(OneMember(lim, v, ms[0]));
        EmptyUnit(files);
        assert DirsOf(lim, v.dir, ms[0]) + {} == DirsOf(lim, v.dir, ms[0]);
      }
    }
  }

  lemma VisitLeaves(lim: Limits, v: Visit)
    ensures Leaves(VisitProgram(lim, v), if v.depth <= lim.depth then {v.path} else {}, VisitPaths(lim, v),
                   VisitDirs(lim, v))
  {
    hide Leaves, AllMembers, MemberPaths, MemberDirs, Base, Makes;
    var read, r := Read(v.path, v.archive), {v.path};
    var deep, other := Skip(Base(v.path) + ": max recursion depth"), Skip(Base(v.path) + ": not a zip");
    LeavesOne(deep, {});
    LeavesOne(other, r);
    LeavesOne(Raise, r);
    LeavesAfter(read, [Raise], r, [], {});
    LeavesAfter(read, [other], r, [], {});
    if Extracts(lim, v) {
      MembersLeave(lim, v, v.archive.members);
      LeavesAfter(read, AllMembers(lim, v, v.archive.members), r, VisitPaths(lim, v), VisitDirs(lim, v));
    }
  }

  /** A program that makes these visits opens no other archives, writes exactly the paths of the visits and makes
      exactly their directories. */
  lemma {:induction false} RunLeaves(lim: Limits, vs: seq<Visit>)
    ensures Leaves(Run(lim, vs), OpenedBy(lim, vs), PathsOf(lim, vs), DirsMade(lim, vs))
    decreases |vs|
  {
    hide Leaves, VisitProgram, VisitPaths, VisitDirs;
    LeavesNothing({});
    if vs != [] {
      var r := OpenedBy(lim, vs);
      VisitLeaves(lim, vs[0]);
      RunLeaves(lim, vs[1..]);
      ReadsMore(VisitProgram(lim, vs[0]), if vs[0].depth <= lim.depth then {vs[0].path} else {}, r,
                VisitPaths(lim, vs[0]), VisitDirs(lim, vs[0]));
      ReadsMore(Run(lim, vs[1..]), OpenedBy(lim, vs[1..]), r, PathsOf(lim, vs[1..]), DirsMade(lim, vs[1..]));
      LeavesAppend(r, VisitProgram(lim, vs[0]), VisitPaths(lim, vs[0]), VisitDirs(lim, vs[0]),
                   Run(lim, vs[1..]), PathsOf(lim, vs[1..]), DirsMade(lim, vs[1..]));
    }
  }

  lemma ReadsMore(t: seq<Action>, from: set<string>, more: set<string>, files: seq<string>, dirs: set<string>)
    requires Leaves(t, from, files, dirs) && from <= more
    ensures Leaves(t, more, files, dirs)
  {
    hide Reads, Touch, Made, Opened;
  }
}
