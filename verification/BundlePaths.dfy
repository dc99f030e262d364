/** What the threads of an extraction find and leave on the disk: when every read of an archive is right in
    every interleaving, and when two workers write apart. */
module BundlePaths {
  import opened Text
  import opened Bundle
  import opened BundlePrograms

  // --- programs on the disk ---

  predicate Same(d: Disk, e: Disk, p: string) {
    (p in d <==> p in e) && (p in d ==> d[p] == e[p])
  }

  /** Run alone from this disk, every read of the program finds the file finished and holding what it takes it
      to be. */
  predicate Steady(todo: seq<Action>, d: Disk)
    decreases |todo|
  {
    todo == []
    || ((todo[0].Read? ==> todo[0].path in d && d[todo[0].path] == Whole(todo[0].archive))
        && Steady(todo[1..], Written(d, todo[0])))
  }

  lemma {:induction false} AfterAppend(a: seq<Action>, b: seq<Action>, d: Disk)
    ensures After(d, a + b) == After(After(d, a), b)
    ensures Steady(a + b, d) <==> Steady(a, d) && Steady(b, After(d, a))
    decreases |a|
  {
    hide Written;
    if a == [] {
      EmptyUnit(b);
    } else {
      assert (a + b)[1..] == a[1..] + b;
      AfterAppend(a[1..], b, Written(d, a[0]));
    }
  }

  /** Only the files that a program reads decide whether it finds what it expects. */
  lemma {:induction false} SteadyFrame(todo: seq<Action>, d: Disk, e: Disk)
    requires Steady(todo, d) && forall p :: p in Reads(todo) ==> Same(d, e, p)
    ensures Steady(todo, e)
    decreases |todo|
  {
    if todo != [] {
      var x, y := Written(d, todo[0]), Written(e, todo[0]);
      assert todo[0].Read? ==> todo[0].path in Reads(todo);
      forall p | p in Reads(todo[1..]) ensures Same(x, y, p) { assert Same(d, e, p); }
      SteadyFrame(todo[1..], x, y);
    }
  }

  lemma WrittenElsewhere(d: Disk, a: Action, p: string)
    requires p !in TouchOne(a)
    ensures Same(d, Written(d, a), p)
  {
  }

  lemma {:induction false} AfterElsewhere(todo: seq<Action>, d: Disk, p: string)
    requires p !in Touch(todo)
    ensures Same(d, After(d, todo), p)
    decreases |todo|
  {
    hide Written, TouchOne;
    if todo != [] {
      WrittenElsewhere(d, todo[0], p);
      AfterElsewhere(todo[1..], Written(d, todo[0]), p);
    }
  }

  // --- one archive ---

  ghost predicate ReadsOnly(todo: seq<Action>, path: string, a: Archive) {
    forall k :: 0 <= k < |todo| && todo[k].Read? ==> todo[k] == Read(path, a)
  }

  /** A program that reads one archive and does not write it. */
  lemma {:induction false} SteadyOnOne(todo: seq<Action>, path: string, a: Archive, d: Disk)
    requires ReadsOnly(todo, path, a) && path !in Touch(todo) && path in d && d[path] == Whole(a)
    ensures Steady(todo, d)
    decreases |todo|
  {
    hide Written, TouchOne;
    if todo != [] {
      WrittenElsewhere(d, todo[0], path);
      SteadyOnOne(todo[1..], path, a, Written(d, todo[0]));
    }
  }

  lemma {:induction false} CopyReadsOnly(lim: Limits, v: Visit, chunks: seq<nat>, written: nat)
    ensures ReadsOnly(Copy(lim, v, chunks, written), v.path, v.archive)
    decreases |chunks|
  {
    if chunks != [] && written + chunks[0] <= lim.member { CopyReadsOnly(lim, v, chunks[1..], written + chunks[0]); }
  }

  lemma MemberReadsOnly(lim: Limits, v: Visit, m: Member)
    ensures ReadsOnly(OneMember(lim, v, m), v.path, v.archive)
  {
    hide Copy, Refusal, PathOf, TooLong;
    CopyReadsOnly(lim, v, m.chunks, 0);
  }

  lemma {:induction false} MembersReadOnly(lim: Limits, v: Visit, ms: seq<Member>)
    ensures ReadsOnly(AllMembers(lim, v, ms), v.path, v.archive)
    decreases |ms|
  {
    hide OneMember, Fits;
    if ms != [] {
      MemberReadsOnly(lim, v, ms[0]);
      MembersReadOnly(lim, v, ms[1..]);
    }
  }

  lemma VisitReadsOnly(lim: Limits, v: Visit)
    ensures ReadsOnly(VisitProgram(lim, v), v.path, v.archive)
  {
    hide AllMembers, Base;
    if v.archive.Zip? { MembersReadOnly(lim, v, v.archive.members); }
  }

  /** Members go below the directory of their archive. */
  lemma {:induction false} MembersBelow(lim: Limits, dir: string, ms: seq<Member>, p: string)
    requires p in MemberPaths(lim, dir, ms)
    ensures dir + "/" <= p
    decreases |ms|
  {
    hide Taken, Fits;
    if p != PathOf(dir, ms[0]) { MembersBelow(lim, dir, ms[1..], p); }
  }

  lemma VisitBelow(lim: Limits, v: Visit)
    requires !(v.dir + "/" <= v.path)
    ensures v.path !in VisitPaths(lim, v)
  {
    hide MemberPaths;
    if v.path in VisitPaths(lim, v) { MembersBelow(lim, v.dir, v.archive.members, v.path); }
  }

  /** The bundle is not extracted over itself, for instance because it lies outside the directory. */
  predicate Spares(lim: Limits, path: string, dir: string, a: Archive) {
    path !in VisitPaths(lim, Root(path, dir, a))
  }

  lemma OutsideIsSpared(lim: Limits, path: string, dir: string, a: Archive)
    requires !(dir + "/" <= path)
    ensures Spares(lim, path, dir, a)
  {
    VisitBelow(lim, Root(path, dir, a));
  }

  lemma VisitSteady(lim: Limits, v: Visit, d: Disk)
    requires v.path !in VisitPaths(lim, v) && (v.depth <= lim.depth ==> v.path in d && d[v.path] == Whole(v.archive))
    ensures Steady(VisitProgram(lim, v), d)
  {
    hide AllMembers, MemberPaths, MemberDirs, Base, Touch;
    VisitLeaves(lim, v);
    VisitReadsOnly(lim, v);
    if v.depth <= lim.depth {
      SteadyOnOne(VisitProgram(lim, v), v.path, v.archive, d);
    }
  }

  /** What the last member written to a path holds. */
  function Surviving(lim: Limits, dir: string, ms: seq<Member>, p: string): Option<Archive> {
    if ms == [] then None
    else
      var later := Surviving(lim, dir, ms[1..], p);
      if later.Some? then later else if Taken(lim, ms[0]) && PathOf(dir, ms[0]) == p then Some(ms[0].content) else None
  }

  lemma {:induction false} SurvivingListed(lim: Limits, dir: string, ms: seq<Member>, p: string)
    requires AllFit(lim, ms)
    ensures Surviving(lim, dir, ms, p).Some? <==> p in MemberPaths(lim, dir, ms)
    ensures forall m :: m in ms && Taken(lim, m) && PathOf(dir, m) == p ==> Surviving(lim, dir, ms, p).Some?
    decreases |ms|
  {
    hide Taken, PathOf;
    if ms != [] { SurvivingListed(lim, dir, ms[1..], p); }
  }

  lemma MemberAfter(lim: Limits, v: Visit, m: Member, d: Disk)
    requires Fits(lim, m)
    ensures After(d, OneMember(lim, v, m)) == if Taken(lim, m) then d[PathOf(v.dir, m) := Whole(m.content)] else d
  {
    hide Copy, Refusal, PathOf, TooLong, Size;
    if Taken(lim, m) {
      var p, copy := PathOf(v.dir, m), Copy(lim, v, m.chunks, 0);
      DoesCopy(lim, v, m.chunks, 0);
      CopyAfter(lim, v, m.chunks, 0, d[p := Partial]);
      AfterAppend(copy, Finish(v, m), d[p := Partial]);
      AfterFinish(v, m, d[p := Partial]);
      AfterStart(v, p, copy + Finish(v, m), d);
    } else {
      match Refusal(lim, m)
      case Some(reason) => assert [Skip(reason)][1..] == [];
      case None => assert [MakeDir(PathOf(v.dir, m))][1..] == [];
    }
  }

  lemma AfterStart(v: Visit, p: string, rest: seq<Action>, d: Disk)
    ensures After(d, [MakeParents(p)] + ([Read(v.path, v.archive)] + ([Create(p)] + rest))) ==
            After(d[p := Partial], rest)
  {
    var file, read := [Create(p)] + rest, [Read(v.path, v.archive)] + ([Create(p)] + rest);
    assert file[1..] == rest && read[1..] == file && ([MakeParents(p)] + read)[1..] == read;
    assert After(d, file) == After(d[p := Partial], rest) && After(d, read) == After(d, file);
    assert After(d, [MakeParents(p)] + read) == After(d, read);
  }

  lemma AfterFinish(v: Visit, m: Member, d: Disk)
    ensures After(d, Finish(v, m)) == d[PathOf(v.dir, m) := Whole(m.content)]
  {
    hide PathOf;
    var p := PathOf(v.dir, m);
    assert Finish(v, m)[1..] == [Done(p)] && [Done(p)][1..] == [];
    assert After(d[p := Whole(m.content)], [Done(p)]) == d[p := Whole(m.content)];
  }

  lemma {:induction false} CopyAfter(lim: Limits, v: Visit, chunks: seq<nat>, written: nat, d: Disk)
    ensures After(d, Copy(lim, v, chunks, written)) == d
  {
    hide Copy, Touch, After;
    CopyLeaves(lim, v, chunks, written);
    var e := After(d, Copy(lim, v, chunks, written));
    forall p ensures Same(d, e, p) {
      AfterElsewhere(Copy(lim, v, chunks, written), d, p);
    }
    assert e.Keys == d.Keys by {
      forall p ensures p in e.Keys <==> p in d.Keys { assert Same(d, e, p); }
    }
    assert forall p :: p in d ==> Same(d, e, p);
    assert e == d;
  }

  /** The last member of a path wins. */
  lemma {:induction false} MembersAfter(lim: Limits, v: Visit, ms: seq<Member>, d: Disk, p: string)
    requires AllFit(lim, ms)
    ensures var e, c := After(d, AllMembers(lim, v, ms)), Surviving(lim, v.dir, ms, p);
            if c.Some? then p in e && e[p] == Whole(c.value) else Same(d, e, p)
    decreases |ms|
  {
    hide OneMember, Taken, PathOf;
    if ms != [] {
      var first := OneMember(lim, v, ms[0]);
      AfterAppend(first, AllMembers(lim, v, ms[1..]), d);
      MemberAfter(lim, v, ms[0], d);
      MembersAfter(lim, v, ms[1..], After(d, first), p);
    }
  }

  lemma VisitAfter(lim: Limits, v: Visit, d: Disk, p: string)
    requires Kept(lim, v)
    ensures var e := After(d, VisitProgram(lim, v));
            var c := if Extracts(lim, v) then Surviving(lim, v.dir, v.archive.members, p) else None;
            if c.Some? then p in e && e[p] == Whole(c.value) else Same(d, e, p)
  {
    hide AllMembers, AllFit, Surviving, MemberPaths, MemberDirs, Base;
    if Extracts(lim, v) {
      var all := AllMembers(lim, v, v.archive.members);
      assert ([Read(v.path, v.archive)] + all)[1..] == all;
      MembersAfter(lim, v, v.archive.members, d, p);
    } else {
      VisitLeaves(lim, v);
      AfterElsewhere(VisitProgram(lim, v), d, p);
    }
  }

  // --- archives in turn ---

  /** Finished files stay finished where no cap is broken. */
  lemma {:induction false} WholesStay(lim: Limits, vs: seq<Visit>, d: Disk, p: string)
    requires AllKept(lim, vs) && p in d && d[p].Whole?
    ensures var e := After(d, Run(lim, vs)); p in e && e[p].Whole?
    decreases |vs|
  {
    hide VisitProgram, Kept, Extracts;
    if vs != [] {
      AfterAppend(VisitProgram(lim, vs[0]), Run(lim, vs[1..]), d);
      VisitAfter(lim, vs[0], d, p);
      WholesStay(lim, vs[1..], After(d, VisitProgram(lim, vs[0])), p);
    }
  }

  /** The files of these members are finished. */
  ghost predicate Ready(d: Disk, dir: string, ns: seq<Member>) {
    forall k :: 0 <= k < |ns| ==> PathOf(dir, ns[k]) in d && d[PathOf(dir, ns[k])].Whole?
  }

  lemma {:induction false} NestedListed(lim: Limits, ms: seq<Member>)
    ensures forall n :: n in Nested(lim, ms) <==> n in ms && Opens(lim, n)
    decreases |ms|
  {
    hide Opens;
    if ms != [] { NestedListed(lim, ms[1..]); }
  }

  /** What has been extracted can be opened. */
  lemma ChildrenReady(lim: Limits, v: Visit, d: Disk)
    requires Kept(lim, v)
    ensures Ready(After(d, VisitProgram(lim, v)), v.dir, Children(lim, v))
  {
    hide VisitProgram, AllFit, PathOf, Nested, Surviving, Taken;
    var ns, e := Children(lim, v), After(d, VisitProgram(lim, v));
    if v.depth <= lim.depth && v.archive.Zip? {
      NestedListed(lim, v.archive.members);
      forall k | 0 <= k < |ns| ensures PathOf(v.dir, ns[k]) in e && e[PathOf(v.dir, ns[k])].Whole? {
        assert ns[k] in ns;
        SurvivingListed(lim, v.dir, v.archive.members, PathOf(v.dir, ns[k]));
        VisitAfter(lim, v, d, PathOf(v.dir, ns[k]));
      }
    }
  }

  /** Opened in turn, each archive is read right: nothing is written to a file while it is read. */
  lemma {:induction false} VisitsSteady(lim: Limits, d: Disk, path: string, dir: string, depth: nat)
    requires path !in VisitPaths(lim, Visit(path, dir, Held(d, path), depth)) && path in d && d[path].Whole?
    ensures Steady(Run(lim, Visits(lim, d, path, dir, depth)), d)
    decreases Levels(lim, depth), 0
  {
    hide VisitProgram, NestedVisits, Children, Kept, Steady, After, Ready;
    var v := Visit(path, dir, Held(d, path), depth);
    VisitSteady(lim, v, d);
    RunOne(lim, v);
    if v.depth <= lim.depth && Kept(lim, v) {
      var e := After(d, VisitProgram(lim, v));
      ChildrenReady(lim, v, d);
      NestedSteady(lim, e, dir, Children(lim, v), depth + 1);
      var rest := NestedVisits(lim, e, dir, Children(lim, v), depth + 1);
      RunAppend(lim, [v], rest);
      AfterAppend(VisitProgram(lim, v), Run(lim, rest), d);
    }
  }

  lemma RunOne(lim: Limits, v: Visit)
    ensures Run(lim, [v]) == VisitProgram(lim, v)
  {
    hide VisitProgram;
    assert [v][1..] == [];
    EmptyUnit(VisitProgram(lim, v));
  }

  lemma {:induction false} NestedSteady(lim: Limits, d: Disk, dir: string, ns: seq<Member>, depth: nat)
    requires Ready(d, dir, ns)
    ensures Steady(Run(lim, NestedVisits(lim, d, dir, ns, depth)), d)
    decreases Levels(lim, depth), 1 + |ns|
  {
    hide Run, Visits, AllKept, Steady, After, PathOf, NestedDir;
    if ns != [] {
      var first := MemberVisits(lim, d, dir, ns[0], depth);
      MemberSteady(lim, d, dir, ns[0], depth);
      if AllKept(lim, first) {
        var e := After(d, Run(lim, first));
        forall k | 0 <= k < |ns[1..]| ensures PathOf(dir, ns[1..][k]) in e && e[PathOf(dir, ns[1..][k])].Whole? {
          assert ns[1..][k] == ns[k + 1];
          WholesStay(lim, first, d, PathOf(dir, ns[k + 1]));
        }
        NestedSteady(lim, e, dir, ns[1..], depth);
        var rest := NestedVisits(lim, e, dir, ns[1..], depth);
        RunAppend(lim, first, rest);
        AfterAppend(Run(lim, first), Run(lim, rest), d);
      }
    } else {
      RunNothing(lim, d);
    }
  }

  lemma RunNothing(lim: Limits, d: Disk)
    ensures Run(lim, []) == [] && Steady([], d)
  {
  }

  lemma {:induction false} MemberSteady(lim: Limits, d: Disk, dir: string, m: Member, depth: nat)
    requires PathOf(dir, m) in d && d[PathOf(dir, m)].Whole?
    ensures Steady(Run(lim, MemberVisits(lim, d, dir, m, depth)), d)
    decreases Levels(lim, depth), 1
  {
    hide Run, Visits, Steady, PathOf;
    var p := PathOf(dir, m);
    assert |NestedDir(p) + "/"| > |p|;
    VisitBelow(lim, Visit(p, NestedDir(p), Held(d, p), depth));
    VisitsSteady(lim, d, p, NestedDir(p), depth);
  }

  // --- the threads ---

  lemma JobsAre(lim: Limits, path: string, dir: string, a: Archive)
    ensures var jobs, ps, ns := Jobs(lim, path, dir, a), Programs(lim, path, dir, a), Children(lim, Root(path, dir, a));
            && |ps| == |jobs| && jobs != [] && (forall k :: 0 <= k < |ps| ==> ps[k] == Run(lim, jobs[k]))
            && (FansOut(lim, path, dir, a) ==>
                  && |jobs| == |ns| + 1 && jobs[0] == [Root(path, dir, a)]
                  && forall k :: 0 <= k < |ns| ==>
                                   jobs[k + 1] == MemberVisits(lim, Extracted(lim, path, dir, a), dir, ns[k], 2))
            && (!FansOut(lim, path, dir, a) ==> jobs == [Visits(lim, map[path := Whole(a)], path, dir, 1)])
  {
    hide Visits, Extracted, Children, FansOut, Run;
    RunsAt(lim, Jobs(lim, path, dir, a));
  }

  /** Alone, each thread reads right: the main thread from the start, the workers when it has finished. */
  lemma JobsSteady(lim: Limits, path: string, dir: string, a: Archive)
    requires Spares(lim, path, dir, a)
    ensures var ps, d := Programs(lim, path, dir, a), map[path := Whole(a)];
            && Steady(ps[0], d) && forall k :: 0 < k < |ps| ==> Steady(ps[k], After(d, ps[0]))
  {
    hide Visits, Children, Run, Steady, After, Programs, Jobs, VisitProgram, VisitPaths, Ready, Kept, PathOf, NestedDir;
    var ps, d, root := Programs(lim, path, dir, a), map[path := Whole(a)], Root(path, dir, a);
    JobsAre(lim, path, dir, a);
    if FansOut(lim, path, dir, a) {
      var ns, e := Children(lim, root), Extracted(lim, path, dir, a);
      RunOne(lim, root);
      VisitSteady(lim, root, d);
      ChildrenReady(lim, root, d);
      assert After(d, ps[0]) == e;
      forall k | 0 < k < |ps| ensures Steady(ps[k], e) {
        ReadyAt(e, dir, ns, k - 1);
        MemberSteady(lim, e, dir, ns[k - 1], 2);
        assert Jobs(lim, path, dir, a)[k - 1 + 1] == MemberVisits(lim, e, dir, ns[k - 1], 2);
      }
    } else {
      VisitsSteady(lim, d, path, dir, 1);
    }
  }

  lemma ReadyAt(d: Disk, dir: string, ns: seq<Member>, k: nat)
    requires Ready(d, dir, ns) && k < |ns|
    ensures PathOf(dir, ns[k]) in d && d[PathOf(dir, ns[k])].Whole?
  {
  }

  ghost predicate Disjoint(a: seq<string>, b: seq<string>) {
    forall p :: p in a ==> p !in b
  }

  /** No worker writes an archive that another one opens. */
  ghost predicate OpensApart(lim: Limits, jobs: seq<seq<Visit>>) {
    forall j, k :: 0 < j < |jobs| && 0 < k < |jobs| && j != k ==>
                     forall p :: p in PathsOf(lim, jobs[j]) ==> p !in OpenedBy(lim, jobs[k])
  }

  // --- the invariant of every interleaving ---

  /** What stands on the disk, and when the main thread has finished, is what each thread will read. */
  ghost predicate Orderly(s: State) {
    && s.threads != [] && Steady(s.threads[0].todo, s.disk)
    && (forall k :: 0 < k < |s.threads| ==> Steady(s.threads[k].todo, After(s.disk, s.threads[0].todo)))
    && (forall j, k :: 0 < j < |s.threads| && 0 < k < |s.threads| && j != k ==>
                         Touch(s.threads[j].todo) !! Reads(s.threads[k].todo))
  }

  lemma BeginOrderly(lim: Limits, path: string, dir: string, a: Archive)
    requires Spares(lim, path, dir, a) && OpensApart(lim, Jobs(lim, path, dir, a))
    ensures Orderly(Begin(lim, path, dir, a))
  {
    hide Programs, Jobs, Steady, After, Touch, Reads, Run, PathsOf, OpenedBy, Made, Opened, Spares;
    var s, jobs := Begin(lim, path, dir, a), Jobs(lim, path, dir, a);
    JobsAre(lim, path, dir, a);
    JobsSteady(lim, path, dir, a);
    forall j, k | 0 < j < |jobs| && 0 < k < |jobs| && j != k
      ensures Touch(Run(lim, jobs[j])) !! Reads(Run(lim, jobs[k]))
    {
      RunLeaves(lim, jobs[j]);
      RunLeaves(lim, jobs[k]);
    }
  }

  lemma FirstStep(todo: seq<Action>, d: Disk)
    requires todo != []
    ensures Touch(todo) == TouchOne(todo[0]) + Touch(todo[1..]) && Reads(todo) == ReadsOne(todo[0]) + Reads(todo[1..])
    ensures Steady(todo, d) ==> Steady(todo[1..], Written(d, todo[0]))
    ensures After(d, todo) == After(Written(d, todo[0]), todo[1..])
  {
  }

  lemma ActDisk(lim: Limits, s: State, k: nat)
    requires Enabled(s, k)
    ensures var first, next := s.threads[k].todo[0], Act(lim, s, k);
            next.disk == if Stops(lim, s, first) then s.disk else Written(s.disk, first)
  {
    hide Makes, Stops;
  }

  lemma ThreadsMoved(lim: Limits, s: State, k: nat)
    requires Enabled(s, k)
    ensures var next, t := Act(lim, s, k), s.threads[k];
            && k < |s.threads| && t.todo != [] && |next.threads| == |s.threads|
            && next.threads[k].todo == (if Stops(lim, s, t.todo[0]) then t.todo else t.todo[1..])
            && (forall j :: 0 <= j < |s.threads| && j != k ==> next.threads[j] == s.threads[j])
  {
    hide Act;
    ActMoves(lim, s, k);
  }

  lemma ActOrderly(lim: Limits, s: State, k: nat)
    requires Orderly(s) && Enabled(s, k)
    ensures Orderly(Act(lim, s, k))
  {
    hide Act, Touch, Reads, TouchOne, ReadsOne, Written, Steady, After, Stops;
    var t, next := s.threads[k], Act(lim, s, k);
    ThreadsMoved(lim, s, k);
    ActDisk(lim, s, k);
    FirstStep(t.todo, s.disk);
    forall j | 0 <= j < |s.threads| ensures Touch(next.threads[j].todo) <= Touch(s.threads[j].todo) {}
    forall j | 0 <= j < |s.threads| ensures Reads(next.threads[j].todo) <= Reads(s.threads[j].todo) {}
    if k > 0 && !Stops(lim, s, t.todo[0]) { WorkerMoved(lim, s, k); }
  }

  /** A worker's step leaves the other workers' archives alone. */
  lemma WorkerMoved(lim: Limits, s: State, k: nat)
    requires Orderly(s) && Enabled(s, k) && k > 0
    ensures var e := Written(s.disk, s.threads[k].todo[0]);
            && After(e, s.threads[0].todo) == e && Steady(s.threads[0].todo, e) && Steady(s.threads[k].todo[1..], e)
            && forall j :: 0 < j < |s.threads| && j != k ==> Steady(s.threads[j].todo, e)
  {
    hide Touch, Reads, TouchOne, ReadsOne, Written;
    var todo, e := s.threads[k].todo, Written(s.disk, s.threads[k].todo[0]);
    FirstStep(todo, s.disk);
    forall j | 0 < j < |s.threads| && j != k ensures Steady(s.threads[j].todo, e) {
      forall p | p in Reads(s.threads[j].todo) ensures Same(s.disk, e, p) { WrittenElsewhere(s.disk, todo[0], p); }
      SteadyFrame(s.threads[j].todo, s.disk, e);
    }
  }

  lemma {:induction false} ExecOrderly(lim: Limits, s: State, schedule: seq<nat>)
    requires Orderly(s)
    ensures Orderly(Exec(lim, s, schedule))
    decreases |schedule|
  {
    hide Orderly, Act, Enabled;
    if schedule != [] {
      var n := |schedule| - 1;
      ExecOrderly(lim, s, schedule[..n]);
      ExecStep(lim, s, schedule);
      var now := Exec(lim, s, schedule[..n]);
      if Enabled(now, schedule[n]) { ActOrderly(lim, now, schedule[n]); }
    }
  }

  // --- the theorems ---

  /** Whatever the programs, at every point of every interleaving the bytes that passed the check, and so
      the bytes on disk, are within the limit. */
  lemma LimitHolds(lim: Limits, path: string, a: Archive, programs: seq<seq<Action>>, schedule: seq<nat>)
    requires forall k :: 0 <= k < |programs| ==> Disciplined(programs[k])
    ensures var s := Exec(lim, Start(path, a, programs), schedule); s.written <= s.passed <= lim.total
  {
    hide Exec, Start, Conserved, Sum, Disciplined;
    var start := Start(path, a, programs);
    StartSafe(lim, path, a, programs);
    ExecKeeps(lim, start, schedule, TotalsOf(start.threads));
  }

  lemma NeverOverTheLimit(lim: Limits, path: string, dir: string, a: Archive, schedule: seq<nat>)
    ensures var s := Exec(lim, Begin(lim, path, dir, a), schedule); s.written <= s.passed <= lim.total
  {
    hide Exec, Programs, Disciplined, Jobs;
    ProgramsDisciplined(lim, path, dir, a);
    LimitHolds(lim, path, a, Programs(lim, path, dir, a), schedule);
  }

  /** If the thread reads an archive next, the file is finished and holds what the thread takes it to be. */
  ghost predicate ReadRight(s: State, k: nat) {
    Enabled(s, k) && s.threads[k].todo[0].Read? ==>
      s.threads[k].todo[0].path in s.disk && s.disk[s.threads[k].todo[0].path] == Whole(s.threads[k].todo[0].archive)
  }

  /** When no worker writes an archive that another opens, every read of an archive, at any point of any
      interleaving, finds the file finished and holding what the worker takes to be in it. */
  lemma ReadsAreRight(lim: Limits, path: string, dir: string, a: Archive, schedule: seq<nat>, k: nat)
    requires Spares(lim, path, dir, a) && OpensApart(lim, Jobs(lim, path, dir, a))
    ensures ReadRight(Exec(lim, Begin(lim, path, dir, a), schedule), k)
  {
    hide Exec, Begin, OpensApart, Jobs, Spares, Touch, Reads, Written;
    BeginOrderly(lim, path, dir, a);
    ExecOrderly(lim, Begin(lim, path, dir, a), schedule);
    var s := Exec(lim, Begin(lim, path, dir, a), schedule);
    assert After(s.disk, []) == s.disk;
  }

  lemma ProgramsDisciplined(lim: Limits, path: string, dir: string, a: Archive)
    ensures forall k :: 0 <= k < |Programs(lim, path, dir, a)| ==> Disciplined(Programs(lim, path, dir, a)[k])
  {
    hide Disciplined, Jobs, Runs;
    RunsDisciplined(lim, Jobs(lim, path, dir, a));
  }

  /** Two threads write apart if and only if the archives they visit have no path in common. */
  lemma ApartExactly(lim: Limits, path: string, dir: string, a: Archive, j: nat, k: nat)
    requires j < k < |Jobs(lim, path, dir, a)|
    ensures var jobs, ps := Jobs(lim, path, dir, a), Programs(lim, path, dir, a);
            && |ps| == |jobs|
            && (Touch(ps[j]) !! Touch(ps[k]) <==> Disjoint(PathsOf(lim, jobs[j]), PathsOf(lim, jobs[k])))
  {
    hide Jobs, Programs, Run, Touch, Made, Opened, PathsOf, DirsMade, Reads, OpenedBy;
    var jobs := Jobs(lim, path, dir, a);
    JobsAre(lim, path, dir, a);
    RunLeaves(lim, jobs[j]);
    RunLeaves(lim, jobs[k]);
  }

  /** What a worker visits: the archive that the last member of its path holds, and what follows from that. */
  lemma WorkerOpens(lim: Limits, path: string, dir: string, a: Archive, k: nat)
    requires FansOut(lim, path, dir, a) && k < |Children(lim, Root(path, dir, a))|
    ensures var n, jobs := Children(lim, Root(path, dir, a))[k], Jobs(lim, path, dir, a);
            var held := Surviving(lim, dir, a.members, PathOf(dir, n));
            && held.Some? && k + 1 < |jobs|
            && jobs[k + 1] == MemberVisits(lim, Extracted(lim, path, dir, a), dir, n, 2) && jobs[k + 1] != []
            && jobs[k + 1][0] == Visit(PathOf(dir, n), NestedDir(PathOf(dir, n)), held.value, 2)
  {
    hide Jobs, VisitProgram, Surviving, PathOf, NestedDir, AllFit, Nested, NestedVisits, Programs, Run;
    var root, d := Root(path, dir, a), map[path := Whole(a)];
    var ns := Children(lim, root);
    JobsAre(lim, path, dir, a);
    NestedListed(lim, a.members);
    assert ns[k] in ns;
    SurvivingListed(lim, dir, a.members, PathOf(dir, ns[k]));
    VisitAfter(lim, root, d, PathOf(dir, ns[k]));
  }

  /** Nested archives of one name are one file, so their workers do the same, and write apart if and only if
      what the last of them holds writes nothing. */
  lemma SameNameAlike(lim: Limits, path: string, dir: string, a: Archive, i: nat, j: nat)
    requires FansOut(lim, path, dir, a) && i < j < |Children(lim, Root(path, dir, a))|
    requires var ns := Children(lim, Root(path, dir, a)); ns[i].name == ns[j].name
    ensures var jobs, ps := Jobs(lim, path, dir, a), Programs(lim, path, dir, a);
            && |ps| == |jobs| > j + 1 && jobs[i + 1] == jobs[j + 1]
            && (Touch(ps[i + 1]) !! Touch(ps[j + 1]) <==> PathsOf(lim, jobs[i + 1]) == [])
  {
    hide Jobs, Programs, Touch, PathsOf, Surviving, FansOut, Children, Visits, NestedDir;
    WorkerOpens(lim, path, dir, a, i);
    WorkerOpens(lim, path, dir, a, j);
    ApartExactly(lim, path, dir, a, i + 1, j + 1);
    var paths := PathsOf(lim, Jobs(lim, path, dir, a)[i + 1]);
    if paths != [] { assert paths[0] in paths; }
  }
}
