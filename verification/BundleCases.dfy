/** Bundles in which files, directories and archives get into each other's way, and one that passes the cap. */
module BundleCases {
  import opened Text
  import opened Bundle
  import opened BundlePrograms
  import opened BundlePaths
  import opened BundleDisk
  import opened BundleOwn

  // --- plain files ---

  /** A member that is a file, with the chunks of its stream. */
  function File(name: string, chunks: seq<nat>, content: Archive): Member {
    Member(name, false, None, 0, 0, false, chunks, content)
  }

  /** A file that is taken within the cap, in front of others. */
  lemma FileFirst(lim: Limits, dir: string, m: Member, rest: seq<Member>)
    requires Taken(lim, m) && Fits(lim, m)
    ensures var ms := [m] + rest;
            && MemberPaths(lim, dir, ms) == [PathOf(dir, m)] + MemberPaths(lim, dir, rest)
            && MemberDirs(lim, dir, ms) == Above(PathOf(dir, m)) + MemberDirs(lim, dir, rest)
            && (AllFit(lim, ms) <==> AllFit(lim, rest))
            && MembersYield(lim, dir, ms).bytes == Size(m.chunks) + MembersYield(lim, dir, rest).bytes
            && Nested(lim, ms) == (if ZipName(m.name) then [m] else []) + Nested(lim, rest)
  {
    hide PathOf, Above, ZipName, Size;
    assert ([m] + rest)[1..] == rest;
  }

  lemma NoMembers(lim: Limits, dir: string)
    ensures MemberPaths(lim, dir, []) == [] && MemberDirs(lim, dir, []) == {} && AllFit(lim, [])
    ensures MembersYield(lim, dir, []) == NO_YIELD && Nested(lim, []) == []
  {
  }

  /** The visit of an archive of one file. */
  lemma OneFile(lim: Limits, v: Visit, m: Member)
    requires v.archive == Zip([m]) && v.depth <= lim.depth && lim.members >= 1 && Taken(lim, m) && Fits(lim, m)
    ensures Kept(lim, v) && Extracts(lim, v) && VisitPaths(lim, v) == [PathOf(v.dir, m)]
    ensures VisitDirs(lim, v) == Above(PathOf(v.dir, m)) && VisitYield(lim, v).bytes == Size(m.chunks)
    ensures Children(lim, v) == if ZipName(m.name) then [m] else []
  {
    hide PathOf, Above, ZipName, Size, MemberPaths, MemberDirs, AllFit, MembersYield, Nested, Taken, Fits;
    NoMembers(lim, v.dir);
    FileFirst(lim, v.dir, m, []);
    EmptyUnit([m]);
    assert [PathOf(v.dir, m)] + [] == [PathOf(v.dir, m)];
    assert Above(PathOf(v.dir, m)) + {} == Above(PathOf(v.dir, m));
    assert (if ZipName(m.name) then [m] else []) + [] == if ZipName(m.name) then [m] else [];
  }

  /** The visit of an archive of two files. */
  lemma TwoFiles(lim: Limits, v: Visit, m: Member, n: Member)
    requires v.archive == Zip([m, n]) && v.depth <= lim.depth && lim.members >= 2
    requires Taken(lim, m) && Fits(lim, m) && Taken(lim, n) && Fits(lim, n)
    ensures Kept(lim, v) && Extracts(lim, v) && VisitPaths(lim, v) == [PathOf(v.dir, m), PathOf(v.dir, n)]
    ensures VisitDirs(lim, v) == Above(PathOf(v.dir, m)) + Above(PathOf(v.dir, n))
    ensures VisitYield(lim, v).bytes == Size(m.chunks) + Size(n.chunks)
    ensures Children(lim, v) == (if ZipName(m.name) then [m] else []) + (if ZipName(n.name) then [n] else [])
  {
    hide PathOf, Above, ZipName, Size, MemberPaths, MemberDirs, AllFit, MembersYield, Nested, Taken, Fits;
    NoMembers(lim, v.dir);
    FileFirst(lim, v.dir, n, []);
    FileFirst(lim, v.dir, m, [n]);
    assert [n] + [] == [n] && [m] + [n] == [m, n];
    assert [PathOf(v.dir, n)] + [] == [PathOf(v.dir, n)];
    assert [PathOf(v.dir, m)] + [PathOf(v.dir, n)] == [PathOf(v.dir, m), PathOf(v.dir, n)];
    assert Above(PathOf(v.dir, n)) + {} == Above(PathOf(v.dir, n));
    assert (if ZipName(n.name) then [n] else []) + [] == if ZipName(n.name) then [n] else [];
  }

  lemma TwoVisits(lim: Limits, v: Visit, w: Visit)
    ensures PathsOf(lim, [v, w]) == VisitPaths(lim, v) + VisitPaths(lim, w)
    ensures DirsMade(lim, [v, w]) == VisitDirs(lim, v) + VisitDirs(lim, w)
    ensures AllKept(lim, [v, w]) <==> Kept(lim, v) && Kept(lim, w)
    ensures YieldOf(lim, [v, w]).bytes == VisitYield(lim, v).bytes + VisitYield(lim, w).bytes
  {
    hide VisitPaths, VisitDirs, Kept, VisitYield, PathsOf, DirsMade, AllKept, YieldOf;
    assert [v] + [w] == [v, w];
    PathsAppend(lim, [v], [w]);
    KeptAppend(lim, [v], [w]);
    YieldAppend(lim, [v], [w]);
    SingleVisit(lim, v);
    SingleVisit(lim, w);
  }

  // --- paths of the examples ---

  /** No path lies above one that differs from it early, or that is no longer. */
  lemma NotAbove(p: string, q: string, k: nat)
    requires (k < |p| && k < |q| && p[k] != q[k]) || |p| >= |q|
    ensures p !in Above(q)
  {
  }

  lemma ZipNames()
    ensures ZipName("a.zip") && !ZipName("b") && !ZipName("x") && !ZipName("a") && !ZipName("a/b")
  {
    var name := "a.zip";
    assert name[1..] == ".zip" && Lower(".zip") == ".zip";
  }

  lemma ExamplePaths(m: Member, x: Member)
    requires m.name == "a.zip" && x.name == "b"
    ensures PathOf("/t", m) == "/t/a.zip" && NestedDir("/t/a.zip") == "/t/a_extracted"
    ensures PathOf("/t/a_extracted", x) == "/t/a_extracted/b"
    ensures forall p, q :: p in {"/z.zip", "/t/a.zip", "/t/a_extracted/b"} && q in {"/t/a.zip", "/t/a_extracted/b"} ==>
                             p !in Above(q)
  {
    hide Above;
    assert "/t/a.zip"[..4] == "/t/a";
    NotAbove("/z.zip", "/t/a.zip", 1);
    NotAbove("/z.zip", "/t/a_extracted/b", 1);
    NotAbove("/t/a.zip", "/t/a.zip", 0);
    NotAbove("/t/a.zip", "/t/a_extracted/b", 4);
    NotAbove("/t/a_extracted/b", "/t/a.zip", 4);
    NotAbove("/t/a_extracted/b", "/t/a_extracted/b", 0);
  }

  // --- the cap on members ---

  const ONE_MEMBER := Limits(100, 100, 1, 100, 2)

  /** Two files pass a cap of one member: an archive of one file within an archive of one. */
  lemma CapIsPerArchive() returns (schedule: seq<nat>)
    ensures var inner := Zip([File("b", [], NotZip)]);
            var outer := Zip([File("a.zip", [], inner)]);
            var s := Exec(ONE_MEMBER, Begin(ONE_MEMBER, "/z.zip", "/t", outer), schedule);
            && |outer.members| == |inner.members| == ONE_MEMBER.members
            && PathsDiffer(ONE_MEMBER, "/z.zip", "/t", outer)
            && Final(s) && !Failed(s) && |s.files| == 2 > ONE_MEMBER.members
  {
    hide Exec, Begin, Final, Failed, PathsOf, DirsMade, AllKept, YieldOf, OwnVisits;
    var lim, path, dir := ONE_MEMBER, "/z.zip", "/t";
    var inner := Zip([File("b", [], NotZip)]);
    var outer := Zip([File("a.zip", [], inner)]);
    var own := OwnVisits(lim, path, dir, outer, 1);
    NestedExample(inner, outer);
    assert FilesFit(lim, path, own);
    schedule := EveryRunFinishes(lim, Begin(lim, path, dir, outer), []);
    OutcomeIsScheduleIndependent(lim, path, dir, outer, schedule);
    FilesArePaths(lim, own);
  }

  lemma NestedExample(inner: Archive, outer: Archive)
    requires inner == Zip([File("b", [], NotZip)]) && outer == Zip([File("a.zip", [], inner)])
    ensures var own := OwnVisits(ONE_MEMBER, "/z.zip", "/t", outer, 1);
            && PathsOf(ONE_MEMBER, own) == ["/t/a.zip", "/t/a_extracted/b"]
            && Distinct(["/z.zip"] + PathsOf(ONE_MEMBER, own)) && AllKept(ONE_MEMBER, own)
            && YieldOf(ONE_MEMBER, own).bytes == 0
            && forall p :: p in ["/z.zip"] + PathsOf(ONE_MEMBER, own) ==> p !in DirsMade(ONE_MEMBER, own)
  {
    hide Kept, VisitPaths, VisitDirs, VisitYield, PathsOf, DirsMade, AllKept, YieldOf, PathOf, NestedDir, Above,
      Children, ZipName;
    var m, x := File("a.zip", [], inner), File("b", [], NotZip);
    var v, w := Visit("/z.zip", "/t", outer, 1), Visit("/t/a.zip", "/t/a_extracted", inner, 2);
    ZipNames();
    ExamplePaths(m, x);
    OneFile(ONE_MEMBER, v, m);
    OneFile(ONE_MEMBER, w, x);
    OwnOne(ONE_MEMBER, w, x);
    OwnOne(ONE_MEMBER, v, m);
    assert [v] + [w] == [v, w];
    TwoVisits(ONE_MEMBER, v, w);
    assert ["/t/a.zip"] + ["/t/a_extracted/b"] == ["/t/a.zip", "/t/a_extracted/b"];
    var all := ["/z.zip"] + ["/t/a.zip", "/t/a_extracted/b"];
    assert all == ["/z.zip", "/t/a.zip", "/t/a_extracted/b"];
    assert "/z.zip"[1] != "/t/a.zip"[1] && |"/t/a.zip"| < |"/t/a_extracted/b"|;
  }

  /** The visits of an archive of one file. */
  lemma OwnOne(lim: Limits, v: Visit, m: Member)
    requires v.archive == Zip([m]) && v.depth <= lim.depth
    ensures OwnVisits(lim, v.path, v.dir, v.archive, v.depth) ==
            if Opens(lim, m) then [v] + OwnMember(lim, v.dir, m, v.depth + 1) else [v]
  {
    hide Opens, OwnMember;
    assert [m][1..] == [];
    var d := v.depth + 1;
    assert OwnNested(lim, v.dir, [m], d) == if Opens(lim, m) then OwnMember(lim, v.dir, m, d) else [];
    EmptyUnit([v]);
  }

  // --- files in the way of directories ---

  lemma {:induction false} DirsListed(lim: Limits, dir: string, ms: seq<Member>, m: Member)
    requires m in ms && AllFit(lim, ms)
    ensures DirsOf(lim, dir, m) <= MemberDirs(lim, dir, ms)
    decreases |ms|
  {
    hide DirsOf, Fits;
    if m != ms[0] { DirsListed(lim, dir, ms[1..], m); }
  }

  lemma AllStarts(lim: Limits, path: string, dir: string, a: Archive)
    ensures var all, root := All(lim, path, dir, a), Root(path, dir, a);
            && (AllKept(lim, all) ==> Kept(lim, root)) && VisitDirs(lim, root) <= DirsMade(lim, all)
            && forall p :: p in VisitPaths(lim, root) ==> p in PathsOf(lim, all)
  {
    hide Kept, VisitPaths, VisitDirs, NestedVisits, VisitProgram, Workers, Children;
    var all, root, jobs := All(lim, path, dir, a), Root(path, dir, a), Jobs(lim, path, dir, a);
    assert jobs[0][0] == root && all[0] == root;
  }

  /** A file where another member needs a directory, on the way to it or as the directory it is, fails every
      run, in whatever order they come. */
  lemma FileInTheWay(lim: Limits, path: string, dir: string, a: Archive, m: Member, n: Member, schedule: seq<nat>)
    requires lim.depth >= 1 && a.Zip? && |a.members| <= lim.members && m in a.members && n in a.members
    requires Taken(lim, m) && PathOf(dir, m) in DirsOf(lim, dir, n)
    requires Final(Exec(lim, Begin(lim, path, dir, a), schedule))
    ensures Failed(Exec(lim, Begin(lim, path, dir, a), schedule))
  {
    hide Exec, Begin, Final, Failed, Taken, PathOf, DirsOf, MemberPaths, MemberDirs, YieldOf, All, AllKept, Surviving,
      AllFit, PathsOf, DirsMade;
    RunCounts(lim, path, dir, a, schedule);
    AllStarts(lim, path, dir, a);
    var all := All(lim, path, dir, a);
    if AllKept(lim, all) {
      SurvivingListed(lim, dir, a.members, PathOf(dir, m));
      DirsListed(lim, dir, a.members, n);
      assert PathOf(dir, m) in VisitPaths(lim, Root(path, dir, a));
      assert PathOf(dir, m) in [path] + PathsOf(lim, all) && PathOf(dir, m) in DirsMade(lim, all);
    }
  }

  /** The members `a` and `a/b`: different paths within all caps, and no run succeeds. */
  lemma FileThenDirectory(lim: Limits, schedule: seq<nat>)
    requires lim.depth >= 1 && lim.members >= 2
    requires var a := Zip([File("a", [], NotZip), File("a/b", [], NotZip)]);
             Final(Exec(lim, Begin(lim, "/z.zip", "/t", a), schedule))
    ensures var a := Zip([File("a", [], NotZip), File("a/b", [], NotZip)]);
            var own := OwnVisits(lim, "/z.zip", "/t", a, 1);
            && PathsDiffer(lim, "/z.zip", "/t", a) && AllKept(lim, own) && YieldOf(lim, own).bytes <= lim.total
            && Failed(Exec(lim, Begin(lim, "/z.zip", "/t", a), schedule))
  {
    hide Exec, Begin, Final, Failed, Kept, VisitPaths, VisitYield, ZipName, PathOf, PathsOf;
    var m, n := File("a", [], NotZip), File("a/b", [], NotZip);
    var a := Zip([m, n]);
    var v := Visit("/z.zip", "/t", a, 1);
    ZipNames();
    WayExample(m, n);
    FileInTheWay(lim, "/z.zip", "/t", a, m, n, schedule);
    TwoFiles(lim, v, m, n);
    assert [m, n][1..] == [n] && [n][1..] == [];
    assert OwnNested(lim, "/t", [n], 2) == [] && OwnNested(lim, "/t", [m, n], 2) == [];
    assert OwnVisits(lim, "/z.zip", "/t", a, 1) == [v];
    OpenedOne(lim, v);
    assert [v][1..] == [] && AllKept(lim, [v]) && YieldOf(lim, [v]).bytes == VisitYield(lim, v).bytes;
    assert ["/z.zip"] + ["/t/a", "/t/a/b"] == ["/z.zip", "/t/a", "/t/a/b"];
  }

  lemma WayExample(m: Member, n: Member)
    requires m.name == "a" && n.name == "a/b"
    ensures PathOf("/t", m) == "/t/a" && PathOf("/t", n) == "/t/a/b" && "/t/a" in Above("/t/a/b")
  {
    assert "/t/a/b"[..4] == "/t/a" && "/t/a/b"[4] == '/';
  }

  // --- workers that write one path ---

  /** Archives whose names differ in the letters of the suffix only are extracted into one directory. */
  lemma SharedDirectory(dir: string, m: Member, n: Member)
    requires |m.name| == |n.name| >= 4 && m.name[..|m.name| - 4] == n.name[..|n.name| - 4]
    ensures NestedDir(PathOf(dir, m)) == NestedDir(PathOf(dir, n))
  {
    var p, q := PathOf(dir, m), PathOf(dir, n);
    assert p[..|p| - 4] == dir + "/" + m.name[..|m.name| - 4];
    assert q[..|q| - 4] == dir + "/" + n.name[..|n.name| - 4];
  }

  /** Two workers that extract into one directory write one path, as soon as the archives they find have a
      member of the same name. */
  lemma WorkersCollide(lim: Limits, path: string, dir: string, a: Archive, j: nat, k: nat, x: Member, y: Member)
    requires 0 < j < k < |Jobs(lim, path, dir, a)|
    requires var v, w := Opener(lim, path, dir, a, j), Opener(lim, path, dir, a, k);
             && Extracts(lim, v) && Kept(lim, v) && x in v.archive.members && Taken(lim, x)
             && Extracts(lim, w) && Kept(lim, w) && y in w.archive.members && Taken(lim, y)
             && v.dir == w.dir && x.name == y.name
    ensures var ps := Programs(lim, path, dir, a); |ps| > k && !(Touch(ps[j]) !! Touch(ps[k]))
  {
    hide Jobs, Programs, Touch, Taken, PathsOf, AllFit, MemberPaths, Surviving, Opener, PathOf;
    var v, w := Opener(lim, path, dir, a, j), Opener(lim, path, dir, a, k);
    var jobs, p := Jobs(lim, path, dir, a), PathOf(v.dir, x);
    ApartExactly(lim, path, dir, a, j, k);
    SameNamePath(v.dir, x, y);
    SurvivingListed(lim, v.dir, v.archive.members, p);
    SurvivingListed(lim, w.dir, w.archive.members, p);
    OpenerFirst(lim, path, dir, a, j, p);
    OpenerFirst(lim, path, dir, a, k, p);
    assert p in PathsOf(lim, jobs[j]) && p in PathsOf(lim, jobs[k]);
  }

  lemma SameNamePath(dir: string, x: Member, y: Member)
    requires x.name == y.name
    ensures PathOf(dir, x) == PathOf(dir, y)
  {
  }

  /** The first archive a thread opens. */
  function Opener(lim: Limits, path: string, dir: string, a: Archive, k: nat): Visit
    requires k < |Jobs(lim, path, dir, a)|
  {
    var job := Jobs(lim, path, dir, a)[k];
    if job == [] then Root(path, dir, a) else job[0]
  }

  lemma OpenerFirst(lim: Limits, path: string, dir: string, a: Archive, k: nat, p: string)
    requires k < |Jobs(lim, path, dir, a)| && p in VisitPaths(lim, Opener(lim, path, dir, a, k))
    ensures p in PathsOf(lim, Jobs(lim, path, dir, a)[k])
  {
    hide VisitPaths, Extracted, Programs, Children, Visits, Kept, Run, Jobs, FansOut, PathOf, NestedDir;
    JobsAre(lim, path, dir, a);
    var jobs := Jobs(lim, path, dir, a);
    HeldFirst(lim, map[path := Whole(a)], path, dir, 1);
    if FansOut(lim, path, dir, a) && k > 0 {
      var n := Children(lim, Root(path, dir, a))[k - 1];
      assert jobs[k] == jobs[k - 1 + 1];
      HeldFirst(lim, Extracted(lim, path, dir, a), PathOf(dir, n), NestedDir(PathOf(dir, n)), 2);
    }
    assert jobs[k] != [];
  }

  lemma NestedDirIs(dir: string, stem: string)
    ensures NestedDir(dir + "/" + (stem + ".zip")) == dir + "/" + stem + "_extracted"
  {
    var p := dir + "/" + (stem + ".zip");
    assert p[..|p| - 4] == dir + "/" + stem;
  }

  /** Different directories do not help: `q.zip` with the member `r_extracted/x`, and `q_extracted/r.zip` with
      the member `x`. */
  lemma DirectoriesMeet(lim: Limits, path: string, dir: string, q: Member, r: Member, x: Member, y: Member)
    requires lim.depth >= 2 && lim.members >= 2 && q.content == Zip([x]) && r.content == Zip([y])
    requires forall m :: m in {q, r, x, y} ==> Taken(lim, m) && Fits(lim, m)
    requires q.name == "q.zip" && r.name == "q_extracted/r.zip" && x.name == "r_extracted/x" && y.name == "x"
    ensures NestedDir(PathOf(dir, q)) != NestedDir(PathOf(dir, r))
    ensures var ps := Programs(lim, path, dir, Zip([q, r])); |ps| == 3 && !(Touch(ps[1]) !! Touch(ps[2]))
  {
    hide Programs, Jobs, Touch, Taken, Fits, PathOf, NestedDir, Kept, Surviving, VisitPaths, PathsOf;
    var a := Zip([q, r]);
    var root := Root(path, dir, a);
    OnePath(dir, q, r, x, y);
    MeetNames();
    TwoFiles(lim, root, q, r);
    assert Children(lim, root) == [q, r];
    JobsAre(lim, path, dir, a);
    OneOfTwo(lim, dir, q, r);
    WorkerOpens(lim, path, dir, a, 0);
    WorkerOpens(lim, path, dir, a, 1);
    OneFile(lim, Opener(lim, path, dir, a, 1), x);
    OneFile(lim, Opener(lim, path, dir, a, 2), y);
    var p := PathOf(NestedDir(PathOf(dir, q)), x);
    OpenerFirst(lim, path, dir, a, 1, p);
    OpenerFirst(lim, path, dir, a, 2, p);
    ApartExactly(lim, path, dir, a, 1, 2);
    var jobs := Jobs(lim, path, dir, a);
    assert p in PathsOf(lim, jobs[1]) && p in PathsOf(lim, jobs[2]);
  }

  lemma MeetNames()
    ensures ZipName("q.zip") && ZipName("q_extracted/r.zip")
  {
    var q, r := "q.zip", "q_extracted/r.zip";
    assert q[1..] == ".zip" && r[|r| - 4..] == ".zip" && Lower(".zip") == ".zip";
  }

  lemma OneOfTwo(lim: Limits, dir: string, q: Member, r: Member)
    requires Taken(lim, q) && Taken(lim, r)
    ensures Surviving(lim, dir, [q, r], PathOf(dir, r)) == Some(r.content)
    ensures var c := if PathOf(dir, q) == PathOf(dir, r) then r.content else q.content;
            Surviving(lim, dir, [q, r], PathOf(dir, q)) == Some(c)
  {
    hide Taken, PathOf;
    assert [q, r][1..] == [r] && [r][1..] == [];
    assert Surviving(lim, dir, [], PathOf(dir, q)) == None && Surviving(lim, dir, [], PathOf(dir, r)) == None;
    assert Surviving(lim, dir, [r], PathOf(dir, r)) == Some(r.content);
  }

  lemma OnePath(dir: string, q: Member, r: Member, x: Member, y: Member)
    requires q.name == "q.zip" && r.name == "q_extracted/r.zip" && x.name == "r_extracted/x" && y.name == "x"
    ensures PathOf(NestedDir(PathOf(dir, q)), x) == PathOf(NestedDir(PathOf(dir, r)), y)
    ensures NestedDir(PathOf(dir, q)) != NestedDir(PathOf(dir, r)) && PathOf(dir, q) != PathOf(dir, r)
  {
    NestedDirIs(dir, "q");
    NestedDirIs(dir, "q_extracted/r");
    assert "q" + ".zip" == q.name && "q_extracted/r" + ".zip" == r.name;
    var d := dir + "/";
    assert d + "q" + "_extracted" + "/" + x.name == d + "q_extracted/r_extracted/x";
    assert d + "q_extracted/r" + "_extracted" + "/" + y.name == d + "q_extracted/r_extracted/x";
    assert |d + "q" + "_extracted"| < |d + "q_extracted/r" + "_extracted"|;
    assert |PathOf(dir, q)| < |PathOf(dir, r)|;
  }

  // --- archives of one name ---

  /** Two archives of one name: the second content is extracted twice and the first never. */
  lemma LastContentTwice(lim: Limits, path: string, dir: string, m: Member, n: Member, x: Member, y: Member)
    requires lim.depth >= 2 && lim.members >= 2 && m.name == n.name && ZipName(m.name) && !ZipName(y.name)
    requires m.content == Zip([x]) && n.content == Zip([y])
    requires forall f :: f in {m, n, x, y} ==> Taken(lim, f) && Fits(lim, f)
    ensures var a, p := Zip([m, n]), PathOf(dir, n);
            var root, w := Root(path, dir, a), Visit(p, NestedDir(p), Zip([y]), 2);
            && Jobs(lim, path, dir, a) == [[root], [w], [w]] && OpensApart(lim, Jobs(lim, path, dir, a))
            && |Programs(lim, path, dir, a)| == 3
            && !(Touch(Programs(lim, path, dir, a)[1]) !! Touch(Programs(lim, path, dir, a)[2]))
  {
    hide PathOf, NestedDir, Jobs, PathsOf, OpenedBy, Taken, Fits, ZipName, Programs, Touch, VisitPaths, Children;
    var a, p := Zip([m, n]), PathOf(dir, n);
    var w := Visit(p, NestedDir(p), Zip([y]), 2);
    BothOpenLast(lim, path, dir, m, n, y);
    var jobs := Jobs(lim, path, dir, a);
    assert jobs == [[Root(path, dir, a)], [w], [w]];
    OpenedOne(lim, w);
    VisitNeverOwn(lim, w);
    OneFile(lim, w, y);
    ApartExactly(lim, path, dir, a, 1, 2);
    assert PathOf(w.dir, y) in PathsOf(lim, [w]);
  }

  lemma BothOpenLast(lim: Limits, path: string, dir: string, m: Member, n: Member, y: Member)
    requires lim.depth >= 2 && lim.members >= 2 && m.name == n.name && ZipName(m.name) && !ZipName(y.name)
    requires n.content == Zip([y]) && forall f :: f in {m, n, y} ==> Taken(lim, f) && Fits(lim, f)
    ensures var a, p := Zip([m, n]), PathOf(dir, n);
            var w, jobs := Visit(p, NestedDir(p), Zip([y]), 2), Jobs(lim, path, dir, a);
            |jobs| == 3 && jobs[0] == [Root(path, dir, a)] && jobs[1] == [w] && jobs[2] == [w]
  {
    hide Programs, Taken, Fits, PathOf, NestedDir, Kept, Surviving, VisitPaths, ZipName, Children, Jobs, PathsOf, Run,
      Visits, Extracted, VisitDirs, VisitYield, Extracts;
    var a, p := Zip([m, n]), PathOf(dir, n);
    var root, w, e := Root(path, dir, a), Visit(p, NestedDir(p), Zip([y]), 2), Extracted(lim, path, dir, a);
    TwoFiles(lim, root, m, n);
    assert Children(lim, root) == [m, n];
    JobsAre(lim, path, dir, a);
    SameNamePath(dir, m, n);
    OneOfTwo(lim, dir, m, n);
    WorkerOpens(lim, path, dir, a, 0);
    WorkerOpens(lim, path, dir, a, 1);
    OneFile(lim, w, y);
    HeldFirst(lim, e, p, NestedDir(p), 2);
    OneVisit(lim, e, w);
  }

  lemma HeldFirst(lim: Limits, d: Disk, path: string, dir: string, depth: nat)
    ensures var vs := Visits(lim, d, path, dir, depth); vs != [] && vs[0].archive == Held(d, path)
  {
    hide VisitProgram, NestedVisits, Kept, Children, Held;
  }

  lemma OneVisit(lim: Limits, d: Disk, v: Visit)
    requires Held(d, v.path) == v.archive && Children(lim, v) == []
    ensures Visits(lim, d, v.path, v.dir, v.depth) == [v]
  {
    hide Children, VisitProgram, After, Kept;
    EmptyUnit([v]);
  }

  /** No archive is written by its own extraction. */
  lemma VisitNeverOwn(lim: Limits, v: Visit)
    requires v.dir == NestedDir(v.path)
    ensures v.path !in VisitPaths(lim, v)
  {
    hide VisitPaths;
    assert |v.dir + "/"| > |v.path|;
    VisitBelow(lim, v);
  }

  /** `a.zip` twice, of one byte each, the first with a file `b` of one byte, the second with one of nine: every
      run ends with 20 bytes or fails on the limit, where the bundle as it stands has 12. */
  lemma TwentyBytes(total: nat, schedule: seq<nat>)
    requires var lim, a := Limits(total, 100, 10, 100, 2), Example();
             Final(Exec(lim, Begin(lim, "/z.zip", "/t", a), schedule))
    ensures var lim, a := Limits(total, 100, 10, 100, 2), Example();
            var s := Exec(lim, Begin(lim, "/z.zip", "/t", a), schedule);
            && YieldOf(lim, OwnVisits(lim, "/z.zip", "/t", a, 1)).bytes == 12
            && (!Failed(s) <==> total >= 20) && (!Failed(s) ==> s.bytes == 20)
  {
    hide Exec, Begin, Final, Failed, PathsOf, DirsMade, AllKept, YieldOf, OwnVisits, Jobs, OpensApart;
    var lim, a := Limits(total, 100, 10, 100, 2), Example();
    var m, n := a.members[0], a.members[1];
    ZipNames();
    LastContentTwice(lim, "/z.zip", "/t", m, n, m.content.members[0], n.content.members[0]);
    ExampleAll(lim, a);
    ExampleOwn(lim, a);
    assert ("/t" + "/")[1] != "/z.zip"[1];
    OutsideIsSpared(lim, "/z.zip", "/t", a);
    RunYields(lim, "/z.zip", "/t", a, schedule);
  }

  function Example(): Archive {
    Zip([File("a.zip", [1], Zip([File("b", [1], NotZip)])), File("a.zip", [1], Zip([File("b", [9], NotZip)]))])
  }

  lemma ExampleAll(lim: Limits, a: Archive)
    requires lim == Limits(lim.total, 100, 10, 100, 2) && a == Example()
    requires var p := PathOf("/t", a.members[1]);
             var w := Visit(p, NestedDir(p), a.members[1].content, 2);
             Jobs(lim, "/z.zip", "/t", a) == [[Root("/z.zip", "/t", a)], [w], [w]]
    ensures var all := All(lim, "/z.zip", "/t", a);
            AllKept(lim, all) && YieldOf(lim, all).bytes == 20 && FilesFit(lim, "/z.zip", all)
  {
    hide Kept, VisitPaths, VisitDirs, VisitYield, PathOf, NestedDir, Above, ZipName, Jobs;
    var m, n, y := a.members[0], a.members[1], a.members[1].content.members[0];
    var root, w := Root("/z.zip", "/t", a), Visit("/t/a.zip", "/t/a_extracted", n.content, 2);
    ZipNames();
    ExamplePaths(n, y);
    SameNamePath("/t", m, n);
    TwoFiles(lim, root, m, n);
    OneFile(lim, w, y);
    FlatThree([root], [w], [w]);
    ThreeVisits(lim, root, w);
    assert Size([1]) == 1 && Size([9]) == 9;
  }

  lemma FlatThree(a: seq<Visit>, b: seq<Visit>, c: seq<Visit>)
    ensures Flat([a, b, c]) == a + (b + c)
  {
    assert [a, b, c][1..] == [b, c] && [b, c][1..] == [c] && [c][1..] == [];
    assert Flat([c]) == c && Flat([b, c]) == b + c;
  }

  lemma ThreeVisits(lim: Limits, v: Visit, w: Visit)
    ensures var all := [v] + ([w] + [w]);
            && PathsOf(lim, all) == VisitPaths(lim, v) + (VisitPaths(lim, w) + VisitPaths(lim, w))
            && DirsMade(lim, all) == VisitDirs(lim, v) + VisitDirs(lim, w)
            && (AllKept(lim, all) <==> Kept(lim, v) && Kept(lim, w))
            && YieldOf(lim, all).bytes == VisitYield(lim, v).bytes + 2 * VisitYield(lim, w).bytes
  {
    hide VisitPaths, VisitDirs, Kept, VisitYield, PathsOf, DirsMade, AllKept, YieldOf;
    TwoVisits(lim, w, w);
    assert [w] + [w] == [w, w];
    PathsAppend(lim, [v], [w, w]);
    KeptAppend(lim, [v], [w, w]);
    YieldAppend(lim, [v], [w, w]);
    SingleVisit(lim, v);
  }

  lemma SingleVisit(lim: Limits, v: Visit)
    ensures PathsOf(lim, [v]) == VisitPaths(lim, v) && DirsMade(lim, [v]) == VisitDirs(lim, v)
    ensures (AllKept(lim, [v]) <==> Kept(lim, v)) && YieldOf(lim, [v]).bytes == VisitYield(lim, v).bytes
  {
    hide VisitPaths, VisitDirs, Kept, VisitYield;
    assert [v][1..] == [];
    EmptyUnit(VisitPaths(lim, v));
  }

  lemma ExampleOwn(lim: Limits, a: Archive)
    requires lim == Limits(lim.total, 100, 10, 100, 2) && a == Example()
    ensures YieldOf(lim, OwnVisits(lim, "/z.zip", "/t", a, 1)).bytes == 12
  {
    hide Kept, VisitYield, PathOf, NestedDir, ZipName, YieldOf, OwnVisits;
    var m, n := a.members[0], a.members[1];
    var x, y := m.content.members[0], n.content.members[0];
    var root, d := Root("/z.zip", "/t", a), NestedDir(PathOf("/t", m));
    var v, w := Visit(PathOf("/t", m), d, m.content, 2), Visit(PathOf("/t", n), d, n.content, 2);
    ZipNames();
    SameNamePath("/t", m, n);
    TwoFiles(lim, root, m, n);
    OneFile(lim, v, x);
    OneFile(lim, w, y);
    OwnOne(lim, v, x);
    OwnOne(lim, w, y);
    OwnTwo(lim, root, m, n);
    assert [v] + [w] == [v, w];
    TwoVisits(lim, v, w);
    YieldAppend(lim, [root], [v, w]);
    SingleVisit(lim, root);
    assert Size([1]) == 1 && Size([9]) == 9;
  }

  lemma OwnTwo(lim: Limits, v: Visit, m: Member, n: Member)
    requires v.archive == Zip([m, n]) && v.depth <= lim.depth && Opens(lim, m) && Opens(lim, n)
    ensures OwnVisits(lim, v.path, v.dir, v.archive, v.depth) ==
            [v] + (OwnMember(lim, v.dir, m, v.depth + 1) + OwnMember(lim, v.dir, n, v.depth + 1))
  {
    hide Opens, OwnMember;
    var d := v.depth + 1;
    assert [m, n][1..] == [n] && [n][1..] == [];
    assert OwnNested(lim, v.dir, [n], d) == OwnMember(lim, v.dir, n, d);
    assert OwnNested(lim, v.dir, [m, n], d) == OwnMember(lim, v.dir, m, d) + OwnMember(lim, v.dir, n, d);
  }
}
