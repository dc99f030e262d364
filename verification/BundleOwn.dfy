/** Bundles whose paths differ: every archive is opened with the content that stands in the bundle for it. And
    bundles in which paths meet. */
module BundleOwn {
  import opened Text
  import opened Bundle
  import opened BundlePrograms
  import opened BundlePaths
  import opened BundleDisk

  // --- the archives of a bundle, each with its own content ---

  function OwnVisits(lim: Limits, path: string, dir: string, a: Archive, depth: nat): seq<Visit>
    decreases a, 0
  {
    [Visit(path, dir, a, depth)]
    + (if depth > lim.depth || a.NotZip? then [] else OwnNested(lim, dir, a.members, depth + 1))
  }

  function OwnNested(lim: Limits, dir: string, ms: seq<Member>, depth: nat): seq<Visit>
    decreases ms, 1
  {
    if ms == [] then []
    else (if Opens(lim, ms[0]) then OwnMember(lim, dir, ms[0], depth) else []) + OwnNested(lim, dir, ms[1..], depth)
  }

  function OwnMember(lim: Limits, dir: string, m: Member, depth: nat): seq<Visit>
    decreases m, 1
  {
    OwnVisits(lim, PathOf(dir, m), NestedDir(PathOf(dir, m)), m.content, depth)
  }

  /** No file of the bundle, nor the bundle itself, is written twice. */
  predicate PathsDiffer(lim: Limits, path: string, dir: string, a: Archive) {
    Distinct([path] + PathsOf(lim, OwnVisits(lim, path, dir, a, 1)))
  }

  lemma DistinctAppend(a: seq<string>, b: seq<string>)
    requires Distinct(a + b)
    ensures Distinct(a) && Distinct(b) && Disjoint(a, b)
  {
    var all := a + b;
    forall i, j | 0 <= i < j < |a| ensures a[i] != a[j] { assert all[i] == a[i] && all[j] == a[j]; }
    forall i, j | 0 <= i < j < |b| ensures b[i] != b[j] { assert all[|a| + i] == b[i] && all[|a| + j] == b[j]; }
    forall i, j | 0 <= i < |a| && 0 <= j < |b| ensures a[i] != b[j] {
      assert all[i] == a[i] && all[|a| + j] == b[j];
    }
  }

  /** The visits up to the first that breaks a cap. */
  function UpTo(lim: Limits, vs: seq<Visit>): seq<Visit> {
    if vs == [] then [] else [vs[0]] + (if Kept(lim, vs[0]) then UpTo(lim, vs[1..]) else [])
  }

  lemma {:induction false} UpToFacts(lim: Limits, vs: seq<Visit>)
    ensures AllKept(lim, UpTo(lim, vs)) <==> AllKept(lim, vs)
    ensures AllKept(lim, vs) ==> UpTo(lim, vs) == vs
    ensures forall p :: p in PathsOf(lim, UpTo(lim, vs)) ==> p in PathsOf(lim, vs)
    decreases |vs|
  {
    hide Kept, VisitPaths;
    if vs != [] {
      UpToFacts(lim, vs[1..]);
      assert vs == [vs[0]] + vs[1..];
      EmptyUnit(VisitPaths(lim, vs[0]));
      var up := UpTo(lim, vs);
      assert up[0] == vs[0] && up[1..] == if Kept(lim, vs[0]) then UpTo(lim, vs[1..]) else [];
    }
  }

  lemma {:induction false} UpToAppend(lim: Limits, a: seq<Visit>, b: seq<Visit>)
    ensures UpTo(lim, a + b) == if AllKept(lim, a) then a + UpTo(lim, b) else UpTo(lim, a)
    decreases |a|
  {
    hide Kept;
    if a == [] {
      EmptyUnit(b);
      EmptyUnit(UpTo(lim, b));
    } else {
      assert (a + b)[1..] == a[1..] + b;
      UpToAppend(lim, a[1..], b);
      assert a == [a[0]] + a[1..];
      Assoc([a[0]], a[1..], UpTo(lim, b));
    }
  }

  // --- the content that is opened ---

  lemma {:induction false} SurvivingOwn(lim: Limits, dir: string, ms: seq<Member>, m: Member)
    requires AllFit(lim, ms) && Distinct(MemberPaths(lim, dir, ms)) && m in ms && Taken(lim, m)
    ensures Surviving(lim, dir, ms, PathOf(dir, m)) == Some(m.content) && PathOf(dir, m) in MemberPaths(lim, dir, ms)
    decreases |ms|
  {
    hide Taken, PathOf;
    var p := PathOf(dir, m);
    SurvivingListed(lim, dir, ms[1..], p);
    DistinctAppend(if Taken(lim, ms[0]) then [PathOf(dir, ms[0])] else [], MemberPaths(lim, dir, ms[1..]));
    if m in ms[1..] {
      SurvivingOwn(lim, dir, ms[1..], m);
    } else {
      assert m == ms[0] && p in [p];
    }
  }

  /** The files of the members to be opened hold their contents, and none of the archives opened before writes
      them. */
  ghost predicate Waiting(lim: Limits, d: Disk, dir: string, ms: seq<Member>, later: seq<string>) {
    forall m :: m in ms && Opens(lim, m) ==>
                  PathOf(dir, m) in d && d[PathOf(dir, m)] == Whole(m.content) && PathOf(dir, m) !in later
  }

  lemma OwnParts(lim: Limits, path: string, dir: string, a: Archive, depth: nat)
    requires depth <= lim.depth && a.Zip?
    ensures var v, rest := Visit(path, dir, a, depth), OwnNested(lim, dir, a.members, depth + 1);
            && OwnVisits(lim, path, dir, a, depth) == [v] + rest
            && PathsOf(lim, OwnVisits(lim, path, dir, a, depth)) == VisitPaths(lim, v) + PathsOf(lim, rest)
  {
    hide VisitPaths, OwnNested;
    var v, rest := Visit(path, dir, a, depth), OwnNested(lim, dir, a.members, depth + 1);
    assert ([v] + rest)[1..] == rest;
  }

  /** With different paths, what is opened is what stands in the bundle. */
  lemma {:induction false} VisitsOwn(lim: Limits, d: Disk, path: string, dir: string, a: Archive, depth: nat)
    requires path in d && d[path] == Whole(a) && Distinct(PathsOf(lim, OwnVisits(lim, path, dir, a, depth)))
    ensures Visits(lim, d, path, dir, depth) == UpTo(lim, OwnVisits(lim, path, dir, a, depth))
    decreases a, 0
  {
    hide VisitProgram, NestedVisits, OwnNested, Kept, After, PathsOf, VisitPaths, Waiting, Distinct, Opens;
    var v := Visit(path, dir, a, depth);
    UpToOne(lim, v);
    if v.depth <= lim.depth && Kept(lim, v) {
      if a.Zip? {
        OwnParts(lim, path, dir, a, depth);
        var rest := OwnNested(lim, dir, a.members, depth + 1);
        ChildrenWait(lim, v, d, PathsOf(lim, rest));
        DistinctAppend(VisitPaths(lim, v), PathsOf(lim, rest));
        NestedOwn(lim, After(d, VisitProgram(lim, v)), dir, a.members, depth + 1);
        UpToAppend(lim, [v], rest);
      } else {
        NestedNothing(lim, After(d, VisitProgram(lim, v)), dir, depth + 1);
        EmptyUnit([v]);
      }
    } else {
      UpToAppend(lim, [v], if depth > lim.depth || a.NotZip? then [] else OwnNested(lim, dir, a.members, depth + 1));
      EmptyUnit([v]);
    }
  }

  lemma UpToOne(lim: Limits, v: Visit)
    ensures UpTo(lim, [v]) == [v] && (AllKept(lim, [v]) <==> Kept(lim, v)) && UpTo(lim, []) == []
  {
    hide Kept;
    assert [v][1..] == [];
  }

  lemma NestedNothing(lim: Limits, d: Disk, dir: string, depth: nat)
    ensures NestedVisits(lim, d, dir, [], depth) == []
  {
  }

  lemma ChildrenWait(lim: Limits, v: Visit, d: Disk, later: seq<string>)
    requires v.depth <= lim.depth && v.archive.Zip? && Kept(lim, v) && Distinct(VisitPaths(lim, v) + later)
    ensures Waiting(lim, After(d, VisitProgram(lim, v)), v.dir, v.archive.members, later)
  {
    hide VisitProgram, AllFit, PathOf, Surviving, Taken, MemberPaths, Distinct;
    var ms, e := v.archive.members, After(d, VisitProgram(lim, v));
    DistinctAppend(VisitPaths(lim, v), later);
    forall m | m in ms && Opens(lim, m)
      ensures PathOf(v.dir, m) in e && e[PathOf(v.dir, m)] == Whole(m.content) && PathOf(v.dir, m) !in later
    {
      SurvivingOwn(lim, v.dir, ms, m);
      VisitAfter(lim, v, d, PathOf(v.dir, m));
    }
  }

  lemma {:induction false} NestedOwn(lim: Limits, d: Disk, dir: string, ms: seq<Member>, depth: nat)
    requires Distinct(PathsOf(lim, OwnNested(lim, dir, ms, depth)))
    requires Waiting(lim, d, dir, ms, PathsOf(lim, OwnNested(lim, dir, ms, depth)))
    ensures NestedVisits(lim, d, dir, Nested(lim, ms), depth) == UpTo(lim, OwnNested(lim, dir, ms, depth))
    decreases ms, 1
  {
    hide Opens, OwnMember, MemberVisits, PathsOf, After, Run, AllKept, Distinct, PathOf, UpTo;
    if ms == [] {
      UpToOne(lim, Visit("", "", NotZip, 0));
    } else {
      var rest := OwnNested(lim, dir, ms[1..], depth);
      assert forall m :: m in ms[1..] ==> m in ms;
      if Opens(lim, ms[0]) {
        var own := OwnMember(lim, dir, ms[0], depth);
        var e := After(d, Run(lim, own));
        PathsAppend(lim, own, rest);
        DistinctAppend(PathsOf(lim, own), PathsOf(lim, rest));
        assert ms[0] in ms;
        MemberOwn(lim, d, dir, ms[0], depth);
        UpToFacts(lim, own);
        UpToAppend(lim, own, rest);
        assert Nested(lim, ms)[1..] == Nested(lim, ms[1..]);
        if AllKept(lim, own) {
          StillWaiting(lim, d, dir, ms, own, PathsOf(lim, rest));
          NestedOwn(lim, e, dir, ms[1..], depth);
        }
      } else {
        EmptyUnit(rest);
        EmptyUnit(Nested(lim, ms[1..]));
        NestedOwn(lim, d, dir, ms[1..], depth);
      }
    }
  }

  lemma StillWaiting(lim: Limits, d: Disk, dir: string, ms: seq<Member>, own: seq<Visit>, later: seq<string>)
    requires ms != [] && Waiting(lim, d, dir, ms, PathsOf(lim, own) + later)
    ensures Waiting(lim, After(d, Run(lim, own)), dir, ms[1..], later)
  {
    hide Opens, PathsOf, After, Run, PathOf, Touch, Made, Opened, Reads, OpenedBy, DirsMade;
    var e := After(d, Run(lim, own));
    RunLeaves(lim, own);
    forall m | m in ms[1..] && Opens(lim, m)
      ensures PathOf(dir, m) in e && e[PathOf(dir, m)] == Whole(m.content) && PathOf(dir, m) !in later
    {
      assert m in ms;
      AfterElsewhere(Run(lim, own), d, PathOf(dir, m));
    }
  }

  lemma {:induction false} MemberOwn(lim: Limits, d: Disk, dir: string, m: Member, depth: nat)
    requires PathOf(dir, m) in d && d[PathOf(dir, m)] == Whole(m.content)
    requires Distinct(PathsOf(lim, OwnMember(lim, dir, m, depth)))
    ensures MemberVisits(lim, d, dir, m, depth) == UpTo(lim, OwnMember(lim, dir, m, depth))
    decreases m, 1
  {
    hide PathsOf, Visits, OwnVisits, UpTo, Distinct, PathOf, NestedDir;
    VisitsOwn(lim, d, PathOf(dir, m), NestedDir(PathOf(dir, m)), m.content, depth);
  }

  // --- the threads ---

  /** What a thread opens is what it was sent for, or what it has written. */
  lemma {:induction false} OpenedWithin(lim: Limits, d: Disk, path: string, dir: string, depth: nat, p: string)
    ensures p in OpenedBy(lim, Visits(lim, d, path, dir, depth)) ==>
              p == path || p in PathsOf(lim, Visits(lim, d, path, dir, depth))
    decreases Levels(lim, depth), 0
  {
    hide NestedVisits, VisitProgram, After, AllFit, MemberPaths, Nested, PathsOf, OpenedBy;
    var v := Visit(path, dir, Held(d, path), depth);
    OpenedOne(lim, v);
    if v.depth <= lim.depth && Kept(lim, v) {
      var e, ns := After(d, VisitProgram(lim, v)), Children(lim, v);
      var rest := NestedVisits(lim, e, dir, ns, depth + 1);
      NestedWithin(lim, e, dir, ns, depth + 1, p);
      PathsAppend(lim, [v], rest);
      if n :| n in ns && p == PathOf(dir, n) { ChildListed(lim, v, n); }
    }
  }

  lemma OpenedOne(lim: Limits, v: Visit)
    ensures OpenedBy(lim, [v]) <= {v.path} && PathsOf(lim, [v]) == VisitPaths(lim, v)
  {
    hide VisitPaths;
    assert [v][1..] == [];
    EmptyUnit(VisitPaths(lim, v));
  }

  lemma ChildListed(lim: Limits, v: Visit, n: Member)
    requires Kept(lim, v) && n in Children(lim, v)
    ensures PathOf(v.dir, n) in VisitPaths(lim, v)
  {
    hide AllFit, MemberPaths, Nested, Surviving, PathOf, Taken;
    NestedListed(lim, v.archive.members);
    SurvivingListed(lim, v.dir, v.archive.members, PathOf(v.dir, n));
  }

  lemma {:induction false} NestedWithin(lim: Limits, d: Disk, dir: string, ns: seq<Member>, depth: nat, p: string)
    ensures var vs := NestedVisits(lim, d, dir, ns, depth);
            p in OpenedBy(lim, vs) ==> p in PathsOf(lim, vs) || exists n :: n in ns && p == PathOf(dir, n)
    decreases Levels(lim, depth), 1 + |ns|
  {
    hide MemberVisits, After, Run, AllKept, PathsOf, OpenedBy, PathOf;
    NothingWritten(lim);
    if ns != [] {
      var first := MemberVisits(lim, d, dir, ns[0], depth);
      MemberWithin(lim, d, dir, ns[0], depth, p);
      assert ns[0] in ns && forall n :: n in ns[1..] ==> n in ns;
      if AllKept(lim, first) {
        var e := After(d, Run(lim, first));
        NestedWithin(lim, e, dir, ns[1..], depth, p);
        PathsAppend(lim, first, NestedVisits(lim, e, dir, ns[1..], depth));
      }
    }
  }

  lemma {:induction false} MemberWithin(lim: Limits, d: Disk, dir: string, m: Member, depth: nat, p: string)
    ensures var vs := MemberVisits(lim, d, dir, m, depth);
            p in OpenedBy(lim, vs) ==> p == PathOf(dir, m) || p in PathsOf(lim, vs)
    decreases Levels(lim, depth), 1
  {
    hide Visits, PathsOf, OpenedBy, PathOf, NestedDir;
    OpenedWithin(lim, d, PathOf(dir, m), NestedDir(PathOf(dir, m)), depth, p);
  }

  /** The workers' archives, when all of them hold what stands in the bundle. */
  lemma {:induction false} WorkersOwn(lim: Limits, d: Disk, dir: string, ms: seq<Member>)
    requires Distinct(PathsOf(lim, OwnNested(lim, dir, ms, 2)))
    requires Waiting(lim, d, dir, ms, PathsOf(lim, OwnNested(lim, dir, ms, 2)))
    ensures var flat, own := Flat(Workers(lim, d, dir, Nested(lim, ms))), OwnNested(lim, dir, ms, 2);
            (AllKept(lim, flat) <==> AllKept(lim, own)) && (AllKept(lim, own) ==> flat == own)
    decreases |ms|
  {
    hide Opens, OwnMember, MemberVisits, PathsOf, AllKept, Distinct, PathOf, UpTo;
    if ms != [] {
      var rest := OwnNested(lim, dir, ms[1..], 2);
      assert forall m :: m in ms[1..] ==> m in ms;
      EmptyUnit(rest);
      EmptyUnit(Nested(lim, ms[1..]));
      if Opens(lim, ms[0]) {
        var own := OwnMember(lim, dir, ms[0], 2);
        PathsAppend(lim, own, rest);
        DistinctAppend(PathsOf(lim, own), PathsOf(lim, rest));
        WorkersOwn(lim, d, dir, ms[1..]);
        assert ms[0] in ms;
        MemberOwn(lim, d, dir, ms[0], 2);
        UpToFacts(lim, own);
        WorkersFirst(lim, d, dir, ms[0], Nested(lim, ms[1..]));
        KeptAppend(lim, own, rest);
        KeptAppend(lim, MemberVisits(lim, d, dir, ms[0], 2), Flat(Workers(lim, d, dir, Nested(lim, ms[1..]))));
      } else {
        WorkersOwn(lim, d, dir, ms[1..]);
      }
    }
  }

  lemma WorkersFirst(lim: Limits, d: Disk, dir: string, n: Member, ns: seq<Member>)
    ensures Flat(Workers(lim, d, dir, [n] + ns)) == MemberVisits(lim, d, dir, n, 2) + Flat(Workers(lim, d, dir, ns))
  {
    hide MemberVisits;
    var all := Workers(lim, d, dir, [n] + ns);
    assert all[1..] == Workers(lim, d, dir, ns);
  }

  lemma NestedFirst(lim: Limits, dir: string, ms: seq<Member>)
    requires ms != []
    ensures Nested(lim, ms) == (if Opens(lim, ms[0]) then [ms[0]] else []) + Nested(lim, ms[1..])
    ensures var first := if Opens(lim, ms[0]) then PathsOf(lim, OwnMember(lim, dir, ms[0], 2)) else [];
            PathsOf(lim, OwnNested(lim, dir, ms, 2)) == first + PathsOf(lim, OwnNested(lim, dir, ms[1..], 2))
  {
    hide Opens, OwnMember, PathsOf;
    var rest := OwnNested(lim, dir, ms[1..], 2);
    PathsAppend(lim, if Opens(lim, ms[0]) then OwnMember(lim, dir, ms[0], 2) else [], rest);
    NothingWritten(lim);
  }

  lemma {:induction false} OwnApart(lim: Limits, dir: string, ms: seq<Member>, i: nat, j: nat)
    requires Distinct(PathsOf(lim, OwnNested(lim, dir, ms, 2))) && i < j < |Nested(lim, ms)|
    ensures var ns := Nested(lim, ms);
            Disjoint(PathsOf(lim, OwnMember(lim, dir, ns[i], 2)), PathsOf(lim, OwnMember(lim, dir, ns[j], 2)))
    decreases |ms|
  {
    hide Opens, OwnMember, PathsOf, Distinct, Disjoint, OwnNested;
    assert ms != [];
    hide Nested;
    NestedFirst(lim, dir, ms);
    var n := if Opens(lim, ms[0]) then 1 else 0;
    var first, rest := PathsOf(lim, OwnMember(lim, dir, ms[0], 2)), PathsOf(lim, OwnNested(lim, dir, ms[1..], 2));
    DistinctAppend(if n == 1 then first else [], rest);
    if i < n {
      OwnListed(lim, dir, ms[1..], j - 1);
      DisjointPart(first, rest, PathsOf(lim, OwnMember(lim, dir, Nested(lim, ms[1..])[j - 1], 2)));
    } else {
      OwnApart(lim, dir, ms[1..], i - n, j - n);
    }
  }

  lemma DisjointPart(a: seq<string>, b: seq<string>, c: seq<string>)
    requires Disjoint(a, b) && forall p :: p in c ==> p in b
    ensures Disjoint(a, c)
  {
  }

  lemma {:induction false} OwnListed(lim: Limits, dir: string, ms: seq<Member>, i: nat)
    requires i < |Nested(lim, ms)|
    ensures var n := Nested(lim, ms)[i];
            && n in ms && Opens(lim, n)
            && forall p :: p in PathsOf(lim, OwnMember(lim, dir, n, 2)) ==>
                             p in PathsOf(lim, OwnNested(lim, dir, ms, 2))
    decreases |ms|
  {
    hide Opens, OwnMember, PathsOf;
    var rest := OwnNested(lim, dir, ms[1..], 2);
    EmptyUnit(rest);
    EmptyUnit(Nested(lim, ms[1..]));
    if Opens(lim, ms[0]) {
      PathsAppend(lim, OwnMember(lim, dir, ms[0], 2), rest);
      if i > 0 { OwnListed(lim, dir, ms[1..], i - 1); }
    } else {
      OwnListed(lim, dir, ms[1..], i);
    }
  }

  /** When the paths differ, the threads visit the bundle's own archives, as far as no cap is broken. */
  lemma AllOwn(lim: Limits, path: string, dir: string, a: Archive)
    requires PathsDiffer(lim, path, dir, a)
    ensures var all, own := All(lim, path, dir, a), OwnVisits(lim, path, dir, a, 1);
            (AllKept(lim, all) <==> AllKept(lim, own)) && (AllKept(lim, own) ==> all == own)
  {
    hide Visits, VisitProgram, PathsOf, VisitPaths, AllKept, OwnNested, UpTo, Distinct, Kept, Nested, Waiting, After,
      Flat;
    var root, own, d := Root(path, dir, a), OwnVisits(lim, path, dir, a, 1), map[path := Whole(a)];
    DistinctAppend([path], PathsOf(lim, own));
    JobsAre(lim, path, dir, a);
    if FansOut(lim, path, dir, a) {
      var rest, e := OwnNested(lim, dir, a.members, 2), Extracted(lim, path, dir, a);
      OwnParts(lim, path, dir, a, 1);
      ChildrenWait(lim, root, d, PathsOf(lim, rest));
      DistinctAppend(VisitPaths(lim, root), PathsOf(lim, rest));
      WorkersOwn(lim, e, dir, a.members);
      FlatFirst([root], Workers(lim, e, dir, Children(lim, root)));
      KeptAppend(lim, [root], rest);
      KeptAppend(lim, [root], Flat(Workers(lim, e, dir, Children(lim, root))));
    } else {
      VisitsOwn(lim, d, path, dir, a, 1);
      UpToFacts(lim, own);
      var vs := Visits(lim, d, path, dir, 1);
      FlatFirst(vs, []);
      EmptyUnit(vs);
      assert [vs] + [] == [vs];
    }
  }

  lemma FlatFirst(first: seq<Visit>, rest: seq<seq<Visit>>)
    ensures Flat([first] + rest) == first + Flat(rest) && Flat([]) == []
  {
    assert ([first] + rest)[1..] == rest;
  }

  /** These visits write only such paths, and open nothing but `first` and what they have written. */
  ghost predicate Within(lim: Limits, vs: seq<Visit>, first: string, paths: seq<string>) {
    && (forall p :: p in PathsOf(lim, vs) ==> p in paths)
    && (forall p :: p in OpenedBy(lim, vs) ==> p == first || p in PathsOf(lim, vs))
  }

  /** A worker of a bundle whose paths differ. */
  lemma WorkerOwn(lim: Limits, path: string, dir: string, a: Archive, k: nat)
    requires PathsDiffer(lim, path, dir, a) && FansOut(lim, path, dir, a) && k < |Children(lim, Root(path, dir, a))|
    ensures var n, jobs := Children(lim, Root(path, dir, a))[k], Jobs(lim, path, dir, a);
            && |jobs| == |Children(lim, Root(path, dir, a))| + 1
            && Within(lim, jobs[k + 1], PathOf(dir, n), PathsOf(lim, OwnMember(lim, dir, n, 2)))
            && Within(lim, jobs[k + 1], PathOf(dir, n), PathsOf(lim, OwnNested(lim, dir, a.members, 2)))
            && PathOf(dir, n) in VisitPaths(lim, Root(path, dir, a))
  {
    hide Visits, VisitProgram, PathsOf, OpenedBy, VisitPaths, AllKept, OwnNested, OwnMember, UpTo, Distinct, Kept,
      Nested, After, PathOf, Programs, Run, MemberVisits, Opens, AllFit;
    var root, own, d := Root(path, dir, a), OwnVisits(lim, path, dir, a, 1), map[path := Whole(a)];
    var rest, e, n := OwnNested(lim, dir, a.members, 2), Extracted(lim, path, dir, a), Children(lim, root)[k];
    DistinctAppend([path], PathsOf(lim, own));
    JobsAre(lim, path, dir, a);
    OwnParts(lim, path, dir, a, 1);
    ChildrenWait(lim, root, d, PathsOf(lim, rest));
    DistinctAppend(VisitPaths(lim, root), PathsOf(lim, rest));
    OwnListed(lim, dir, a.members, k);
    OwnDistinct(lim, dir, a.members, k);
    MemberOwn(lim, e, dir, n, 2);
    UpToFacts(lim, OwnMember(lim, dir, n, 2));
    assert n in Children(lim, root);
    ChildListed(lim, root, n);
    forall p ensures p in OpenedBy(lim, MemberVisits(lim, e, dir, n, 2)) ==>
                       p == PathOf(dir, n) || p in PathsOf(lim, MemberVisits(lim, e, dir, n, 2)) {
      MemberWithin(lim, e, dir, n, 2, p);
    }
  }

  lemma {:induction false} OwnDistinct(lim: Limits, dir: string, ms: seq<Member>, i: nat)
    requires Distinct(PathsOf(lim, OwnNested(lim, dir, ms, 2))) && i < |Nested(lim, ms)|
    ensures Distinct(PathsOf(lim, OwnMember(lim, dir, Nested(lim, ms)[i], 2)))
    decreases |ms|
  {
    hide Opens, OwnMember, PathsOf, Distinct;
    var rest := OwnNested(lim, dir, ms[1..], 2);
    EmptyUnit(rest);
    EmptyUnit(Nested(lim, ms[1..]));
    if Opens(lim, ms[0]) {
      var own := OwnMember(lim, dir, ms[0], 2);
      PathsAppend(lim, own, rest);
      DistinctAppend(PathsOf(lim, own), PathsOf(lim, rest));
      if i > 0 { OwnDistinct(lim, dir, ms[1..], i - 1); }
    } else {
      OwnDistinct(lim, dir, ms[1..], i);
    }
  }

  /** When all paths differ, no two threads write one path, and no worker writes an archive that another opens. */
  lemma WorkersWriteApart(lim: Limits, path: string, dir: string, a: Archive)
    requires PathsDiffer(lim, path, dir, a)
    ensures var jobs, ps := Jobs(lim, path, dir, a), Programs(lim, path, dir, a);
            && Spares(lim, path, dir, a) && OpensApart(lim, jobs) && |ps| == |jobs|
            && forall j, k :: 0 <= j < k < |ps| ==> Touch(ps[j]) !! Touch(ps[k])
  {
    hide Jobs, Programs, PathsOf, OpenedBy, VisitPaths, Touch, FansOut, Children, OwnNested, Visits, Kept, Run,
      Distinct, MemberVisits;
    var jobs, ps := Jobs(lim, path, dir, a), Programs(lim, path, dir, a);
    JobsAre(lim, path, dir, a);
    RootSpared(lim, path, dir, a);
    forall j, k | 0 <= j < k < |jobs|
      ensures Disjoint(PathsOf(lim, jobs[j]), PathsOf(lim, jobs[k])) && Touch(ps[j]) !! Touch(ps[k])
    {
      JobsApart(lim, path, dir, a, j, k);
      ApartExactly(lim, path, dir, a, j, k);
    }
    forall j, k | 0 < j < |jobs| && 0 < k < |jobs| && j != k
      ensures forall p :: p in PathsOf(lim, jobs[j]) ==> p !in OpenedBy(lim, jobs[k])
    {
      OpenedElsewhere(lim, path, dir, a, j, k);
    }
  }

  lemma RootSpared(lim: Limits, path: string, dir: string, a: Archive)
    requires PathsDiffer(lim, path, dir, a)
    ensures Spares(lim, path, dir, a)
  {
    hide PathsOf, OwnNested, MemberPaths, Distinct;
    var own := OwnVisits(lim, path, dir, a, 1);
    DistinctAppend([path], PathsOf(lim, own));
    assert path in [path];
    if 1 <= lim.depth && a.Zip? { OwnParts(lim, path, dir, a, 1); }
  }

  lemma JobsApart(lim: Limits, path: string, dir: string, a: Archive, j: nat, k: nat)
    requires PathsDiffer(lim, path, dir, a) && j < k < |Jobs(lim, path, dir, a)|
    ensures var jobs := Jobs(lim, path, dir, a); Disjoint(PathsOf(lim, jobs[j]), PathsOf(lim, jobs[k]))
  {
    hide Jobs, Programs, PathsOf, OpenedBy, VisitPaths, OwnNested, OwnMember, Visits, Kept, Run, Distinct,
      MemberVisits, Nested;
    var root, own := Root(path, dir, a), OwnVisits(lim, path, dir, a, 1);
    JobsAre(lim, path, dir, a);
    DistinctAppend([path], PathsOf(lim, own));
    OwnParts(lim, path, dir, a, 1);
    DistinctAppend(VisitPaths(lim, root), PathsOf(lim, OwnNested(lim, dir, a.members, 2)));
    WorkerOwn(lim, path, dir, a, k - 1);
    assert Jobs(lim, path, dir, a)[k] == Jobs(lim, path, dir, a)[k - 1 + 1];
    if j == 0 {
      OpenedOne(lim, root);
    } else {
      WorkerOwn(lim, path, dir, a, j - 1);
      assert Jobs(lim, path, dir, a)[j] == Jobs(lim, path, dir, a)[j - 1 + 1];
      OwnApart(lim, dir, a.members, j - 1, k - 1);
    }
  }

  lemma OpenedElsewhere(lim: Limits, path: string, dir: string, a: Archive, j: nat, k: nat)
    requires var n := |Jobs(lim, path, dir, a)|;
             PathsDiffer(lim, path, dir, a) && 0 < j < n && 0 < k < n && j != k
    ensures var jobs := Jobs(lim, path, dir, a); forall p :: p in PathsOf(lim, jobs[j]) ==> p !in OpenedBy(lim, jobs[k])
  {
    hide Jobs, Programs, PathsOf, OpenedBy, VisitPaths, OwnNested, OwnMember, Visits, Kept, Run, Distinct,
      MemberVisits, Nested, PathOf;
    var root, own := Root(path, dir, a), OwnVisits(lim, path, dir, a, 1);
    JobsAre(lim, path, dir, a);
    DistinctAppend([path], PathsOf(lim, own));
    OwnParts(lim, path, dir, a, 1);
    DistinctAppend(VisitPaths(lim, root), PathsOf(lim, OwnNested(lim, dir, a.members, 2)));
    WorkerOwn(lim, path, dir, a, j - 1);
    WorkerOwn(lim, path, dir, a, k - 1);
    if j < k { JobsApart(lim, path, dir, a, j, k); } else { JobsApart(lim, path, dir, a, k, j); }
  }

  /** The outcome of a bundle whose paths differ does not depend on the schedule: a finished run has read every
      archive as it stands in the bundle; it is without an error if and only if the caps are kept, the total size
      is within the limit and no file stands where a directory is made; and then the byte count, the bytes on
      disk, the files and the skips are those of the bundle. */
  lemma OutcomeIsScheduleIndependent(lim: Limits, path: string, dir: string, a: Archive, schedule: seq<nat>)
    requires PathsDiffer(lim, path, dir, a) && Final(Exec(lim, Begin(lim, path, dir, a), schedule))
    ensures forall n, k: nat :: 0 <= n <= |schedule| ==>
                                  ReadRight(Exec(lim, Begin(lim, path, dir, a), schedule[..n]), k)
    ensures var s, own := Exec(lim, Begin(lim, path, dir, a), schedule), OwnVisits(lim, path, dir, a, 1);
            var y := YieldOf(lim, own);
            && (!Failed(s) <==> AllKept(lim, own) && y.bytes <= lim.total && FilesFit(lim, path, own))
            && (!Failed(s) ==> s.bytes == s.written == y.bytes && s.files == y.files && s.skipped == y.skipped)
  {
    hide Exec, Begin, Jobs, Programs, AllKept, YieldOf, Final, Failed, FilesFit, PathsDiffer, OwnVisits, All, Spares,
      OpensApart, ReadRight, Touch;
    WorkersWriteApart(lim, path, dir, a);
    AllOwn(lim, path, dir, a);
    RunYields(lim, path, dir, a, schedule);
  }
}
