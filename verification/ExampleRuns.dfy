/** Whole runs of the scripts on the example package: the inputs on which they do
    not do what one would expect. */
module ExampleRuns {
  import opened Outcome
  import opened Paths
  import opened PathLemmas
  import opened Containment
  import opened Hosts
  import opened Json
  import opened Disks
  import opened PathLookup
  import opened Listing
  import opened FileSystems
  import opened Directories
  import opened Mappings
  import opened SourceFrame
  import opened InstalledTrees
  import opened Installer
  import opened CopyTrees
  import opened InstallCopies
  import opened FilePlans
  import opened Rollbacks
  import opened WorkspaceCopies
  import opened Workspaces
  import opened WorkspaceInstaller
  import opened RollbackLaws
  import opened WorkspaceLaws
  import opened ExamplePackages
  import opened ExampleExpectations

  // ------------------------------------------------------------ the targets

  predicate NoBackslash(s: string) {
    forall i :: 0 <= i < |s| ==> s[i] != '\\'
  }

  lemma {:induction false} SameSplit(s: string)
    requires NoBackslash(s)
    ensures SplitOn(s, true) == SplitOn(s, false)
  {
    if s != "" {
      assert forall i :: 0 <= i < |s[1..]| ==> s[1..][i] == s[i + 1];
      SameSplit(s[1..]);
    }
  }

  /** A normalised path below `.agents` is an allowed target. */
  lemma OwnedTarget(names: Path)
    requires IsPath(names) && |names| > 1 && names[0] == ".agents" && NoBackslash(Join(names))
    ensures TargetAllowed(Join(names)) && Names(Join(names)) == names
    ensures !IsAbsolute(Join(names)) && ".." !in Split(Join(names))
  {
    StartsOwned(names);
    hide Join, Split, Plain, Names, IsPath, TargetAllowed, StartsWith, NoBackslash, IsAbsolute;
    NamesOfJoin(names);
    PlainNames(names);
    AllowedIf(Join(names));
  }

  lemma AllowedIf(s: string)
    requires !IsAbsolute(s) && NoBackslash(s) && ".." !in Split(s) && StartsWith(s, ".agents/")
    ensures TargetAllowed(s)
  {
    SameSplit(s);
    hide SplitOn;
  }

  lemma StartsOwned(names: Path)
    requires |names| > 1 && names[0] == ".agents"
    ensures StartsWith(Join(names), ".agents/") && !IsAbsolute(Join(names))
  {
    var s := Join(names);
    assert s == ".agents" + "/" + Join(names[1..]);
    hide Join;
    assert s[..8] == ".agents/" && s[0] == '.';
  }

  const SCRATCH_TARGET := ".agents/x.tmp"
  const OUTER_TARGET := ".agents/d/f"
  const NESTED_TARGET := ".agents/d/f/g"

  lemma TargetNamesAre()
    ensures TargetAllowed(SCRATCH_TARGET) && Names(SCRATCH_TARGET) == [".agents", "x.tmp"]
    ensures TargetAllowed(OUTER_TARGET) && Names(OUTER_TARGET) == [".agents", "d", "f"]
    ensures TargetAllowed(NESTED_TARGET) && Names(NESTED_TARGET) == [".agents", "d", "f", "g"]
  {
    JoinsAre();
    hide TargetAllowed, Names, Join;
    OwnedTarget([".agents", "x.tmp"]);
    OwnedTarget([".agents", "d", "f"]);
    OwnedTarget([".agents", "d", "f", "g"]);
  }

  lemma JoinsAre()
    ensures IsPath([".agents", "x.tmp"]) && Join([".agents", "x.tmp"]) == SCRATCH_TARGET && NoBackslash(SCRATCH_TARGET)
    ensures IsPath([".agents", "d", "f"]) && Join([".agents", "d", "f"]) == OUTER_TARGET && NoBackslash(OUTER_TARGET)
    ensures IsPath([".agents", "d", "f", "g"]) && Join([".agents", "d", "f", "g"]) == NESTED_TARGET
    ensures NoBackslash(NESTED_TARGET)
  {
    assert [".agents", "x.tmp"][1..] == ["x.tmp"];
    assert [".agents", "d", "f"][1..] == ["d", "f"] && ["d", "f"][1..] == ["f"];
    assert [".agents", "d", "f", "g"][1..] == ["d", "f", "g"] && ["d", "f", "g"][1..] == ["f", "g"]
        && ["f", "g"][1..] == ["g"];
  }

  lemma AllowedIsGood(t: string)
    requires TargetAllowed(t)
    ensures !IsAbsolute(t) && ".." !in Split(t)
  {
    AllowedHasNoDotDot(t);
  }

  // ------------------------------------------------------------- the roots

  const ROOTS := WorkspaceArgs(Some("/pkg"), Some("/w"))

  lemma RootIs(h: Host, s: string, name: string)
    requires s == "/" + name && IsName(name)
    ensures Segs(Resolve(h.cwd, s)) == [name]
  {
    assert s == Render([name]);
    RenderSegs([name]);
    hide Segs;
  }

  lemma RootsAre(h: Host, e: Disk)
    requires LooksLikeExample(e)
    ensures HasRoots(h, e, ROOTS)
    ensures RealPath(h, e, ROOTS.sourceRoot.value) == Some(PACKAGE_ROOT)
    ensures RealPath(h, e, ROOTS.workspaceRoot.value) == Some(WORKSPACE)
  {
    hide Segs, Resolve, Find, WellFormed, LooksLikeExample;
    RootNames();
    RootIs(h, "/pkg", "pkg");
    RootIs(h, "/w", "w");
    RootsAreThere(h, e);
    assert RealPath(h, e, "/pkg") == Some(PACKAGE_ROOT) && RealPath(h, e, "/w") == Some(WORKSPACE);
    assert ROOTS.sourceRoot.value == "/pkg" && ROOTS.workspaceRoot.value == "/w";
    hide RealPath, PACKAGE_ROOT, WORKSPACE;
  }

  lemma RootNames()
    ensures "/pkg" == "/" + "pkg" && "/w" == "/" + "w" && IsName("pkg") && IsName("w")
    ensures ["pkg"] == PACKAGE_ROOT && ["w"] == WORKSPACE
  {
  }

  lemma RootsAreThere(h: Host, e: Disk)
    requires LooksLikeExample(e)
    ensures Find(h, e, PACKAGE_ROOT) == Some(PACKAGE_ROOT) && Find(h, e, WORKSPACE) == Some(WORKSPACE)
    ensures WORKSPACE in e && e[WORKSPACE] == Dir
  {
    assert PACKAGE_ROOT in OuterDirs() && WORKSPACE in OuterDirs();
    hide OuterDirs, WellFormed, PACKAGE_ROOT, WORKSPACE;
    FindPresent(h, e, PACKAGE_ROOT);
    FindPresent(h, e, WORKSPACE);
  }

  /** Everything in the workspace is one of two empty directories. */
  lemma WorkspaceIsBare(e: Disk, q: Path)
    requires LooksLikeExample(e) && q in e && WORKSPACE < q
    ensures q == OWNED_DIR || q == INNER_DIR
  {
    assert "w"[0] == 'w' && "pkg"[0] == 'p';
    assert !(PACKAGE_ROOT <= q) by {
      assert q[0] == "w";
    }
    hide WellFormed;
  }

  // --------------------------------------------------------- where files go

  lemma VacantBelow(e: Disk, t: Path)
    requires LooksLikeExample(e) && WORKSPACE < t && t != OWNED_DIR && t != INNER_DIR
    ensures Vacant(e, t)
  {
    assert WellFormed(e);
    var p := Parent(t);
    if t in e {
      WorkspaceIsBare(e, t);
    }
    forall k | 0 <= k <= |p| && p[..k] in e ensures e[p[..k]] == Dir {
      InWorkspaceIsDir(e, t, p[..k]);
    }
    hide LooksLikeExample, WellFormed;
  }

  lemma InWorkspaceIsDir(e: Disk, t: Path, q: Path)
    requires LooksLikeExample(e) && WORKSPACE < t && q <= t && q in e
    ensures e[q] == Dir
  {
    if WORKSPACE < q {
      WorkspaceIsBare(e, q);
    } else if q != [] {
      assert q[0] == t[0] == "w";
      assert q == WORKSPACE;
    }
    hide WellFormed;
  }

  lemma ExampleIsOpen(e: Disk)
    requires LooksLikeExample(e)
    ensures Open(e, WORKSPACE) && Straight(e, PACKAGE_ROOT) && WORKSPACE in e && e[WORKSPACE] == Dir
    ensures RecordAt(WORKSPACE) !in e && IsPath(WORKSPACE) && WellFormed(e)
  {
    assert WORKSPACE in OuterDirs() && PACKAGE_ROOT in OuterDirs() && IsName("w");
    PresentIsStraight(e, PACKAGE_ROOT);
    RecordTarget();
    if RecordAt(WORKSPACE) in e {
      WorkspaceIsBare(e, RecordAt(WORKSPACE));
    }
    hide WellFormed, OuterDirs;
  }

  lemma RecordTarget()
    ensures RecordAt(WORKSPACE) == ["w", ".agents", "issue-orchestration-install.json"]
    ensures WORKSPACE < RecordAt(WORKSPACE) && RecordAt(WORKSPACE) != OWNED_DIR && RecordAt(WORKSPACE) != INNER_DIR
  {
    assert "issue-orchestration-install.json"[0] == 'i' && "d"[0] == 'd';
    assert RecordAt(WORKSPACE)[2] == "issue-orchestration-install.json";
  }

  // ------------------------------------------------------ another identity

  /** What the installer works with. */
  function PackageOf(x: Expected): Package {
    Package(PACKAGE_ROOT, WORKSPACE, x)
  }

  lemma PackageFields(x: Expected)
    ensures PackageOf(x).source == PACKAGE_ROOT && PackageOf(x).workspace == WORKSPACE && PackageOf(x).x == x
  {
  }

  lemma OneMapping(x: Expected, target: string, digest: JsValue)
    requires multiset(x.mappings) == multiset(ScratchMappings([target], digest))
    ensures x.mappings == [Mapping(SCRATCH_PATH, target, digest)]
  {
    var m := Mapping(SCRATCH_PATH, target, digest);
    assert ScratchMappings([target], digest) == [m];
    assert |x.mappings| == |multiset(x.mappings)| == 1;
    assert x.mappings[0] in multiset(x.mappings);
  }

  const SCRATCH_PLACE: Path := ["w", ".agents", "x.tmp"]

  lemma OneTarget(x: Expected, digest: JsValue)
    requires multiset(x.mappings) == multiset(ScratchMappings([SCRATCH_TARGET], digest))
    ensures |TargetsFor(PackageOf(x))| == 2 && AllAllowed(x.mappings)
    ensures TargetsFor(PackageOf(x))[0] == SCRATCH_PLACE && TargetsFor(PackageOf(x))[1] == RecordAt(WORKSPACE)
  {
    hide TargetAllowed, Names, RecordAt, SCRATCH_TARGET, NESTED_TARGET, OUTER_TARGET;
    OneMapping(x, SCRATCH_TARGET, digest);
    TargetNamesAre();
    assert WORKSPACE + [".agents", "x.tmp"] == SCRATCH_PLACE;
  }

  lemma ScratchPlaceIsNew()
    ensures WORKSPACE < SCRATCH_PLACE && SCRATCH_PLACE != OWNED_DIR && SCRATCH_PLACE != INNER_DIR
    ensures !Comparable(SCRATCH_PLACE, RecordAt(WORKSPACE))
  {
    RecordTarget();
    assert "x.tmp"[0] == 'x' && "d"[0] == 'd' && "issue-orchestration-install.json"[0] == 'i';
    assert SCRATCH_PLACE[2] == "x.tmp" && INNER_DIR[2] == "d"
        && RecordAt(WORKSPACE)[2] == "issue-orchestration-install.json";
  }

  lemma OneTargetInstalls(h: Host, e: Disk, x: Expected, digest: JsValue)
    requires Sound(h) && LooksLikeExample(e) && IsExpected(h, e, PACKAGE_ROOT, x)
    requires multiset(x.mappings) == multiset(ScratchMappings([SCRATCH_TARGET], digest))
    ensures FitsWorkspace(h, e, PackageOf(x)) && DirectTargets(e, PackageOf(x)) && AllAllowed(x.mappings)
  {
    hide IsExpected, LooksLikeExample, WellFormed, PlanOf, TargetsFor, SCRATCH_PLACE, Open, Vacant, Straight,
      FitsWorkspace, TargetOf, RecordAt, AllAllowed, DirectTargets, ScratchMappings, Creatable, Comparable,
      IsPath, ExampleExpectations.SCRATCH_PATH, WORKSPACE, PACKAGE_ROOT;
    var p := PackageOf(x);
    ExampleIsOpen(e);
    NoLinksIsDirect(e, p);
    OneTarget(x, digest);
    PlanTargets(h, p);
    ScratchPlaceIsNew();
    RecordTarget();
    VacantBelow(e, SCRATCH_PLACE);
    VacantBelow(e, RecordAt(WORKSPACE));
    TwoCreatable(e, PlanOf(h, p));
    FitsExactly(h, e, p);
  }

  lemma TwoCreatable(e: Disk, ops: seq<Creation>)
    requires |ops| == 2 && Vacant(e, TargetOf(ops[0])) && Vacant(e, TargetOf(ops[1]))
    requires !Comparable(TargetOf(ops[0]), TargetOf(ops[1]))
    ensures Creatable(e, ops)
  {
    hide Vacant, TargetOf, Comparable;
  }

  /** A file system on which nothing breaks and nobody else writes. */
  method CalmSystem(h: Host, disk: Disk) returns (fs: FileSystem)
    requires Sound(h) && WellFormed(disk)
    ensures fresh(fs) && fs.Valid() && fs.host == h && fs.disk == disk && fs.foreign == map[] && fs.trace == [disk]
    ensures fs.Quiet() && fs.Calm() && fs.CleanupWorks() && fs.UndisturbedFrom(0)
  {
    fs := new FileSystem(h, (n: nat) => false, (n: nat) => false, (n: nat) => [], disk);
  }

  lemma WaysLeaveOut(ops: seq<Creation>, root: Path)
    requires root != [] && forall i :: 0 <= i < |ops| ==> TargetOf(ops[i]) != [] && TargetOf(ops[i])[0] != root[0]
    ensures forall q :: root <= q ==> !OnWays(ops, q)
  {
    hide TargetOf;
    forall q | root <= q ensures !OnWays(ops, q) {
      assert q[0] == root[0];
    }
  }

  lemma FilledLeavesOut(d: Disk, e: Disk, ops: seq<Creation>, root: Path)
    requires Filled(d, e, ops) && forall q :: root <= q ==> !OnWays(ops, q)
    ensures SameBelow(d, e, root)
  {
    hide OnWays, AtTarget, Supplies, WellFormed;
  }

  lemma FirstNames()
    ensures PACKAGE_ROOT != [] && SCRATCH_PLACE != [] && RecordAt(WORKSPACE) != []
    ensures SCRATCH_PLACE[0] != PACKAGE_ROOT[0] && RecordAt(WORKSPACE)[0] != PACKAGE_ROOT[0]
  {
    RecordTarget();
    assert "w"[0] == 'w' && "pkg"[0] == 'p';
  }

  lemma PlanLeavesOut(h: Host, p: Package, root: Path)
    requires root != []
    requires forall i :: 0 <= i < |TargetsFor(p)| ==> TargetsFor(p)[i] != [] && TargetsFor(p)[i][0] != root[0]
    ensures forall q :: root <= q ==> !OnWays(PlanOf(h, p), q)
  {
    hide TargetsFor, PlanOf, OnWays, TargetOf;
    PlanTargets(h, p);
    WaysLeaveOut(PlanOf(h, p), root);
  }

  /** The installed files are not in the package. */
  lemma PackageStays(h: Host, e: Disk, f: Disk, x: Expected, digest: JsValue)
    requires Filled(e, f, PlanOf(h, PackageOf(x)))
    requires multiset(x.mappings) == multiset(ScratchMappings([SCRATCH_TARGET], digest))
    ensures SameBelow(e, f, PACKAGE_ROOT)
  {
    hide *;
    OneTarget(x, digest);
    FirstNames();
    PlanLeavesOut(h, PackageOf(x), PACKAGE_ROOT);
    FilledLeavesOut(e, f, PlanOf(h, PackageOf(x)), PACKAGE_ROOT);
  }

  lemma IdentityDecides(x: Expected, identity: string, targets: seq<string>)
    requires Declares(x.manifest, identity, targets)
    ensures Identified(x) <==> identity == "issue-orchestration"
  {
    hide Get, ScratchItems;
  }

  lemma SecondIsNotCurrent(h: Host, a: Record, b: Record, x: Expected, digest: JsValue)
    requires Sound(h) && LooksLikeExample(a.disk) && WellFormed(b.disk) && IsExpected(h, a.disk, PACKAGE_ROOT, x)
    requires multiset(x.mappings) == multiset(ScratchMappings([SCRATCH_TARGET], digest))
    requires CreateEach(h, a.disk, PlanOf(h, PackageOf(x))) == Some(b.disk)
    requires InstalledInto(h, PACKAGE_ROOT, WORKSPACE, a, b)
    ensures HasRoots(h, b.disk, ROOTS) && WorkspaceVerified(h, b.disk, ROOTS)
    ensures RealPath(h, b.disk, ROOTS.sourceRoot.value) == Some(PACKAGE_ROOT)
    ensures RealPath(h, b.disk, ROOTS.workspaceRoot.value) == Some(WORKSPACE)
    ensures IsCurrent(h, b.disk, PACKAGE_ROOT, WORKSPACE) <==> Identified(x)
    ensures Exists(h, b.disk, RecordAt(WORKSPACE))
  {
    hide *;
    PackageFields(x);
    RootsAre(h, a.disk);
    ExampleIsOpen(a.disk);
    OneTargetInstalls(h, a.disk, x, digest);
    OneInstalled(h, a, b, x);
    InstalledIsFilled(h, a.disk, b.disk, PackageOf(x));
    PackageStays(h, a.disk, b.disk, x, digest);
    ExampleIsLinkFree(a.disk);
    SameKeepsPackage(h, a.disk, b.disk, PACKAGE_ROOT, x.manifest);
    CompleteWithin(h, PACKAGE_ROOT, WORKSPACE, x, a, b);
    RootsStayReal(h, a.disk, b.disk, ROOTS);
    WorkspaceInstallVerifies(h, ROOTS, a, b, x);
    VerifiedHasRecord(h, b.disk, PACKAGE_ROOT, WORKSPACE);
  }

  lemma VerifiedHasRecord(h: Host, d: Disk, source: Path, workspace: Path)
    requires WorkspaceVerified(h, d, ROOTS) && RealPath(h, d, ROOTS.sourceRoot.value) == Some(source)
    requires RealPath(h, d, ROOTS.workspaceRoot.value) == Some(workspace)
    ensures Exists(h, d, RecordAt(workspace))
  {
    hide RealPath, IsExpected, HoldsMappings, RecordMatches, Find, RecordAt;
    var x :| IsExpected(h, d, source, x) && RecordMatches(h, d, workspace, x.ownership)
        && HoldsMappings(h, d, workspace, x.mappings);
    CurrentHasRecord(h, d, workspace, x.ownership);
  }

  lemma ExampleIsLinkFree(e: Disk)
    requires LooksLikeExample(e)
    ensures PACKAGE_ROOT in e && e[PACKAGE_ROOT] == Dir && NoLinks(e, PACKAGE_ROOT)
  {
    assert PACKAGE_ROOT in OuterDirs();
    hide WellFormed, OuterDirs;
  }

  lemma OneInstalled(h: Host, a: Record, b: Record, x: Expected)
    requires IsExpected(h, a.disk, PACKAGE_ROOT, x) && InstalledInto(h, PACKAGE_ROOT, WORKSPACE, a, b)
    ensures Complete(h, PACKAGE_ROOT, WORKSPACE, x, a, b)
  {
    OneExpected(h, a.disk, PACKAGE_ROOT, x);
    hide IsExpected, Complete;
  }

  lemma ScratchTargetIsGood()
    ensures GoodTargets([SCRATCH_TARGET])
  {
    TargetNamesAre();
    hide TargetAllowed, Split, SCRATCH_TARGET;
    AllowedIsGood(SCRATCH_TARGET);
  }

  /** What the first run does. */
  lemma FirstInstalls(h: Host, a: Record, b: Record, r: Result<Receipt>, u: Undo, c: Conditions, x: Expected,
                      digest: JsValue)
    requires Sound(h) && LooksLikeExample(a.disk) && IsExpected(h, a.disk, PACKAGE_ROOT, x)
    requires multiset(x.mappings) == multiset(ScratchMappings([SCRATCH_TARGET], digest))
    requires WorkspaceOutcome(h, ROOTS, a, b, r, u, c) && c.quiet && c.calm
    ensures r == Ok(Installed) && CreateEach(h, a.disk, PlanOf(h, PackageOf(x))) == Some(b.disk)
    ensures InstalledInto(h, PACKAGE_ROOT, WORKSPACE, a, b)
  {
    hide IsExpected, LooksLikeExample, CreateEach, PlanOf, RecordAt, FitsWorkspace, Unwinds, Conflicting,
      InstalledInto, IsCurrent, WorkspaceOutcome, ScratchMappings, Find;
    ExampleOutcome(h, a, b, r, u, c);
    OneTargetInstalls(h, a.disk, x, digest);
    assert WithoutRecord(h, PackageOf(x), a, b, r, u, c);
  }

  lemma NothingFound(h: Host, d: Disk, p: Path)
    requires Open(d, WORKSPACE) && WORKSPACE <= p && p !in d
    ensures !Exists(h, d, p)
  {
    assert p == WORKSPACE + p[|WORKSPACE|..];
    OpenIsStraight(d, WORKSPACE, p[|WORKSPACE|..]);
    FindStraight(h, d, p);
    hide Find, Straight;
  }

  lemma SecondFinds(h: Host, a: Record, b: Record, r: Result<Receipt>, u: Undo, c: Conditions)
    requires WorkspaceOutcome(h, ROOTS, a, b, r, u, c) && HasRoots(h, a.disk, ROOTS)
    requires RealPath(h, a.disk, ROOTS.sourceRoot.value) == Some(PACKAGE_ROOT)
    requires RealPath(h, a.disk, ROOTS.workspaceRoot.value) == Some(WORKSPACE)
    requires Exists(h, a.disk, RecordAt(WORKSPACE))
    ensures if IsCurrent(h, a.disk, PACKAGE_ROOT, WORKSPACE) then r == Ok(AlreadyCurrent) else r.Err?
  {
    hide IsExpected, RecordAt, WithoutRecord, InstalledInto, IsCurrent, RealPath, HasRoots, Find;
    assert r.Err? || r == Ok(Installed) || r == Ok(AlreadyCurrent) by {
      if r.Ok? {
        match r.value
        case Installed =>
        case AlreadyCurrent =>
      }
    }
  }

  /** The package is installed into the workspace twice. A second run finds it current
      only under the name that the installer demands, although the verifier accepts
      the workspace either way. */
  method InstallTwice(h: Host, identity: string)
    returns (first: Result<Receipt>, second: Result<Receipt>, before: Disk, disk: Disk)
    requires Sound(h)
    ensures BuiltDisk(h, ExampleDeclared(identity, [SCRATCH_TARGET])) == Ok(before)
    ensures first == Ok(Installed) && WorkspaceVerified(h, disk, ROOTS)
    ensures if identity == "issue-orchestration" then second == Ok(AlreadyCurrent) else second.Err?
  {
    hide BuiltDisk, ExampleDeclared, LooksLikeExample, WellFormed, IsExpected, Declares, ScratchMappings,
      WorkspaceOutcome, CreateEach, PlanOf, InstalledInto, IsCurrent, WorkspaceVerified, HasRoots, RealPath,
      Exists, RecordAt, Identified, KeptRun, RolledBack, FileSystem.Quiet, FileSystem.Calm,
      FileSystem.UndisturbedFrom, FileSystem.CleanupWorks, GoodTargets, Straight, Open;
    ScratchTargetIsGood();
    ghost var e, x, digest := ScratchExpected(h, identity, [SCRATCH_TARGET]);
    ExampleIsOpen(e);
    before := BuiltDisk(h, ExampleDeclared(identity, [SCRATCH_TARGET])).value;
    var fs := CalmSystem(h, before);
    ghost var a, u := Recorded(fs), Undo(Recorded(fs), 0, [], [], []);
    first, u := InstallWorkspace(fs, ROOTS);
    ghost var b := Recorded(fs);
    FirstInstalls(h, a, b, first, u, Surroundings(fs, u), x, digest);
    SecondIsNotCurrent(h, a, b, x, digest);
    IdentityDecides(x, identity, [SCRATCH_TARGET]);
    disk := fs.disk;
    second, u := InstallWorkspace(fs, ROOTS);
    SecondFinds(h, b, Recorded(fs), second, u, Surroundings(fs, u));
  }

  // ------------------------------------------------ directories that vanish

  const OUTER_PLACE: Path := ["w", ".agents", "d", "f"]
  const NESTED_PLACE: Path := ["w", ".agents", "d", "f", "g"]

  /** Two targets one below the other, in either order. */
  ghost predicate Clash(s: Path, t: Path) {
    (s == OUTER_PLACE && t == NESTED_PLACE) || (s == NESTED_PLACE && t == OUTER_PLACE)
  }

  lemma ClashShape(s: Path, t: Path)
    requires Clash(s, t)
    ensures Comparable(s, t) && Parent(t) <= s && WORKSPACE < s && OWNED_DIR < s && INNER_DIR < s && WORKSPACE < t
    ensures s != OWNED_DIR && s != INNER_DIR && IsPath(Parent(t)) && s != []
  {
    assert Parent(NESTED_PLACE) == OUTER_PLACE && Parent(OUTER_PLACE) == INNER_DIR;
    assert IsName(".agents") && IsName("w") && IsName("d") && IsName("f");
  }

  lemma TwoMappings(x: Expected, s: string, t: string, digest: JsValue)
    requires multiset(x.mappings) == multiset(ScratchMappings([s, t], digest))
    ensures |x.mappings| == 2
    ensures || (x.mappings[0].target == s && x.mappings[1].target == t)
            || (x.mappings[0].target == t && x.mappings[1].target == s)
  {
    var m, n := Mapping(SCRATCH_PATH, s, digest), Mapping(SCRATCH_PATH, t, digest);
    assert ScratchMappings([s, t], digest) == [m, n];
    assert |x.mappings| == |multiset(x.mappings)| == 2;
    assert x.mappings == [x.mappings[0], x.mappings[1]];
    assert multiset(x.mappings) == multiset{x.mappings[0], x.mappings[1]} == multiset{m, n};
    assert x.mappings[0] in multiset{m, n} && x.mappings[1] in multiset{m, n};
    if x.mappings[0] == m {
      assert multiset{x.mappings[1]} == multiset{m, n} - multiset{m} == multiset{n};
      assert x.mappings[1] in multiset{n};
    } else {
      assert multiset{x.mappings[1]} == multiset{m, n} - multiset{n} == multiset{m};
      assert x.mappings[1] in multiset{m};
    }
  }

  lemma TwoTargets(x: Expected, digest: JsValue)
    requires multiset(x.mappings) == multiset(ScratchMappings([OUTER_TARGET, NESTED_TARGET], digest))
    ensures |TargetsFor(PackageOf(x))| == 3 && AllAllowed(x.mappings)
    ensures Clash(TargetsFor(PackageOf(x))[0], TargetsFor(PackageOf(x))[1])
  {
    hide TargetAllowed, Names, RecordAt, SCRATCH_TARGET, NESTED_TARGET, OUTER_TARGET, ScratchMappings;
    TwoMappings(x, OUTER_TARGET, NESTED_TARGET, digest);
    TargetNamesAre();
    assert WORKSPACE + [".agents", "d", "f"] == OUTER_PLACE && WORKSPACE + [".agents", "d", "f", "g"] == NESTED_PLACE;
  }

  /** The first of the two files can be created, and then the second cannot. */
  lemma SecondIsStuck(h: Host, e: Disk, x: Expected, digest: JsValue)
    requires Sound(h) && LooksLikeExample(e) && IsExpected(h, e, PACKAGE_ROOT, x)
    requires multiset(x.mappings) == multiset(ScratchMappings([OUTER_TARGET, NESTED_TARGET], digest))
    ensures var ops := PlanOf(h, PackageOf(x));
            && |ops| == 3 && CreateEach(h, e, ops[..2]).None?
            && CreateEach(h, e, ops[..1]).Some? && Filled(e, CreateEach(h, e, ops[..1]).value, ops[..1])
  {
    hide *;
    var p := PackageOf(x);
    var ops := PlanOf(h, p);
    PackageFields(x);
    ExampleIsOpen(e);
    NoLinksIsDirect(e, p);
    TwoTargets(x, digest);
    PlanTargets(h, p);
    PlanIsSupplied(h, e, p);
    PlanIsDirect(h, e, p);
    ClashShape(TargetsFor(p)[0], TargetsFor(p)[1]);
    VacantBelow(e, TargetsFor(p)[0]);
    FirstOnly(h, e, ops);
  }

  lemma PlanIsDirect(h: Host, d: Disk, p: Package)
    requires IsPath(p.workspace) && AllAllowed(p.x.mappings) && DirectTargets(d, p)
    ensures Direct(d, PlanOf(h, p))
  {
    hide TargetsFor, PlanOf, AllAllowed, Straight, IsPath, TargetOf;
    PlanTargets(h, p);
    TargetsBelow(p);
  }

  lemma FirstOnly(h: Host, d: Disk, ops: seq<Creation>)
    requires WellFormed(d) && Direct(d, ops) && AllSupplied(d, ops) && |ops| > 1
    requires Vacant(d, TargetOf(ops[0])) && Comparable(TargetOf(ops[0]), TargetOf(ops[1]))
    ensures CreateEach(h, d, ops[..2]).None?
    ensures CreateEach(h, d, ops[..1]).Some? && Filled(d, CreateEach(h, d, ops[..1]).value, ops[..1])
  {
    hide Vacant, Comparable, TargetOf, CreateEach, Straight, WellFormed, Filled, Supplied, IsPath;
    DirectFront(d, ops, 1);
    DirectFront(d, ops, 2);
    assert AllSupplied(d, ops[..1]) && AllSupplied(d, ops[..2]);
    assert ops[..2][0] == ops[0] && ops[..2][1] == ops[1];
    CreateEachExact(h, d, ops[..1]);
    CreateEachExact(h, d, ops[..2]);
  }

  /** So a run that gets as far as it can has created just the first. */
  lemma OneCreated(h: Host, d: Disk, e: Disk, ops: seq<Creation>, n: nat)
    requires |ops| > 2 && Begun(h, d, e, ops, n) && Stuck(h, d, ops, n)
    requires CreateEach(h, d, ops[..2]).None? && CreateEach(h, d, ops[..1]).Some?
    ensures n == 1 && DirsAdded(h, CreateEach(h, d, ops[..1]).value, e, Parent(TargetOf(ops[1])))
  {
    hide CreateEach, DirsAdded, TargetOf;
    if n >= 2 {
      assert ops[..n][..2] == ops[..2];
      CreateEachFails(h, d, ops[..n], 2);
    }
  }

  lemma NewInFilled(e: Disk, m: Disk, ops: seq<Creation>, s: Path, p: Path)
    requires |ops| == 1 && TargetOf(ops[0]) == s && Filled(e, m, ops)
    ensures p <= s ==> p in m
    ensures p in m && p !in e ==> (m[p] == Dir && p < s) || (p == s && m[p].File?)
  {
    FilledAt(e, m, ops, p);
    OneOnWays(ops, p);
    hide Filled, WellFormed, OnWays, AtTarget, TargetOf;
  }

  lemma OneOnWays(ops: seq<Creation>, p: Path)
    requires |ops| == 1
    ensures OnWays(ops, p) <==> p <= TargetOf(ops[0])
    ensures AtTarget(ops, p) <==> p == TargetOf(ops[0])
  {
    hide TargetOf;
  }

  lemma FilledAt(e: Disk, m: Disk, ops: seq<Creation>, p: Path)
    requires |ops| == 1 && Filled(e, m, ops)
    ensures p in m <==> p in e || OnWays(ops, p)
    ensures p in m && p !in e ==> m[p] == Dir || (AtTarget(ops, p) && m[p].File?)
    ensures m[TargetOf(ops[0])].File?
  {
    hide WellFormed, OnWays, AtTarget, Supplies, TargetOf, Within;
  }

  lemma OwnedIsDir(e: Disk, p: Path)
    requires LooksLikeExample(e) && (p == OWNED_DIR || p == INNER_DIR)
    ensures p in e && e[p] == Dir
  {
    hide WellFormed;
  }

  lemma AddedOnWay(h: Host, m: Disk, f: Disk, p: Path)
    requires DirsAdded(h, m, f, p) && Straight(m, p)
    ensures Within(m, f) && WellFormed(f) && forall q :: q in f && q !in m ==> q <= p
  {
    StraightIsTame(h, m, p);
    hide WellFormed, LeadsBy, Straight;
  }

  /** In the state where the rollback starts, everything below an owned directory
      leads to the created file. */
  lemma LeadsOnly(h: Host, e: Disk, m: Disk, f: Disk, ops: seq<Creation>, s: Path, t: Path, p: Path)
    requires LooksLikeExample(e) && |ops| == 1 && TargetOf(ops[0]) == s && Filled(e, m, ops) && Clash(s, t)
    requires Within(m, f) && (forall q :: q in f && q !in m ==> q <= Parent(t)) && WORKSPACE < p && p in f
    ensures (f[p] == Dir && p < s) || (p == s && f[p].File? && p !in e)
  {
    ClashShape(s, t);
    NewInFilled(e, m, ops, s, p);
    if p in e {
      WorkspaceIsBare(e, p);
      OwnedIsDir(e, p);
      InFilled(e, m, ops, p);
    }
    hide LooksLikeExample, WellFormed, Filled, Parent, Clash, TargetOf;
    assert p <= Parent(t) ==> p <= s;
  }

  lemma InFilled(e: Disk, m: Disk, ops: seq<Creation>, p: Path)
    requires Filled(e, m, ops) && p in e
    ensures p in m && m[p] == e[p]
  {
    hide WellFormed, OnWays, AtTarget, Supplies;
  }

  lemma UnwindsParts(h: Host, p: Package, a: Record, b: Record, u: Undo, c: Conditions)
    requires Unwinds(h, p, a, b, u, c) && c.quiet && c.calm && !Conflicting(h, a.disk, p)
    ensures u.begun.foreign == map[] && u.created <= TargetsFor(p) && Within(a.disk, u.begun.disk)
    ensures Begun(h, a.disk, u.begun.disk, PlanOf(h, p), |u.created|) && Stuck(h, a.disk, PlanOf(h, p), |u.created|)
  {
    hide LoggedRun, DirsTaken, AllStraight, Undone, Begun, Stuck, PlanOf, TargetsFor, Within;
  }

  lemma OnlyOursIf(a: Record, u: Undo, s: Path, q: Path)
    requires u.created == [s] && u.begun.foreign == map[]
    requires forall p :: p in u.begun.disk && q <= p ==>
               (u.begun.disk[p] == Dir && p < s) || (p == s && u.begun.disk[p].File? && p !in a.disk)
    ensures OnlyOurs(a, u, q)
  {
    assert forall p :: p < s ==> LeadsTo(u.created, p) by {
      assert u.created[0] == s;
    }
    hide LeadsTo;
  }

  lemma OwnedDirs()
    ensures WORKSPACE < OWNED_DIR && WORKSPACE < INNER_DIR && !(WORKSPACE < WORKSPACE)
    ensures WORKSPACE in OuterDirs() && OWNED_DIR in OuterDirs() && INNER_DIR in OuterDirs()
  {
  }

  /** What the rollback does to one directory. */
  lemma DirectoryFate(h: Host, p: Package, a: Record, b: Record, u: Undo, c: Conditions, s: Path, q: Path)
    requires Unwinds(h, p, a, b, u, c) && c.still && u.created == [s] && u.begun.foreign == map[]
    requires IsDir(u.begun.disk, q)
    requires s in u.begun.disk && u.begun.disk[s].File? && WellFormed(u.begun.disk)
    requires forall n :: n in u.begun.disk && p.workspace < n ==>
               (u.begun.disk[n] == Dir && n < s) || (n == s && u.begun.disk[n].File? && n !in a.disk)
    ensures q !in b.disk <==> p.workspace < q
  {
    PresentIsStraight(u.begun.disk, s);
    assert AllStraight(u.begun.disk, u.created);
    hide Unwinds, AllStraight, Straight, WellFormed, OnlyOurs;
    if p.workspace < q {
      assert forall n :: n in u.begun.disk && q <= n ==> p.workspace < n;
      OnlyOursIf(a, u, s, q);
    }
    DirectoryGoneExactly(h, p, a, b, u, c, q);
  }

  /** The state of the run when its rollback starts. */
  lemma StuckState(h: Host, x: Expected, digest: JsValue, a: Record, b: Record, u: Undo, c: Conditions)
    returns (s: Path)
    requires Sound(h) && LooksLikeExample(a.disk) && IsExpected(h, a.disk, PACKAGE_ROOT, x)
    requires multiset(x.mappings) == multiset(ScratchMappings([OUTER_TARGET, NESTED_TARGET], digest))
    requires Unwinds(h, PackageOf(x), a, b, u, c) && c.quiet && c.calm && !Conflicting(h, a.disk, PackageOf(x))
    ensures u.created == [s] && u.begun.foreign == map[] && WellFormed(u.begun.disk) && Within(a.disk, u.begun.disk)
    ensures s in u.begun.disk && u.begun.disk[s].File?
    ensures forall q :: q in u.begun.disk && WORKSPACE < q ==>
              (u.begun.disk[q] == Dir && q < s) || (q == s && u.begun.disk[q].File? && q !in a.disk)
  {
    hide *;
    var p := PackageOf(x);
    var ops, ts, e, f := PlanOf(h, p), TargetsFor(p), a.disk, u.begun.disk;
    UnwindsParts(h, p, a, b, u, c);
    PackageFields(x);
    TwoTargets(x, digest);
    SecondIsStuck(h, e, x, digest);
    OneCreated(h, e, f, ops, |u.created|);
    PlanTargets(h, p);
    ExampleIsOpen(e);
    NoLinksIsDirect(e, p);
    WayIsStraight(e, p, 1);
    s := ts[0];
    ClashShape(s, ts[1]);
    var first := ops[..1];
    var m := CreateEach(h, e, first).value;
    StraightAfter(e, m, first, Parent(ts[1]));
    AddedOnWay(h, m, f, Parent(ts[1]));
    NewInFilled(e, m, first, s, s);
    VacantIsNew(e, s);
    WithinAt(m, f, s);
    forall q | q in f && WORKSPACE < q ensures (f[q] == Dir && q < s) || (q == s && f[q].File? && q !in e) {
      LeadsOnly(h, e, m, f, first, s, ts[1], q);
    }
  }

  lemma WayIsStraight(d: Disk, p: Package, i: nat)
    requires DirectTargets(d, p) && i < |TargetsFor(p)|
    ensures Straight(d, Parent(TargetsFor(p)[i]))
  {
    hide TargetsFor, Straight;
    StraightParent(d, TargetsFor(p)[i]);
  }

  lemma VacantIsNew(e: Disk, s: Path)
    requires LooksLikeExample(e) && WORKSPACE < s && s != OWNED_DIR && s != INNER_DIR
    ensures s !in e
  {
    VacantBelow(e, s);
    hide LooksLikeExample, WayIsOpen;
  }

  lemma WithinAt(m: Disk, f: Disk, s: Path)
    requires Within(m, f) && s in m
    ensures s in f && f[s] == m[s]
  {
  }

  /** The rollback takes both directories, although they were there before. */
  lemma EmptyDirectoriesGo(h: Host, x: Expected, digest: JsValue, a: Record, b: Record, u: Undo, c: Conditions)
    requires Sound(h) && LooksLikeExample(a.disk) && IsExpected(h, a.disk, PACKAGE_ROOT, x)
    requires multiset(x.mappings) == multiset(ScratchMappings([OUTER_TARGET, NESTED_TARGET], digest))
    requires Unwinds(h, PackageOf(x), a, b, u, c) && c.quiet && c.calm && c.still
    requires !Conflicting(h, a.disk, PackageOf(x))
    ensures OWNED_DIR in a.disk && OWNED_DIR !in b.disk && INNER_DIR in a.disk && INNER_DIR !in b.disk
    ensures WORKSPACE in b.disk
  {
    hide IsExpected, ScratchMappings, Unwinds, Conflicting, LooksLikeExample, WellFormed, OuterDirs, WORKSPACE,
      OWNED_DIR, INNER_DIR, PACKAGE_ROOT;
    var s := StuckState(h, x, digest, a, b, u, c);
    OwnedDirs();
    forall q | q == WORKSPACE || q == OWNED_DIR || q == INNER_DIR
      ensures q in a.disk && (q !in b.disk <==> WORKSPACE < q)
    {
      OuterIsDir(a.disk, u.begun.disk, q);
      DirectoryFate(h, PackageOf(x), a, b, u, c, s, q);
    }
  }

  lemma OuterIsDir(e: Disk, f: Disk, q: Path)
    requires LooksLikeExample(e) && Within(e, f) && q in OuterDirs()
    ensures q in e && IsDir(f, q)
  {
    hide WellFormed, OuterDirs;
  }

  lemma ClashingTargetsAreGood()
    ensures GoodTargets([OUTER_TARGET, NESTED_TARGET])
  {
    TargetNamesAre();
    hide TargetAllowed, Split;
    AllowedIsGood(OUTER_TARGET);
    AllowedIsGood(NESTED_TARGET);
    assert |OUTER_TARGET| != |NESTED_TARGET|;
  }

  lemma CurrentHasARecord(h: Host, d: Disk, source: Path, workspace: Path)
    ensures IsCurrent(h, d, source, workspace) ==> Exists(h, d, RecordAt(workspace))
  {
    hide IsExpected, HoldsMappings, RecordMatches, Find, RecordAt, Identified;
    if x :| IsExpected(h, d, source, x) && Identified(x) && RecordMatches(h, d, workspace, x.ownership)
            && HoldsMappings(h, d, workspace, x.mappings) {
      CurrentHasRecord(h, d, workspace, x.ownership);
    }
  }

  /** What the contract of a run says of a package that is allowed and free but does
      not fit. */
  lemma DoesNotFit(h: Host, p: Package, a: Record, b: Record, r: Result<Receipt>, u: Undo, c: Conditions)
    requires PackageOutcome(h, p.source, p.workspace, a, b, r, u, c) && IsExpected(h, a.disk, p.source, p.x)
    requires c.quiet && c.calm && !Exists(h, a.disk, RecordAt(p.workspace))
    requires CreateEach(h, a.disk, PlanOf(h, p)).None?
    requires AllAllowed(p.x.mappings) && AllFree(h, a.disk, ItemsOf(p.source, p.workspace, p.x.mappings))
    ensures r.Err? && Unwinds(h, p, a, b, u, c) && !Conflicting(h, a.disk, p)
  {
    hide IsExpected, CreateEach, PlanOf, RecordAt, Unwinds, InstalledInto, IsCurrent, Find, AllAllowed, AllFree;
    CurrentHasARecord(h, a.disk, p.source, p.workspace);
    assert p == Package(p.source, p.workspace, p.x);
    assert WithoutRecord(h, p, a, b, r, u, c);
    assert r.Err? || r == Ok(Installed) || r == Ok(AlreadyCurrent) by {
      if r.Ok? {
        match r.value
        case Installed =>
        case AlreadyCurrent =>
      }
    }
  }

  lemma ExampleOutcome(h: Host, a: Record, b: Record, r: Result<Receipt>, u: Undo, c: Conditions)
    requires LooksLikeExample(a.disk) && WorkspaceOutcome(h, ROOTS, a, b, r, u, c)
    ensures PackageOutcome(h, PACKAGE_ROOT, WORKSPACE, a, b, r, u, c) && !Exists(h, a.disk, RecordAt(WORKSPACE))
  {
    hide PackageOutcome, LooksLikeExample, HasRoots, RealPath, Find, Open, RecordAt, Straight;
    RootsAre(h, a.disk);
    ExampleIsOpen(a.disk);
    RecordTarget();
    NothingFound(h, a.disk, RecordAt(WORKSPACE));
  }

  /** What the run on clashing targets comes to. */
  lemma ClashOutcome(h: Host, x: Expected, digest: JsValue, a: Record, b: Record, r: Result<Receipt>, u: Undo,
                     c: Conditions)
    requires Sound(h) && LooksLikeExample(a.disk) && IsExpected(h, a.disk, PACKAGE_ROOT, x)
    requires multiset(x.mappings) == multiset(ScratchMappings([OUTER_TARGET, NESTED_TARGET], digest))
    requires WorkspaceOutcome(h, ROOTS, a, b, r, u, c) && c.quiet && c.calm && c.still
    ensures r.Err?
    ensures OWNED_DIR in a.disk && OWNED_DIR !in b.disk && INNER_DIR in a.disk && INNER_DIR !in b.disk
    ensures WORKSPACE in b.disk
  {
    hide *;
    PackageFields(x);
    ExampleOutcome(h, a, b, r, u, c);
    TwoTargets(x, digest);
    ClashIsFree(h, a.disk, x);
    SecondIsStuck(h, a.disk, x, digest);
    StuckFails(h, a.disk, PlanOf(h, PackageOf(x)));
    DoesNotFit(h, PackageOf(x), a, b, r, u, c);
    EmptyDirectoriesGo(h, x, digest, a, b, u, c);
  }

  lemma StuckFails(h: Host, d: Disk, ops: seq<Creation>)
    requires |ops| > 2 && CreateEach(h, d, ops[..2]).None?
    ensures CreateEach(h, d, ops).None?
  {
    hide CreateEach;
    CreateEachFails(h, d, ops, 2);
  }

  lemma ClashIsFree(h: Host, e: Disk, x: Expected)
    requires LooksLikeExample(e) && |TargetsFor(PackageOf(x))| == 3
    requires Clash(TargetsFor(PackageOf(x))[0], TargetsFor(PackageOf(x))[1])
    ensures AllFree(h, e, ItemsOf(PACKAGE_ROOT, WORKSPACE, x.mappings))
  {
    var ts, items := TargetsFor(PackageOf(x)), ItemsOf(PACKAGE_ROOT, WORKSPACE, x.mappings);
    hide LooksLikeExample, Clash, Find, Names, RecordAt, Open;
    assert forall i :: 0 <= i < 2 ==> items[i].target == ts[i];
    ClashIsNew(h, e, ts[0], ts[1]);
  }

  lemma ClashIsNew(h: Host, e: Disk, s: Path, t: Path)
    requires LooksLikeExample(e) && Clash(s, t)
    ensures !Exists(h, e, s) && !Exists(h, e, t)
  {
    hide LooksLikeExample, Find, Open;
    assert Clash(t, s);
    ClashShape(s, t);
    ClashShape(t, s);
    ExampleIsOpen(e);
    VacantIsNew(e, s);
    VacantIsNew(e, t);
    NothingFound(h, e, s);
    NothingFound(h, e, t);
  }

  /** A run in which nothing breaks and nobody else writes fails and takes away two
      directories of the workspace that were there before it, one in the other. */
  method InstallClashing(h: Host) returns (r: Result<Receipt>, before: Disk, after: Disk)
    requires Sound(h)
    ensures BuiltDisk(h, ExampleDeclared(PACKAGE_IDENTITY, [OUTER_TARGET, NESTED_TARGET])) == Ok(before)
    ensures r.Err? && OWNED_DIR < INNER_DIR
    ensures OWNED_DIR in before && INNER_DIR in before
    ensures OWNED_DIR !in after && INNER_DIR !in after && WORKSPACE in after
  {
    hide BuiltDisk, ExampleDeclared, LooksLikeExample, WellFormed, IsExpected, Declares, ScratchMappings,
      WorkspaceOutcome, KeptRun, RolledBack, FileSystem.Quiet, FileSystem.Calm, FileSystem.UndisturbedFrom,
      FileSystem.CleanupWorks, GoodTargets, Open, Straight;
    ClashingTargetsAreGood();
    var identity, targets := PACKAGE_IDENTITY, [OUTER_TARGET, NESTED_TARGET];
    ghost var e, x, digest := ScratchExpected(h, identity, targets);
    ExampleIsOpen(e);
    before := BuiltDisk(h, ExampleDeclared(identity, targets)).value;
    var fs := CalmSystem(h, before);
    ghost var a, u := Recorded(fs), Undo(Recorded(fs), 0, [], [], []);
    r, u := InstallWorkspace(fs, ROOTS);
    after := fs.disk;
    StillLater(fs, u.clock);
    ClashOutcome(h, x, digest, a, Recorded(fs), r, u, Surroundings(fs, u));
  }

  lemma StillLater(fs: FileSystem, n: nat)
    requires fs.UndisturbedFrom(0)
    ensures fs.UndisturbedFrom(n)
  {
  }
}
