/** Installing the example package outside a workspace, twice: it ships a file that
    is named like one in the making. */
module ExampleInstalls {
  import opened Outcome
  import opened Paths
  import opened Hosts
  import opened Json
  import opened Disks
  import opened PathLookup
  import opened FileSystems
  import opened Directories
  import opened Boundary
  import opened NamedPlaces
  import opened Mappings
  import opened TargetLayouts
  import opened CopyVerification
  import opened Transactions
  import opened Installer
  import opened InstallLaws
  import opened Workspaces
  import opened ExamplePackages
  import opened ExampleExpectations
  import ExampleRuns

  const INSTALL_ROOTS := BoundaryArgs(Some("/pkg"), Some("/t"), [])
  const INSTALL_ROOT: Path := ["t"]
  const SUFFIX := "1-0"

  // ------------------------------------------------------------- the roots

  lemma InstallRootIsNew(e: Disk)
    requires LooksLikeExample(e)
    ensures INSTALL_ROOT !in e && Parent(INSTALL_ROOT) == [] && [] in e && e[[]] == Dir
    ensures forall n :: StartsWith(n, PartialPrefix(INSTALL_ROOT)) ==> [n] !in e
  {
    assert "t"[0] == 't' && "pkg"[0] == 'p' && "w"[0] == 'w';
    assert [] in OuterDirs();
    forall q: Path | |q| == 1 && q in e ensures q == ["pkg"] || q == ["w"] {
      assert q in OuterDirs() || PACKAGE_ROOT <= q;
      assert PACKAGE_ROOT <= q ==> q == PACKAGE_ROOT[..1];
    }
    forall n | StartsWith(n, PartialPrefix(INSTALL_ROOT)) ensures [n] !in e {
      assert n[0] == PartialPrefix(INSTALL_ROOT)[0] == 't';
    }
    hide WellFormed, OuterDirs;
  }

  lemma StraightRoots(e: Disk)
    requires LooksLikeExample(e)
    ensures WellFormed(e) && PACKAGE_ROOT in e && e[PACKAGE_ROOT] == Dir
    ensures Straight(e, PACKAGE_ROOT) && Straight(e, INSTALL_ROOT)
  {
    assert PACKAGE_ROOT in OuterDirs();
    hide WellFormed, OuterDirs;
  }

  lemma CanonIs(h: Host, e: Disk, s: string, name: string)
    requires WellFormed(e) && Straight(e, [name]) && s == "/" + name && IsName(name)
    ensures Canon(h, e, s) == [name]
  {
    hide Segs, Resolve, CanonicalNames, Straight, WellFormed;
    ExampleRuns.RootIs(h, s, name);
    StraightIsCanonical(h, e, [name]);
  }

  lemma CanonsAre(h: Host, e: Disk)
    requires WellFormed(e) && Straight(e, PACKAGE_ROOT) && Straight(e, INSTALL_ROOT)
    ensures Canon(h, e, "/pkg") == PACKAGE_ROOT && Canon(h, e, "/t") == INSTALL_ROOT
  {
    hide Canon, Straight, WellFormed;
    assert "/pkg" == "/" + "pkg" && "/t" == "/" + "t" && IsName("pkg") && IsName("t");
    CanonIs(h, e, "/pkg", "pkg");
    CanonIs(h, e, "/t", "t");
  }

  lemma InstallRootsAre(h: Host, e: Disk)
    requires LooksLikeExample(e)
    ensures RootsGiven(INSTALL_ROOTS) && RootsStraight(h, e, INSTALL_ROOTS) && RootsSettled(h, e, INSTALL_ROOTS)
    ensures Source(h, e, INSTALL_ROOTS) == PACKAGE_ROOT && Target(h, e, INSTALL_ROOTS) == INSTALL_ROOT
    ensures Boundary.BoundaryHolds(h, e, INSTALL_ROOTS) && WellFormed(e)
  {
    hide Canon, Straight, WellFormed, LooksLikeExample, RootsSettled;
    StraightRoots(e);
    CanonsAre(h, e);
    ApartRoots();
    hide INSTALL_ROOT, PACKAGE_ROOT;
    assert RootsGiven(INSTALL_ROOTS) && ProtectedRoots(h, e, INSTALL_ROOTS) == [PACKAGE_ROOT];
    StraightPairSettled(h, e, INSTALL_ROOTS);
  }

  lemma ApartRoots()
    ensures Apart(INSTALL_ROOT, PACKAGE_ROOT) && INSTALL_ROOT != []
  {
    assert "t"[0] == 't' && "pkg"[0] == 'p';
    assert INSTALL_ROOT[0] != PACKAGE_ROOT[0];
  }

  lemma InstallIsClear(h: Host, e: Disk)
    requires Sound(h) && LooksLikeExample(e)
    ensures Clear(h, e, INSTALL_ROOTS) && MakeDirs(h, e, Parent(INSTALL_ROOT)).Some?
  {
    assert PartialPrefix(INSTALL_ROOT) == Last(INSTALL_ROOT) + ".partial";
    hide Canon, WellFormed, LooksLikeExample, RootsSettled, RootsStraight, HasIncompleteTransaction,
      Boundary.BoundaryHolds, PartialPrefix, Straight, Find, INSTALL_ROOTS, Unfinished;
    InstallRootsAre(h, e);
    InstallRootIsNew(e);
    StraightRoots(e);
    FindPresent(h, e, []);
    FindStraight(h, e, INSTALL_ROOT);
    IncompleteMeans(h, e, INSTALL_ROOT);
    assert forall n :: Parent(INSTALL_ROOT) + [n] == [n];
  }

  // ----------------------------------------------------------- the package

  lemma ScratchIsSeparate()
    ensures Separate(ScratchItems([ExampleRuns.SCRATCH_TARGET]))
  {
    hide Join, OWNERSHIP_FILE, SCRATCH_FILE, ExampleRuns.SCRATCH_TARGET, NormalItem, Declare, TargetNames, IsPath;
    ExampleRuns.JoinsAre();
    OwnedIsNoRecord();
    DeclaredIs(SCRATCH_FILE, ExampleRuns.SCRATCH_TARGET, [".agents", "x.tmp"]);
  }

  lemma OwnedIsNoRecord()
    ensures ".agents" != OWNERSHIP_FILE
  {
    assert ".agents"[1] == 'a' && OWNERSHIP_FILE[1] == 'i';
  }

  lemma ScratchInstallable(h: Host, e: Disk, x: Expected, identity: string)
    requires Sound(h) && LooksLikeExample(e) && IsExpected(h, e, PACKAGE_ROOT, x)
    requires Declares(x.manifest, identity, [ExampleRuns.SCRATCH_TARGET])
    ensures Installable(x.mappings)
  {
    hide IsExpected, LooksLikeExample, WellFormed, Separate, ScratchItems, Installable, Get, ExampleRuns.SCRATCH_TARGET;
    StraightRoots(e);
    ScratchIsSeparate();
    SeparateIsInstallable(h, e, PACKAGE_ROOT, x);
  }

  lemma ScratchIsShipped(x: Expected, digest: JsValue)
    requires multiset(x.mappings) == multiset(ScratchMappings([ExampleRuns.SCRATCH_TARGET], digest))
    ensures ShipsScratch(x.mappings)
  {
    ExampleRuns.OneMapping(x, ExampleRuns.SCRATCH_TARGET, digest);
    TargetIsScratch();
    ScratchIs(ExampleRuns.SCRATCH_TARGET);
    hide Unfinished;
    assert Unfinished(x.mappings[0].target);
  }

  lemma TargetIsScratch()
    ensures IsScratch(ExampleRuns.SCRATCH_TARGET)
  {
    assert ExampleRuns.SCRATCH_TARGET[9..] == ".tmp";
  }

  // ------------------------------------------------------------- the runs

  lemma FirstIsPossible(h: Host, e: Disk, x: Expected)
    requires Sound(h) && LooksLikeExample(e) && IsExpected(h, e, PACKAGE_ROOT, x) && Installable(x.mappings)
    ensures Possible(h, e, INSTALL_ROOTS)
  {
    hide IsExpected, LooksLikeExample, Installable, Clear, Canon, INSTALL_ROOTS, PartialPrefix;
    InstallRootsAre(h, e);
    InstallIsClear(h, e);
    InstallRootIsNew(e);
  }

  /** What the first run leaves for the second. */
  lemma SecondIsBlocked(h: Host, a: Record, b: Record, x: Expected, digest: JsValue)
    requires Sound(h) && LooksLikeExample(a.disk) && IsExpected(h, a.disk, PACKAGE_ROOT, x)
    requires multiset(x.mappings) == multiset(ScratchMappings([ExampleRuns.SCRATCH_TARGET], digest))
    requires Clear(h, a.disk, INSTALL_ROOTS) && Transacted(h, INSTALL_ROOTS, SUFFIX, a, b, Ok(Installed))
    requires WellFormed(b.disk)
    ensures RootsSettled(h, b.disk, INSTALL_ROOTS) && !Occupied(h, b.disk, INSTALL_ROOTS)
    ensures !Clear(h, b.disk, INSTALL_ROOTS)
    ensures InstalledFrom(h, b.disk, PACKAGE_ROOT, INSTALL_ROOT)
  {
    hide *;
    InstallRootsAre(h, a.disk);
    StraightRoots(a.disk);
    StagingIs(h, a.disk);
    AfterRun(h, INSTALL_ROOTS, SUFFIX, a, b, x);
    ScratchIsShipped(x, digest);
    SecondInstall(h, a.disk, INSTALL_ROOTS, SUFFIX, b.disk, x);
    InstalledIsDirectory(h, b.disk, INSTALL_ROOT, x);
    PresentIsNotClear(h, b.disk);
  }

  lemma StagingIs(h: Host, d: Disk)
    requires RootsGiven(INSTALL_ROOTS) && Target(h, d, INSTALL_ROOTS) == INSTALL_ROOT
    ensures INSTALL_ROOT != [] && '/' !in SUFFIX
    ensures Staging(h, d, INSTALL_ROOTS, SUFFIX) == TemporarySibling(INSTALL_ROOT, SUFFIX)
  {
    hide Canon, TemporarySibling;
  }

  lemma PresentIsNotClear(h: Host, d: Disk)
    requires WellFormed(d) && INSTALL_ROOT in d && d[INSTALL_ROOT] == Dir
    requires RootsGiven(INSTALL_ROOTS) && Target(h, d, INSTALL_ROOTS) == INSTALL_ROOT
    ensures !Clear(h, d, INSTALL_ROOTS)
  {
    FindPresent(h, d, INSTALL_ROOT);
    hide Canon, Find, Boundary.BoundaryHolds, HasIncompleteTransaction, WellFormed;
  }

  lemma SecondFails(h: Host, d: Disk, r: Result<Receipt>)
    requires !Occupied(h, d, INSTALL_ROOTS) && (r == Ok(AlreadyCurrent) ==> Occupied(h, d, INSTALL_ROOTS))
    requires r != Ok(Installed)
    ensures r.Err?
  {
    hide Occupied;
    if r.Ok? {
      match r.value
      case Installed =>
      case AlreadyCurrent =>
    }
  }

  /** The first run installs the package; the second takes the complete installation
      for one that is not finished. */
  method InstallTwice(h: Host) returns (first: Result<Receipt>, second: Result<Receipt>, before: Disk, disk: Disk)
    requires Sound(h)
    ensures BuiltDisk(h, ExampleDeclared(PACKAGE_IDENTITY, [ExampleRuns.SCRATCH_TARGET])) == Ok(before)
    ensures first == Ok(Installed) && second.Err? && InstalledFrom(h, disk, PACKAGE_ROOT, INSTALL_ROOT)
  {
    hide BuiltDisk, ExampleDeclared, LooksLikeExample, WellFormed, IsExpected, Declares, ScratchMappings,
      FileSystem.Quiet, FileSystem.Calm, FileSystem.UndisturbedFrom, FileSystem.CleanupWorks, GoodTargets,
      Straight, Clear, Occupied, Possible, Transacted, InstalledFrom, RootsSettled, RootsStraight, Installable,
      INSTALL_ROOTS, Canon, Untouched, PrescribesNothing, Cleared, TemporarySibling, Boundary.BoundaryHolds;
    ExampleRuns.ScratchTargetIsGood();
    ghost var e, x, digest := ScratchExpected(h, PACKAGE_IDENTITY, [ExampleRuns.SCRATCH_TARGET]);
    ScratchInstallable(h, e, x, PACKAGE_IDENTITY);
    InstallRootsAre(h, e);
    InstallIsClear(h, e);
    FirstIsPossible(h, e, x);
    StagingIs(h, e);
    before := BuiltDisk(h, ExampleDeclared(PACKAGE_IDENTITY, [ExampleRuns.SCRATCH_TARGET])).value;
    var fs := ExampleRuns.CalmSystem(h, before);
    ghost var a := Recorded(fs);
    first := Install(fs, INSTALL_ROOTS, SUFFIX);
    ghost var b := Recorded(fs);
    SecondIsBlocked(h, a, b, x, digest);
    disk := fs.disk;
    second := Install(fs, INSTALL_ROOTS, SUFFIX);
    SecondFails(h, disk, second);
  }
}
