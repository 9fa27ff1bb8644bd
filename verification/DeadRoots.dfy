/** A protected root that leads nowhere when an installation starts, and into which
    the installation is made. */
module DeadRoots {
  import opened Outcome
  import opened Paths
  import opened PathLemmas
  import opened Hosts
  import Json
  import opened Disks
  import opened PathLookup
  import opened FileSystems
  import opened Directories
  import opened Boundary
  import opened NamedPlaces
  import opened Mappings
  import opened SourceFrame
  import opened InstalledTrees
  import opened TargetLayouts
  import opened CopyTrees
  import opened CopyVerification
  import opened Transactions
  import opened Installer
  import opened InstallLaws
  import opened Uninstaller
  import opened Workspaces
  import opened ExamplePackages
  import opened ExampleExpectations
  import ExampleRuns

  /** The package /pkg goes to /a/b/t, and /p is to be protected. */
  const DEAD_ARGS := BoundaryArgs(Some("/pkg"), Some("/a/b/t"), ["/p"])

  const LINK: Path := ["p"]
  const PLACE: Path := ["a", "b"]
  const DEEP_TARGET: Path := ["a", "b", "t"]

  /** /p leads to /a/b, and /a is not there. */
  ghost predicate HasDeadRoot(d: Disk) {
    && WellFormed(d) && LINK in d && d[LINK] == Link(PLACE) && ["a"] !in d
    && PACKAGE_ROOT in d && d[PACKAGE_ROOT] == Dir
  }

  // -------------------------------------------------------------- the paths

  lemma PathsAre()
    ensures IsPath(LINK) && IsPath(PLACE) && IsPath(DEEP_TARGET) && PLACE <= DEEP_TARGET && DEEP_TARGET != []
    ensures Render(LINK) == "/p" && Render(DEEP_TARGET) == "/a/b/t" && Render(PACKAGE_ROOT) == "/pkg"
    ensures Apart(DEEP_TARGET, LINK) && Apart(DEEP_TARGET, PACKAGE_ROOT) && IsPath(PACKAGE_ROOT)
  {
    assert IsName("p") && IsName("a") && IsName("b") && IsName("t") && IsName("pkg");
    assert DEEP_TARGET[1..] == ["b", "t"] && ["b", "t"][1..] == ["t"];
    assert "a"[0] == 'a' && "p"[0] == 'p' && "pkg"[0] == 'p';
    assert DEEP_TARGET[0] != LINK[0] && DEEP_TARGET[0] != PACKAGE_ROOT[0];
  }

  lemma ArgumentIs(h: Host, p: Path)
    requires IsPath(p)
    ensures Segs(Resolve(h.cwd, Render(p))) == p
  {
    RenderSegs(p);
    hide Segs, Join;
  }

  lemma ArgumentsAre(h: Host, d: Disk)
    ensures RootsGiven(DEAD_ARGS) && |DEAD_ARGS.protectedRoots| == 1
    ensures RootPath(h, DEAD_ARGS, 0) == PACKAGE_ROOT && RootPath(h, DEAD_ARGS, 1) == LINK
    ensures Source(h, d, DEAD_ARGS) == CanonicalNames(h, d, PACKAGE_ROOT)
    ensures Target(h, d, DEAD_ARGS) == CanonicalNames(h, d, DEEP_TARGET)
  {
    hide Segs, Resolve, Render, IsPath, CanonicalNames, PACKAGE_ROOT, LINK, DEEP_TARGET;
    PathsAre();
    ArgumentIs(h, PACKAGE_ROOT);
    ArgumentIs(h, LINK);
    ArgumentIs(h, DEEP_TARGET);
  }

  // --------------------------------------------------------------- the disk

  lemma NothingAtPlace(d: Disk, p: Path)
    requires WellFormed(d) && ["a"] !in d && ["a"] <= p
    ensures p !in d && Straight(d, p)
  {
    if p in d {
      PrefixPresent(d, p, ["a"]);
    }
    forall k | 0 <= k <= |p| && p[..k] in d ensures !d[p[..k]].Link? {
      if k > 0 {
        NothingAbove(d, p, k);
      } else {
        assert p[..0] == [];
      }
    }
  }

  lemma NothingAbove(d: Disk, p: Path, k: nat)
    requires WellFormed(d) && ["a"] !in d && ["a"] <= p && 0 < k <= |p|
    ensures p[..k] !in d
  {
    assert ["a"] <= p[..k];
    if p[..k] in d {
      PrefixPresent(d, p[..k], ["a"]);
    }
  }

  lemma LinkDenotes(h: Host, d: Disk)
    requires HasDeadRoot(d) && h.linkLimit > 0
    ensures Denotes(h, d, LINK) == Some(PLACE) && Denotes(h, d, LINK + ["t"]) == Some(DEEP_TARGET)
    ensures PLACE !in d && DEEP_TARGET !in d && Straight(d, DEEP_TARGET)
  {
    NothingAtPlace(d, PLACE);
    NothingAtPlace(d, DEEP_TARGET);
    assert LINK[1..] == [] && (LINK + ["t"])[1..] == ["t"] && (LINK + ["t"])[0] == "p";
    assert PLACE + [] == PLACE && PLACE + ["t"] == DEEP_TARGET && [] + [LINK[0]] == LINK;
    assert PLACE[..0] == [] && PLACE[0..] == PLACE && DEEP_TARGET[..0] == [] && DEEP_TARGET[0..] == DEEP_TARGET;
    hide WellFormed, Straight, PLACE, DEEP_TARGET;
    FollowStraight(d, PLACE, 0, h.linkLimit - 1);
    FollowStraight(d, DEEP_TARGET, 0, h.linkLimit - 1);
  }

  lemma LinkIsCanonical(h: Host, d: Disk)
    requires HasDeadRoot(d) && h.linkLimit > 0
    ensures !Exists(h, d, LINK) && CanonicalNames(h, d, LINK) == LINK
  {
    LinkDenotes(h, d);
    ExtendsItself(d);
    FindIsDenoted(h, d, d, LINK);
    RootExists(h, d);
    assert LINK[..0] == [] && LINK[..1] == LINK && LINK[0..] == LINK && [] + LINK == LINK;
    hide Find, Denotes, WellFormed, Straight, LINK, PLACE, DEEP_TARGET;
    ExistingLengthUnique(h, d, LINK, 0);
  }

  lemma ExtendsItself(d: Disk)
    ensures Extends(d, d)
  {
  }

  /** The overlap test passes. */
  lemma DeadRootPasses(h: Host, d: Disk)
    requires HasDeadRoot(d) && h.linkLimit > 0
    ensures RootsGiven(DEAD_ARGS) && BoundaryHolds(h, d, DEAD_ARGS) && RootsSettled(h, d, DEAD_ARGS)
    ensures Source(h, d, DEAD_ARGS) == PACKAGE_ROOT && Target(h, d, DEAD_ARGS) == DEEP_TARGET && DEEP_TARGET !in d
    ensures Straight(d, PACKAGE_ROOT) && Straight(d, DEEP_TARGET)
  {
    hide Denotes, Find, WellFormed, Straight, LINK, PLACE, DEEP_TARGET, PACKAGE_ROOT, CanonicalNames, RootPath, Render,
      RootsSettled, ProtectedRoots, DEAD_ARGS, Canon, Apart, IsPath;
    PathsAre();
    ArgumentsAre(h, d);
    LinkDenotes(h, d);
    LinkIsCanonical(h, d);
    PresentIsStraight(d, PACKAGE_ROOT);
    StraightIsCanonical(h, d, PACKAGE_ROOT);
    StraightIsCanonical(h, d, DEEP_TARGET);
    ProtectedIs(h, d, DEAD_ARGS);
    StraightPairSettled(h, d, DEAD_ARGS);
  }

  /** Once something is at the target it lies in the protected root, and is found
      there. As soon as the directory above it is there, the test fails: no retry is
      possible after a run that failed later, and neither a second installation nor a
      removal after one that did not fail. */
  lemma DeadRootEscapes(h: Host, d: Disk, e: Disk)
    requires HasDeadRoot(d) && h.linkLimit > 0 && WellFormed(e) && Extends(d, e)
    ensures BoundaryHolds(h, d, DEAD_ARGS) && !RootsNamedApart(h, d, DEAD_ARGS)
    ensures PLACE in e ==> !BoundaryHolds(h, e, DEAD_ARGS)
    ensures DEEP_TARGET in e ==>
              LiesIn(h, e, LINK, DEEP_TARGET) && Find(h, e, LINK + ["t"]) == Some(DEEP_TARGET) && PLACE in e
  {
    hide Denotes, Find, WellFormed, Straight, LINK, PLACE, DEEP_TARGET, PACKAGE_ROOT, CanonicalNames, RootPath, Render,
      RootsSettled, ProtectedRoots, Extends, Boundary.BoundaryHolds;
    PathsAre();
    ArgumentsAre(h, d);
    ArgumentsAre(h, e);
    DeadRootPasses(h, d);
    LinkDenotes(h, d);
    TwoRootsStay(h, d, e, DEAD_ARGS);
    NamedAt(h, d, LINK, DEEP_TARGET);
    if PLACE in e {
      PlaceIsSeen(h, d, e, DEAD_ARGS, 1);
    }
    if DEEP_TARGET in e {
      PrefixPresent(e, DEEP_TARGET, PLACE);
      BoundaryProtects(h, d, e, LINK, DEEP_TARGET);
      FindIsDenoted(h, d, e, LINK + ["t"]);
    }
  }

  // ---------------------------------------------------------------- the run

  const DOC := "doc"

  /** The example package, with the dead link beside it. */
  function LinkedDisk(d: Disk): Disk {
    d[LINK := Link(PLACE)]
  }

  /** The overlap test passes, and source and target are their own canonical paths. */
  ghost predicate PassesTest(h: Host, d: Disk) {
    RootsGiven(DEAD_ARGS) && BoundaryHolds(h, d, DEAD_ARGS) && RootsSettled(h, d, DEAD_ARGS)
  }

  ghost predicate IsBuilt(h: Host, d: Disk) {
    BuiltDisk(h, ExampleDeclared(PACKAGE_IDENTITY, [DOC])) == Ok(d)
  }

  lemma DocIsGood()
    ensures GoodTargets([DOC]) && Separate(ScratchItems([DOC])) && Names(DOC) == ["doc"]
  {
    hide Join, Split, NormalItem, Declare, TargetNames, SCRATCH_FILE, OWNERSHIP_FILE, Names, DOC;
    DocNames();
    NamesOfJoin(["doc"]);
    PlainNames(["doc"]);
    DeclaredIs(SCRATCH_FILE, DOC, ["doc"]);
  }

  lemma DocNames()
    ensures IsPath(["doc"]) && Join(["doc"]) == DOC && !IsAbsolute(DOC) && "doc" != OWNERSHIP_FILE
  {
    assert IsName("doc") && "doc"[0] == 'd' && OWNERSHIP_FILE[0] == '.';
  }

  lemma LinkedHasDeadRoot(d: Disk)
    requires LooksLikeExample(d)
    ensures HasDeadRoot(LinkedDisk(d)) && SameBelow(d, LinkedDisk(d), PACKAGE_ROOT)
  {
    assert "a"[0] == 'a' && "p"[0] == 'p' && "pkg"[0] == 'p' && "w"[0] == 'w' && |"p"| == 1 && |"pkg"| == 3;
    PathsAre();
    assert [] in OuterDirs() && PACKAGE_ROOT in OuterDirs();
    assert LINK !in OuterDirs() && ["a"] !in OuterDirs() && !(PACKAGE_ROOT <= LINK) && !(PACKAGE_ROOT <= ["a"]);
    assert Parent(LINK) == [] && Last(LINK) == "p" && IsName("p");
    hide WellFormed, OuterDirs, IsPath, IsName;
    AddWellFormed(d, LINK, Link(PLACE));
  }

  lemma NoParent(h: Host, d: Disk)
    requires HasDeadRoot(d)
    ensures Parent(DEEP_TARGET) == PLACE && PLACE !in d && MakeDirs(h, d, PLACE).Some?
    ensures HasIncompleteTransaction(h, d, DEEP_TARGET) == Ok(false) && !Exists(h, d, DEEP_TARGET)
  {
    PathsAre();
    NothingAtPlace(d, PLACE);
    NothingAtPlace(d, DEEP_TARGET);
    assert Parent(DEEP_TARGET) == PLACE;
    FindStraight(h, d, DEEP_TARGET);
    FindStraight(h, d, PLACE);
    MakeDirsStraight(h, d, PLACE);
    forall k | 0 <= k <= |PLACE| && PLACE[..k] in d ensures d[PLACE[..k]] == Dir {
      if k > 0 {
        NothingAbove(d, PLACE, k);
      }
    }
    hide Find, MakeDirs, WalkFiles, PartialPrefix, WellFormed, Straight, IsPath;
  }

  lemma DeadRootIsPossible(h: Host, d: Disk, x: Expected)
    requires Sound(h) && HasDeadRoot(d) && h.linkLimit > 0
    requires IsExpected(h, d, PACKAGE_ROOT, x) && Installable(x.mappings)
    ensures Clear(h, d, DEAD_ARGS) && Possible(h, d, DEAD_ARGS)
  {
    hide IsExpected, Installable, HasDeadRoot, Canon, MakeDirs, Find, HasIncompleteTransaction, Boundary.BoundaryHolds,
      DEAD_ARGS, PACKAGE_ROOT, DEEP_TARGET, PLACE;
    DeadRootPasses(h, d);
    NoParent(h, d);
  }

  lemma SuffixIsPlain()
    ensures '/' !in "1-0"
  {
  }

  /** What the run leaves for the next one, and for the removal. */
  lemma DeadRootBlocks(h: Host, a: Record, b: Record, x: Expected)
    requires Sound(h) && HasDeadRoot(a.disk) && h.linkLimit > 0 && IsExpected(h, a.disk, PACKAGE_ROOT, x)
    requires Clear(h, a.disk, DEAD_ARGS) && Transacted(h, DEAD_ARGS, "1-0", a, b, Ok(Installed)) && WellFormed(b.disk)
    ensures RootsSettled(h, b.disk, DEAD_ARGS) && !Occupied(h, b.disk, DEAD_ARGS) && !Clear(h, b.disk, DEAD_ARGS)
    ensures !Removable(h, b.disk, DEAD_ARGS) && !BoundaryHolds(h, b.disk, DEAD_ARGS)
    ensures InstalledFrom(h, b.disk, PACKAGE_ROOT, DEEP_TARGET)
    ensures Find(h, b.disk, LINK + ["t"]) == Some(DEEP_TARGET)
  {
    hide IsExpected, Canon, Find, HasIncompleteTransaction, Boundary.BoundaryHolds, DEAD_ARGS, PACKAGE_ROOT,
      DEEP_TARGET, PLACE, LINK, Transacted, Framed, ExactlyInstalled, RootsSettled, InstalledFrom, Extends,
      TemporarySibling, Straight;
    DeadRootPasses(h, a.disk);
    PathsAre();
    SuffixIsPlain();
    AfterRun(h, DEAD_ARGS, "1-0", a, b, x);
    FramedExtends(a.disk, b.disk, DEEP_TARGET, Staging(h, a.disk, DEAD_ARGS, "1-0"));
    SecondInstall(h, a.disk, DEAD_ARGS, "1-0", b.disk, x);
    DeadRootEscapes(h, a.disk, b.disk);
  }

  /** After a run that failed once the directories were made, no retry is possible. */
  lemma DeadRootBlocksRetry(h: Host, d: Disk, e: Disk, suffix: string)
    requires HasDeadRoot(d) && h.linkLimit > 0 && Cleared(d, e, DEEP_TARGET, TemporarySibling(DEEP_TARGET, suffix))
    requires PLACE in e
    ensures !Possible(h, e, DEAD_ARGS)
  {
    hide Canon, Boundary.BoundaryHolds, DEAD_ARGS, DEEP_TARGET, PLACE, LINK, Extends, HasDeadRoot, Find, CanInstall,
      MakeDirs, HasIncompleteTransaction, TemporarySibling, Framed;
    PathsAre();
    FramedExtends(d, e, DEEP_TARGET, TemporarySibling(DEEP_TARGET, suffix));
    DeadRootEscapes(h, d, e);
  }

  lemma NeitherCurrentNorNew(r: Result<Receipt>)
    requires r != Ok(Installed) && r != Ok(AlreadyCurrent)
    ensures r.Err?
  {
    if r.Ok? {
      match r.value
      case Installed =>
      case AlreadyCurrent =>
    }
  }

  /** The overlap test passes, nothing breaks, and the package is installed into the
      protected root. A second installation and the removal are then refused. */
  method InstallIntoProtected(h: Host)
    returns (first: Result<Receipt>, second: Result<Receipt>, removed: Result<bool>, built: Disk, before: Disk,
             after: Disk)
    requires Sound(h) && h.linkLimit > 0
    ensures IsBuilt(h, built) && before == LinkedDisk(built) && PassesTest(h, before)
    ensures first == Ok(Installed) && second.Err? && removed.Err?
    ensures InstalledFrom(h, after, PACKAGE_ROOT, DEEP_TARGET) && Find(h, after, LINK + ["t"]) == Some(DEEP_TARGET)
  {
    hide BuiltDisk, ExampleDeclared, LooksLikeExample, WellFormed, IsExpected, Declares, ScratchMappings, HasDeadRoot,
      FileSystem.Quiet, FileSystem.Calm, FileSystem.UndisturbedFrom, FileSystem.CleanupWorks, GoodTargets, Separate,
      Straight, Clear, Occupied, Possible, Transacted, InstalledFrom, RootsSettled, Installable, Removable, SameBelow,
      DEAD_ARGS, Canon, Untouched, PrescribesNothing, Cleared, TemporarySibling, Boundary.BoundaryHolds, LinkedDisk,
      PACKAGE_ROOT, DEEP_TARGET, LINK, DOC, Find, PrunedTo, RemoveTree;
    DocIsGood();
    SuffixIsPlain();
    var c := ExampleDeclared(PACKAGE_IDENTITY, [DOC]);
    ghost var e, x, digest := ScratchExpected(h, PACKAGE_IDENTITY, [DOC]);
    built := BuiltDisk(h, c).value;
    before := LinkedDisk(built);
    LinkedHasDeadRoot(e);
    LinkedExpects(h, e, before, x, [DOC]);
    DeadRootPasses(h, before);
    DeadRootIsPossible(h, before, x);
    DeadRootIsWellFormed(before);
    var fs := ExampleRuns.CalmSystem(h, before);
    ghost var a := Recorded(fs);
    first := Install(fs, DEAD_ARGS, "1-0");
    ghost var b := Recorded(fs);
    DeadRootBlocks(h, a, b, x);
    after := fs.disk;
    second := Install(fs, DEAD_ARGS, "1-0");
    NeitherCurrentNorNew(second);
    UntouchedDisk(b, Recorded(fs));
    removed := Uninstall(fs, DEAD_ARGS);
  }

  lemma UntouchedDisk(a: Record, b: Record)
    requires Untouched(a, b)
    ensures b.disk == a.disk
  {
  }

  lemma DeadRootIsWellFormed(d: Disk)
    requires HasDeadRoot(d)
    ensures WellFormed(d)
  {
    hide WellFormed;
  }

  lemma DeclaredTargets(m: Json.JsValue, identity: string, targets: seq<string>)
    requires Declares(m, identity, targets)
    ensures InstallTargets(m) == Outcome.Ok(ScratchItems(targets))
  {
    hide ScratchItems, Json.Get;
  }

  lemma ExampleHasPackage(d: Disk)
    requires LooksLikeExample(d)
    ensures WellFormed(d) && PACKAGE_ROOT in d && d[PACKAGE_ROOT] == Dir
  {
    hide WellFormed;
    assert PACKAGE_ROOT in OuterDirs();
  }

  /** The link beside the package does not change what it prescribes. */
  lemma LinkedExpects(h: Host, d: Disk, e: Disk, x: Expected, targets: seq<string>)
    requires Sound(h) && LooksLikeExample(d) && HasDeadRoot(e) && SameBelow(d, e, PACKAGE_ROOT)
    requires IsExpected(h, d, PACKAGE_ROOT, x) && Declares(x.manifest, PACKAGE_IDENTITY, targets)
    requires Separate(ScratchItems(targets))
    ensures IsExpected(h, e, PACKAGE_ROOT, x) && Installable(x.mappings)
  {
    hide *;
    ExampleHasPackage(d);
    DeadRootIsWellFormed(e);
    ExpectedSame(h, d, e, PACKAGE_ROOT, x);
    DeclaredTargets(x.manifest, PACKAGE_IDENTITY, targets);
    SeparateIsInstallable(h, d, PACKAGE_ROOT, x);
  }
}
