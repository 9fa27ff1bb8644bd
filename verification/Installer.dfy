/** `install.mjs`: check, stage, verify, publish by renaming; clean up when a step
    throws. */
module Installer {
  import opened Outcome
  import opened Paths
  import opened Hosts
  import opened Json
  import opened Disks
  import opened PathLookup
  import opened FileSystems
  import opened Directories
  import opened Boundary
  import opened Manifests
  import opened Mappings
  import opened SourceFrame
  import opened InstalledTrees
  import opened CopyTrees
  import opened CopyVerification
  import opened InstallCopies
  import opened Transactions

  datatype Receipt = AlreadyCurrent | Installed

  /** A settled source that exists is a directory, or prescribes nothing. */
  method ExpectedAt(h: Host, d: Disk, source: Path) returns (r: Result<Expected>)
    requires Sound(h) && WellFormed(d) && Settled(h, d, source)
    ensures r.Ok? ==> IsExpected(h, d, source, r.value) && source in d && d[source] == Dir
    ensures r.Err? ==> forall x :: !IsExpected(h, d, source, x)
  {
    hide Find, Prescribes, Acceptable, CollectMappings, OwnershipBody, Settled;
    SettledTame(h, d, source);
    if !Exists(h, d, source) {
      MissingPrescribesNothing(h, d, source);
      return Err("manifest-unreadable");
    }
    PresentIsStraight(d, source);
    r := ExpectedInstall(h, d, source);
    PrescribesReal(h, d, source);
    if r.Ok? {
      AcceptedRoot(h, d, source, r.value.manifest);
    }
  }

  lemma MissingPrescribesNothing(h: Host, d: Disk, source: Path)
    requires !Exists(h, d, source)
    ensures forall x :: !IsExpected(h, d, source, x)
  {
    var p := source + [MANIFEST_FILE];
    assert p[..|source|] == source;
    DeadBeyond(h, d, p, |source|);
    assert ReadFile(h, d, p).None?;
    hide Find, CollectMappings, OwnershipBody;
    forall x ensures !IsExpected(h, d, source, x) {
      NoManifest(h, d, source, x.manifest);
    }
  }

  lemma NoManifest(h: Host, d: Disk, source: Path, m: JsValue)
    requires ReadFile(h, d, source + [MANIFEST_FILE]).None?
    ensures !Acceptable(h, d, source, m)
  {
    hide BindsFields, BindsFiles, BindsAgents, RecordsArtifacts;
  }

  // --------------------------------------------------------- the transaction

  /** What the checks have established when the transaction starts. */
  ghost predicate Ready(h: Host, d: Disk, source: Path, target: Path, staging: Path, x: Expected) {
    && Sound(h) && WellFormed(d) && IsPath(target) && target != [] && Tame(h, d, target) && !Exists(h, d, target)
    && IsPath(staging) && staging != [] && Parent(staging) == Parent(target) && Apart(staging, target) && staging !in d
    && IsExpected(h, d, source, x) && source in d && d[source] == Dir && Apart(target, source)
  }

  lemma SourceStays(h: Host, d: Disk, e: Disk, source: Path, target: Path, staging: Path, x: Expected)
    requires Ready(h, d, source, target, staging, x) && Framed(d, e, target, staging)
    ensures IsExpected(h, e, source, x) && source in e && e[source] == Dir && Straight(e, source)
  {
    ProtectedUntouched(d, e, target, staging, source);
    PresentIsStraight(e, source);
    hide IsExpected, Tame, Find, Straight;
    ExpectedSame(h, d, e, source, x);
  }

  /** The way to the target leads to its own parent. */
  lemma ParentIsOwn(h: Host, d: Disk, b: Disk, target: Path)
    requires WellFormed(d) && WellFormed(b) && target != [] && Tame(h, d, target)
    requires DirsAdded(h, d, b, Parent(target)) && IsDirAt(h, b, Parent(target))
    ensures Parent(target) in b && b[Parent(target)] == Dir
  {
    PlaceIsOwn(h, d, b, target);
    assert Parent(Find(h, b, Parent(target)).value + [Last(target)]) == Find(h, b, Parent(target)).value;
  }

  /** Once the way is made, the staging directory is too, and it is empty. */
  lemma StagingMade(h: Host, d: Disk, b: Disk, source: Path, target: Path, staging: Path)
    requires WellFormed(d) && target != [] && Tame(h, d, target)
    requires IsPath(staging) && staging != [] && Parent(staging) == Parent(target) && Apart(staging, target)
    requires staging !in d
    requires DirsAdded(h, d, b, Parent(target)) && IsDirAt(h, b, Parent(target))
    ensures MakeDir(h, b, staging) == Some(b[staging := Dir])
    ensures ReadyToCopy(b[staging := Dir], source, staging) && Open(b[staging := Dir], staging)
    ensures Unpublished(d, b[staging := Dir], target, staging)
  {
    NewSibling(h, d, b, target, staging);
    ParentIsOwn(h, d, b, target);
    UnpublishedDirs(h, d, b, target, staging);
    hide Tame, DirsAdded, IsDirAt, Unpublished, ReadyToCopy, Open;
    PresentIsStraight(b, Parent(target));
    PlaceStraight(h, b, staging);
    EmptyDirectory(b, source, staging);
    SiblingUnpublished(d, b, target, staging);
  }

  lemma NewSibling(h: Host, d: Disk, b: Disk, target: Path, staging: Path)
    requires target != [] && Tame(h, d, target) && DirsAdded(h, d, b, Parent(target))
    requires staging !in d && staging != [] && Parent(staging) == Parent(target)
    ensures staging !in b
  {
    TameParent(h, d, target);
    assert !(staging <= Parent(staging));
    hide Tame;
  }

  lemma EmptyDirectory(b: Disk, source: Path, staging: Path)
    requires WellFormed(b) && IsPath(staging) && staging != [] && staging !in b
    requires Parent(staging) in b && b[Parent(staging)] == Dir
    ensures ReadyToCopy(b[staging := Dir], source, staging) && Open(b[staging := Dir], staging)
  {
    AddWellFormed(b, staging, Dir);
    NothingBelowAbsent(b, staging);
    hide WellFormed;
    forall r: Path | r != [] ensures staging + r !in b[staging := Dir] {
      assert staging < staging + r;
    }
  }

  lemma SiblingUnpublished(d: Disk, b: Disk, target: Path, staging: Path)
    requires Unpublished(d, b, target, staging) && WellFormed(b[staging := Dir]) && staging !in b
    requires Apart(staging, target)
    ensures Unpublished(d, b[staging := Dir], target, staging)
  {
    hide WellFormed;
  }

  lemma NothingBelowAbsent(d: Disk, p: Path)
    requires WellFormed(d) && p !in d
    ensures forall q :: q in d ==> !(p <= q)
  {
    forall q | q in d && p <= q ensures false {
      PrefixPresent(d, q, p);
    }
  }

  /** One reading, which may break. */
  method ReadDisk(fs: FileSystem) returns (ok: bool)
    requires fs.Valid() && fs.Quiet()
    modifies fs
    ensures fs.Valid() && Untouched(old(Recorded(fs)), Recorded(fs))
    ensures fs.trace == old(fs.trace) + [fs.disk, fs.disk]
    ensures fs.Calm() ==> ok
  {
    QuietStep(fs, fs.disk, fs.clock, OpRead);
    assert Effect(fs.host, fs.disk, OpRead) == Some(fs.disk);
    hide FileSystem.After, Effect, Arrive, Gain;
    var s := fs.Do(OpRead);
    ok := s.Done?;
  }

  /** The parent directories and the staging directory. */
  method MakeStaging(fs: FileSystem, ghost a: Record, ghost source: Path, target: Path, staging: Path)
    returns (ok: bool)
    requires fs.Valid() && fs.Quiet() && Untouched(a, Recorded(fs))
    requires IsPath(target) && target != [] && Tame(fs.host, a.disk, target)
    requires IsPath(staging) && staging != [] && Parent(staging) == Parent(target) && Apart(staging, target)
    requires staging !in a.disk
    modifies fs
    ensures fs.Valid() && UnpublishedRun(a, Recorded(fs), target, staging)
    ensures ok ==> ReadyToCopy(fs.disk, source, staging) && Open(fs.disk, staging)
    ensures ok ==> MakeDirs(fs.host, a.disk, Parent(target)).Some?
    ensures fs.Calm() ==> ok == MakeDirs(fs.host, a.disk, Parent(target)).Some?
  {
    ghost var start := Recorded(fs);
    UntouchedIsUnpublished(a, start, target, staging);
    hide Tame, UnpublishedRun, Open, ReadyToCopy, IsDirAt, Grew;
    ok := MakeDirectories(fs, Parent(target));
    ghost var b := Recorded(fs);
    assert start.disk == a.disk;
    UnpublishedGrew(fs.host, start, b, target, staging);
    UnpublishedAfter(a, start, b, target, staging);
    if ok {
      GrewDirs(fs.host, start, b, target);
      StagingMade(fs.host, a.disk, b.disk, source, target, staging);
      ok := MakeStagingDirectory(fs, staging);
      if ok {
        UnpublishedStep(a, b, Recorded(fs), target, staging);
      } else {
        UnpublishedNow(a, b, target, staging);
        UnpublishedStep(a, b, Recorded(fs), target, staging);
      }
    }
  }

  lemma UnpublishedAfter(a: Record, b: Record, c: Record, target: Path, staging: Path)
    requires Untouched(a, b) && WellFormed(a.disk) && UnpublishedRun(b, c, target, staging)
    ensures UnpublishedRun(a, c, target, staging)
  {
    Nothing(a.disk, target, staging);
    hide Unpublished, WellFormed;
    forall k | |a.trace| <= k < |c.trace| ensures Unpublished(a.disk, c.trace[k], target, staging) {
      if k < |b.trace| {
        assert c.trace[k] == b.trace[k];
      }
    }
  }

  method MakeStagingDirectory(fs: FileSystem, staging: Path) returns (ok: bool)
    requires fs.Valid() && fs.Quiet() && IsPath(staging)
    modifies fs
    ensures fs.Valid() && fs.trace == old(fs.trace) + [old(fs.disk), fs.disk]
    ensures if ok then MakeDir(fs.host, old(fs.disk), staging) == Some(fs.disk) else fs.disk == old(fs.disk)
    ensures fs.Calm() ==> ok == MakeDir(fs.host, old(fs.disk), staging).Some?
  {
    var op := OpMakeDir(staging);
    QuietStep(fs, fs.disk, fs.clock, op);
    assert Effect(fs.host, fs.disk, op) == MakeDir(fs.host, fs.disk, staging);
    hide FileSystem.After, Effect, Arrive, Gain, MakeDir;
    var s := fs.Do(op);
    ok := s.Done?;
  }

  lemma ReadyNames(h: Host, d: Disk, source: Path, target: Path, staging: Path, x: Expected)
    requires Ready(h, d, source, target, staging, x)
    ensures forall i :: 0 <= i < |x.mappings| ==> ".." !in Split(x.mappings[i].target)
    ensures Straight(d, source) && WellFormed(d) && staging !in d && Apart(staging, target)
  {
    PresentIsStraight(d, source);
    hide IsExpected, Split, Tame, Find;
    ExpectedShape(h, d, source, x);
    forall i | 0 <= i < |x.mappings| ensures ".." !in Split(x.mappings[i].target) {
      assert x.mappings[i] in x.mappings;
    }
  }

  lemma StagingFilled(h: Host, b: Disk, e: Disk, staging: Path)
    requires Open(b, staging) && StagedOnly(b, e, staging)
    ensures staging in e && e[staging] == Dir && Straight(e, staging)
  {
    PresentIsStraight(e, staging);
  }

  /** The copies and the check of the staged tree. */
  method FillStaging(fs: FileSystem, ghost a: Record, source: Path, ghost target: Path, staging: Path, x: Expected)
    returns (ok: bool)
    requires fs.Valid() && fs.Quiet() && Ready(fs.host, a.disk, source, target, staging, x)
    requires UnpublishedRun(a, Recorded(fs), target, staging)
    requires ReadyToCopy(fs.disk, source, staging) && Open(fs.disk, staging)
    modifies fs
    ensures fs.Valid() && UnpublishedRun(a, Recorded(fs), target, staging)
    ensures ok ==> staging in fs.disk && fs.disk[staging] == Dir && ExactlyInstalled(fs.host, fs.disk, staging, x)
    ensures ok ==> Installable(x.mappings)
    ensures fs.Calm() ==> ok == Installable(x.mappings)
  {
    ghost var b := Recorded(fs);
    ReadyNames(fs.host, a.disk, source, target, staging, x);
    UnpublishedNow(a, b, target, staging);
    SourceStays(fs.host, a.disk, b.disk, source, target, staging, x);
    CopyThenVerify(fs.host, b.disk, source, staging, x);
    hide Ready, UnpublishedRun, Staged, Framed, IsExpected, ExactlyInstalled, Installable, CopyTree, ReadyToCopy, Open,
      WellFormed, Straight, Prescribes, Find, Split, Arrive, StagedOnly;
    ok := CopyInstallTree(fs, source, staging, x);
    ghost var c := Recorded(fs);
    UnpublishedStaged(a, b, c, target, staging);
    StagedNow(b, c, staging);
    StagingFilled(fs.host, b.disk, c.disk, staging);
    if !ok {
      return;
    }
    ok := ReadDisk(fs);
    UnpublishedNow(a, c, target, staging);
    UnpublishedStep(a, c, Recorded(fs), target, staging);
    if !ok {
      return;
    }
    SourceStays(fs.host, a.disk, fs.disk, source, target, staging, x);
    var v := VerifyInstalled(fs.host, fs.disk, source, staging, "install-transaction-incomplete");
    VerifiedReal(fs.host, fs.disk, source, staging, v);
    if v.Ok? {
      OneExpected(fs.host, fs.disk, source, x);
    }
    ok := v.Ok?;
  }

  /** Renaming the staging directory: refused if something is at the target. */
  lemma RenameStaging(h: Host, d: Disk, staging: Path, target: Path)
    requires WellFormed(d) && staging in d && d[staging] == Dir && staging != [] && target != []
    requires Parent(staging) == Parent(target) && Apart(staging, target)
    requires target in d ==> d[target].Link?
    ensures Rename(h, d, staging, target) == if target in d then None else Some(Move(d, staging, target))
  {
    PlacePresent(h, d, staging);
    PresentIsStraight(d, Parent(target));
    PlaceStraight(h, d, target);
    hide Move, Place;
  }

  lemma AbsentOrDead(h: Host, d: Disk, e: Disk, target: Path, staging: Path)
    requires WellFormed(d) && !Exists(h, d, target) && Unpublished(d, e, target, staging)
    ensures target in e <==> target in d
    ensures target in e ==> e[target].Link?
  {
    if target in d && !d[target].Link? {
      FindPresent(h, d, target);
    }
  }

  lemma MovedRoots(d: Disk, from: Path, to: Path)
    requires from in d && Apart(from, to)
    ensures to in Move(d, from, to) && from !in Move(d, from, to)
  {
    MoveContents(d, from, to, from);
    MoveContents(d, from, to, to);
    assert from + to[|to|..] == from;
  }

  lemma Published(h: Host, d: Disk, e: Disk, source: Path, target: Path, staging: Path, x: Expected)
    requires Ready(h, d, source, target, staging, x) && Unpublished(d, e, target, staging) && target !in e
    requires staging in e && e[staging] == Dir && ExactlyInstalled(h, e, staging, x)
    ensures var f := Move(e, staging, target);
            CrashSafe(h, d, f, target, staging, x) && ExactlyInstalled(h, f, target, x) && target in f && staging !in f
  {
    assert IsName(Last(target));
    hide IsExpected, Tame, ExactlyInstalled, Move, Find, WellFormed, SameTree, Framed, Unpublished;
    UnpublishedMoves(d, e, target, staging);
    MovedTree(e, staging, target);
    InstalledMoves(h, e, staging, Move(e, staging, target), target, x);
    MovedRoots(e, staging, target);
  }

  lemma RenameStep(fs: FileSystem, d: Disk, n: nat, staging: Path, target: Path)
    requires fs.arrivals(n) == [] && WellFormed(d) && staging in d && d[staging] == Dir && staging != [] && target != []
    requires Parent(staging) == Parent(target) && Apart(staging, target) && (target in d ==> d[target].Link?)
    ensures var (s, e) := fs.After(d, n, OpRename(staging, target));
            && (if s.Done? then target !in d && e == Move(d, staging, target) else e == d)
            && (!fs.fails(n) ==> s.Done? == (target !in d))
            && Arrive(d, fs.arrivals(n)) == d
  {
    hide *;
    RenameEffect(fs.host, d, staging, target);
    RenameStaging(fs.host, d, staging, target);
    QuietStep(fs, d, n, OpRename(staging, target));
    RenameFaults(fs, n, staging, target);
    var (s, e) := fs.After(d, n, OpRename(staging, target));
    assert s.Done? || s.Refused? || s.Broken?;
  }

  lemma RenameFaults(fs: FileSystem, n: nat, staging: Path, target: Path)
    ensures !fs.fails(n) ==> !fs.Faulty(OpRename(staging, target), n)
  {
  }

  lemma RenameEffect(h: Host, d: Disk, from: Path, to: Path)
    ensures Effect(h, d, OpRename(from, to)) == Rename(h, d, from, to)
  {
    hide Rename;
  }

  /** `fs.renameSync(stagingRoot, installRoot)`. */
  method RenameTo(fs: FileSystem, staging: Path, target: Path) returns (ok: bool)
    requires fs.Valid() && fs.Quiet() && IsPath(target)
    requires staging in fs.disk && fs.disk[staging] == Dir && staging != [] && target != []
    requires Parent(staging) == Parent(target) && Apart(staging, target)
    requires target in fs.disk ==> fs.disk[target].Link?
    modifies fs
    ensures fs.Valid() && fs.trace == old(fs.trace) + [old(fs.disk), fs.disk]
    ensures if ok then target !in old(fs.disk) && fs.disk == Move(old(fs.disk), staging, target)
            else fs.disk == old(fs.disk)
    ensures fs.Calm() ==> ok == (target !in old(fs.disk))
  {
    RenameStep(fs, fs.disk, fs.clock, staging, target);
    hide FileSystem.After, Arrive, Gain, Move, WellFormed;
    var s := fs.Do(OpRename(staging, target));
    ok := s.Done?;
  }

  /** Publishing the staged tree. */
  method PublishStaging(fs: FileSystem, ghost a: Record, ghost source: Path, target: Path, staging: Path,
                        ghost x: Expected)
    returns (ok: bool)
    requires fs.Valid() && fs.Quiet() && Ready(fs.host, a.disk, source, target, staging, x)
    requires UnpublishedRun(a, Recorded(fs), target, staging)
    requires staging in fs.disk && fs.disk[staging] == Dir && ExactlyInstalled(fs.host, fs.disk, staging, x)
    modifies fs
    ensures fs.Valid() && CrashSafeRun(fs.host, a, Recorded(fs), target, staging, x)
    ensures ok ==> target !in a.disk && target in fs.disk && staging !in fs.disk
    ensures ok ==> ExactlyInstalled(fs.host, fs.disk, target, x)
    ensures !ok ==> UnpublishedRun(a, Recorded(fs), target, staging)
    ensures fs.Calm() ==> ok == (target !in a.disk)
  {
    ghost var b := Recorded(fs);
    UnpublishedNow(a, b, target, staging);
    AbsentOrDead(fs.host, a.disk, b.disk, target, staging);
    if target !in b.disk {
      Published(fs.host, a.disk, b.disk, source, target, staging, x);
    }
    hide ExactlyInstalled, UnpublishedRun, Unpublished, CrashSafe, CrashSafeRun, Tame, IsExpected, Find, Move,
      WellFormed;
    ok := RenameTo(fs, staging, target);
    if ok {
      PublishedStep(fs.host, a, b, Recorded(fs), target, staging, x);
    } else {
      UnpublishedStep(a, b, Recorded(fs), target, staging);
      UnpublishedIsSafe(fs.host, a, Recorded(fs), target, staging, x);
    }
  }

  /** The catch block: whatever is staged goes. */
  method Abandon(fs: FileSystem, ghost a: Record, ghost target: Path, staging: Path)
    requires fs.Valid() && fs.Quiet() && WellFormed(a.disk) && staging !in a.disk && staging != []
    requires UnpublishedRun(a, Recorded(fs), target, staging)
    modifies fs
    ensures fs.Valid() && UnpublishedRun(a, Recorded(fs), target, staging)
    ensures fs.CleanupWorks() ==> Cleared(a.disk, fs.disk, target, staging)
  {
    ghost var b := Recorded(fs);
    UnpublishedNow(a, b, target, staging);
    StagedIsThere(fs.host, a.disk, b.disk, target, staging);
    hide Find, PrunedTo, Unpublished, UnpublishedRun, WellFormed;
    if Exists(fs.host, fs.disk, staging) {
      var ok := RemoveRecursively(fs, staging);
      UnpublishedPruned(a, b, Recorded(fs), target, staging);
      UnpublishedNow(a, Recorded(fs), target, staging);
    }
  }

  lemma StagedIsThere(h: Host, d: Disk, e: Disk, target: Path, staging: Path)
    requires Unpublished(d, e, target, staging) && staging !in d
    ensures staging in e ==> Exists(h, e, staging)
  {
    if staging in e {
      FindPresent(h, e, staging);
    }
  }

  /** Stage, verify, publish; on any failure, abandon. */
  method Transaction(fs: FileSystem, source: Path, target: Path, staging: Path, x: Expected) returns (ok: bool)
    requires fs.Valid() && fs.Quiet() && Ready(fs.host, fs.disk, source, target, staging, x)
    modifies fs
    ensures fs.Valid() && CrashSafeRun(fs.host, old(Recorded(fs)), Recorded(fs), target, staging, x)
    ensures ok ==> target !in old(fs.disk) && target in fs.disk && staging !in fs.disk
    ensures ok ==> ExactlyInstalled(fs.host, fs.disk, target, x)
    ensures !ok ==> UnpublishedRun(old(Recorded(fs)), Recorded(fs), target, staging)
    ensures !ok && fs.CleanupWorks() ==> Cleared(old(fs.disk), fs.disk, target, staging)
    ensures fs.Calm() ==>
              (ok <==> MakeDirs(fs.host, old(fs.disk), Parent(target)).Some? && Installable(x.mappings)
                       && target !in old(fs.disk))
  {
    ghost var a := Recorded(fs);
    assert Untouched(a, a);
    hide UnpublishedRun, Unpublished, CrashSafeRun, Cleared, ExactlyInstalled, Tame, IsExpected, Find, MakeDirs,
      Installable, Open, ReadyToCopy;
    ok := MakeStaging(fs, a, source, target, staging);
    if ok {
      ok := FillStaging(fs, a, source, target, staging, x);
      if ok {
        ok := PublishStaging(fs, a, source, target, staging, x);
      }
    }
    if !ok {
      Abandon(fs, a, target, staging);
      UnpublishedIsSafe(fs.host, a, Recorded(fs), target, staging, x);
    }
  }

  // --------------------------------------------------------------- the script

  /** The canonical install root. */
  function Target(h: Host, d: Disk, args: BoundaryArgs): Path
    requires RootsGiven(args)
  {
    Canon(h, d, args.installRoot.value)
  }

  function Source(h: Host, d: Disk, args: BoundaryArgs): Path
    requires RootsGiven(args)
  {
    Canon(h, d, args.sourceRoot.value)
  }

  /** Canonicalising the two roots once is enough. */
  predicate RootsSettled(h: Host, d: Disk, args: BoundaryArgs) {
    RootsGiven(args) ==> Settled(h, d, Source(h, d, args)) && Settled(h, d, Target(h, d, args))
  }

  /** The package at `source` is what is installed at `target`. */
  ghost predicate InstalledFrom(h: Host, d: Disk, source: Path, target: Path) {
    exists x :: IsExpected(h, d, source, x) && ExactlyInstalled(h, d, target, x)
  }

  /** The package at `source` can be installed. */
  ghost predicate CanInstall(h: Host, d: Disk, source: Path) {
    exists x :: IsExpected(h, d, source, x) && Installable(x.mappings)
  }

  /** The checks before the transaction all pass, and nothing is installed yet. */
  ghost predicate Clear(h: Host, d: Disk, args: BoundaryArgs) {
    && RootsGiven(args) && BoundaryHolds(h, d, args)
    && HasIncompleteTransaction(h, d, Target(h, d, args)) == Ok(false) && !Exists(h, d, Target(h, d, args))
  }

  /** The same, with something at the target. */
  ghost predicate Occupied(h: Host, d: Disk, args: BoundaryArgs) {
    && RootsGiven(args) && BoundaryHolds(h, d, args)
    && HasIncompleteTransaction(h, d, Target(h, d, args)) == Ok(false) && Exists(h, d, Target(h, d, args))
  }

  datatype Checked = Checked(source: Path, target: Path, x: Expected)

  /** Everything up to the question whether the target exists. */
  method Check(h: Host, d: Disk, args: BoundaryArgs) returns (r: Result<Checked>)
    requires Sound(h) && WellFormed(d) && RootsSettled(h, d, args)
    ensures r.Ok? ==> RootsGiven(args) && r.value.source == Source(h, d, args) && r.value.target == Target(h, d, args)
    ensures r.Ok? ==> IsExpected(h, d, r.value.source, r.value.x) && r.value.source in d && d[r.value.source] == Dir
    ensures r.Ok? ==> Clear(h, d, args) || Occupied(h, d, args)
    ensures r.Err? && (Clear(h, d, args) || Occupied(h, d, args)) ==>
              forall x :: !IsExpected(h, d, Source(h, d, args), x)
  {
    hide IsExpected, Canon, Settled, HasIncompleteTransaction, Find, Boundary.BoundaryHolds;
    var roots := ValidateInstallBoundary(h, d, args);
    if roots.Err? {
      return Err(roots.code);
    }
    var x := ExpectedAt(h, d, roots.value.source);
    if x.Err? {
      return Err(x.code);
    }
    TargetIsNotRoot(h, d, args);
    var incomplete := HasIncompleteTransaction(h, d, roots.value.target);
    if incomplete.Err? {
      return Err(incomplete.code);
    }
    if incomplete.value {
      return Err("install-transaction-incomplete");
    }
    return Ok(Checked(roots.value.source, roots.value.target, x.value));
  }

  lemma TargetIsNotRoot(h: Host, d: Disk, args: BoundaryArgs)
    requires RootsGiven(args) && BoundaryHolds(h, d, args)
    ensures Target(h, d, args) != [] && Apart(Target(h, d, args), Source(h, d, args))
  {
    assert ProtectedRoots(h, d, args)[0] == Source(h, d, args);
    hide Canon;
  }

  function Staging(h: Host, d: Disk, args: BoundaryArgs, suffix: string): Path
    requires RootsGiven(args) && Target(h, d, args) != []
  {
    TemporarySibling(Target(h, d, args), suffix)
  }

  lemma ClearTarget(h: Host, d: Disk, args: BoundaryArgs)
    requires Clear(h, d, args) || Occupied(h, d, args)
    ensures RootsGiven(args) && Target(h, d, args) != [] && Apart(Target(h, d, args), Source(h, d, args))
  {
    TargetIsNotRoot(h, d, args);
    hide Boundary.BoundaryHolds, Canon, HasIncompleteTransaction, Find;
  }

  /** Nothing is found at a new sibling's name. */
  lemma SiblingIsAbsent(h: Host, d: Disk, target: Path, staging: Path)
    requires WellFormed(d) && target != [] && Tame(h, d, target)
    requires staging != [] && Parent(staging) == Parent(target) && staging !in d
    ensures !Exists(h, d, staging)
  {
    var q := Parent(target);
    TameParent(h, d, target);
    if Straight(d, q) {
      FindStraight(h, d, q);
      WalkConcat(d, [], q, [Last(staging)], h.linkLimit);
      assert q + [Last(staging)] == staging;
    } else {
      var k :| 0 <= k <= |q| && q[..k] in d && d[q[..k]].Link?;
      assert staging[..k] == q[..k];
      DeadBeyond(h, d, staging, k);
    }
  }

  /** The checks establish what the transaction needs. */
  lemma ReadyToStart(h: Host, d: Disk, args: BoundaryArgs, suffix: string, x: Expected)
    requires Sound(h) && WellFormed(d) && RootsSettled(h, d, args) && Clear(h, d, args) && '/' !in suffix
    requires IsExpected(h, d, Source(h, d, args), x) && Source(h, d, args) in d && d[Source(h, d, args)] == Dir
    ensures Ready(h, d, Source(h, d, args), Target(h, d, args), TemporarySibling(Target(h, d, args), suffix), x)
    ensures !Exists(h, d, TemporarySibling(Target(h, d, args), suffix))
  {
    var target := Target(h, d, args);
    var staging := TemporarySibling(target, suffix);
    ClearTarget(h, d, args);
    CanonIsPath(h, d, args.installRoot.value);
    SettledTame(h, d, target);
    hide IsExpected, Canon, Settled, HasIncompleteTransaction, Find, Boundary.BoundaryHolds, Tame, Straight;
    SiblingIsPath(target, suffix);
    hide TemporarySibling, PartialPrefix;
    if staging in d {
      SiblingIsRecognised(h, d, target, staging);
    }
    hide WellFormed;
    SiblingIsAbsent(h, d, target, staging);
  }

  lemma OccupiedIsStraight(h: Host, d: Disk, args: BoundaryArgs)
    requires WellFormed(d) && RootsSettled(h, d, args) && Occupied(h, d, args)
    ensures Straight(d, Target(h, d, args))
  {
    SettledTame(h, d, Target(h, d, args));
    PresentIsStraight(d, Target(h, d, args));
    hide Canon, HasIncompleteTransaction, Find, Boundary.BoundaryHolds, Settled;
  }

  /** `verifyInstalled` as the question whether this package is installed there. */
  method IsInstalled(h: Host, d: Disk, source: Path, target: Path, driftCode: string) returns (ok: bool)
    requires Sound(h) && WellFormed(d) && Straight(d, source) && Straight(d, target)
    ensures ok <==> InstalledFrom(h, d, source, target)
  {
    hide IsExpected, ExactlyInstalled, Prescribes, Find;
    var v := InstalledTrees.VerifyInstalled(h, d, source, target, driftCode);
    VerifiedReal(h, d, source, target, v);
    ok := v.Ok?;
  }

  /** What a run that reaches the transaction guarantees, whatever breaks. */
  ghost predicate Transacted(h: Host, args: BoundaryArgs, suffix: string, a: Record, b: Record, r: Result<Receipt>)
    requires Clear(h, a.disk, args)
  {
    ClearTarget(h, a.disk, args);
    var target, staging := Target(h, a.disk, args), Staging(h, a.disk, args, suffix);
    && (forall x :: IsExpected(h, a.disk, Source(h, a.disk, args), x) ==> CrashSafeRun(h, a, b, target, staging, x))
    && (r.Err? ==> UnpublishedRun(a, b, target, staging))
    && (r.Ok? ==> target !in a.disk && target in b.disk && staging !in b.disk
                  && (exists x :: IsExpected(h, a.disk, Source(h, a.disk, args), x))
                  && forall x :: IsExpected(h, a.disk, Source(h, a.disk, args), x) ==>
                      ExactlyInstalled(h, b.disk, target, x))
  }

  lemma TransactedIs(h: Host, args: BoundaryArgs, suffix: string, a: Record, b: Record, r: Result<Receipt>, x: Expected)
    requires Clear(h, a.disk, args) && RootsGiven(args) && Target(h, a.disk, args) != []
    requires IsExpected(h, a.disk, Source(h, a.disk, args), x)
    requires var target, staging := Target(h, a.disk, args), Staging(h, a.disk, args, suffix);
             && CrashSafeRun(h, a, b, target, staging, x)
             && (r.Err? ==> UnpublishedRun(a, b, target, staging))
             && (r.Ok? ==>
                   && target !in a.disk && target in b.disk && staging !in b.disk
                   && ExactlyInstalled(h, b.disk, target, x))
    ensures Transacted(h, args, suffix, a, b, r)
  {
    hide IsExpected, ExactlyInstalled, CrashSafeRun, UnpublishedRun, Clear, Canon, TemporarySibling;
    OneExpected(h, a.disk, Source(h, a.disk, args), x);
  }

  lemma NothingTransacted(h: Host, args: BoundaryArgs, suffix: string, a: Record, b: Record, code: string)
    requires WellFormed(a.disk) && Clear(h, a.disk, args) && Untouched(a, b)
    ensures Transacted(h, args, suffix, a, b, Err(code))
    ensures RootsGiven(args) && Target(h, a.disk, args) != []
    ensures Staging(h, a.disk, args, suffix) !in b.disk ==>
              Cleared(a.disk, b.disk, Target(h, a.disk, args), Staging(h, a.disk, args, suffix))
  {
    ClearTarget(h, a.disk, args);
    var target, staging := Target(h, a.disk, args), Staging(h, a.disk, args, suffix);
    UntouchedIsUnpublished(a, b, target, staging);
    hide IsExpected, ExactlyInstalled, CrashSafeRun, UnpublishedRun, Clear, Canon, Untouched;
    UnpublishedNow(a, b, target, staging);
    forall x ensures CrashSafeRun(h, a, b, target, staging, x) {
      UnpublishedIsSafe(h, a, b, target, staging, x);
    }
  }

  lemma ClearHasNoStaging(h: Host, d: Disk, args: BoundaryArgs, suffix: string)
    requires WellFormed(d) && Clear(h, d, args) && '/' !in suffix
    ensures RootsGiven(args) && Target(h, d, args) != [] && Staging(h, d, args, suffix) !in d
  {
    ClearTarget(h, d, args);
    CanonIsPath(h, d, args.installRoot.value);
    var target := Target(h, d, args);
    hide Canon, HasIncompleteTransaction, Find, Boundary.BoundaryHolds, TemporarySibling, PartialPrefix;
    SiblingIsPath(target, suffix);
    if TemporarySibling(target, suffix) in d {
      SiblingIsRecognised(h, d, target, TemporarySibling(target, suffix));
    }
  }

  lemma CanInstallIs(h: Host, d: Disk, source: Path, x: Expected)
    requires IsExpected(h, d, source, x)
    ensures CanInstall(h, d, source) <==> Installable(x.mappings)
    ensures forall t :: InstalledFrom(h, d, source, t) <==> ExactlyInstalled(h, d, t, x)
  {
    OneExpected(h, d, source, x);
    hide IsExpected, Installable, ExactlyInstalled;
  }

  ghost predicate PrescribesNothing(h: Host, d: Disk, source: Path) {
    forall x :: !IsExpected(h, d, source, x)
  }

  lemma PrescribesSomething(h: Host, d: Disk, source: Path, x: Expected)
    requires IsExpected(h, d, source, x)
    ensures !PrescribesNothing(h, d, source)
  {
    hide IsExpected;
  }

  lemma NothingPrescribed(h: Host, d: Disk, source: Path)
    requires forall x :: !IsExpected(h, d, source, x)
    ensures !CanInstall(h, d, source) && forall t :: !InstalledFrom(h, d, source, t)
  {
    hide IsExpected, Installable, ExactlyInstalled;
  }

  /** The installation can be made: nothing is at the target, not even a dead
      link, the directory it goes into can be, and the package is installable. */
  ghost predicate Possible(h: Host, d: Disk, args: BoundaryArgs) {
    && Clear(h, d, args)
    && Target(h, d, args) !in d && MakeDirs(h, d, Parent(Target(h, d, args))).Some?
    && CanInstall(h, d, Source(h, d, args))
  }

  /** The part of the script that may change the disk. */
  method Start(fs: FileSystem, args: BoundaryArgs, suffix: string, c: Checked) returns (r: Result<Receipt>)
    requires fs.Valid() && fs.Quiet() && '/' !in suffix && RootsSettled(fs.host, fs.disk, args)
    requires Clear(fs.host, fs.disk, args)
    requires c.source == Source(fs.host, fs.disk, args) && c.target == Target(fs.host, fs.disk, args)
    requires IsExpected(fs.host, fs.disk, c.source, c.x) && c.source in fs.disk && fs.disk[c.source] == Dir
    modifies fs
    ensures fs.Valid() && r != Ok(AlreadyCurrent)
    ensures Transacted(fs.host, args, suffix, old(Recorded(fs)), Recorded(fs), r)
    ensures RootsGiven(args) && c.target != []
    ensures r.Err? && fs.CleanupWorks() ==> Cleared(old(fs.disk), fs.disk, c.target, TemporarySibling(c.target, suffix))
    ensures fs.Calm() ==> (r == Ok(Installed) <==> Possible(fs.host, old(fs.disk), args))
  {
    ghost var a := Recorded(fs);
    ClearTarget(fs.host, a.disk, args);
    ReadyToStart(fs.host, a.disk, args, suffix, c.x);
    CanInstallIs(fs.host, a.disk, c.source, c.x);
    hide IsExpected, Canon, RootsSettled, Find, Ready, ExactlyInstalled, CrashSafeRun, UnpublishedRun, Cleared,
      Transacted, CanInstall, Installable, Clear, TemporarySibling;
    var staging := TemporarySibling(c.target, suffix);
    if Exists(fs.host, fs.disk, staging) {
      return Err("install-transaction-incomplete");
    }
    var ok := Transaction(fs, c.source, c.target, staging, c.x);
    r := if ok then Ok(Installed) else Err("install-failed");
    TransactedIs(fs.host, args, suffix, a, Recorded(fs), r, c.x);
  }

  lemma SafeAfter(h: Host, a: Record, b: Record, c: Record, target: Path, staging: Path, x: Expected)
    requires Untouched(a, b) && WellFormed(a.disk) && CrashSafeRun(h, b, c, target, staging, x)
    ensures CrashSafeRun(h, a, c, target, staging, x)
  {
    Nothing(a.disk, target, staging);
    hide Framed, ExactlyInstalled, WellFormed;
    assert CrashSafe(h, a.disk, a.disk, target, staging, x);
    hide CrashSafe;
    forall k | |a.trace| <= k < |c.trace| ensures CrashSafe(h, a.disk, c.trace[k], target, staging, x) {
      if k < |b.trace| {
        assert c.trace[k] == b.trace[k];
      }
    }
  }

  lemma TransactedAfter(h: Host, args: BoundaryArgs, suffix: string, a: Record, b: Record, c: Record,
                        r: Result<Receipt>)
    requires Untouched(a, b) && WellFormed(a.disk) && Clear(h, a.disk, args) && Transacted(h, args, suffix, b, c, r)
    ensures Transacted(h, args, suffix, a, c, r)
  {
    hide IsExpected, ExactlyInstalled, CrashSafeRun, UnpublishedRun, Clear, Canon, TemporarySibling, Untouched,
      WellFormed, RootsGiven, Given, Staging;
    ClearTarget(h, a.disk, args);
    var source, target, staging := Source(h, a.disk, args), Target(h, a.disk, args), Staging(h, a.disk, args, suffix);
    SameDisk(a, b);
    forall x | IsExpected(h, a.disk, source, x) ensures CrashSafeRun(h, a, c, target, staging, x) {
      SafeAfter(h, a, b, c, target, staging, x);
    }
    if r.Err? {
      UnpublishedAfter(a, b, c, target, staging);
    }
  }

  lemma SameDisk(a: Record, b: Record)
    requires Untouched(a, b)
    ensures a.disk == b.disk
  {
  }

  lemma RefusedMeans(h: Host, d: Disk, args: BoundaryArgs)
    requires Clear(h, d, args) || Occupied(h, d, args) ==> forall x :: !IsExpected(h, d, Source(h, d, args), x)
    ensures !Possible(h, d, args)
    ensures Occupied(h, d, args) ==> !InstalledFrom(h, d, Source(h, d, args), Target(h, d, args))
  {
    hide IsExpected, Canon, Find, ExactlyInstalled, Boundary.BoundaryHolds, HasIncompleteTransaction;
    if Clear(h, d, args) || Occupied(h, d, args) {
      NothingPrescribed(h, d, Source(h, d, args));
    }
  }

  lemma ClearOrOccupied(h: Host, d: Disk, args: BoundaryArgs)
    requires Clear(h, d, args) || Occupied(h, d, args)
    ensures Occupied(h, d, args) <==> Exists(h, d, Target(h, d, args))
    ensures Clear(h, d, args) <==> !Occupied(h, d, args)
  {
    hide Canon, Find, Boundary.BoundaryHolds, HasIncompleteTransaction;
  }

  /** Something is at the target: is it this installation? */
  method Current(fs: FileSystem, args: BoundaryArgs, c: Checked) returns (r: Result<Receipt>)
    requires fs.Valid() && RootsSettled(fs.host, fs.disk, args) && Occupied(fs.host, fs.disk, args)
    requires c.source == Source(fs.host, fs.disk, args) && c.target == Target(fs.host, fs.disk, args)
    requires c.source in fs.disk && fs.disk[c.source] == Dir
    ensures r != Ok(Installed)
    ensures r == Ok(AlreadyCurrent) <==> InstalledFrom(fs.host, fs.disk, c.source, c.target)
  {
    hide RootsSettled, Canon, Occupied, InstalledFrom, Straight, WellFormed, IsExpected;
    OccupiedIsStraight(fs.host, fs.disk, args);
    PresentIsStraight(fs.disk, c.source);
    var ok := IsInstalled(fs.host, fs.disk, c.source, c.target, "install-target-ownership-drift");
    return if ok then Ok(AlreadyCurrent) else Err("install-target-ownership-drift");
  }

  /** `install()`. Whatever breaks, and wherever the run stops: the disk only gains
      directories on the way to the install root, a staging tree beside it, and the
      install root, which is complete as soon as it is there. */
  method Install(fs: FileSystem, args: BoundaryArgs, suffix: string) returns (r: Result<Receipt>)
    requires fs.Valid() && fs.Quiet() && '/' !in suffix && RootsSettled(fs.host, fs.disk, args)
    modifies fs
    ensures fs.Valid()
    ensures !Clear(fs.host, old(fs.disk), args) ==> Untouched(old(Recorded(fs)), Recorded(fs)) && r != Ok(Installed)
    ensures RootsGiven(args) && PrescribesNothing(fs.host, old(fs.disk), Source(fs.host, old(fs.disk), args)) ==>
              Untouched(old(Recorded(fs)), Recorded(fs)) && r.Err?
    ensures r == Ok(AlreadyCurrent) ==>
              && Occupied(fs.host, old(fs.disk), args)
              && InstalledFrom(fs.host, old(fs.disk), Source(fs.host, old(fs.disk), args),
                  Target(fs.host, old(fs.disk), args))
    ensures Clear(fs.host, old(fs.disk), args) ==>
              && Transacted(fs.host, args, suffix, old(Recorded(fs)), Recorded(fs), r)
              && RootsGiven(args) && Target(fs.host, old(fs.disk), args) != []
              && (r.Err? && fs.CleanupWorks() ==>
                    Cleared(old(fs.disk), fs.disk, Target(fs.host, old(fs.disk), args),
                        Staging(fs.host, old(fs.disk), args, suffix)))
    ensures fs.Calm() ==> (r == Ok(Installed) <==> Possible(fs.host, old(fs.disk), args))
    ensures fs.Calm() && Occupied(fs.host, old(fs.disk), args) ==>
              (r == Ok(AlreadyCurrent) <==>
                 InstalledFrom(fs.host, old(fs.disk), Source(fs.host, old(fs.disk), args),
                     Target(fs.host, old(fs.disk), args)))
  {
    ghost var a := Recorded(fs);
    if Clear(fs.host, a.disk, args) {
      ClearHasNoStaging(fs.host, a.disk, args, suffix);
    }
    hide IsExpected, Canon, RootsSettled, Find, ExactlyInstalled, Transacted, CanInstall, Clear, Occupied, Cleared,
      InstalledFrom, TemporarySibling, Untouched, PrescribesNothing;
    var ok := ReadDisk(fs);
    ghost var b := Recorded(fs);
    SameDisk(a, b);
    var c := Check(fs.host, fs.disk, args);
    if !ok || c.Err? {
      r := Err(if c.Err? then c.code else "EIO");
      if Clear(fs.host, a.disk, args) {
        NothingTransacted(fs.host, args, suffix, a, b, r.code);
      }
      if c.Err? {
        RefusedMeans(fs.host, a.disk, args);
      }
      return;
    }
    CanInstallIs(fs.host, a.disk, c.value.source, c.value.x);
    PrescribesSomething(fs.host, a.disk, c.value.source, c.value.x);
    ClearOrOccupied(fs.host, a.disk, args);
    if Exists(fs.host, fs.disk, c.value.target) {
      r := Current(fs, args, c.value);
    } else {
      r := Start(fs, args, suffix, c.value);
      TransactedAfter(fs.host, args, suffix, a, b, Recorded(fs), r);
    }
  }
}
