/** `uninstall.mjs`: verify exactly, then remove. */
module Uninstaller {
  import opened Outcome
  import opened Paths
  import opened Hosts
  import opened Disks
  import opened PathLookup
  import opened FileSystems
  import opened Directories
  import opened Boundary
  import opened Mappings
  import opened InstalledTrees
  import opened Transactions
  import opened Installer
  import opened InstallLaws

  /** There is an installation of the package to remove. */
  ghost predicate Removable(h: Host, d: Disk, args: BoundaryArgs) {
    RootsGiven(args) && BoundaryHolds(h, d, args) && InstalledFrom(h, d, Source(h, d, args), Target(h, d, args))
  }

  /** `verifyInstalled` from a settled source. */
  method VerifyAt(h: Host, d: Disk, source: Path, target: Path, driftCode: string) returns (ok: bool)
    requires Sound(h) && WellFormed(d) && Settled(h, d, source) && Straight(d, target)
    ensures ok <==> InstalledFrom(h, d, source, target)
  {
    hide Find, Settled, Straight, IsExpected, ExactlyInstalled, WellFormed;
    SettledTame(h, d, source);
    if !Exists(h, d, source) {
      MissingPrescribesNothing(h, d, source);
      return false;
    }
    PresentIsStraight(d, source);
    hide InstalledFrom;
    ok := IsInstalled(h, d, source, target, driftCode);
  }

  lemma InstalledExists(h: Host, d: Disk, source: Path, target: Path)
    requires WellFormed(d) && InstalledFrom(h, d, source, target)
    ensures target in d && d[target] == Dir && Exists(h, d, target)
  {
    hide IsExpected, ExactlyInstalled, Find;
    var x :| IsExpected(h, d, source, x) && ExactlyInstalled(h, d, target, x);
    InstalledIsDirectory(h, d, target, x);
    FindPresent(h, d, target);
  }

  lemma ExistingIsStraight(h: Host, d: Disk, target: Path)
    requires WellFormed(d) && Settled(h, d, target) && Exists(h, d, target)
    ensures Straight(d, target)
  {
    SettledTame(h, d, target);
    PresentIsStraight(d, target);
    hide Find, Settled;
  }

  lemma UntouchedIsPruned(a: Record, b: Record, p: Path)
    requires WellFormed(a.disk) && Untouched(a, b) && b.foreign == a.foreign
    ensures PrunedTo(a, b, p)
  {
  }

  /** `uninstall()`: it removes the tree it has just verified, and nothing else.
      Where the removal breaks, the rest of the tree stays. */
  method Uninstall(fs: FileSystem, args: BoundaryArgs) returns (r: Result<bool>)
    requires fs.Valid() && fs.Quiet() && RootsSettled(fs.host, fs.disk, args)
    modifies fs
    ensures fs.Valid()
    ensures !Removable(fs.host, old(fs.disk), args) ==> r.Err? && fs.disk == old(fs.disk) && fs.trace == old(fs.trace)
    ensures RootsGiven(args) ==> PrunedTo(old(Recorded(fs)), Recorded(fs), Target(fs.host, old(fs.disk), args))
    ensures r.Ok? ==> RootsGiven(args) && fs.disk == RemoveTree(old(fs.disk), Target(fs.host, old(fs.disk), args))
    ensures fs.CleanupWorks() ==> (r.Ok? <==> Removable(fs.host, old(fs.disk), args))
  {
    ghost var a := Recorded(fs);
    hide Canon, Boundary.BoundaryHolds, InstalledFrom, Find, WellFormed, PrunedTo, Settled, Straight;
    if RootsGiven(args) {
      UntouchedIsPruned(a, a, Target(fs.host, fs.disk, args));
    }
    var roots := ValidateInstallBoundary(fs.host, fs.disk, args);
    if roots.Err? {
      return Err(roots.code);
    }
    var source, target := roots.value.source, roots.value.target;
    TargetIsNotRoot(fs.host, fs.disk, args);
    if InstalledFrom(fs.host, fs.disk, source, target) {
      InstalledExists(fs.host, fs.disk, source, target);
    }
    if !Exists(fs.host, fs.disk, target) {
      return Err("install-target-missing");
    }
    ExistingIsStraight(fs.host, fs.disk, target);
    var installed := VerifyAt(fs.host, fs.disk, source, target, "uninstall-target-ownership-drift");
    if !installed {
      return Err("uninstall-target-ownership-drift");
    }
    var ok := RemoveRecursively(fs, target);
    return if ok then Ok(true) else Err("uninstall-failed");
  }
}
