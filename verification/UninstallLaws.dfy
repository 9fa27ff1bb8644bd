/** What removal means: it undoes an installation, and a partly removed one is
    refused by both scripts. */
module UninstallLaws {
  import opened Outcome
  import opened Paths
  import opened Hosts
  import opened Disks
  import opened PathLookup
  import opened Listing
  import opened Directories
  import opened Boundary
  import opened NamedPlaces
  import opened Mappings
  import opened SourceFrame
  import opened InstalledTrees
  import opened Transactions
  import opened Installer
  import opened InstallLaws
  import opened Uninstaller

  /** Removing what an installation published leaves the disk as it was, but for
      directories on the way to the install root. */
  lemma UninstallUndoesInstall(d: Disk, e: Disk, target: Path, staging: Path)
    requires WellFormed(d) && Framed(d, e, target, staging) && staging !in e && target !in d && target != []
    requires !(target <= staging)
    ensures Cleared(d, RemoveTree(e, target), target, staging)
    ensures forall q :: q in RemoveTree(e, target) && q !in d ==> q <= Parent(target) && e[q] == Dir
  {
    var f := RemoveTree(e, target);
    RemoveTreeWellFormed(e, target);
    forall q | q in d ensures q in f && f[q] == d[q] {
      if target <= q {
        PrefixPresent(d, q, target);
      }
    }
    forall q | q in f && q !in d ensures q <= Parent(target) && f[q] == Dir {
      if staging <= q {
        PrefixPresent(e, q, staging);
      }
    }
  }

  /** The uninstaller accepts what the installer made, with the same arguments and
      over an otherwise unchanged disk, exactly if the overlap test still passes. */
  lemma InstalledIsRemovable(h: Host, d: Disk, args: BoundaryArgs, suffix: string, e: Disk, x: Expected)
    requires Sound(h) && WellFormed(d) && Clear(h, d, args) && RootsGiven(args) && '/' !in suffix
    requires Target(h, d, args) != [] && Framed(d, e, Target(h, d, args), Staging(h, d, args, suffix))
    requires Staging(h, d, args, suffix) !in e && ExactlyInstalled(h, e, Target(h, d, args), x)
    requires IsExpected(h, d, Source(h, d, args), x) && Source(h, d, args) in d && d[Source(h, d, args)] == Dir
    ensures RootsSettled(h, e, args) && (Removable(h, e, args) <==> BoundaryHolds(h, e, args))
  {
    hide *;
    SecondInstall(h, d, args, suffix, e, x);
    RemovableIs(h, e, args);
  }

  lemma RemovableIs(h: Host, d: Disk, args: BoundaryArgs)
    requires RootsGiven(args)
    ensures Removable(h, d, args) <==>
              BoundaryHolds(h, d, args) && InstalledFrom(h, d, Source(h, d, args), Target(h, d, args))
  {
    hide Canon, Boundary.BoundaryHolds, InstalledFrom;
  }

  // ------------------------------------------------------- partial removal

  /** A lookup that entered a link-free tree does not leave it. */
  lemma {:induction false} WalkStaysBelow(d: Disk, root: Path, at: Path, todo: Path, links: nat)
    requires NoLinks(d, root) && root < at && Walk(d, at, todo, links).Some?
    ensures root < Walk(d, at, todo, links).value.at
    decreases |todo|
  {
    if todo != [] {
      var next := at + [todo[0]];
      assert root < next;
      WalkStaysBelow(d, root, next, todo[1..], links);
    }
  }

  /** Removing nodes below a link-free directory keeps every lookup that ends
      elsewhere. */
  lemma {:induction false} WalkSurvives(d: Disk, e: Disk, root: Path, at: Path, todo: Path, links: nat)
    requires Pruned(d, e, root) && root in e && NoLinks(d, root) && at in d && !(root < at)
    requires Walk(d, at, todo, links).Some? && !(root < Walk(d, at, todo, links).value.at)
    ensures Walk(e, at, todo, links) == Walk(d, at, todo, links)
    decreases links, |todo|
  {
    hide Pruned, NoLinks;
    if todo != [] {
      var next := at + [todo[0]];
      RootIsThere(d, e, root);
      NextSurvives(d, e, root, at, todo, links);
      if d[next].Link? {
        WalkSurvives(d, e, root, [], d[next].dest + todo[1..], links - 1);
      } else {
        WalkSurvives(d, e, root, next, todo[1..], links);
      }
    }
  }

  lemma NextSurvives(d: Disk, e: Disk, root: Path, at: Path, todo: Path, links: nat)
    requires Pruned(d, e, root) && root in e && NoLinks(d, root) && at in d && !(root < at) && todo != []
    requires Walk(d, at, todo, links).Some? && !(root < Walk(d, at, todo, links).value.at)
    ensures var next := at + [todo[0]];
            at in e && e[at] == d[at] && next in d && next in e && e[next] == d[next] && !(root < next)
  {
    var next := at + [todo[0]];
    if root < next {
      WalkStaysBelow(d, root, next, todo[1..], links);
    }
    hide Walk;
    NodeSurvives(d, e, root, at);
    NodeSurvives(d, e, root, next);
  }

  lemma NodeSurvives(d: Disk, e: Disk, root: Path, q: Path)
    requires Pruned(d, e, root) && root in e && q in d
    ensures !(root < q) ==> q in e && e[q] == d[q]
  {
    assert root <= q && !(root < q) ==> q == root;
  }

  lemma RootIsThere(d: Disk, e: Disk, root: Path)
    requires Pruned(d, e, root)
    ensures [] in d && !(root < [])
  {
  }

  lemma FindSurvives(h: Host, d: Disk, e: Disk, root: Path, p: Path)
    requires Pruned(d, e, root) && root in e && NoLinks(d, root)
    requires Find(h, d, p).Some? && !(root < Find(h, d, p).value)
    ensures Find(h, e, p) == Find(h, d, p)
  {
    RootIsThere(d, e, root);
    WalkSurvives(d, e, root, [], p, h.linkLimit);
  }

  /** A canonical path outside the tree stays the canonical path. */
  lemma CanonicalSurvives(h: Host, d: Disk, e: Disk, root: Path, p: Path)
    requires WellFormed(d) && Pruned(d, e, root) && root in e && NoLinks(d, root)
    requires !(root < CanonicalNames(h, d, p))
    ensures CanonicalNames(h, e, p) == CanonicalNames(h, d, p)
  {
    var k := ExistingLength(h, d, p);
    ExistingLengthIs(h, d, p);
    var base := Find(h, d, p[..k]).value;
    assert base <= base + p[k..];
    hide Find, ExistingLength;
    FindSurvives(h, d, e, root, p[..k]);
    if k < |p| && Exists(h, e, p[..k + 1]) {
      FindGrows(h, e, d, p[..k + 1]);
    }
    ExistingLengthUnique(h, e, p, k);
    hide Pruned, NoLinks;
  }

  lemma CanonSurvives(h: Host, d: Disk, e: Disk, root: Path, s: string)
    requires WellFormed(d) && Pruned(d, e, root) && root in e && NoLinks(d, root) && !(root < Canon(h, d, s))
    ensures Canon(h, e, s) == Canon(h, d, s)
  {
    hide WellFormed, Pruned, NoLinks, CanonicalNames, Segs, Resolve;
    CanonicalSurvives(h, d, e, root, Segs(Resolve(h.cwd, s)));
  }

  lemma BoundaryApart(h: Host, d: Disk, args: BoundaryArgs)
    requires RootsGiven(args) && BoundaryHolds(h, d, args)
    ensures Apart(Target(h, d, args), Source(h, d, args))
    ensures forall i :: 0 <= i < |args.protectedRoots| ==>
              Apart(Target(h, d, args), Canon(h, d, args.protectedRoots[i]))
  {
    hide Canon, Apart;
    assert ProtectedRoots(h, d, args)[0] == Source(h, d, args);
    forall i | 0 <= i < |args.protectedRoots| ensures Apart(Target(h, d, args), Canon(h, d, args.protectedRoots[i])) {
      assert ProtectedRoots(h, d, args)[i + 1] == Canon(h, d, args.protectedRoots[i]);
    }
  }

  /** The roots are the same while nodes below the target go. */
  lemma RootsSurvive(h: Host, d: Disk, e: Disk, args: BoundaryArgs)
    requires WellFormed(d) && RootsGiven(args) && BoundaryHolds(h, d, args)
    requires Pruned(d, e, Target(h, d, args)) && Target(h, d, args) in e && NoLinks(d, Target(h, d, args))
    ensures Source(h, e, args) == Source(h, d, args) && Target(h, e, args) == Target(h, d, args)
    ensures BoundaryHolds(h, e, args)
  {
    var target := Target(h, d, args);
    BoundaryApart(h, d, args);
    hide WellFormed, Pruned, NoLinks, Boundary.BoundaryHolds, Canon;
    CanonSurvives(h, d, e, target, args.sourceRoot.value);
    CanonSurvives(h, d, e, target, args.installRoot.value);
    forall i | 0 <= i < |args.protectedRoots|
      ensures Canon(h, e, args.protectedRoots[i]) == Canon(h, d, args.protectedRoots[i])
    {
      CanonSurvives(h, d, e, target, args.protectedRoots[i]);
    }
    BoundaryStays(h, d, e, args);
  }

  lemma BoundaryStays(h: Host, d: Disk, e: Disk, args: BoundaryArgs)
    requires RootsGiven(args) && BoundaryHolds(h, d, args)
    requires Source(h, e, args) == Source(h, d, args) && Target(h, e, args) == Target(h, d, args)
    requires forall i :: 0 <= i < |args.protectedRoots| ==>
               Canon(h, e, args.protectedRoots[i]) == Canon(h, d, args.protectedRoots[i])
    ensures BoundaryHolds(h, e, args)
  {
    hide Canon;
    forall i | 0 <= i <= |args.protectedRoots| ensures ProtectedRoots(h, e, args)[i] == ProtectedRoots(h, d, args)[i] {
    }
    hide ProtectedRoots, Apart;
  }

  /** A file of the installation is gone. */
  ghost predicate FileGone(d: Disk, e: Disk, root: Path) {
    exists r :: IsFileBelow(d, root, r) && root + r !in e
  }

  lemma OneInstallation(h: Host, d: Disk, e: Disk, target: Path, x: Expected)
    requires ExactlyInstalled(h, d, target, x) && FileGone(d, e, target)
    ensures !ExactlyInstalled(h, e, target, x)
  {
    hide Owned, IsTargetPath, Delivered, NoLinks, OWNERSHIP_FILE;
    var r :| IsFileBelow(d, target, r) && target + r !in e;
    assert !IsFileBelow(e, target, r);
  }

  lemma PrunedKeepsSource(d: Disk, e: Disk, target: Path, source: Path)
    requires Pruned(d, e, target) && Apart(target, source)
    ensures SameBelow(d, e, source)
  {
    forall q | source <= q && q in d ensures q in e {
    }
  }

  /** An installation that has lost files, while its directory remains, is neither
      removed by `uninstall` nor accepted or completed by `install`. */
  lemma PartlyRemovedIsRefused(h: Host, d: Disk, args: BoundaryArgs, e: Disk)
    requires Sound(h) && WellFormed(d) && RootsSettled(h, d, args) && Removable(h, d, args) && RootsGiven(args)
    requires Pruned(d, e, Target(h, d, args)) && Target(h, d, args) in e && FileGone(d, e, Target(h, d, args))
    ensures Target(h, e, args) == Target(h, d, args) && Source(h, e, args) == Source(h, d, args)
    ensures !InstalledFrom(h, e, Source(h, e, args), Target(h, e, args))
    ensures RootsSettled(h, e, args) && !Removable(h, e, args) && !Clear(h, e, args)
  {
    var source, target := Source(h, d, args), Target(h, d, args);
    TargetIsNotRoot(h, d, args);
    hide IsExpected, ExactlyInstalled, Canon, Find, Settled, Straight, Boundary.BoundaryHolds, HasIncompleteTransaction,
      Installer.Clear;
    var x :| IsExpected(h, d, source, x) && ExactlyInstalled(h, d, target, x);
    SourceIsThere(h, d, source, x);
    NoLongerInstalled(h, d, e, source, target, x);
    InstalledIsDirectory(h, d, target, x);
    RootsSurvive(h, d, e, args);
    StillOccupied(h, d, e, args);
    PrunedKeepsSource(d, e, target, source);
    PresentAreSettled(h, e, args);
  }

  lemma PresentAreSettled(h: Host, d: Disk, args: BoundaryArgs)
    requires WellFormed(d) && RootsGiven(args)
    requires Source(h, d, args) in d && d[Source(h, d, args)] == Dir
    requires Target(h, d, args) in d && d[Target(h, d, args)] == Dir
    ensures RootsSettled(h, d, args)
  {
    hide Canon, WellFormed, Straight;
    PresentIsStraight(d, Source(h, d, args));
    PresentIsStraight(d, Target(h, d, args));
    StraightIsCanonical(h, d, Source(h, d, args));
    StraightIsCanonical(h, d, Target(h, d, args));
  }

  lemma NoLongerInstalled(h: Host, d: Disk, e: Disk, source: Path, target: Path, x: Expected)
    requires Sound(h) && WellFormed(d) && IsExpected(h, d, source, x) && ExactlyInstalled(h, d, target, x)
    requires source in d && d[source] == Dir && Apart(target, source)
    requires Pruned(d, e, target) && FileGone(d, e, target)
    ensures !InstalledFrom(h, e, source, target)
  {
    PrunedKeepsSource(d, e, target, source);
    OneInstallation(h, d, e, target, x);
    assert WellFormed(e);
    hide IsExpected, ExactlyInstalled, SameBelow, WellFormed, Pruned, FileGone;
    ExpectedSame(h, d, e, source, x);
    OneExpected(h, e, source, x);
  }

  lemma StillOccupied(h: Host, d: Disk, e: Disk, args: BoundaryArgs)
    requires WellFormed(e) && RootsGiven(args) && Target(h, e, args) in e && !e[Target(h, e, args)].Link?
    ensures !Clear(h, e, args)
  {
    FindPresent(h, e, Target(h, e, args));
    hide Canon, Find, Boundary.BoundaryHolds, HasIncompleteTransaction, WellFormed;
  }
}
