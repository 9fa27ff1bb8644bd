/** What a run of the installer means for protected roots, for the next run after a
    crash, and for a second installation. */
module InstallLaws {
  import opened Outcome
  import opened Paths
  import opened Hosts
  import opened Json
  import opened Disks
  import opened Directories
  import opened PathLookup
  import opened Listing
  import opened Boundary
  import opened NamedPlaces
  import LinkLimits
  import FileSystems
  import opened Mappings
  import opened MappingLaw
  import opened SourceFrame
  import opened InstalledTrees
  import opened CopyTrees
  import opened CopyVerification
  import opened Transactions
  import opened Installer

  // -------------------------------------------- canonical paths stay the same

  /** Past a point that a lookup reached, a straight way is followed name by name. */
  lemma WalkBeyond(d: Disk, e: Disk, a: Path, rest: Path, base: Path, limit: nat, links: nat)
    requires WellFormed(e) && Within(d, e) && Walk(d, [], a, limit) == Some(Found(base, links))
    requires base in d && Straight(e, base + rest)
    ensures Walk(e, [], a + rest, limit) == if base + rest in e then Some(Found(base + rest, links)) else None
  {
    WalkGrows(d, e, [], a, limit);
    WalkConcat(e, [], a, rest, limit);
    var p := base + rest;
    assert p[..|base|] == base && p[|base|..] == rest;
    hide Walk, Straight, WellFormed;
    WalkStraight(e, p, |base|, links);
  }

  /** How far the canonical path of `p` exists, seen from `p`. */
  lemma BeyondStart(h: Host, d: Disk, e: Disk, p: Path, j: nat)
    requires WellFormed(d) && WellFormed(e) && Within(d, e) && Straight(e, CanonicalNames(h, d, p))
    requires ExistingLength(h, d, p) <= j <= |p|
    ensures var c := CanonicalNames(h, d, p);
            var n := |c| - |p| + j;
            && |c| >= |p| - j && Find(h, e, p[..j]) == (if c[..n] in e then Some(c[..n]) else None)
  {
    hide Walk, Straight, WellFormed, CanonicalNames, ExistingLength, Within;
    var k := ExistingLength(h, d, p);
    var c := CanonicalNames(h, d, p);
    var w := StartWalk(h, d, p);
    SplitCanonical(p, w.at, k, j);
    StraightPrefix(e, c, |w.at| + j - k);
    WalkBeyond(d, e, p[..k], p[k..j], w.at, h.linkLimit, w.links);
  }

  lemma SplitCanonical(p: Path, base: Path, k: nat, j: nat)
    requires k <= j <= |p|
    ensures p[..k] + p[k..j] == p[..j]
    ensures (base + p[k..])[..|base| + j - k] == base + p[k..j] && (base + p[k..])[|base| + j - k..] == p[j..]
  {
  }

  /** A canonical path without a link stays the canonical path while files and
      directories are added. */
  lemma CanonicalStays(h: Host, d: Disk, e: Disk, p: Path)
    requires WellFormed(d) && WellFormed(e) && Extends(d, e) && Straight(d, CanonicalNames(h, d, p))
    ensures CanonicalNames(h, e, p) == CanonicalNames(h, d, p)
    ensures Straight(e, CanonicalNames(h, d, p))
  {
    var c := CanonicalNames(h, d, p);
    var m := ExistingLength(h, e, p);
    hide Find, Straight, WellFormed, ExistingLength;
    StraightStays(d, e, c);
    ExistsLonger(h, d, e, p);
    BeyondStart(h, d, e, p, m);
    CanonicalTail(h, d, p, m);
    var n := |c| - |p| + m;
    assert c[..n] + c[n..] == c;
  }

  lemma ExistsLonger(h: Host, d: Disk, e: Disk, p: Path)
    requires WellFormed(d) && WellFormed(e) && Within(d, e)
    ensures ExistingLength(h, d, p) <= ExistingLength(h, e, p)
  {
    ExistingLengthIs(h, d, p);
    ExistingLengthIs(h, e, p);
    FindGrows(h, d, e, p[..ExistingLength(h, d, p)]);
    hide Find, WellFormed, Within;
  }

  lemma CanonicalTail(h: Host, d: Disk, p: Path, m: nat)
    requires WellFormed(d) && ExistingLength(h, d, p) <= m <= |p|
    ensures var c := CanonicalNames(h, d, p); |c| >= |p| - m && c[|c| - |p| + m..] == p[m..]
  {
    hide Find, WellFormed, CanonicalNames, ExistingLength, Walk;
    var w := StartWalk(h, d, p);
    SplitCanonical(p, w.at, ExistingLength(h, d, p), m);
  }

  /** No link, not even a dead one, is on the way to a root. */
  ghost predicate RootsStraight(h: Host, d: Disk, args: BoundaryArgs)
    requires RootsGiven(args)
  {
    && Straight(d, Source(h, d, args)) && Straight(d, Target(h, d, args))
    && forall i :: 0 <= i < |args.protectedRoots| ==> Straight(d, Canon(h, d, args.protectedRoots[i]))
  }

  lemma StraightPairSettled(h: Host, d: Disk, args: BoundaryArgs)
    requires WellFormed(d) && RootsGiven(args) && Straight(d, Source(h, d, args)) && Straight(d, Target(h, d, args))
    ensures RootsSettled(h, d, args)
  {
    hide Canon, WellFormed, Straight;
    StraightIsCanonical(h, d, Source(h, d, args));
    StraightIsCanonical(h, d, Target(h, d, args));
  }

  /** The same arguments name the same roots in every later state. */
  lemma RootsStay(h: Host, d: Disk, e: Disk, args: BoundaryArgs)
    requires WellFormed(d) && WellFormed(e) && Extends(d, e) && RootsGiven(args) && RootsStraight(h, d, args)
    ensures Source(h, e, args) == Source(h, d, args) && Target(h, e, args) == Target(h, d, args)
    ensures RootsStraight(h, e, args) && (BoundaryHolds(h, e, args) <==> BoundaryHolds(h, d, args))
  {
    hide WellFormed, Straight, Extends, CanonicalNames;
    CanonicalStays(h, d, e, Segs(Resolve(h.cwd, args.sourceRoot.value)));
    CanonicalStays(h, d, e, Segs(Resolve(h.cwd, args.installRoot.value)));
    forall i | 0 <= i < |args.protectedRoots|
      ensures Canon(h, e, args.protectedRoots[i]) == Canon(h, d, args.protectedRoots[i])
      ensures Straight(e, Canon(h, d, args.protectedRoots[i]))
    {
      CanonicalStays(h, d, e, Segs(Resolve(h.cwd, args.protectedRoots[i])));
    }
    forall i | 0 <= i <= |args.protectedRoots| ensures ProtectedRoots(h, e, args)[i] == ProtectedRoots(h, d, args)[i] {
      assert i > 0 ==> ProtectedRoots(h, d, args)[i] == Canon(h, d, args.protectedRoots[i - 1]);
    }
    hide Canon, ProtectedRoots, Apart;
  }

  lemma FramedExtends(d: Disk, e: Disk, target: Path, staging: Path)
    requires Framed(d, e, target, staging)
    ensures Extends(d, e) && WellFormed(e)
  {
  }

  lemma TwoRootsStay(h: Host, d: Disk, e: Disk, args: BoundaryArgs)
    requires WellFormed(d) && WellFormed(e) && Extends(d, e) && RootsGiven(args)
    requires Straight(d, Source(h, d, args)) && Straight(d, Target(h, d, args))
    ensures Source(h, e, args) == Source(h, d, args) && Target(h, e, args) == Target(h, d, args)
    ensures Straight(e, Source(h, d, args)) && Straight(e, Target(h, d, args))
  {
    hide WellFormed, Straight, Extends, CanonicalNames;
    CanonicalStays(h, d, e, Segs(Resolve(h.cwd, args.sourceRoot.value)));
    CanonicalStays(h, d, e, Segs(Resolve(h.cwd, args.installRoot.value)));
  }

  // ------------------------------------------------------- protected roots

  /** The path given for a protected root, the source first. */
  function RootPath(h: Host, args: BoundaryArgs, i: nat): Path
    requires RootsGiven(args) && i <= |args.protectedRoots|
  {
    Segs(Resolve(h.cwd, RootArgument(args, i)))
  }

  /** No protected root names a place at, above or below the target. */
  predicate RootsNamedApart(h: Host, d: Disk, args: BoundaryArgs)
    requires RootsGiven(args)
  {
    forall i :: 0 <= i <= |args.protectedRoots| ==> NamedApart(h, d, RootPath(h, args, i), Target(h, d, args))
  }

  lemma ProtectedIs(h: Host, d: Disk, args: BoundaryArgs)
    requires RootsGiven(args)
    ensures forall i :: 0 <= i <= |args.protectedRoots| ==>
              ProtectedRoots(h, d, args)[i] == CanonicalNames(h, d, RootPath(h, args, i))
  {
    hide CanonicalNames, Segs, Resolve;
  }

  /** The test passes exactly when every protected root either names a place apart
      from the target, or has a link that leads nowhere on its canonical path. */
  lemma BoundaryExactly(h: Host, d: Disk, args: BoundaryArgs)
    requires WellFormed(d) && RootsGiven(args) && Target(h, d, args) != []
    requires Straight(d, Target(h, d, args)) && NoLinks(d, Target(h, d, args))
    ensures BoundaryHolds(h, d, args) <==>
              forall i :: 0 <= i <= |args.protectedRoots| ==>
                || NamedApart(h, d, RootPath(h, args, i), Target(h, d, args))
                || !Straight(d, ProtectedRoots(h, d, args)[i])
  {
    hide WellFormed, Straight, NoLinks, NamedApart, Apart, CanonicalNames, RootPath, ProtectedRoots;
    ProtectedIs(h, d, args);
    forall i | 0 <= i <= |args.protectedRoots|
      ensures Apart(Target(h, d, args), ProtectedRoots(h, d, args)[i]) <==>
                || NamedApart(h, d, RootPath(h, args, i), Target(h, d, args))
                || !Straight(d, ProtectedRoots(h, d, args)[i])
    {
      TestSees(h, d, RootPath(h, args, i), Target(h, d, args));
    }
  }

  lemma NamedApartStays(h: Host, d: Disk, e: Disk, p: Path, t: Path)
    requires Extends(d, e)
    ensures NamedApart(h, e, p, t) <==> NamedApart(h, d, p, t)
  {
    DenotesStays(h, d, e, p);
    hide Denotes, Extends;
  }

  /** The test in a later state: it passes when the roots named places apart from the
      target before, and fails when one of them named a place that is not apart from
      the target and is there now. */
  lemma BoundaryLater(h: Host, d: Disk, args: BoundaryArgs, e: Disk)
    requires WellFormed(d) && WellFormed(e) && Extends(d, e) && RootsGiven(args) && Target(h, d, args) != []
    requires Straight(d, Target(h, d, args)) && NoLinks(e, Target(h, d, args))
    ensures Target(h, e, args) == Target(h, d, args)
    ensures BoundaryHolds(h, e, args) <==>
              forall i :: 0 <= i <= |args.protectedRoots| ==>
                || NamedApart(h, d, RootPath(h, args, i), Target(h, d, args))
                || !Straight(e, ProtectedRoots(h, e, args)[i])
    ensures RootsNamedApart(h, d, args) ==> BoundaryHolds(h, e, args)
    ensures BoundaryHolds(h, e, args) ==>
              forall i :: 0 <= i <= |args.protectedRoots| ==>
                || NamedApart(h, d, RootPath(h, args, i), Target(h, d, args))
                || Denotes(h, d, RootPath(h, args, i)).value !in e
  {
    hide WellFormed, Straight, NoLinks, Apart, CanonicalNames, RootPath, ProtectedRoots, Extends, Denotes, NamedApart,
      Boundary.BoundaryHolds;
    CanonicalStays(h, d, e, Segs(Resolve(h.cwd, args.installRoot.value)));
    BoundaryExactly(h, e, args);
    forall i | 0 <= i <= |args.protectedRoots|
      ensures NamedApart(h, e, RootPath(h, args, i), Target(h, d, args)) <==>
              NamedApart(h, d, RootPath(h, args, i), Target(h, d, args))
    {
      NamedApartStays(h, d, e, RootPath(h, args, i), Target(h, d, args));
    }
    forall i | 0 <= i <= |args.protectedRoots| && !NamedApart(h, d, RootPath(h, args, i), Target(h, d, args))
      ensures Denotes(h, d, RootPath(h, args, i)).Some?
      ensures Denotes(h, d, RootPath(h, args, i)).value in e ==> !BoundaryHolds(h, e, args)
    {
      NamedAt(h, d, RootPath(h, args, i), Target(h, d, args));
      if Denotes(h, d, RootPath(h, args, i)).value in e {
        PlaceIsSeen(h, d, e, args, i);
      }
    }
  }

  lemma NamedAt(h: Host, d: Disk, p: Path, t: Path)
    ensures NamedApart(h, d, p, t) <==> Denotes(h, d, p).None? || Apart(t, Denotes(h, d, p).value)
  {
    hide Denotes;
  }

  lemma PlaceIsSeen(h: Host, d: Disk, e: Disk, args: BoundaryArgs, i: nat)
    requires WellFormed(e) && Extends(d, e) && RootsGiven(args) && i <= |args.protectedRoots|
    requires Denotes(h, d, RootPath(h, args, i)).Some?
    requires Denotes(h, d, RootPath(h, args, i)).value in e
    requires !Apart(Target(h, e, args), Denotes(h, d, RootPath(h, args, i)).value)
    ensures !BoundaryHolds(h, e, args)
  {
    hide WellFormed, CanonicalNames, RootPath, Extends, Denotes, Find;
    FindIsDenoted(h, d, e, RootPath(h, args, i));
    LinkLimits.ExistingIsCanonical(h, e, RootPath(h, args, i));
    ProtectedIs(h, e, args);
    hide ProtectedRoots;
  }

  /** When something has been made at the target: it lies in a protected root exactly
      when that root named a place at or above the target before the run; and the two
      overlap exactly when it named a place that is not apart from the target and is
      there now. Of the roots that pass the test, only those with a link that leads
      nowhere on their canonical path can be such. */
  lemma ProtectedExactly(h: Host, d: Disk, args: BoundaryArgs, e: Disk, i: nat)
    requires WellFormed(d) && WellFormed(e) && Extends(d, e) && RootsGiven(args) && i <= |args.protectedRoots|
    requires Target(h, d, args) in e
    ensures var p, target := RootPath(h, args, i), Target(h, d, args);
            var place := Denotes(h, d, p);
            && (LiesIn(h, e, p, target) <==> place.Some? && place.value <= target)
            && (Overlapping(h, e, p, target) <==> place.Some? && !Apart(target, place.value) && place.value in e)
            && (BoundaryHolds(h, d, args) && Straight(d, ProtectedRoots(h, d, args)[i]) ==> NamedApart(h, d, p, target))
  {
    hide WellFormed, Straight, RootPath, Extends, Denotes, Find, CanonicalNames, ProtectedRoots, Canon;
    BoundaryProtects(h, d, e, RootPath(h, args, i), Target(h, d, args));
    DenotesCanonical(h, d, RootPath(h, args, i));
    ProtectedIs(h, d, args);
  }

  /** With roots on whose canonical paths no link is, the test is enough: in every
      later state it still passes, and nothing at the target overlaps a root. */
  lemma StraightRootsAreProtected(h: Host, d: Disk, args: BoundaryArgs, e: Disk)
    requires WellFormed(d) && WellFormed(e) && Extends(d, e) && RootsGiven(args)
    requires BoundaryHolds(h, d, args) && RootsStraight(h, d, args)
    ensures RootsNamedApart(h, d, args)
    ensures Target(h, e, args) == Target(h, d, args) && BoundaryHolds(h, e, args) && RootsStraight(h, e, args)
    ensures Target(h, d, args) in e ==>
              forall i :: 0 <= i <= |args.protectedRoots| ==>
                !Overlapping(h, e, RootPath(h, args, i), Target(h, d, args))
  {
    hide WellFormed, Straight, RootPath, Extends, Denotes, Find, CanonicalNames, ProtectedRoots, Canon,
      Boundary.BoundaryHolds, RootsStraight;
    RootsStay(h, d, e, args);
    forall i | 0 <= i <= |args.protectedRoots|
      ensures NamedApart(h, d, RootPath(h, args, i), Target(h, d, args))
      ensures Target(h, d, args) in e ==> !Overlapping(h, e, RootPath(h, args, i), Target(h, d, args))
    {
      StraightRootAt(h, d, args, i);
      if Target(h, d, args) in e {
        ProtectedExactly(h, d, args, e, i);
      }
    }
  }

  lemma StraightRootAt(h: Host, d: Disk, args: BoundaryArgs, i: nat)
    requires WellFormed(d) && RootsGiven(args) && BoundaryHolds(h, d, args) && RootsStraight(h, d, args)
    requires i <= |args.protectedRoots|
    ensures NamedApart(h, d, RootPath(h, args, i), Target(h, d, args))
  {
    ProtectedIs(h, d, args);
    assert Straight(d, ProtectedRoots(h, d, args)[i]) by {
      assert i > 0 ==> ProtectedRoots(h, d, args)[i] == Canon(h, d, args.protectedRoots[i - 1]);
    }
    hide WellFormed, Straight, RootPath, Denotes, CanonicalNames, Canon, ProtectedRoots, RootsStraight;
    DenotesCanonical(h, d, RootPath(h, args, i));
  }

  /** In no state of a run does a node appear at, above or below the canonical path of
      a protected root that is there, and everything below it stays. */
  lemma CanonicalRootsUntouched(h: Host, d: Disk, args: BoundaryArgs, suffix: string, e: Disk, i: nat)
    requires WellFormed(d) && Clear(h, d, args) && '/' !in suffix && i <= |args.protectedRoots|
    requires Target(h, d, args) != [] && Framed(d, e, Target(h, d, args), Staging(h, d, args, suffix))
    requires ProtectedRoots(h, d, args)[i] in d
    ensures SameBelow(d, e, ProtectedRoots(h, d, args)[i])
    ensures forall q :: q in e && q !in d ==> Apart(q, ProtectedRoots(h, d, args)[i])
  {
    var p := ProtectedRoots(h, d, args)[i];
    assert Apart(Target(h, d, args), p);
    ClearHasNoStaging(h, d, args, suffix);
    CanonIsPath(h, d, args.installRoot.value);
    hide Framed, Canon, WellFormed, Find, HasIncompleteTransaction, SameBelow, TemporarySibling, ProtectedRoots,
      PartialPrefix;
    SiblingIsPath(Target(h, d, args), suffix);
    ProtectedUntouched(d, e, Target(h, d, args), Staging(h, d, args, suffix), p);
  }

  /** In no state of a run does anything change at or below the place that a protected
      root names, there or not, if it is apart from the target and does not lie in the
      staging tree. The root names that place in every state, and if it is there
      nothing appears above it either. */
  lemma ProtectedRootsUntouched(h: Host, d: Disk, args: BoundaryArgs, suffix: string, e: Disk, i: nat)
    requires WellFormed(d) && Clear(h, d, args) && RootsGiven(args) && '/' !in suffix && i <= |args.protectedRoots|
    requires Target(h, d, args) != [] && Framed(d, e, Target(h, d, args), Staging(h, d, args, suffix))
    requires Denotes(h, d, RootPath(h, args, i)).Some? && NamedApart(h, d, RootPath(h, args, i), Target(h, d, args))
    ensures var place := Denotes(h, d, RootPath(h, args, i)).value;
            && Denotes(h, e, RootPath(h, args, i)) == Some(place)
            && (place in d || Apart(Staging(h, d, args, suffix), place) ==> SameBelow(d, e, place))
            && (place in d ==> forall q :: q in e && q !in d ==> Apart(q, place))
  {
    var p := RootPath(h, args, i);
    var place := Denotes(h, d, p).value;
    FramedExtends(d, e, Target(h, d, args), Staging(h, d, args, suffix));
    ClearHasNoStaging(h, d, args, suffix);
    CanonIsPath(h, d, args.installRoot.value);
    hide Framed, Canon, WellFormed, Find, HasIncompleteTransaction, SameBelow, TemporarySibling, PartialPrefix,
      RootPath, Denotes, Extends, Boundary.BoundaryHolds;
    DenotesStays(h, d, e, p);
    SiblingIsPath(Target(h, d, args), suffix);
    if place in d {
      ProtectedUntouched(d, e, Target(h, d, args), Staging(h, d, args, suffix), place);
    } else if Apart(Staging(h, d, args, suffix), place) {
      AbsentUntouched(d, e, Target(h, d, args), Staging(h, d, args, suffix), place);
    }
  }

  lemma AbsentUntouched(d: Disk, e: Disk, target: Path, staging: Path, p: Path)
    requires WellFormed(d) && Framed(d, e, target, staging) && p !in d && Apart(target, p) && Apart(staging, p)
    requires target != []
    ensures SameBelow(d, e, p)
  {
    hide WellFormed;
    forall q | p <= q ensures q in e ==> q in d {
      BothAbove(staging, p, q);
      BothAbove(target, p, q);
      FileSystems.PrefixOfParent(q, target);
    }
  }

  lemma BothAbove(a: Path, b: Path, q: Path)
    requires Apart(a, b) && b <= q
    ensures !(a <= q)
  {
  }

  // ---------------------------------------------------------- the next run

  /** A staging tree that a crash left behind stops the next run: it is neither
      clear to install nor taken for an installation. */
  lemma CrashBlocksNextRun(h: Host, d: Disk, args: BoundaryArgs, suffix: string, e: Disk)
    requires WellFormed(d) && Clear(h, d, args) && RootsGiven(args) && '/' !in suffix
    requires Straight(d, Source(h, d, args)) && Straight(d, Target(h, d, args))
    requires Target(h, d, args) != [] && Framed(d, e, Target(h, d, args), Staging(h, d, args, suffix))
    requires Staging(h, d, args, suffix) in e
    ensures RootsSettled(h, e, args) && !Clear(h, e, args) && !Occupied(h, e, args)
    ensures Target(h, e, args) != [] && HasIncompleteTransaction(h, e, Target(h, e, args)) == Ok(true)
  {
    var target, staging := Target(h, d, args), Staging(h, d, args, suffix);
    FramedExtends(d, e, target, staging);
    CanonIsPath(h, d, args.installRoot.value);
    hide Canon, Framed, Extends, WellFormed, Find, HasIncompleteTransaction, Boundary.BoundaryHolds, Straight,
      RootsSettled, TemporarySibling, PartialPrefix;
    TwoRootsStay(h, d, e, args);
    StraightPairSettled(h, e, args);
    SiblingIsPath(target, suffix);
    SiblingIsRecognised(h, e, target, staging);
  }

  lemma PrefixIsLonger(target: Path)
    requires target != []
    ensures !StartsWith(Last(target), PartialPrefix(target))
  {
  }

  lemma NoOldSibling(h: Host, d: Disk, target: Path, n: string)
    requires WellFormed(d) && target != [] && Straight(d, target) && HasIncompleteTransaction(h, d, target) == Ok(false)
    ensures StartsWith(n, PartialPrefix(target)) ==> Parent(target) + [n] !in d
    ensures Parent(target) in d ==> d[Parent(target)] == Dir
  {
    assert Parent(Parent(target) + [n]) == Parent(target);
    StraightParent(d, target);
    FindStraight(h, d, Parent(target));
    assert Parent(target) + [n] in d ==> n in EntryNames(d, Parent(target));
    hide PartialPrefix, Straight, WalkFiles;
  }

  lemma NoNewSibling(d: Disk, e: Disk, target: Path, staging: Path, n: string)
    requires target != [] && Framed(d, e, target, staging) && staging !in e
    ensures Parent(target) + [n] in e ==> Parent(target) + [n] in d || n == Last(target)
  {
    var q := Parent(target) + [n];
    assert target <= q ==> Last(q) == Last(target);
    if staging <= q && q in e {
      PrefixPresent(e, q, staging);
    }
  }

  /** Before and after a run that left no staging tree there is no partial sibling. */
  lemma NoPartialSibling(h: Host, d: Disk, e: Disk, target: Path, staging: Path)
    requires WellFormed(d) && target != [] && Straight(d, target) && HasIncompleteTransaction(h, d, target) == Ok(false)
    requires Framed(d, e, target, staging) && staging !in e
    ensures forall n :: StartsWith(n, PartialPrefix(target)) ==> Parent(target) + [n] !in e
    ensures Parent(target) in e ==> e[Parent(target)] == Dir
  {
    hide HasIncompleteTransaction, Straight, WellFormed;
    forall n | StartsWith(n, PartialPrefix(target)) ensures Parent(target) + [n] !in e {
      NoOldSibling(h, d, target, n);
      NoNewSibling(d, e, target, staging, n);
      PrefixIsLonger(target);
    }
    NoOldSibling(h, d, target, Last(target));
    WayIsDirs(d, e, target, staging, Parent(target));
  }

  /** What is new on the way to the target is a directory. */
  lemma WayIsDirs(d: Disk, e: Disk, target: Path, staging: Path, q: Path)
    requires target != [] && Framed(d, e, target, staging) && staging !in e && q <= Parent(target)
    ensures q in e ==> q in d || e[q] == Dir
    ensures q in d ==> q in e && e[q] == d[q]
  {
    if q in e && staging <= q {
      PrefixPresent(e, q, staging);
    }
  }

  lemma AbsentIsClear(h: Host, d: Disk, target: Path)
    requires WellFormed(d) && target != [] && Straight(d, target) && target !in d
    requires forall n :: StartsWith(n, PartialPrefix(target)) ==> Parent(target) + [n] !in d
    requires Parent(target) in d ==> d[Parent(target)] == Dir
    ensures HasIncompleteTransaction(h, d, target) == Ok(false) && !Exists(h, d, target)
  {
    FindStraight(h, d, target);
    StraightParent(d, target);
    FindStraight(h, d, Parent(target));
    hide PartialPrefix, Straight, WalkFiles, Find;
  }

  lemma ClearedIsClear(h: Host, d: Disk, target: Path, staging: Path, e: Disk)
    requires WellFormed(d) && target != [] && Straight(d, target) && HasIncompleteTransaction(h, d, target) == Ok(false)
    requires !Exists(h, d, target) && Cleared(d, e, target, staging) && Straight(e, target)
    ensures HasIncompleteTransaction(h, e, target) == Ok(false) && !Exists(h, e, target)
  {
    FindStraight(h, d, target);
    NoPartialSibling(h, d, e, target, staging);
    hide Straight, HasIncompleteTransaction, Find, PartialPrefix;
    AbsentIsClear(h, e, target);
  }

  /** Directories on the way do not keep a run from making the rest. */
  lemma WayStaysOpen(h: Host, d: Disk, e: Disk, target: Path, staging: Path)
    requires WellFormed(d) && IsPath(target) && target != [] && Straight(d, target)
    requires Cleared(d, e, target, staging) && Straight(e, target)
    requires MakeDirs(h, d, Parent(target)).Some?
    ensures MakeDirs(h, e, Parent(target)).Some?
  {
    var q := Parent(target);
    StraightParent(d, target);
    StraightParent(e, target);
    MakeDirsStraight(h, d, q);
    MakeDirsStraight(h, e, q);
    hide MakeDirs, Straight;
    hide Framed;
    forall k | 0 <= k <= |q| && q[..k] in e ensures e[q[..k]] == Dir {
      WayIsDirs(d, e, target, staging, q[..k]);
    }
  }

  lemma CanStillInstall(h: Host, d: Disk, e: Disk, source: Path)
    requires Sound(h) && WellFormed(d) && WellFormed(e) && SameBelow(d, e, source) && Straight(d, source)
    requires source in d && d[source] == Dir && CanInstall(h, d, source)
    ensures CanInstall(h, e, source)
  {
    hide IsExpected, Installable;
    var x :| IsExpected(h, d, source, x) && Installable(x.mappings);
    ExpectedSame(h, d, e, source, x);
  }

  lemma InstallableSource(h: Host, d: Disk, source: Path)
    requires Sound(h) && WellFormed(d) && Straight(d, source) && CanInstall(h, d, source)
    ensures source in d && d[source] == Dir
  {
    hide IsExpected, Installable;
    var x :| IsExpected(h, d, source, x) && Installable(x.mappings);
    ExpectedShape(h, d, source, x);
  }

  lemma SourceIsThere(h: Host, d: Disk, source: Path, x: Expected)
    requires Sound(h) && WellFormed(d) && Settled(h, d, source) && IsExpected(h, d, source, x)
    ensures source in d && d[source] == Dir
  {
    hide IsExpected, Find, Settled, WellFormed, Straight;
    if !Exists(h, d, source) {
      MissingPrescribesNothing(h, d, source);
    }
    SettledTame(h, d, source);
    PresentIsStraight(d, source);
    ExpectedShape(h, d, source, x);
  }

  /** Where an installation is possible, no link is on the way to source or target. */
  lemma PossibleIsStraight(h: Host, d: Disk, args: BoundaryArgs)
    requires Sound(h) && WellFormed(d) && RootsSettled(h, d, args) && Possible(h, d, args) && RootsGiven(args)
    ensures Straight(d, Source(h, d, args)) && Straight(d, Target(h, d, args)) && Target(h, d, args) != []
  {
    ClearTarget(h, d, args);
    CanonIsPath(h, d, args.installRoot.value);
    SettledTame(h, d, Target(h, d, args));
    hide IsExpected, Installable, Canon, Find, Settled, WellFormed, Straight, MakeDirs, HasIncompleteTransaction,
      Boundary.BoundaryHolds, Tame, IsPath;
    var x :| IsExpected(h, d, Source(h, d, args), x) && Installable(x.mappings);
    SourceIsThere(h, d, Source(h, d, args), x);
    PresentIsStraight(d, Source(h, d, args));
    MadeWayIsStraight(h, d, Target(h, d, args));
  }

  /** Directories cannot be made through a link that leads nowhere. */
  lemma MadeWayIsStraight(h: Host, d: Disk, target: Path)
    requires WellFormed(d) && IsPath(target) && target != [] && target !in d && Tame(h, d, target)
    requires MakeDirs(h, d, Parent(target)).Some?
    ensures Straight(d, target)
  {
    var q := Parent(target);
    TameParent(h, d, target);
    hide MakeDirs, Find, WellFormed, Tame, CanonicalNames;
    LinkLimits.MakeDirsLands(h, d, q);
    MakeDirsAdds(h, d, q);
    if !Straight(d, q) {
      var k :| 0 <= k <= |q| && q[..k] in d && d[q[..k]].Link?;
      DeadWay(h, d, q, k);
      DeadBeyond(h, d, q, k);
      BlockedAddsNothing(h, d, MakeDirs(h, d, q).value, q, k);
    }
    assert target[..|target|] == target;
    forall k | 0 <= k <= |target| && target[..k] in d ensures !d[target[..k]].Link? {
      assert k < |target| ==> target[..k] == q[..k];
    }
  }

  lemma DeadWay(h: Host, d: Disk, q: Path, k: nat)
    requires Tame(h, d, q) && k <= |q| && q[..k] in d && d[q[..k]].Link?
    ensures !Exists(h, d, q[..k])
  {
  }

  /** A run that failed and cleaned up can be repeated, when it was possible before,
      exactly if the overlap test still passes. */
  lemma RetryIsPossible(h: Host, d: Disk, args: BoundaryArgs, suffix: string, e: Disk)
    requires Sound(h) && WellFormed(d) && RootsSettled(h, d, args) && Possible(h, d, args) && RootsGiven(args)
    requires '/' !in suffix
    requires Target(h, d, args) != [] && Cleared(d, e, Target(h, d, args), Staging(h, d, args, suffix))
    ensures Possible(h, e, args) <==> BoundaryHolds(h, e, args)
  {
    var source, target, staging := Source(h, d, args), Target(h, d, args), Staging(h, d, args, suffix);
    FramedExtends(d, e, target, staging);
    CanonIsPath(h, d, args.installRoot.value);
    PossibleIsStraight(h, d, args);
    assert ProtectedRoots(h, d, args)[0] == source;
    hide Canon, Find, Boundary.BoundaryHolds, TemporarySibling, PartialPrefix, ProtectedRoots, SameBelow, RootsSettled,
      HasIncompleteTransaction, Straight, CanInstall, MakeDirs, Extends, Framed, WellFormed;
    TwoRootsStay(h, d, e, args);
    ClearedIsClear(h, d, target, staging, e);
    WayStaysOpen(h, d, e, target, staging);
    InstallableSource(h, d, source);
    CanonicalRootsUntouched(h, d, args, suffix, e, 0);
    CanStillInstall(h, d, e, source);
  }

  // ------------------------------------------------------ a second install

  /** Some target is named like a file in the making. */
  ghost predicate ShipsScratch(ms: seq<Mapping>) {
    exists i :: 0 <= i < |ms| && Unfinished(ms[i].target)
  }

  lemma SlashStopsSuffix(s: string, n: nat, suffix: string)
    requires n < |s| && s[|s| - n - 1] == '/' && '/' !in suffix
    ensures EndsWith(s, suffix) ==> |suffix| <= n
  {
    if |suffix| > n {
      var k := |suffix| - n - 1;
      assert suffix[k] != '/';
      assert |s| >= |suffix| ==> s[|s| - |suffix|..][k] == '/';
    }
  }

  lemma EndsAfterSlash(head: string, n: string, suffix: string)
    requires '/' !in suffix
    ensures EndsWith(head + "/" + n, suffix) <==> EndsWith(n, suffix)
  {
    var s := head + "/" + n;
    SlashStopsSuffix(s, |n|, suffix);
    if |suffix| <= |n| {
      assert n[|n| - |suffix|..] == s[|s| - |suffix|..];
    }
  }

  lemma JoinEndsLikeLast(r: Path, suffix: string)
    requires r != [] && '/' !in suffix
    ensures EndsWith(Join(r), suffix) <==> EndsWith(Last(r), suffix)
  {
    hide EndsWith;
    if |r| > 1 {
      JoinAppend(Parent(r), [Last(r)]);
      assert Parent(r) + [Last(r)] == r;
      EndsAfterSlash(Join(Parent(r)), Last(r), suffix);
    }
  }

  lemma ScratchAtEnd(r: Path)
    requires r != []
    ensures IsScratch(Join(r)) <==> IsScratch(Last(r))
  {
    assert forall i :: 0 <= i < |".tmp"| ==> ".tmp"[i] != '/';
    assert forall i :: 0 <= i < |".partial"| ==> ".partial"[i] != '/';
    JoinEndsLikeLast(r, ".tmp");
    JoinEndsLikeLast(r, ".partial");
    hide Join;
  }

  lemma OwnershipIsNoScratch()
    ensures !IsScratch(OWNERSHIP_FILE)
  {
    var s := OWNERSHIP_FILE;
    assert |s| == 33 && s[|s| - 1] == 'n';
    assert s[|s| - 4..][3] == 'n' && s[|s| - 8..][7] == 'n';
    assert ".tmp"[3] == 'p' && ".partial"[7] == 'l';
  }

  lemma UnfinishedAtEnd(r: Path)
    requires r != []
    ensures Unfinished(Join(r)) <==> Unfinished(Last(r))
  {
    ScratchAtEnd(r);
    ScratchIs(Join(r));
    ScratchIs(Last(r));
    hide IsScratch, Unfinished, Join;
  }

  lemma ScratchInstalled(h: Host, d: Disk, root: Path, ms: seq<Mapping>)
    requires WellFormed(d) && FilesExact(h, d, root, ms)
    ensures (exists r :: IsFileBelow(d, root, r) && Unfinished(Last(r))) <==> ShipsScratch(ms)
  {
    OwnershipIsNoScratch();
    ScratchIs(OWNERSHIP_FILE);
    hide Unfinished, OWNERSHIP_FILE, Join, WellFormed;
    if r :| IsFileBelow(d, root, r) && Unfinished(Last(r)) {
      assert r != [OWNERSHIP_FILE];
      assert IsTarget(ms, r);
      UnfinishedAtEnd(r);
    }
    if ShipsScratch(ms) {
      var i :| 0 <= i < |ms| && Unfinished(ms[i].target);
      assert Delivered(h, d, root, ms[i]);
      var r :| ms[i].target == Join(r) && IsFileBelow(d, root, r) && Str(h.sha256(d[root + r].data)) == ms[i].digest;
      UnfinishedAtEnd(r);
    }
  }

  lemma InstalledIsDirectory(h: Host, d: Disk, root: Path, x: Expected)
    requires WellFormed(d) && ExactlyInstalled(h, d, root, x)
    ensures root in d && d[root] == Dir && NoLinks(d, root) && FilesExact(h, d, root, x.mappings)
  {
    assert Parent(root + [OWNERSHIP_FILE]) == root;
    hide FilesExact, NoLinks, OWNERSHIP_FILE;
  }

  lemma InstalledIsComplete(h: Host, d: Disk, target: Path, x: Expected)
    requires Sound(h) && WellFormed(d) && target != [] && Straight(d, target) && ExactlyInstalled(h, d, target, x)
    requires forall n :: StartsWith(n, PartialPrefix(target)) ==> Parent(target) + [n] !in d
    ensures HasIncompleteTransaction(h, d, target) == Ok(ShipsScratch(x.mappings)) && Exists(h, d, target)
  {
    assert PartialPrefix(target) == Last(target) + ".partial";
    hide ExactlyInstalled, FilesExact, PartialPrefix, Straight, HasIncompleteTransaction, Unfinished, Find;
    InstalledIsDirectory(h, d, target, x);
    FindStraight(h, d, target);
    IncompleteMeans(h, d, target);
    ScratchInstalled(h, d, target, x.mappings);
  }

  /** What a run that installed leaves. */
  lemma AfterRun(h: Host, args: BoundaryArgs, suffix: string, a: Record, b: Record, x: Expected)
    requires Clear(h, a.disk, args) && Transacted(h, args, suffix, a, b, Ok(Installed))
    requires RootsGiven(args) && Target(h, a.disk, args) != [] && IsExpected(h, a.disk, Source(h, a.disk, args), x)
    ensures Framed(a.disk, b.disk, Target(h, a.disk, args), Staging(h, a.disk, args, suffix))
    ensures Staging(h, a.disk, args, suffix) !in b.disk && Target(h, a.disk, args) in b.disk
    ensures ExactlyInstalled(h, b.disk, Target(h, a.disk, args), x)
  {
    hide IsExpected, ExactlyInstalled, Framed, Canon, Clear, TemporarySibling;
  }

  /** No link was on the way to what has been installed. */
  lemma InstalledIsStraight(h: Host, d: Disk, e: Disk, target: Path, x: Expected)
    requires WellFormed(e) && Within(d, e) && ExactlyInstalled(h, e, target, x)
    ensures Straight(d, target)
  {
    hide ExactlyInstalled, Straight, WellFormed, FilesExact, NoLinks, Within;
    InstalledIsDirectory(h, e, target, x);
    PresentIsStraight(e, target);
    StraightWithin(e, d, target);
  }

  /** After an installation the same command finds it current, exactly if the package
      ships no file named like one in the making, which makes the complete
      installation look incomplete, and the overlap test still passes. */
  lemma SecondInstall(h: Host, d: Disk, args: BoundaryArgs, suffix: string, e: Disk, x: Expected)
    requires Sound(h) && WellFormed(d) && Clear(h, d, args) && RootsGiven(args) && '/' !in suffix
    requires Target(h, d, args) != [] && Framed(d, e, Target(h, d, args), Staging(h, d, args, suffix))
    requires Staging(h, d, args, suffix) !in e && ExactlyInstalled(h, e, Target(h, d, args), x)
    requires IsExpected(h, d, Source(h, d, args), x) && Source(h, d, args) in d && d[Source(h, d, args)] == Dir
    ensures Source(h, e, args) == Source(h, d, args) && Target(h, e, args) == Target(h, d, args)
    ensures RootsSettled(h, e, args) && InstalledFrom(h, e, Source(h, e, args), Target(h, e, args))
    ensures Occupied(h, e, args) <==> !ShipsScratch(x.mappings) && BoundaryHolds(h, e, args)
  {
    var source, target, staging := Source(h, d, args), Target(h, d, args), Staging(h, d, args, suffix);
    FramedExtends(d, e, target, staging);
    assert ProtectedRoots(h, d, args)[0] == source;
    hide Canon, Find, Boundary.BoundaryHolds, TemporarySibling, PartialPrefix, HasIncompleteTransaction, Straight,
      IsExpected, Extends, Framed, WellFormed, ExactlyInstalled, RootsSettled, ProtectedRoots, ShipsScratch, SameBelow;
    CanonicalRootsUntouched(h, d, args, suffix, e, 0);
    PresentIsStraight(d, source);
    InstalledIsStraight(h, d, e, target, x);
    TwoRootsStay(h, d, e, args);
    StraightPairSettled(h, e, args);
    ExpectedSame(h, d, e, source, x);
    NoPartialSibling(h, d, e, target, staging);
    InstalledIsComplete(h, e, target, x);
  }

  /** Whether the test still passes after an installation: it does if every protected
      root named a place apart from the target before, and does not if a root overlaps
      the installation now. */
  lemma BoundaryAfterInstall(h: Host, d: Disk, args: BoundaryArgs, e: Disk, x: Expected)
    requires WellFormed(d) && WellFormed(e) && Extends(d, e) && RootsGiven(args) && Target(h, d, args) != []
    requires ExactlyInstalled(h, e, Target(h, d, args), x)
    ensures RootsNamedApart(h, d, args) ==> BoundaryHolds(h, e, args)
    ensures BoundaryHolds(h, e, args) ==>
              forall i :: 0 <= i <= |args.protectedRoots| ==>
                !Overlapping(h, e, RootPath(h, args, i), Target(h, d, args))
  {
    assert Within(d, e);
    hide Canon, Find, Boundary.BoundaryHolds, Straight, Extends, WellFormed, ExactlyInstalled, RootPath,
      Denotes, NoLinks, FilesExact, NamedApart, Within;
    InstalledIsStraight(h, d, e, Target(h, d, args), x);
    InstalledIsDirectory(h, e, Target(h, d, args), x);
    BoundaryLater(h, d, args, e);
    forall i | 0 <= i <= |args.protectedRoots| && Overlapping(h, e, RootPath(h, args, i), Target(h, d, args))
      ensures !BoundaryHolds(h, e, args)
    {
      FindIsDenoted(h, d, e, RootPath(h, args, i));
      NamedAt(h, d, RootPath(h, args, i), Target(h, d, args));
    }
  }
}
