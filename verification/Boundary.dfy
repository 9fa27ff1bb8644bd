/** `canonicalPath` and `validateInstallBoundary`. */
module Boundary {
  import opened Outcome
  import opened Paths
  import opened PathLemmas
  import opened Containment
  import opened Hosts
  import opened Disks
  import opened PathLookup
  import opened Directories

  // -------------------------------------------------------- canonical paths

  /** How many names of `p`, from the root, exist. */
  function ExistingLength(h: Host, d: Disk, p: Path): (k: nat)
    ensures k <= |p| && Exists(h, d, p[..k])
    decreases |p|
  {
    if p == [] || Exists(h, d, p) then
      assert p[..|p|] == p;
      |p|
    else
      var k := ExistingLength(h, d, Parent(p));
      assert p[..k] == Parent(p)[..k];
      k
  }

  /** The real path of the longest existing ancestor, then the missing names. */
  function CanonicalNames(h: Host, d: Disk, p: Path): Path {
    var k := ExistingLength(h, d, p);
    Find(h, d, p[..k]).value + p[k..]
  }

  lemma RootExists(h: Host, d: Disk)
    ensures Find(h, d, []) == Some([])
  {
  }

  /** The script's loop: the cursor climbs, the missing names collect. The root
      always exists, so the climb never fails. */
  method CanonicalPath(h: Host, d: Disk, candidate: string) returns (r: Result<Path>)
    requires Sound(h) && WellFormed(d)
    ensures r == Ok(CanonicalNames(h, d, Segs(Resolve(h.cwd, candidate))))
  {
    var absolute := Segs(Resolve(h.cwd, candidate));
    var missing: Path := [];
    var cursor := absolute;
    hide Find, Segs, Resolve;
    while !Exists(h, d, cursor)
      invariant cursor + missing == absolute
      invariant ExistingLength(h, d, absolute) == ExistingLength(h, d, cursor)
      decreases |cursor|
    {
      var parent := Parent(cursor);
      if parent == cursor {
        RootExists(h, d);
        return Err("path-unresolvable");
      }
      missing := [Last(cursor)] + missing;
      cursor := parent;
    }
    assert absolute[..|cursor|] == cursor && absolute[|cursor|..] == missing;
    return Ok(Find(h, d, cursor).value + missing);
  }

  lemma {:induction false} ExistingLengthIs(h: Host, d: Disk, p: Path)
    requires WellFormed(d)
    ensures var k := ExistingLength(h, d, p);
            Exists(h, d, p[..k]) && forall j :: k < j <= |p| ==> !Exists(h, d, p[..j])
    decreases |p|
  {
    hide Find;
    assert p[..|p|] == p;
    if !Exists(h, d, p) {
      if p == [] {
        RootExists(h, d);
      } else {
        var q := Parent(p);
        ExistingLengthIs(h, d, q);
        var k := ExistingLength(h, d, q);
        assert q[..k] == p[..k];
        forall j | k < j <= |p| ensures !Exists(h, d, p[..j]) {
          if j < |p| {
            assert p[..j] == q[..j];
          }
        }
      }
    }
  }

  /** The longest existing ancestor is determined by what exists. */
  lemma ExistingLengthUnique(h: Host, d: Disk, p: Path, k: nat)
    requires WellFormed(d) && k <= |p| && Exists(h, d, p[..k])
    requires k < |p| ==> !Exists(h, d, p[..k + 1])
    ensures ExistingLength(h, d, p) == k
  {
    ExistingLengthIs(h, d, p);
    var n := ExistingLength(h, d, p);
    if k < n {
      assert p[..n][..k + 1] == p[..k + 1];
      DeadBeyond(h, d, p[..n], k + 1);
    }
    hide Find;
  }

  /** The canonical path of `p` has the longest existing ancestor of `p`, real, as
      its start; looking past it finds nothing unless the real start is followed
      by something that only the lookup of `p` could not reach. */
  lemma CanonicalStart(h: Host, d: Disk, p: Path)
    requires WellFormed(d)
    ensures var k := ExistingLength(h, d, p);
            var base := Find(h, d, p[..k]);
            && base.Some? && base.value in d && !d[base.value].Link?
            && CanonicalNames(h, d, p) == base.value + p[k..]
            && Find(h, d, base.value) == base
  {
    var k := ExistingLength(h, d, p);
    ExistingLengthIs(h, d, p);
    FindEnds(h, d, p[..k]);
    FindPresent(h, d, Find(h, d, p[..k]).value);
  }

  lemma StartWalk(h: Host, d: Disk, p: Path) returns (w: Found)
    requires WellFormed(d)
    ensures var k := ExistingLength(h, d, p);
            && Walk(d, [], p[..k], h.linkLimit) == Some(w)
            && w.at in d && CanonicalNames(h, d, p) == w.at + p[k..]
  {
    var k := ExistingLength(h, d, p);
    CanonicalStart(h, d, p);
    hide Walk, WellFormed;
    w := Walk(d, [], p[..k], h.linkLimit).value;
  }

  /** The name that follows the real start of a canonical path, if it can be
      reached from there, makes the next canonical path different. */
  ghost predicate Reached(h: Host, d: Disk, p: Path) {
    var k := ExistingLength(h, d, p);
    k < |p| && Exists(h, d, Find(h, d, p[..k]).value + [p[k]])
  }

  /** `canonicalPath` is idempotent exactly when the first missing name cannot be
      reached from the real start. */
  lemma CanonicalIdempotent(h: Host, d: Disk, p: Path)
    requires WellFormed(d)
    ensures var c := CanonicalNames(h, d, p);
            CanonicalNames(h, d, c) == c <==> !Reached(h, d, p)
  {
    var k := ExistingLength(h, d, p);
    CanonicalStart(h, d, p);
    ExistingLengthIs(h, d, p);
    var base := Find(h, d, p[..k]).value;
    var c := base + p[k..];
    var n := |base|;
    assert c[..n] == base && c[n..] == p[k..];
    hide Find, WellFormed;
    if k < |p| {
      assert c[..n + 1] == base + [p[k]];
      if Reached(h, d, p) {
        StartIsNoNode(h, d, p);
        ReachedMoves(h, d, c, n);
      } else {
        ExistingLengthUnique(h, d, c, n);
      }
    } else {
      ExistingLengthUnique(h, d, c, n);
    }
  }

  /** The first missing name is no node after the real start, except a link: what
      the given path cannot find is not a file or directory there. */
  lemma StartIsNoNode(h: Host, d: Disk, p: Path)
    requires WellFormed(d) && ExistingLength(h, d, p) < |p|
    ensures var k := ExistingLength(h, d, p);
            var next := Find(h, d, p[..k]).value + [p[k]];
            next !in d || d[next].Link?
  {
    var k := ExistingLength(h, d, p);
    ExistingLengthIs(h, d, p);
    CanonicalStart(h, d, p);
    assert p[..k] + [p[k]] == p[..k + 1];
    WalkConcat(d, [], p[..k], [p[k]], h.linkLimit);
    var w := Walk(d, [], p[..k], h.linkLimit).value;
    assert !Exists(h, d, p[..k + 1]);
    WalkOne(d, w.at, p[k], w.links);
    hide Walk, WellFormed;
  }

  lemma WalkOne(d: Disk, at: Path, name: string, links: nat)
    requires WellFormed(d)
    ensures at + [name] in d && !d[at + [name]].Link? ==> Walk(d, at, [name], links).Some?
  {
    assert Parent(at + [name]) == at;
    assert [name][1..] == [];
  }

  /** A canonical path never goes through a link that can be followed. */
  lemma ReachedMoves(h: Host, d: Disk, c: Path, n: nat)
    requires WellFormed(d) && n < |c| && Exists(h, d, c[..n + 1])
    requires c[..n] in d && Find(h, d, c[..n]) == Some(c[..n])
    requires c[..n + 1] !in d || d[c[..n + 1]].Link?
    ensures CanonicalNames(h, d, c) != c
  {
    ExistingLengthIs(h, d, c);
    CanonicalStart(h, d, c);
    var k := ExistingLength(h, d, c);
    assert k >= n + 1;
    var base := Find(h, d, c[..k]).value;
    assert base + c[k..] == c ==> |base| == k && base == c[..k];
    if |base| > n {
      NoLinkOnWay(d, base, n + 1);
    }
    assert c[..k][..n + 1] == c[..n + 1];
  }

  lemma NoLinkOnWay(d: Disk, q: Path, j: nat)
    requires WellFormed(d) && q in d && !d[q].Link? && j <= |q|
    ensures q[..j] in d && !d[q[..j]].Link?
  {
    if j < |q| {
      PrefixIsDir(d, q, j);
    } else {
      assert q[..j] == q;
    }
  }

  // ---------------------------------------------------- the install boundary

  /** `canonicalPath(s)` as names. */
  function Canon(h: Host, d: Disk, s: string): Path {
    CanonicalNames(h, d, Segs(Resolve(h.cwd, s)))
  }

  datatype BoundaryArgs = BoundaryArgs(
    sourceRoot: Option<string>,
    installRoot: Option<string>,
    protectedRoots: seq<string>)

  datatype Roots = Roots(source: Path, target: Path)

  predicate Given(s: Option<string>) {
    s.Some? && s.value != ""
  }

  predicate RootsGiven(args: BoundaryArgs) {
    Given(args.sourceRoot) && Given(args.installRoot)
  }

  /** The roots that an installation must stay away from: the source first. */
  function ProtectedRoots(h: Host, d: Disk, args: BoundaryArgs): (ps: seq<Path>)
    requires Given(args.sourceRoot)
    ensures |ps| == |args.protectedRoots| + 1
  {
    [Canon(h, d, args.sourceRoot.value)]
    + seq(|args.protectedRoots|, i requires 0 <= i < |args.protectedRoots| => Canon(h, d, args.protectedRoots[i]))
  }

  /** Neither path lies in the other. */
  predicate Apart(p: Path, q: Path) {
    !(p <= q) && !(q <= p)
  }

  /** The target is not the file system root and apart from every protected root. */
  predicate BoundaryHolds(h: Host, d: Disk, args: BoundaryArgs)
    requires RootsGiven(args)
  {
    var target := Canon(h, d, args.installRoot.value);
    target != [] && forall i :: 0 <= i <= |args.protectedRoots| ==> Apart(target, ProtectedRoots(h, d, args)[i])
  }

  lemma CanonIsPath(h: Host, d: Disk, s: string)
    requires WellFormed(d)
    ensures IsPath(Canon(h, d, s))
  {
    var p := Segs(Resolve(h.cwd, s));
    SegsIsPath(Resolve(h.cwd, s));
    CanonicalStart(h, d, p);
    hide Segs, Resolve, Find;
  }

  /** The string test on canonical paths is the test on names. */
  lemma OverlapsOnNames(p: Path, q: Path)
    requires IsPath(p) && IsPath(q)
    ensures IsAbsolute(Render(p)) && IsAbsolute(Render(q))
    ensures Overlaps(Render(p), Render(q)) <==> !Apart(p, q)
  {
    RenderSegs(p);
    RenderSegs(q);
    hide Overlaps, Render, Segs;
    OverlapsMeansPrefix(Render(p), Render(q));
  }

  /** The argument that names a protected root: the source root first. */
  function RootArgument(args: BoundaryArgs, i: nat): string
    requires Given(args.sourceRoot) && i <= |args.protectedRoots|
  {
    if i == 0 then args.sourceRoot.value else args.protectedRoots[i - 1]
  }

  lemma ProtectedAt(h: Host, d: Disk, args: BoundaryArgs, i: nat)
    requires WellFormed(d) && Given(args.sourceRoot) && i <= |args.protectedRoots|
    ensures ProtectedRoots(h, d, args)[i] == Canon(h, d, RootArgument(args, i)) && IsPath(ProtectedRoots(h, d, args)[i])
  {
    CanonIsPath(h, d, RootArgument(args, i));
    hide Canon, IsPath;
  }

  /** `validateInstallBoundary`. */
  method ValidateInstallBoundary(h: Host, d: Disk, args: BoundaryArgs) returns (r: Result<Roots>)
    requires Sound(h) && WellFormed(d)
    ensures r.Ok? <==> RootsGiven(args) && BoundaryHolds(h, d, args)
    ensures r.Ok? ==> r.value == Roots(Canon(h, d, args.sourceRoot.value), Canon(h, d, args.installRoot.value))
    ensures r == Err("install-path-required") <==>
              || args.sourceRoot == None || args.sourceRoot == Some("")
              || args.installRoot == None || args.installRoot == Some("")
    ensures r == Err("install-target-unsafe") <==> RootsGiven(args) && Canon(h, d, args.installRoot.value) == []
  {
    hide CanonicalNames, Segs, Resolve, Overlaps, Render, Join, WellFormed, ProtectedRoots, Apart, IsPath;
    if !RootsGiven(args) {
      return Err("install-path-required");
    }
    var source := CanonicalPath(h, d, args.sourceRoot.value);
    var target := CanonicalPath(h, d, args.installRoot.value);
    assert source == Ok(Canon(h, d, args.sourceRoot.value)) && target == Ok(Canon(h, d, args.installRoot.value));
    if target.value == [] {
      return Err("install-target-unsafe");
    }
    CanonIsPath(h, d, args.installRoot.value);
    for i := 0 to |args.protectedRoots| + 1
      invariant forall j :: 0 <= j < i ==> Apart(target.value, ProtectedRoots(h, d, args)[j])
    {
      var p := CanonicalPath(h, d, RootArgument(args, i));
      ProtectedAt(h, d, args, i);
      OverlapsOnNames(target.value, p.value);
      if Overlaps(Render(target.value), Render(p.value)) {
        return Err("install-target-protected-overlap");
      }
    }
    return Ok(Roots(source.value, target.value));
  }

  // -------------------------------------------------------- settled targets

  /** Canonicalising the path again gives the path itself. */
  predicate Settled(h: Host, d: Disk, p: Path) {
    CanonicalNames(h, d, p) == p
  }

  lemma SettledStart(h: Host, d: Disk, p: Path)
    requires WellFormed(d) && Settled(h, d, p)
    ensures var k := ExistingLength(h, d, p);
            p[..k] in d && !d[p[..k]].Link?
  {
    CanonicalStart(h, d, p);
    var k := ExistingLength(h, d, p);
    var base := Find(h, d, p[..k]).value;
    assert |base| == k && base == (base + p[k..])[..k] == p[..k];
  }

  lemma NoLinkUpTo(d: Disk, p: Path, k: nat)
    requires WellFormed(d) && k <= |p| && p[..k] in d && !d[p[..k]].Link?
    ensures forall j :: 0 <= j <= k ==> p[..j] in d && !d[p[..j]].Link?
  {
    forall j | 0 <= j <= k ensures p[..j] in d && !d[p[..j]].Link? {
      assert p[..k][..j] == p[..j];
      NoLinkOnWay(d, p[..k], j);
    }
  }

  /** On the way to a settled path there are only dead links, and if it exists it
      is no link. */
  lemma SettledTame(h: Host, d: Disk, p: Path)
    requires WellFormed(d) && Settled(h, d, p)
    ensures Tame(h, d, p)
    ensures Exists(h, d, p) ==> p in d && !d[p].Link?
  {
    SettledStart(h, d, p);
    ExistingLengthIs(h, d, p);
    var k := ExistingLength(h, d, p);
    NoLinkUpTo(d, p, k);
    hide Find, Settled;
    assert p[..|p|] == p;
  }
}
