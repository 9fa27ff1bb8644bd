/** Canonical paths at the limit on links, and what the install boundary is worth
    there. */
module LinkLimits {
  import opened Outcome
  import opened Paths
  import opened Hosts
  import opened Disks
  import opened PathLookup
  import opened Boundary
  import opened NamedPlaces

  // ------------------------------------------------- only the limit matters

  /** A lookup that succeeded succeeds with more links, and has them left. */
  lemma {:induction false} WalkMoreLinks(d: Disk, at: Path, todo: Path, links: nat, more: nat)
    requires Walk(d, at, todo, links).Some?
    ensures var w := Walk(d, at, todo, links).value;
            Walk(d, at, todo, links + more) == Some(Found(w.at, w.links + more))
    decreases links, |todo|
  {
    if todo != [] {
      var next := at + [todo[0]];
      if d[next].Link? {
        WalkMoreLinks(d, [], d[next].dest + todo[1..], links - 1, more);
      } else {
        WalkMoreLinks(d, next, todo[1..], links, more);
      }
    }
  }

  /** The first missing name that can be reached from the real start could be looked
      up on the given path too, were it not for the limit: with twice the links it
      is found. */
  lemma ReachedNeedsMoreLinks(h: Host, d: Disk, p: Path)
    requires WellFormed(d) && Reached(h, d, p)
    ensures var k := ExistingLength(h, d, p);
            && Walk(d, [], p[..k + 1], h.linkLimit).None?
            && Walk(d, [], p[..k + 1], h.linkLimit + h.linkLimit).Some?
  {
    var k := ExistingLength(h, d, p);
    ExistingLengthIs(h, d, p);
    assert !Exists(h, d, p[..k + 1]);
    RealStart(h, d, p);
    hide Walk, WellFormed, ExistingLength, CanonicalNames;
    var w := StartWalk(h, d, p);
    assert p[..k] + [p[k]] == p[..k + 1];
    MoreLinksReach(d, p[..k], p[k], h.linkLimit, w);
  }

  lemma MoreLinksReach(d: Disk, a: Path, name: string, limit: nat, w: Found)
    requires WellFormed(d) && Walk(d, [], a, limit) == Some(w) && w.at in d && !d[w.at].Link?
    requires Walk(d, [], w.at + [name], limit).Some?
    ensures Walk(d, [], a + [name], limit + limit).Some?
  {
    hide Walk, WellFormed;
    StartOfWalk(d, w.at, name, limit);
    WalkMoreLinks(d, [], a, limit, limit);
    WalkMoreLinks(d, w.at, [name], limit, w.links);
    WalkConcat(d, [], a, [name], limit + limit);
  }

  lemma RealStart(h: Host, d: Disk, p: Path)
    requires WellFormed(d)
    ensures var base := Find(h, d, p[..ExistingLength(h, d, p)]);
            base.Some? && base.value in d && !d[base.value].Link?
  {
    CanonicalStart(h, d, p);
    hide Find, ExistingLength;
  }

  /** Looking up a name below a real directory is looking it up from there. */
  lemma StartOfWalk(d: Disk, at: Path, name: string, limit: nat)
    requires WellFormed(d) && at in d && !d[at].Link?
    ensures Walk(d, [], at + [name], limit) == Walk(d, at, [name], limit)
  {
    PresentIsStraight(d, at);
    assert at[..0] == [] && at[0..] == at;
    hide Walk, WellFormed, Straight;
    WalkStraight(d, at, 0, limit);
    WalkConcat(d, [], at, [name], limit);
  }

  // ------------------------------------------------------ where things land

  /** What is made at a path lands at its canonical path: once its directories are
      made, a directory is found at its canonical path, and was not there before if
      the path was missing. */
  lemma {:induction false} MakeDirsLands(h: Host, d: Disk, p: Path)
    requires WellFormed(d) && IsPath(p) && MakeDirs(h, d, p).Some?
    ensures var e := MakeDirs(h, d, p).value;
            && WellFormed(e) && Within(d, e) && (forall q :: q in e && q !in d ==> e[q] == Dir)
            && Find(h, e, p) == Some(CanonicalNames(h, d, p)) && IsDirAt(h, e, p)
            && (!Exists(h, d, p) ==> CanonicalNames(h, d, p) !in d)
    decreases |p|
  {
    assert p[..|p|] == p;
    if Exists(h, d, p) {
      ExistingIsCanonical(h, d, p);
      hide Walk, CanonicalNames;
    } else if p != [] {
      var q := Parent(p);
      MakeDirsLands(h, d, q);
      CanonicalOfMissing(h, d, p);
      hide CanonicalNames;
      var u := MakeDirs(h, d, q).value;
      hide Find;
      MissingIsMade(h, d, u, p, CanonicalNames(h, d, q));
    }
  }

  lemma ExistingIsCanonical(h: Host, d: Disk, p: Path)
    requires Exists(h, d, p)
    ensures Some(CanonicalNames(h, d, p)) == Find(h, d, p)
  {
    assert p[..|p|] == p && p[|p|..] == [];
    assert Find(h, d, p).value + [] == Find(h, d, p).value;
    hide Find;
  }

  lemma CanonicalOfMissing(h: Host, d: Disk, p: Path)
    requires p != [] && !Exists(h, d, p)
    ensures CanonicalNames(h, d, p) == CanonicalNames(h, d, Parent(p)) + [Last(p)]
  {
    var q := Parent(p);
    var k := ExistingLength(h, d, q);
    assert p[..k] == q[..k] && p[k..] == q[k..] + [Last(p)];
    hide Find;
  }

  /** The last directory on the way: it is made at the canonical path, or it came to
      exist there while the others were made. */
  lemma MissingIsMade(h: Host, d: Disk, u: Disk, p: Path, c: Path)
    requires WellFormed(d) && WellFormed(u) && Within(d, u) && (forall q :: q in u && q !in d ==> u[q] == Dir)
    requires p != [] && IsPath(p) && !Exists(h, d, p)
    requires Find(h, u, Parent(p)) == Some(c) && IsDirAt(h, u, Parent(p))
    requires if Exists(h, d, Parent(p)) then u == d else c !in d
    ensures var t := c + [Last(p)];
            var made := MakeDir(h, u, p);
            && (made.Some? ==>
                  made.value == u[t := Dir] && WellFormed(made.value) && t !in u && Find(h, made.value, p) == Some(t))
            && (made.None? && IsDirAt(h, u, p) ==> Find(h, u, p) == Some(t) && t !in d)
  {
    var t := c + [Last(p)];
    assert Parent(t) == c && Last(t) == Last(p);
    assert Place(h, u, p) == Some(t);
    if t !in u {
      AddWellFormed(u, t, Dir);
      FoundWherePlaced(h, u, u[t := Dir], p, c);
    } else {
      PresentIsNew(h, d, u, p, c);
    }
    hide Find, WellFormed, Place;
  }

  lemma PresentIsNew(h: Host, d: Disk, u: Disk, p: Path, c: Path)
    requires WellFormed(d) && WellFormed(u) && Within(d, u) && (forall q :: q in u && q !in d ==> u[q] == Dir)
    requires p != [] && !Exists(h, d, p) && Find(h, u, Parent(p)) == Some(c) && IsDirAt(h, u, Parent(p))
    requires if Exists(h, d, Parent(p)) then u == d else c !in d
    requires c + [Last(p)] in u
    ensures Exists(h, u, p) ==> Find(h, u, p) == Some(c + [Last(p)]) && c + [Last(p)] !in d
  {
    var t := c + [Last(p)];
    assert Parent(t) == c;
    if !u[t].Link? {
      FoundWherePlaced(h, u, u, p, c);
    }
    hide Find;
  }

  lemma FoundWherePlaced(h: Host, d: Disk, e: Disk, p: Path, c: Path)
    requires Within(d, e) && p != [] && Find(h, d, Parent(p)) == Some(c) && c in d && d[c] == Dir
    requires c + [Last(p)] in e && !e[c + [Last(p)]].Link?
    ensures Find(h, e, p) == Some(c + [Last(p)])
  {
    FindGrows(h, d, e, Parent(p));
    PlacedIsFound(h, e, p, c + [Last(p)]);
    hide Find;
  }

  /** What is made at a missing path, once its directories are made, is made at its
      canonical path. */
  lemma LandsAtCanonical(h: Host, d: Disk, p: Path)
    requires WellFormed(d) && IsPath(p) && p != [] && !Exists(h, d, p) && MakeDirs(h, d, Parent(p)).Some?
    ensures Place(h, MakeDirs(h, d, Parent(p)).value, p) == Some(CanonicalNames(h, d, p))
  {
    MakeDirsLands(h, d, Parent(p));
    CanonicalOfMissing(h, d, p);
    hide Find, CanonicalNames, MakeDirs;
  }

  // ---------------------------------------------------- when it is protected

  /** A path and its canonical path are the same, or neither starts with the path:
      a link cannot lead below itself. */
  lemma CanonicalIsNotBelow(h: Host, d: Disk, p: Path)
    requires WellFormed(d)
    ensures p <= CanonicalNames(h, d, p) ==> CanonicalNames(h, d, p) == p
  {
    var k := ExistingLength(h, d, p);
    ExistingLengthIs(h, d, p);
    CanonicalStart(h, d, p);
    var base := Find(h, d, p[..k]).value;
    var c := base + p[k..];
    if p <= c {
      assert base[..k] == c[..k] == p[..k];
      NoLinkOnWay(d, base, k);
      FindPresent(h, d, p[..k]);
      hide Find, WellFormed;
      assert base == p[..k] && c == p;
    }
  }

  /** A name longer than every name of a path is none of them. */
  function Longer(p: Path): (n: string)
    ensures IsName(n) && forall i :: 0 <= i < |p| ==> |p[i]| < |n|
  {
    if p == [] then "xxx"
    else
      var n := Longer(p[1..]);
      if |n| <= |p[0]| then seq(|p[0]| + 3, _ => 'x') else n
  }

  /** The boundary is a test on the target, and what is made at the target lands at
      its canonical path. The test of the one speaks for the other, against every
      conceivable place, exactly when the two are the same. */
  lemma TestSpeaksForPlace(h: Host, d: Disk, target: Path)
    requires WellFormed(d) && IsPath(target)
    ensures Settled(h, d, target) <==>
              forall q :: IsPath(q) && Apart(target, q) ==> Apart(CanonicalNames(h, d, target), q)
  {
    var c := CanonicalNames(h, d, target);
    CanonicalIsNotBelow(h, d, target);
    if c != target {
      var q := if c <= target then c + [Longer(target)] else c;
      CanonicalIsPath(h, d, target);
      assert IsPath(q) && !Apart(c, q);
      if c <= target {
        assert q[|c|] == Longer(target);
      }
      assert Apart(target, q);
    }
  }

  /** What is made at a missing target is made at its canonical path, and lies in a
      root exactly when the root named a place at or above that path before. */
  lemma LandsInRoot(h: Host, d: Disk, e: Disk, target: Path, root: Path)
    requires WellFormed(d) && IsPath(target) && target != [] && !Exists(h, d, target)
    requires MakeDirs(h, d, Parent(target)).Some? && WellFormed(e) && Extends(d, e)
    ensures var t := CanonicalNames(h, d, target);
            && Place(h, MakeDirs(h, d, Parent(target)).value, target) == Some(t)
            && (t in e ==> (LiesIn(h, e, root, t) <==> Denotes(h, d, root).Some? && Denotes(h, d, root).value <= t))
  {
    hide *;
    LandsAtCanonical(h, d, target);
    if CanonicalNames(h, d, target) in e {
      BoundaryProtects(h, d, e, root, CanonicalNames(h, d, target));
    }
  }

  lemma CanonicalIsPath(h: Host, d: Disk, p: Path)
    requires WellFormed(d) && IsPath(p)
    ensures IsPath(CanonicalNames(h, d, p))
  {
    CanonicalStart(h, d, p);
    hide Find;
  }

  // --------------------------------------------------------------- an example

  /** /r leads to the root, and /m to the directory /p. */
  function LoopDisk(): Disk {
    map[[] := Dir][["p"] := Dir][["r"] := Link([])][["m"] := Link(["p"])]
  }

  lemma LoopWellFormed()
    ensures WellFormed(LoopDisk())
  {
    var d: Disk := map[[] := Dir];
    assert WellFormed(d);
    assert Parent(["p"]) == [] && Parent(["r"]) == [] && Parent(["m"]) == [];
    assert IsName("p") && IsName("r") && IsName("m") && IsPath(["p"]) && IsPath([]);
    hide WellFormed, IsPath, Parent;
    AddWellFormed(d, ["p"], Dir);
    AddWellFormed(d[["p"] := Dir], ["r"], Link([]));
    AddWellFormed(d[["p"] := Dir][["r"] := Link([])], ["m"], Link(["p"]));
  }

  /** /r/r/.../r, each of which uses up one link. */
  function Loops(n: nat): Path {
    seq(n, _ => "r")
  }

  lemma {:induction false} WalkLoops(n: nat, rest: Path, links: nat)
    requires n <= links
    ensures Walk(LoopDisk(), [], Loops(n) + rest, links) == Walk(LoopDisk(), [], rest, links - n)
  {
    if n == 0 {
      assert Loops(0) + rest == rest;
    } else {
      var todo := Loops(n) + rest;
      assert todo[1..] == Loops(n - 1) + rest && [] + [todo[0]] == ["r"] && [] + todo[1..] == todo[1..];
      hide Loops;
      WalkLoops(n - 1, rest, links - 1);
    }
  }

  /** On every host that follows links at all: canonicalising twice differs for the
      path that uses up all links before it comes to /m. */
  lemma CanonicalNotIdempotent(h: Host)
    requires h.linkLimit > 0
    ensures var d := LoopDisk();
            && WellFormed(d)
            && CanonicalNames(h, d, Loops(h.linkLimit) + ["m"]) == ["m"]
            && CanonicalNames(h, d, ["m"]) == ["p"]
  {
    hide LoopDisk, Loops, WellFormed, CanonicalNames;
    LoopWellFormed();
    LoopCanonical(h, []);
    MarkCanonical(h, []);
    assert ["m"] + [] == ["m"] && ["p"] + [] == ["p"];
    assert Loops(h.linkLimit) + ["m"] + [] == Loops(h.linkLimit) + ["m"];
  }

  lemma WalkMark(rest: Path, links: nat)
    ensures Walk(LoopDisk(), [], ["m"] + rest, links) ==
            if links == 0 then None else Walk(LoopDisk(), [], ["p"] + rest, links - 1)
    ensures Walk(LoopDisk(), [], ["p"] + rest, links) == Walk(LoopDisk(), ["p"], rest, links)
  {
    assert (["m"] + rest)[1..] == rest && [] + [(["m"] + rest)[0]] == ["m"];
    assert (["p"] + rest)[1..] == rest && [] + [(["p"] + rest)[0]] == ["p"];
  }

  /** The canonical path stops where the links are used up. */
  lemma LoopCanonical(h: Host, rest: Path)
    requires h.linkLimit > 0
    ensures CanonicalNames(h, LoopDisk(), Loops(h.linkLimit) + ["m"] + rest) == ["m"] + rest
  {
    var d, n := LoopDisk(), h.linkLimit;
    var p := Loops(n) + ["m"] + rest;
    LoopWellFormed();
    WalkLoops(n, [], n);
    WalkLoops(n, ["m"], n);
    WalkMark([], 0);
    assert ["m"] + [] == ["m"] && Loops(n) + [] == Loops(n);
    assert p[..n] == Loops(n) && p[..n + 1] == Loops(n) + ["m"] && p[n..] == ["m"] + rest;
    hide LoopDisk, WellFormed, Loops;
    ExistingLengthUnique(h, d, p, n);
  }

  /** From the real start /m is followed. */
  lemma MarkCanonical(h: Host, rest: Path)
    requires h.linkLimit > 0 && (rest == [] || (|rest| == 1 && ["p"] + rest !in LoopDisk()))
    ensures CanonicalNames(h, LoopDisk(), ["m"] + rest) == ["p"] + rest
    ensures Find(h, LoopDisk(), ["m"]) == Some(["p"])
  {
    var d, n := LoopDisk(), h.linkLimit;
    var p := ["m"] + rest;
    LoopWellFormed();
    WalkMark([], n);
    WalkMark(rest, n);
    WalkMark([], n - 1);
    WalkMark(rest, n - 1);
    assert ["m"] + [] == ["m"] && ["p"] + [] == ["p"];
    assert p[..1] == ["m"] && p[1..] == rest && (rest != [] ==> p[..2] == p && rest[1..] == [] && [rest[0]] == rest);
    assert rest != [] ==> Walk(d, ["p"], rest, n - 1).None?;
    hide LoopDisk, WellFormed;
    ExistingLengthUnique(h, d, p, 1);
  }

  /** There the boundary does not protect: the canonical path /m/t passes the test
      against the protected root /p, and what is made there lands in /p. */
  lemma UnsettledEscapes(h: Host)
    requires h.linkLimit > 0
    ensures var d := LoopDisk();
            var t := CanonicalNames(h, d, Loops(h.linkLimit) + ["m", "t"]);
            && WellFormed(d) && ["p"] in d && d[["p"]] == Dir && CanonicalNames(h, d, ["p"]) == ["p"]
            && t == ["m", "t"] && Apart(t, ["p"]) && !Settled(h, d, t)
            && Place(h, d, t) == Some(["p", "t"])
  {
    var d := LoopDisk();
    LoopWellFormed();
    LoopCanonical(h, ["t"]);
    assert Loops(h.linkLimit) + ["m"] + ["t"] == Loops(h.linkLimit) + ["m", "t"] && ["m"] + ["t"] == ["m", "t"];
    assert ["p"] + ["t"] == ["p", "t"] && "m"[0] != "p"[0] && ["m", "t"][0] != ["p"][0];
    MarkCanonical(h, ["t"]);
    RealIsCanonical(h, d, ["p"]);
    assert Parent(["m", "t"]) == ["m"];
    hide WellFormed, Loops;
  }

  lemma RealIsCanonical(h: Host, d: Disk, p: Path)
    requires WellFormed(d) && p in d && !d[p].Link?
    ensures CanonicalNames(h, d, p) == p
  {
    FindPresent(h, d, p);
    assert p[..|p|] == p && p[|p|..] == [];
    hide Find;
  }
}
