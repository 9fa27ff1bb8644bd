/** The place that a path names, whether or not it is there, and when an
    installation overlaps the place that a protected root names. */
module NamedPlaces {
  import opened Outcome
  import opened Paths
  import opened Hosts
  import opened Disks
  import opened PathLookup
  import opened Listing
  import opened Boundary

  // ---------------------------------------------------------- named places

  /** A lookup that goes on where nothing is, but follows every link. */
  function Follow(d: Disk, at: Path, todo: Path, links: nat): Option<Found>
    decreases links, |todo|
  {
    if todo == [] then Some(Found(at, links))
    else
      var next := at + [todo[0]];
      if next in d && d[next].Link? then
        if links == 0 then None else Follow(d, [], d[next].dest + todo[1..], links - 1)
      else Follow(d, next, todo[1..], links)
  }

  /** The place that `p` names, unless its links are too many. */
  function Denotes(h: Host, d: Disk, p: Path): Option<Path> {
    var r := Follow(d, [], p, h.linkLimit);
    if r.None? then None else Some(r.value.at)
  }

  /** `e` is `d` with more files and directories. */
  ghost predicate Extends(d: Disk, e: Disk) {
    Within(d, e) && forall q :: q in e && q !in d ==> !e[q].Link?
  }

  lemma StraightStays(d: Disk, e: Disk, p: Path)
    requires Extends(d, e) && Straight(d, p)
    ensures Straight(e, p)
  {
    forall k | 0 <= k <= |p| && p[..k] in e ensures !e[p[..k]].Link? {
      assert p[..k] in d ==> e[p[..k]] == d[p[..k]];
    }
  }

  /** The longest existing ancestor of a straight path is found at itself, so a
      straight path is its own canonical path. */
  lemma StraightIsCanonical(h: Host, d: Disk, p: Path)
    requires WellFormed(d) && Straight(d, p)
    ensures CanonicalNames(h, d, p) == p
  {
    var k := ExistingLength(h, d, p);
    ExistingLengthIs(h, d, p);
    StraightPrefix(d, p, k);
    FindStraight(h, d, p[..k]);
    assert p[..k] + p[k..] == p;
  }

  /** Files and directories do not matter for what is named. */
  lemma {:induction false} FollowStays(d: Disk, e: Disk, at: Path, todo: Path, links: nat)
    requires Extends(d, e)
    ensures Follow(e, at, todo, links) == Follow(d, at, todo, links)
    decreases links, |todo|
  {
    if todo != [] {
      var next := at + [todo[0]];
      assert next in e && e[next].Link? <==> next in d && d[next].Link?;
      hide Extends;
      if next in d && d[next].Link? {
        if links > 0 {
          FollowStays(d, e, [], d[next].dest + todo[1..], links - 1);
        }
      } else {
        FollowStays(d, e, next, todo[1..], links);
      }
    }
  }

  /** A path names the same place while files and directories are added. */
  lemma DenotesStays(h: Host, d: Disk, e: Disk, p: Path)
    requires Extends(d, e)
    ensures Denotes(h, e, p) == Denotes(h, d, p)
  {
    FollowStays(d, e, [], p, h.linkLimit);
  }

  /** Below what is no directory there is nothing to follow. */
  lemma {:induction false} FollowMissing(d: Disk, at: Path, todo: Path, links: nat)
    requires WellFormed(d) && (at in d ==> d[at] != Dir)
    ensures Follow(d, at, todo, links) == Some(Found(at + todo, links))
    ensures todo != [] ==> at + todo !in d
    decreases |todo|
  {
    if todo == [] {
      assert at + todo == at;
    } else {
      var next := at + [todo[0]];
      assert Parent(next) == at && next !in d;
      assert next + todo[1..] == at + todo;
      hide WellFormed;
      FollowMissing(d, next, todo[1..], links);
      if todo[1..] == [] {
        assert at + todo == next;
      }
    }
  }

  /** A lookup finds the place that is named, if it is there. */
  lemma {:induction false} WalkIsFollow(d: Disk, at: Path, todo: Path, links: nat)
    requires WellFormed(d) && at in d && !d[at].Link?
    ensures var r := Follow(d, at, todo, links);
            Walk(d, at, todo, links) == if r.Some? && r.value.at in d then r else None
    decreases links, |todo|
  {
    hide WellFormed, Straight;
    RootIsStraight(d);
    if todo != [] {
      var next := at + [todo[0]];
      if d[at] != Dir || next !in d {
        StopsHere(d, at, todo, links);
      } else if d[next].Link? {
        if links > 0 {
          WalkIsFollow(d, [], d[next].dest + todo[1..], links - 1);
        }
      } else {
        WalkIsFollow(d, next, todo[1..], links);
      }
    }
  }

  lemma StopsHere(d: Disk, at: Path, todo: Path, links: nat)
    requires WellFormed(d) && at in d && !d[at].Link? && todo != [] && (d[at] != Dir || at + [todo[0]] !in d)
    ensures Walk(d, at, todo, links).None?
    ensures Follow(d, at, todo, links).Some? && Follow(d, at, todo, links).value.at !in d
  {
    var next := at + [todo[0]];
    assert Parent(next) == at;
    assert next !in d;
    hide WellFormed;
    FollowMissing(d, next, todo[1..], links);
    assert todo[1..] == [] ==> next + todo[1..] == next;
  }

  /** What is found at `p`, now and whenever files and directories have been added:
      the place that `p` names, once something is there. */
  lemma FindIsDenoted(h: Host, d: Disk, e: Disk, p: Path)
    requires WellFormed(e) && Extends(d, e)
    ensures var q := Denotes(h, d, p);
            Find(h, e, p) == if q.Some? && q.value in e then q else None
  {
    WalkIsFollow(e, [], p, h.linkLimit);
    FollowStays(d, e, [], p, h.linkLimit);
    hide Walk, Follow, WellFormed, Extends;
  }

  // -------------------------------------------------------- canonical paths

  lemma {:induction false} FollowConcat(d: Disk, at: Path, a: Path, b: Path, links: nat)
    ensures Follow(d, at, a + b, links) ==
            var r := Follow(d, at, a, links);
            if r.None? then None else Follow(d, r.value.at, b, r.value.links)
    decreases links, |a|
  {
    if a == [] {
      assert a + b == b;
    } else {
      var next := at + [a[0]];
      assert (a + b)[0] == a[0] && (a + b)[1..] == a[1..] + b;
      if next in d && d[next].Link? {
        if links > 0 {
          assert d[next].dest + (a + b)[1..] == (d[next].dest + a[1..]) + b;
          FollowConcat(d, [], d[next].dest + a[1..], b, links - 1);
        }
      } else {
        FollowConcat(d, next, a[1..], b, links);
      }
    }
  }

  lemma {:induction false} FollowStraight(d: Disk, p: Path, n: nat, links: nat)
    requires n <= |p| && Straight(d, p)
    ensures Follow(d, p[..n], p[n..], links) == Some(Found(p, links))
    decreases |p| - n
  {
    if n == |p| {
      assert p[..n] == p;
    } else {
      assert p[..n] + [p[n..][0]] == p[..n + 1] && p[n..][1..] == p[n + 1..];
      FollowStraight(d, p, n + 1, links);
    }
  }

  lemma StraightNext(d: Disk, at: Path, name: string)
    requires Straight(d, at) && (at + [name] in d ==> !d[at + [name]].Link?)
    ensures Straight(d, at + [name])
  {
    var p := at + [name];
    forall k | 0 <= k <= |p| && p[..k] in d ensures !d[p[..k]].Link? {
      assert if k <= |at| then p[..k] == at[..k] else p[..k] == p;
    }
  }

  /** No link is on the way to a place that is named. */
  lemma {:induction false} FollowEnds(d: Disk, at: Path, todo: Path, links: nat)
    requires WellFormed(d) && Straight(d, at) && Follow(d, at, todo, links).Some?
    ensures Straight(d, Follow(d, at, todo, links).value.at)
    decreases links, |todo|
  {
    if todo != [] {
      var next := at + [todo[0]];
      if next in d && d[next].Link? {
        PresentIsStraight(d, []);
        hide Straight, WellFormed;
        FollowEnds(d, [], d[next].dest + todo[1..], links - 1);
      } else {
        StraightNext(d, at, todo[0]);
        hide Straight, WellFormed;
        FollowEnds(d, next, todo[1..], links);
      }
    }
  }

  /** A path names its canonical path exactly when no link is on the way there. Only
      a link that leads nowhere can be. */
  lemma DenotesCanonical(h: Host, d: Disk, p: Path)
    requires WellFormed(d)
    ensures Denotes(h, d, p) == Some(CanonicalNames(h, d, p)) <==> Straight(d, CanonicalNames(h, d, p))
  {
    hide Walk, Straight, WellFormed, CanonicalNames, ExistingLength;
    var k := ExistingLength(h, d, p);
    var c := CanonicalNames(h, d, p);
    var w := StartWalk(h, d, p);
    RootIsStraight(d);
    WalkIsFollow(d, [], p[..k], h.linkLimit);
    assert p[..k] + p[k..] == p && c[..|w.at|] == w.at && c[|w.at|..] == p[k..];
    FollowConcat(d, [], p[..k], p[k..], h.linkLimit);
    if Straight(d, c) {
      FollowStraight(d, c, |w.at|, w.links);
    }
    if Denotes(h, d, p) == Some(c) {
      FollowEnds(d, [], p, h.linkLimit);
    }
  }

  lemma RootIsStraight(d: Disk)
    requires WellFormed(d)
    ensures [] in d && !d[[]].Link? && Straight(d, [])
  {
  }

  // -------------------------------------------------------- protected roots

  /** What lies at `t` and what is found at `p` overlap. */
  predicate Overlapping(h: Host, e: Disk, p: Path, t: Path) {
    Find(h, e, p).Some? && !Apart(t, Find(h, e, p).value)
  }

  /** What lies at `t` lies in what is found at `p`. */
  predicate LiesIn(h: Host, e: Disk, p: Path, t: Path) {
    Find(h, e, p).Some? && Find(h, e, p).value <= t
  }

  /** The place that `p` names is apart from `t`, or there is none. */
  predicate NamedApart(h: Host, d: Disk, p: Path, t: Path) {
    Denotes(h, d, p).Some? ==> Apart(t, Denotes(h, d, p).value)
  }

  /** Something is made at `t` while files and directories are added. Then it lies in
      what is found at `p` exactly when `p` named a place at or above `t` before, and
      the two overlap exactly when `p` named a place that is not apart from `t` and
      that is there now. */
  lemma BoundaryProtects(h: Host, d: Disk, e: Disk, p: Path, t: Path)
    requires WellFormed(e) && Extends(d, e) && t in e
    ensures LiesIn(h, e, p, t) <==> Denotes(h, d, p).Some? && Denotes(h, d, p).value <= t
    ensures Overlapping(h, e, p, t) <==> !NamedApart(h, d, p, t) && Denotes(h, d, p).value in e
  {
    FindIsDenoted(h, d, e, p);
    if Denotes(h, d, p).Some? && Denotes(h, d, p).value <= t {
      PrefixPresent(e, t, Denotes(h, d, p).value);
    }
    hide Find, Denotes, WellFormed, Extends;
  }

  /** The overlap test compares `t` with canonical paths. It sees an overlap exactly
      when the canonical path has no link on it and names a place that is not apart
      from `t`: it misses the roots whose canonical path goes through a link that
      leads nowhere yet. */
  lemma TestSees(h: Host, d: Disk, p: Path, t: Path)
    requires WellFormed(d) && Straight(d, t) && NoLinks(d, t)
    ensures Apart(t, CanonicalNames(h, d, p)) <==>
              NamedApart(h, d, p, t) || !Straight(d, CanonicalNames(h, d, p))
  {
    var c := CanonicalNames(h, d, p);
    DenotesCanonical(h, d, p);
    if !Apart(t, c) {
      OverlapIsStraight(d, t, c);
    }
    hide Denotes, CanonicalNames, Straight, WellFormed, NoLinks;
  }

  lemma OverlapIsStraight(d: Disk, t: Path, c: Path)
    requires Straight(d, t) && NoLinks(d, t) && !Apart(t, c)
    ensures Straight(d, c)
  {
    forall k | 0 <= k <= |c| && c[..k] in d ensures !d[c[..k]].Link? {
      if k <= |t| {
        assert c[..k] == t[..k];
      } else {
        assert t < c[..k];
      }
    }
  }
}
