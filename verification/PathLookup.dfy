/** What path lookup depends on: growing the disk never changes a lookup that
    succeeded, and neither does removing a leaf it did not end at. */
module PathLookup {
  import opened Outcome
  import opened Paths
  import opened Hosts
  import opened Disks

  /** Every node of `d` is in `e` unchanged. */
  ghost predicate Within(d: Disk, e: Disk) {
    forall p :: p in d ==> p in e && e[p] == d[p]
  }

  /** No name of `p` is a link. */
  predicate Straight(d: Disk, p: Path) {
    forall k :: 0 <= k <= |p| && p[..k] in d ==> !d[p[..k]].Link?
  }

  lemma {:induction false} PrefixIsDir(d: Disk, p: Path, k: nat)
    requires WellFormed(d) && p in d && k < |p|
    ensures p[..k] in d && d[p[..k]] == Dir
    decreases |p|
  {
    if k < |p| - 1 {
      PrefixIsDir(d, Parent(p), k);
      assert Parent(p)[..k] == p[..k];
    }
  }

  lemma PrefixPresent(d: Disk, p: Path, q: Path)
    requires WellFormed(d) && p in d && q <= p
    ensures q in d
  {
    assert q == p[..|q|] && p[..|p|] == p;
    if |q| < |p| {
      PrefixIsDir(d, p, |q|);
    }
  }

  lemma StepPresent(d: Disk, p: Path, n: nat)
    requires WellFormed(d) && n < |p|
    ensures p in d ==> d.Keys >= {p[..n], p[..n + 1]} && d[p[..n]] == Dir
  {
    if p in d {
      PrefixIsDir(d, p, n);
      if n + 1 < |p| {
        PrefixIsDir(d, p, n + 1);
      } else {
        assert p[..n + 1] == p;
      }
    }
  }

  lemma PresentIsStraight(d: Disk, p: Path)
    requires WellFormed(d) && p in d && !d[p].Link?
    ensures Straight(d, p)
  {
    forall k | 0 <= k <= |p| ensures p[..k] in d && !d[p[..k]].Link? {
      if k < |p| {
        PrefixIsDir(d, p, k);
      } else {
        assert p[..k] == p;
      }
    }
  }

  lemma StraightPrefix(d: Disk, p: Path, n: nat)
    requires Straight(d, p) && n <= |p|
    ensures Straight(d, p[..n])
  {
    forall k | 0 <= k <= n ensures p[..n][..k] == p[..k] {
    }
  }

  lemma StraightParent(d: Disk, p: Path)
    requires Straight(d, p)
    ensures Straight(d, Parent(p))
  {
    StraightPrefix(d, p, |Parent(p)|);
  }

  /** Fewer nodes, no more links. */
  lemma StraightWithin(d: Disk, e: Disk, p: Path)
    requires Within(e, d) && Straight(d, p)
    ensures Straight(e, p)
  {
    forall k | 0 <= k <= |p| && p[..k] in e ensures !e[p[..k]].Link? {
      assert p[..k] in d;
    }
  }

  /** A lookup ends at a node that is not a link. */
  lemma {:induction false} WalkEnds(d: Disk, at: Path, todo: Path, links: nat)
    requires WellFormed(d) && at in d && !d[at].Link?
    requires Walk(d, at, todo, links).Some?
    ensures var q := Walk(d, at, todo, links).value.at;
            q in d && !d[q].Link? && (todo == [] || q == [] || d[Parent(q)] == Dir)
    ensures Walk(d, at, todo, links).value.links <= links
    decreases links, |todo|
  {
    if todo != [] {
      var next := at + [todo[0]];
      if d[next].Link? {
        WalkEnds(d, [], d[next].dest + todo[1..], links - 1);
      } else {
        WalkEnds(d, next, todo[1..], links);
        assert Parent(next) == at;
      }
    }
  }

  lemma FindEnds(h: Host, d: Disk, p: Path)
    requires WellFormed(d) && Find(h, d, p).Some?
    ensures Find(h, d, p).value in d && !d[Find(h, d, p).value].Link?
  {
    WalkEnds(d, [], p, h.linkLimit);
  }

  /** Looking up two parts in turn. */
  lemma {:induction false} WalkConcat(d: Disk, at: Path, a: Path, b: Path, links: nat)
    ensures Walk(d, at, a + b, links) ==
            var r := Walk(d, at, a, links);
            if r.None? then None else Walk(d, r.value.at, b, r.value.links)
    decreases links, |a|
  {
    if a == [] {
      assert a + b == b;
    } else if at in d && d[at] == Dir && at + [a[0]] in d {
      var next := at + [a[0]];
      assert (a + b)[0] == a[0] && (a + b)[1..] == a[1..] + b;
      if d[next].Link? {
        if links > 0 {
          assert d[next].dest + (a + b)[1..] == (d[next].dest + a[1..]) + b;
          WalkConcat(d, [], d[next].dest + a[1..], b, links - 1);
        }
      } else {
        WalkConcat(d, next, a[1..], b, links);
      }
    }
  }

  /** A straight path is found at itself, or not at all. */
  lemma {:induction false} WalkStraight(d: Disk, p: Path, n: nat, links: nat)
    requires WellFormed(d) && n <= |p| && Straight(d, p) && p[..n] in d
    ensures Walk(d, p[..n], p[n..], links) == if p in d then Some(Found(p, links)) else None
    decreases |p| - n
  {
    if n == |p| {
      assert p[..n] == p;
    } else {
      var next := p[..n] + [p[n..][0]];
      assert next == p[..n + 1];
      if next in d && d[p[..n]] == Dir {
        assert p[n..][1..] == p[n + 1..];
        WalkStraight(d, p, n + 1, links);
      } else {
        StepPresent(d, p, n);
      }
    }
  }

  lemma FindStraight(h: Host, d: Disk, p: Path)
    requires WellFormed(d) && Straight(d, p)
    ensures Find(h, d, p) == if p in d then Some(p) else None
  {
    assert p[..0] == [] && p[0..] == p;
    WalkStraight(d, p, 0, h.linkLimit);
  }

  lemma FindPresent(h: Host, d: Disk, p: Path)
    requires WellFormed(d) && p in d && !d[p].Link?
    ensures Find(h, d, p) == Some(p)
  {
    PresentIsStraight(d, p);
    FindStraight(h, d, p);
  }

  /** An operation on the last name of a straight path acts on that very path. */
  lemma PlaceStraight(h: Host, d: Disk, p: Path)
    requires WellFormed(d) && p != [] && Straight(d, Parent(p))
    ensures Place(h, d, p) == if Parent(p) in d && d[Parent(p)] == Dir then Some(p) else None
  {
    FindStraight(h, d, Parent(p));
    assert Parent(p) + [Last(p)] == p;
  }

  lemma PlacePresent(h: Host, d: Disk, p: Path)
    requires WellFormed(d) && p in d
    ensures Place(h, d, p) == Some(p)
  {
    if p != [] {
      PresentIsStraight(d, Parent(p));
      PlaceStraight(h, d, p);
    }
  }

  lemma PlaceEnds(h: Host, d: Disk, p: Path)
    requires WellFormed(d) && p != [] && Place(h, d, p).Some?
    ensures var c := Place(h, d, p).value;
            c != [] && Parent(c) in d && d[Parent(c)] == Dir && Last(c) == Last(p)
  {
    var q := Find(h, d, Parent(p)).value;
    assert Parent(q + [Last(p)]) == q;
  }

  lemma WalkLast(d: Disk, at: Path, name: string, links: nat)
    requires at in d && d[at] == Dir && at + [name] in d && !d[at + [name]].Link?
    ensures Walk(d, at, [name], links) == Some(Found(at + [name], links))
  {
    assert [name][1..] == [];
  }

  lemma PlacedIsFound(h: Host, d: Disk, p: Path, c: Path)
    requires p != [] && Place(h, d, p) == Some(c) && c in d && !d[c].Link?
    ensures Find(h, d, p) == Some(c)
  {
    var w := Walk(d, [], Parent(p), h.linkLimit).value;
    WalkLast(d, w.at, Last(p), w.links);
    hide Walk;
    WalkConcat(d, [], Parent(p), [Last(p)], h.linkLimit);
    assert Parent(p) + [Last(p)] == p;
  }

  /** A lookup that succeeded gives the same on every larger disk. */
  lemma {:induction false} WalkGrows(d: Disk, e: Disk, at: Path, todo: Path, links: nat)
    requires Within(d, e) && Walk(d, at, todo, links).Some?
    ensures Walk(e, at, todo, links) == Walk(d, at, todo, links)
    decreases links, |todo|
  {
    if todo != [] {
      var next := at + [todo[0]];
      if d[next].Link? {
        WalkGrows(d, e, [], d[next].dest + todo[1..], links - 1);
      } else {
        WalkGrows(d, e, next, todo[1..], links);
      }
    }
  }

  /** Removing a file or an empty directory keeps every lookup that does not end
      there. */
  lemma {:induction false} WalkKeeps(d: Disk, x: Path, at: Path, todo: Path, links: nat)
    requires x in d && !d[x].Link? && !HasChild(d, x)
    requires Walk(d, at, todo, links).Some? && Walk(d, at, todo, links).value.at != x
    ensures Walk(d - {x}, at, todo, links) == Walk(d, at, todo, links)
    decreases links, |todo|
  {
    if todo != [] {
      var next := at + [todo[0]];
      assert Parent(next) == at;
      assert at != x;
      if d[next].Link? {
        WalkKeeps(d, x, [], d[next].dest + todo[1..], links - 1);
      } else {
        assert |todo| > 1 ==> Parent(next + [todo[1..][0]]) == next;
        WalkKeeps(d, x, next, todo[1..], links);
      }
    }
  }

  lemma FindKeeps(h: Host, d: Disk, x: Path, p: Path)
    requires x in d && !d[x].Link? && !HasChild(d, x)
    requires Find(h, d, p).Some? && Find(h, d, p).value != x
    ensures Find(h, d - {x}, p) == Find(h, d, p)
  {
    WalkKeeps(d, x, [], p, h.linkLimit);
  }

  lemma FindGrows(h: Host, d: Disk, e: Disk, p: Path)
    requires Within(d, e) && Find(h, d, p).Some?
    ensures Find(h, e, p) == Find(h, d, p)
  {
    WalkGrows(d, e, [], p, h.linkLimit);
  }

  // ---------------------------------------------- operations keep the shape

  lemma AddWellFormed(d: Disk, c: Path, n: Node)
    requires WellFormed(d) && c !in d && c != [] && Parent(c) in d && d[Parent(c)] == Dir
    requires IsName(Last(c)) && (n.Link? ==> IsPath(n.dest))
    ensures WellFormed(d[c := n])
  {
    var e := d[c := n];
    assert c == Parent(c) + [Last(c)];
    forall p | p in e && p != [] ensures Parent(p) in e && e[Parent(p)] == Dir {
    }
  }

  lemma RemoveWellFormed(d: Disk, x: Path)
    requires WellFormed(d) && x in d && x != [] && !HasChild(d, x)
    ensures WellFormed(d - {x})
  {
    var e := d - {x};
    forall p | p in e && p != [] ensures Parent(p) in e && e[Parent(p)] == Dir {
      assert Parent(p) != x;
    }
  }

  lemma RemoveTreeWellFormed(d: Disk, x: Path)
    requires WellFormed(d) && x != []
    ensures WellFormed(RemoveTree(d, x))
  {
    var e := RemoveTree(d, x);
    forall p | p in e && p != [] ensures Parent(p) in e && e[Parent(p)] == Dir {
      assert Parent(p) <= p;
      assert !(x <= Parent(p));
    }
  }

  lemma FileHasNoChild(d: Disk, x: Path)
    requires WellFormed(d) && x in d && d[x] != Dir
    ensures !HasChild(d, x)
  {
  }
}
