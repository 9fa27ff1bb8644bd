/** `walkFiles` lists every regular file below a directory once, and succeeds
    exactly when there is no link below it. */
module Listing {
  import opened Outcome
  import opened Paths
  import opened Hosts
  import opened Disks
  import opened PathLookup

  /** No symbolic link strictly below `p`. */
  ghost predicate NoLinks(d: Disk, p: Path) {
    forall q :: q in d && p < q ==> !d[q].Link?
  }

  predicate IsFileBelow(d: Disk, p: Path, r: Path) {
    r != [] && p + r in d && d[p + r].File?
  }

  ghost predicate NoRepeats(ps: seq<Path>) {
    forall i, j :: 0 <= i < j < |ps| ==> ps[i] != ps[j]
  }

  /** `ps` are the files below `p`, each once. */
  ghost predicate ListsFiles(d: Disk, p: Path, ps: seq<Path>) {
    NoRepeats(ps) && forall r :: r in ps <==> IsFileBelow(d, p, r)
  }

  /** The same for the entries named in `names` only. */
  ghost predicate ListsNames(d: Disk, p: Path, names: seq<string>, ps: seq<Path>) {
    NoRepeats(ps) && forall r :: r in ps <==> IsFileBelow(d, p, r) && r[0] in names
  }

  ghost predicate EntryClean(d: Disk, p: Path, n: string) {
    p + [n] in d ==> !d[p + [n]].Link? && NoLinks(d, p + [n])
  }

  lemma {:induction false} ListTreeExact(h: Host, d: Disk, p: Path)
    requires Sound(h) && WellFormed(d) && p in d && d[p] == Dir
    ensures ListTree(h, d, p).Ok? <==> NoLinks(d, p)
    ensures ListTree(h, d, p).Ok? ==> ListsFiles(d, p, ListTree(h, d, p).value)
    decreases Strictly(d, p), 1, 0
  {
    var names := h.listing(p, EntryNames(d, p));
    assert Lists(names, EntryNames(d, p));
    ListNamesExact(h, d, p, names);
    EntriesCover(d, p, names);
  }

  /** The first name below `p` on the way to a present path is an entry of `p`. */
  lemma FirstPresent(d: Disk, p: Path, q: Path)
    requires WellFormed(d) && q in d && p < q
    ensures var n := q[|p|]; p + [n] in d && p + [n] <= q
  {
    assert p + [q[|p|]] == q[..|p| + 1];
    if |q| > |p| + 1 {
      PrefixIsDir(d, q, |p| + 1);
    } else {
      assert q[..|p| + 1] == q;
    }
  }

  lemma NothingBelowFile(d: Disk, c: Path)
    requires WellFormed(d) && c in d && d[c] != Dir
    ensures forall q :: q in d ==> !(c < q)
  {
    forall q | q in d && |c| < |q| ensures q[..|c|] != c {
      PrefixIsDir(d, q, |c|);
    }
  }

  lemma EntriesCover(d: Disk, p: Path, names: seq<string>)
    requires WellFormed(d) && p in d && Lists(names, EntryNames(d, p))
    ensures (forall i :: 0 <= i < |names| ==> EntryClean(d, p, names[i])) <==> NoLinks(d, p)
    ensures forall r :: IsFileBelow(d, p, r) ==> r[0] in names
  {
    if forall i :: 0 <= i < |names| ==> EntryClean(d, p, names[i]) {
      forall q | q in d && p < q ensures !d[q].Link? {
        EntryLinkFree(d, p, names, q);
      }
    }
    forall r | IsFileBelow(d, p, r) ensures r[0] in names {
      FirstPresent(d, p, p + r);
      assert (p + r)[|p|] == r[0];
    }
  }

  lemma EntryLinkFree(d: Disk, p: Path, names: seq<string>, q: Path)
    requires WellFormed(d) && Lists(names, EntryNames(d, p))
    requires forall i :: 0 <= i < |names| ==> EntryClean(d, p, names[i])
    requires q in d && p < q
    ensures !d[q].Link?
  {
    FirstPresent(d, p, q);
    var n := q[|p|];
    assert n in EntryNames(d, p);
    var i :| 0 <= i < |names| && names[i] == n;
    assert EntryClean(d, p, names[i]);
    assert q == p + [n] || p + [n] < q;
  }

  lemma {:induction false} ListNamesExact(h: Host, d: Disk, p: Path, names: seq<string>)
    requires Sound(h) && WellFormed(d) && p in d && d[p] == Dir
    requires forall i, j :: 0 <= i < j < |names| ==> names[i] != names[j]
    ensures ListNames(h, d, p, names).Ok? <==> forall i :: 0 <= i < |names| ==> EntryClean(d, p, names[i])
    ensures ListNames(h, d, p, names).Ok? ==> ListsNames(d, p, names, ListNames(h, d, p, names).value)
    decreases Strictly(d, p), 0, |names|
  {
    if names != [] {
      var n := names[0];
      ListEntryExact(h, d, p, n);
      var first := ListEntry(h, d, p, n);
      if first.Ok? {
        assert EntryClean(d, p, names[0]);
        ListNamesExact(h, d, p, names[1..]);
        var rest := ListNames(h, d, p, names[1..]);
        assert forall i :: 0 <= i < |names| - 1 ==> names[1..][i] == names[i + 1];
        if rest.Ok? {
          forall i | 0 <= i < |names| ensures EntryClean(d, p, names[i]) {
            if i > 0 {
              assert EntryClean(d, p, names[1..][i - 1]);
            }
          }
          hide EntryClean, ListEntry, IsFileBelow;
          JoinLists(d, p, names, first.value, rest.value);
        }
      } else {
        assert !EntryClean(d, p, names[0]);
      }
    }
  }

  lemma JoinLists(d: Disk, p: Path, names: seq<string>, a: seq<Path>, b: seq<Path>)
    requires names != [] && names[0] !in names[1..]
    requires ListsNames(d, p, [names[0]], a) && ListsNames(d, p, names[1..], b)
    ensures ListsNames(d, p, names, a + b)
  {
    var ps := a + b;
    assert names == [names[0]] + names[1..];
    forall i, j | 0 <= i < j < |ps| ensures ps[i] != ps[j] {
      if i < |a| <= j {
        assert ps[i] in a && ps[j] in b;
        assert ps[i][0] in [names[0]] && ps[j][0] in names[1..];
      }
    }
    hide IsFileBelow;
    forall r ensures r in ps <==> IsFileBelow(d, p, r) && r[0] in names {
      assert r in ps <==> r in a || r in b;
    }
  }

  lemma {:induction false} ListEntryExact(h: Host, d: Disk, p: Path, n: string)
    requires Sound(h) && WellFormed(d) && p in d && d[p] == Dir
    ensures ListEntry(h, d, p, n).Ok? <==> EntryClean(d, p, n)
    ensures ListEntry(h, d, p, n).Ok? ==> ListsNames(d, p, [n], ListEntry(h, d, p, n).value)
    decreases Strictly(d, p), 0, 0
  {
    var c := p + [n];
    if c !in d || d[c].File? {
      ListLeaf(d, p, n);
      hide ListsNames, WellFormed, NoLinks;
    } else if d[c] == Dir {
      ChildIsSmaller(d, p, n);
      ListTreeExact(h, d, c);
      hide ListsNames, WellFormed, NoLinks, ListTree, ListsFiles;
      var r := ListTree(h, d, c);
      if r.Ok? {
        PrefixLists(d, p, n, r.value);
      }
    }
  }

  lemma ListLeaf(d: Disk, p: Path, n: string)
    requires WellFormed(d) && p in d
    requires p + [n] in d ==> d[p + [n]].File?
    ensures p + [n] in d ==> NoLinks(d, p + [n])
    ensures ListsNames(d, p, [n], if p + [n] in d then [[n]] else [])
  {
    if p + [n] in d {
      NothingBelowFile(d, p + [n]);
    }
    forall r | IsFileBelow(d, p, r) && r[0] == n ensures p + [n] in d && r == [n] {
      OnlyLeaf(d, p, n, r);
    }
    hide WellFormed;
  }

  lemma OnlyLeaf(d: Disk, p: Path, n: string, r: Path)
    requires WellFormed(d) && IsFileBelow(d, p, r) && r[0] == n
    requires p + [n] in d ==> d[p + [n]].File?
    ensures p + [n] in d && r == [n]
  {
    FirstPresent(d, p, p + r);
    assert (p + r)[|p|] == n;
    NothingBelowFile(d, p + [n]);
    assert |r| > 1 ==> p + [n] < p + r;
  }

  lemma PrefixLists(d: Disk, p: Path, n: string, ps: seq<Path>)
    requires ListsFiles(d, p + [n], ps) && p + [n] in d && d[p + [n]] == Dir
    ensures ListsNames(d, p, [n], Prefixed(n, ps))
  {
    var rs := Prefixed(n, ps);
    forall r ensures r in rs <==> IsFileBelow(d, p, r) && r[0] in [n] {
      if r in rs {
        var i :| 0 <= i < |rs| && rs[i] == r;
        assert ps[i] in ps;
        assert p + r == p + [n] + ps[i];
      }
      if IsFileBelow(d, p, r) && r[0] == n {
        assert r == [n] + r[1..];
        assert p + r == p + [n] + r[1..];
        assert r[1..] == [] ==> p + r == p + [n];
        assert r[1..] in ps;
        var i :| 0 <= i < |ps| && ps[i] == r[1..];
        assert rs[i] == r;
      }
    }
    forall i, j | 0 <= i < j < |rs| ensures rs[i] != rs[j] {
      assert rs[i][1..] == ps[i] && rs[j][1..] == ps[j];
    }
  }

  // --------------------------------------------------- roots behind a link

  lemma StraightBelow(d: Disk, root: Path, p: Path)
    requires WellFormed(d) && root in d && !d[root].Link? && NoLinks(d, root) && root <= p
    ensures Straight(d, p)
  {
    forall k | 0 <= k <= |p| && p[..k] in d ensures !d[p[..k]].Link? {
      if k > |root| {
        assert root < p[..k];
      } else {
        assert p[..k] == root[..k];
        if k < |root| {
          PrefixIsDir(d, root, k);
        } else {
          assert root[..k] == root;
        }
      }
    }
  }

  /** Below a link-free tree a lookup through any path to its root is the lookup from
      its real path. */
  lemma FindBelow(h: Host, d: Disk, root: Path, q: Path, r: Path)
    requires WellFormed(d) && Find(h, d, root) == Some(q) && NoLinks(d, q)
    ensures Find(h, d, root + r) == Find(h, d, q + r) == if q + r in d then Some(q + r) else None
  {
    FindEnds(h, d, root);
    StraightBelow(d, q, q + r);
    FindStraight(h, d, q + r);
    WalkConcat(d, [], root, r, h.linkLimit);
    var w := Walk(d, [], root, h.linkLimit).value;
    assert (q + r)[..|q|] == q && (q + r)[|q|..] == r;
    hide Walk, Straight, WellFormed, NoLinks;
    WalkStraight(d, q + r, |q|, w.links);
  }

  lemma ReadBelow(h: Host, d: Disk, root: Path, q: Path, r: Path)
    requires WellFormed(d) && Find(h, d, root) == Some(q) && NoLinks(d, q)
    ensures ReadFile(h, d, root + r) == ReadFile(h, d, q + r)
  {
    FindBelow(h, d, root, q, r);
    hide Find, WellFormed, NoLinks;
  }

  lemma WalkFilesAt(h: Host, d: Disk, root: Path, q: Path)
    requires WellFormed(d) && Find(h, d, root) == Some(q)
    ensures WalkFiles(h, d, root) == WalkFiles(h, d, q) && q in d && !d[q].Link?
  {
    FindEnds(h, d, root);
    FindPresent(h, d, q);
    hide Find, ListTree;
  }
}
