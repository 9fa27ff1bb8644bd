/** Recursive creation and removal of directories, as runs of single operations. */
module Directories {
  import opened Outcome
  import opened Paths
  import opened Hosts
  import opened Disks
  import opened PathLookup
  import opened Listing
  import opened FileSystems

  /** Every link on the way to `p` is dead. */
  ghost predicate Tame(h: Host, d: Disk, p: Path) {
    forall k :: 0 <= k <= |p| && p[..k] in d && d[p[..k]].Link? ==> !Exists(h, d, p[..k])
  }

  /** Some name on the way to `p` leads to `q`. */
  ghost predicate LeadsBy(h: Host, d: Disk, p: Path, q: Path) {
    exists k :: 0 <= k <= |p| && Find(h, d, p[..k]) == Some(q)
  }

  /** `e` is `d` with more directories, all met on the way to `p`; when every link on
      that way is dead, they lie on it. */
  ghost predicate DirsAdded(h: Host, d: Disk, e: Disk, p: Path) {
    && WellFormed(e) && Within(d, e)
    && forall q :: q in e && q !in d ==> e[q] == Dir && LeadsBy(h, e, p, q) && (Tame(h, d, p) ==> q <= p)
  }

  lemma LeadsGrows(h: Host, d: Disk, e: Disk, p: Path, q: Path)
    requires Within(d, e) && LeadsBy(h, d, p, q)
    ensures LeadsBy(h, e, p, q)
  {
    var k :| 0 <= k <= |p| && Find(h, d, p[..k]) == Some(q);
    FindGrows(h, d, e, p[..k]);
  }

  lemma LeadsDeeper(h: Host, d: Disk, p: Path, q: Path)
    requires LeadsBy(h, d, Parent(p), q)
    ensures LeadsBy(h, d, p, q)
  {
    var k :| 0 <= k <= |Parent(p)| && Find(h, d, Parent(p)[..k]) == Some(q);
    assert Parent(p)[..k] == p[..k];
  }

  lemma WithinTransitive(d: Disk, e: Disk, f: Disk)
    requires Within(d, e) && Within(e, f)
    ensures Within(d, f) && Gain(d, f) == Gain(d, e) + Gain(e, f)
  {
    forall q | q in d ensures q in f && f[q] == d[q] {
      assert q in e;
    }
  }

  lemma TameParent(h: Host, d: Disk, p: Path)
    requires Tame(h, d, p)
    ensures Tame(h, d, Parent(p))
  {
    var q := Parent(p);
    forall k | 0 <= k <= |q| ensures q[..k] == p[..k] {
    }
  }

  lemma DirsAddedDeeper(h: Host, d: Disk, e: Disk, p: Path)
    requires p != [] && DirsAdded(h, d, e, Parent(p))
    ensures DirsAdded(h, d, e, p)
  {
    if Tame(h, d, p) {
      TameParent(h, d, p);
    }
    hide Tame, LeadsBy;
    forall q | q in e && q !in d ensures LeadsBy(h, e, p, q) && (Tame(h, d, p) ==> q <= p) {
      LeadsDeeper(h, e, p, q);
      PrefixOfParent(q, p);
    }
  }

  /** Beyond a dead link nothing can be looked up. */
  lemma DeadBeyond(h: Host, d: Disk, p: Path, k: nat)
    requires k <= |p| && !Exists(h, d, p[..k])
    ensures !Exists(h, d, p)
  {
    WalkConcat(d, [], p[..k], p[k..], h.linkLimit);
    assert p[..k] + p[k..] == p;
  }

  /** Nothing is added on a way that a link blocks. */
  lemma BlockedAddsNothing(h: Host, d: Disk, e: Disk, p: Path, k: nat)
    requires WellFormed(d) && WellFormed(e) && DirsAdded(h, d, e, p) && Tame(h, d, p)
    requires k <= |p| && p[..k] in d && d[p[..k]].Link?
    ensures e == d
  {
    NothingBelowFile(e, p[..k]);
    forall q | q in e ensures q in d {
      if q <= p {
        PrefixesNest(p, q, k);
        if |q| <= k {
          PrefixOfLink(d, p, k, |q|);
        }
      }
    }
  }

  lemma PrefixesNest(p: Path, q: Path, k: nat)
    requires q <= p && k <= |p|
    ensures q == p[..|q|] && (k < |q| ==> p[..k] < q)
  {
  }

  lemma PrefixOfLink(d: Disk, p: Path, k: nat, j: nat)
    requires WellFormed(d) && j <= k <= |p| && p[..k] in d
    ensures p[..j] in d
  {
    if j < k {
      PrefixIsDir(d, p[..k], j);
      assert p[..k][..j] == p[..j];
    }
  }

  lemma StraightGrows(h: Host, d: Disk, e: Disk, p: Path, q: Path)
    requires DirsAdded(h, d, e, p) && Straight(d, q)
    ensures Straight(e, q)
  {
    forall k | 0 <= k <= |q| && q[..k] in e ensures !e[q[..k]].Link? {
      assert q[..k] in d || e[q[..k]] == Dir;
    }
  }

  /** A directory made on a way whose links are dead is made at its own path. */
  lemma PlaceIsOwn(h: Host, d: Disk, e: Disk, p: Path)
    requires WellFormed(d) && WellFormed(e) && p != [] && DirsAdded(h, d, e, Parent(p)) && Tame(h, d, p)
    requires Place(h, e, p).Some?
    ensures Place(h, e, p) == Some(p)
  {
    TameParent(h, d, p);
    var q := Parent(p);
    if Straight(d, q) {
      StraightGrows(h, d, e, q, q);
      PlaceStraight(h, e, p);
    } else {
      var k :| 0 <= k <= |q| && q[..k] in d && d[q[..k]].Link?;
      BlockedAddsNothing(h, d, e, q, k);
      DeadBeyond(h, d, q, k);
    }
  }

  /** One more directory, at the end of the way. */
  lemma DirsAddedOne(h: Host, d: Disk, e: Disk, p: Path)
    requires WellFormed(d) && IsPath(p) && p != [] && DirsAdded(h, d, e, Parent(p)) && MakeDir(h, e, p).Some?
    ensures DirsAdded(h, d, MakeDir(h, e, p).value, p)
  {
    var f := MakeDir(h, e, p).value;
    var c := Place(h, e, p).value;
    DirsAddedDeeper(h, d, e, p);
    AddPlaceWellFormed(h, e, p, Dir);
    MadeDirIsThere(h, e, p);
    LeadsToEnd(h, f, p, c);
    if Tame(h, d, p) {
      PlaceIsOwn(h, d, e, p);
    }
    assert f == e[c := Dir] && c !in e;
    hide Tame, Place, WellFormed, LeadsBy, MakeDir, Find;
    assert Within(e, f) && Within(d, f);
    forall q | q in f && q !in d ensures f[q] == Dir && LeadsBy(h, f, p, q) && (Tame(h, d, p) ==> q <= p) {
      if q != c {
        LeadsGrows(h, e, f, p, q);
      }
    }
  }

  lemma LeadsToEnd(h: Host, d: Disk, p: Path, q: Path)
    requires Find(h, d, p) == Some(q)
    ensures LeadsBy(h, d, p, q)
  {
    assert p[..|p|] == p;
  }

  /** `mkdir(p, { recursive: true })` only adds directories met on the way to `p`. */
  lemma {:induction false} MakeDirsAdds(h: Host, d: Disk, p: Path)
    requires WellFormed(d) && IsPath(p) && MakeDirs(h, d, p).Some?
    ensures DirsAdded(h, d, MakeDirs(h, d, p).value, p)
    decreases |p|
  {
    assert DirsAdded(h, d, d, p);
    hide DirsAdded, WellFormed, MakeDir, Find;
    if !Exists(h, d, p) && p != [] {
      MakeDirsAdds(h, d, Parent(p));
      var up := MakeDirs(h, d, Parent(p)).value;
      DirsAddedDeeper(h, d, up, p);
      if MakeDir(h, up, p).Some? {
        DirsAddedOne(h, d, up, p);
      }
    }
  }

  /** What creating a directory does to the disk, whatever arrives before it. */
  lemma MakeDirStep(fs: FileSystem, d: Disk, n: nat, p: Path)
    requires Sound(fs.host) && WellFormed(d) && IsPath(p)
    ensures var (s, e) := fs.After(d, n, OpMakeDir(p));
            && Within(d, Arrive(d, fs.arrivals(n)))
            && Within(d, e) && Gain(d, e) == Gain(d, Arrive(d, fs.arrivals(n)))
            && (s.Done? ==> IsDirAt(fs.host, e, p))
            && (fs.arrivals(n) == [] && s.Done? ==> MakeDir(fs.host, d, p) == Some(e))
            && (fs.arrivals(n) == [] && !s.Done? ==> e == d)
            && (fs.arrivals(n) == [] && s.Refused? ==> MakeDir(fs.host, d, p).None?)
            && (s.Broken? ==> fs.fails(n))
  {
    var a := Arrive(d, fs.arrivals(n));
    ArriveGrows(d, fs.arrivals(n));
    if MakeDir(fs.host, a, p).Some? {
      MadeDirIsThere(fs.host, a, p);
      AddDirGains(d, a, Place(fs.host, a, p).value);
    }
    hide Gain, Within, IsDirAt, Place, WellFormed;
  }

  lemma AddDirGains(d: Disk, a: Disk, c: Path)
    requires Within(d, a) && c !in a
    ensures Within(d, a[c := Dir]) && Gain(d, a[c := Dir]) == Gain(d, a)
  {
  }

  lemma MadeDirIsThere(h: Host, d: Disk, p: Path)
    requires WellFormed(d) && IsPath(p) && MakeDir(h, d, p).Some?
    ensures IsDirAt(h, MakeDir(h, d, p).value, p)
    ensures Find(h, MakeDir(h, d, p).value, p) == Place(h, d, p)
  {
    var e := MakeDir(h, d, p).value;
    var c := Place(h, d, p).value;
    var q := Find(h, d, Parent(p)).value;
    var w := Walk(d, [], Parent(p), h.linkLimit).value;
    FindGrows(h, d, e, Parent(p));
    WalkGrows(d, e, [], Parent(p), h.linkLimit);
    WalkConcat(e, [], Parent(p), [Last(p)], h.linkLimit);
    assert Parent(p) + [Last(p)] == p;
    assert Walk(e, q, [Last(p)], w.links) == Some(Found(c, w.links));
  }

  /** Everything a run has left behind. */
  datatype Record = Record(disk: Disk, foreign: map<Path, Node>, trace: seq<Disk>)

  ghost function Recorded(fs: FileSystem): Record
    reads fs
  {
    Record(fs.disk, fs.foreign, fs.trace)
  }

  /** From `a` to `b` only foreign nodes and directories were added, and nothing was
      lost in any state between; in a quiet run, only directories on the way to `p`
      were added. */
  ghost predicate Grew(h: Host, quiet: bool, a: Record, b: Record, p: Path) {
    && Within(a.disk, b.disk) && b.foreign == a.foreign + Gain(a.disk, b.disk)
    && a.trace <= b.trace && (forall k :: |a.trace| <= k < |b.trace| ==> Within(a.disk, b.trace[k]))
    && (quiet ==> DirsAdded(h, a.disk, b.disk, p)
                  && forall k :: |a.trace| <= k < |b.trace| ==> DirsAdded(h, a.disk, b.trace[k], p))
  }

  lemma GrewNothing(h: Host, quiet: bool, a: Record, p: Path)
    requires WellFormed(a.disk)
    ensures Grew(h, quiet, a, a, p)
  {
    assert Gain(a.disk, a.disk) == map[];
  }

  lemma GrewDeeper(h: Host, quiet: bool, a: Record, b: Record, p: Path)
    requires p != [] && Grew(h, quiet, a, b, Parent(p))
    ensures Grew(h, quiet, a, b, p)
  {
    if quiet {
      DirsAddedDeeper(h, a.disk, b.disk, p);
      forall k | |a.trace| <= k < |b.trace| ensures DirsAdded(h, a.disk, b.trace[k], p) {
        DirsAddedDeeper(h, a.disk, b.trace[k], p);
      }
    }
    hide DirsAdded;
  }

  /** One operation more: `e` is the disk after the arrivals, `c` the record after
      the operation. */
  lemma GrewOne(h: Host, quiet: bool, a: Record, b: Record, e: Disk, c: Record, p: Path)
    requires Grew(h, quiet, a, b, p)
    requires Within(b.disk, e) && Within(b.disk, c.disk) && Gain(b.disk, c.disk) == Gain(b.disk, e)
    requires c.foreign == b.foreign + Gain(b.disk, e) && c.trace == b.trace + [e, c.disk]
    requires quiet ==> e == b.disk && DirsAdded(h, a.disk, c.disk, p)
    ensures Grew(h, quiet, a, c, p)
  {
    WithinTransitive(a.disk, b.disk, c.disk);
    WithinTransitive(a.disk, b.disk, e);
    hide DirsAdded, Gain, Within;
    forall k | |a.trace| <= k < |c.trace| ensures Within(a.disk, c.trace[k]) {
      if k < |b.trace| {
        assert c.trace[k] == b.trace[k];
      }
    }
    if quiet {
      forall k | |a.trace| <= k < |c.trace| ensures DirsAdded(h, a.disk, c.trace[k], p) {
        if k < |b.trace| {
          assert c.trace[k] == b.trace[k];
        }
      }
    }
  }

  /** The last step of a recursive creation. */
  method MakeLast(fs: FileSystem, ghost start: Record, p: Path) returns (ok: bool)
    requires fs.Valid() && IsPath(p) && p != [] && WellFormed(start.disk)
    requires Grew(fs.host, fs.Quiet(), start, Recorded(fs), Parent(p))
    modifies fs
    ensures fs.Valid() && fs.clock == old(fs.clock) + 1 && Grew(fs.host, fs.Quiet(), start, Recorded(fs), p)
    ensures ok ==> IsDirAt(fs.host, fs.disk, p)
    ensures fs.Quiet() ==>
              var made := MakeDir(fs.host, old(fs.disk), p);
              && (made.None? ==> fs.disk == old(fs.disk))
              && (made.Some? && ok ==> made == Some(fs.disk))
              && (fs.Calm() ==> (ok <==> made.Some? || IsDirAt(fs.host, fs.disk, p)))
  {
    ghost var b, n := Recorded(fs), fs.clock;
    var s := fs.Do(OpMakeDir(p));
    MakeDirStep(fs, b.disk, n, p);
    ghost var e := Arrive(b.disk, fs.arrivals(n));
    hide FileSystem.After, MakeDir, IsDirAt, WellFormed, Gain, Within, Grew, DirsAdded;
    GrewDeeper(fs.host, fs.Quiet(), start, b, p);
    if fs.Quiet() {
      GrewDirs(fs.host, start, b, p);
      if s.Done? {
        DirsAddedOne(fs.host, start.disk, b.disk, p);
      } else {
        DirsAddedDeeper(fs.host, start.disk, b.disk, p);
      }
    }
    GrewOne(fs.host, fs.Quiet(), start, b, e, Recorded(fs), p);
    ok := s.Done? || (s.Refused? && IsDirAt(fs.host, fs.disk, p));
  }

  lemma GrewDirs(h: Host, a: Record, b: Record, p: Path)
    requires Grew(h, true, a, b, Parent(p))
    ensures DirsAdded(h, a.disk, b.disk, Parent(p))
  {
  }

  /** `fs.mkdirSync(p, { recursive: true })`. A directory that another writer
      made in the meantime is as good as a new one. */
  method MakeDirectories(fs: FileSystem, p: Path) returns (ok: bool)
    requires fs.Valid() && IsPath(p)
    modifies fs
    ensures fs.Valid() && fs.clock >= old(fs.clock)
    ensures Grew(fs.host, fs.Quiet(), old(Recorded(fs)), Recorded(fs), p)
    ensures ok ==> IsDirAt(fs.host, fs.disk, p)
    ensures fs.Quiet() && ok ==> MakeDirs(fs.host, old(fs.disk), p) == Some(fs.disk)
    ensures fs.Quiet() && fs.Calm() ==> ok == MakeDirs(fs.host, old(fs.disk), p).Some?
    decreases |p|
  {
    ghost var start := Recorded(fs);
    GrewNothing(fs.host, fs.Quiet(), start, p);
    hide Grew, MakeDir, IsDirAt, Find;
    if Exists(fs.host, fs.disk, p) {
      return IsDirAt(fs.host, fs.disk, p);
    }
    if p == [] {
      return false;
    }
    ok := MakeDirectories(fs, Parent(p));
    if ok {
      ok := MakeLast(fs, start, p);
    } else {
      GrewDeeper(fs.host, fs.Quiet(), start, Recorded(fs), p);
    }
  }

  // ---------------------------------------------------------------- removal

  /** `e` is `d` without some nodes at or below `p`. */
  ghost predicate Pruned(d: Disk, e: Disk, p: Path) {
    && WellFormed(e) && Within(e, d)
    && forall q :: q in d && !(p <= q) ==> q in e
  }

  lemma {:induction false} LeafExists(d: Disk, p: Path, x: Path) returns (leaf: Path)
    requires x in d && p <= x
    ensures leaf in d && p <= leaf && !HasChild(d, leaf)
    decreases Strictly(d, x)
  {
    if HasChild(d, x) {
      var q :| q in d && q != [] && Parent(q) == x;
      assert q == x + [Last(q)];
      ChildIsSmaller(d, x, Last(q));
      assert p <= q;
      leaf := LeafExists(d, p, q);
    } else {
      leaf := x;
    }
  }

  lemma PrunedOne(d: Disk, e: Disk, p: Path, x: Path)
    requires Pruned(d, e, p) && p <= x && RemoveLeaf(e, x).Some?
    ensures Pruned(d, RemoveLeaf(e, x).value, p)
    ensures Below(RemoveLeaf(e, x).value, p) < Below(e, p)
  {
    var f := RemoveLeaf(e, x).value;
    RemoveWellFormed(e, x);
    assert x in Below(e, p) && x !in Below(f, p);
  }

  lemma PrunedAll(d: Disk, e: Disk, p: Path)
    requires Pruned(d, e, p) && Below(e, p) == {}
    ensures e == RemoveTree(d, p)
  {
    forall q ensures q in e <==> q in d && !(p <= q) {
      assert q in e && p <= q ==> q in Below(e, p);
    }
  }

  /** From `a` to `b` nodes at or below `p` went, and nothing else changed. */
  ghost predicate PrunedTo(a: Record, b: Record, p: Path) {
    && Pruned(a.disk, b.disk, p) && a.trace <= b.trace && b.foreign == a.foreign
    && forall k :: |a.trace| <= k < |b.trace| ==> Pruned(a.disk, b.trace[k], p)
  }

  lemma PrunedMore(a: Record, b: Record, c: Record, p: Path)
    requires PrunedTo(a, b, p) && Pruned(a.disk, c.disk, p)
    requires c.trace == b.trace + [b.disk, c.disk] && c.foreign == b.foreign
    ensures PrunedTo(a, c, p)
  {
    hide Pruned;
    forall k | |a.trace| <= k < |c.trace| ensures Pruned(a.disk, c.trace[k], p) {
      if k < |b.trace| {
        assert c.trace[k] == b.trace[k];
      }
    }
  }

  lemma PrunedNow(a: Record, b: Record, p: Path)
    requires PrunedTo(a, b, p)
    ensures Pruned(a.disk, b.disk, p)
  {
  }

  /** The next node that a recursive removal takes. */
  method ChooseLeaf(d: Disk, p: Path) returns (x: Path)
    requires Below(d, p) != {}
    ensures x in d && p <= x && !HasChild(d, x)
  {
    ghost var some :| some in Below(d, p);
    ghost var leaf := LeafExists(d, p, some);
    assert leaf in Below(d, p);
    x :| x in Below(d, p) && !HasChild(d, x);
  }

  lemma LeafStep(fs: FileSystem, d: Disk, n: nat, x: Path)
    requires fs.arrivals(n) == [] && x in d && x != [] && !HasChild(d, x)
    ensures var (s, e) := fs.After(d, n, OpRemoveLeaf(x));
            && RemoveLeaf(d, x).Some?
            && (if s.Done? then RemoveLeaf(d, x) == Some(e) else e == d && fs.removalFails(n))
            && Arrive(d, fs.arrivals(n)) == d && Gain(d, d) == map[]
  {
  }

  method RemoveOneLeaf(fs: FileSystem, ghost start: Record, p: Path) returns (ok: bool)
    requires fs.Valid() && fs.Quiet() && p != [] && PrunedTo(start, Recorded(fs), p)
    requires Below(fs.disk, p) != {}
    modifies fs
    ensures fs.Valid() && fs.clock == old(fs.clock) + 1 && PrunedTo(start, Recorded(fs), p)
    ensures ok ==> Below(fs.disk, p) < old(Below(fs.disk, p))
    ensures fs.CleanupWorks() ==> ok
  {
    ghost var b := Recorded(fs);
    PrunedNow(start, b, p);
    hide PrunedTo, Pruned, HasChild, FileSystem.After, RemoveLeaf, Below, Gain, Arrive, WellFormed;
    var x := ChooseLeaf(fs.disk, p);
    LeafStep(fs, b.disk, fs.clock, x);
    PrunedOne(start.disk, b.disk, p, x);
    var s := fs.Do(OpRemoveLeaf(x));
    PrunedMore(start, b, Recorded(fs), p);
    ok := s.Done?;
  }

  /** `fs.rmSync(p, { recursive: true })` at a physical path, leaf by leaf. A
      removal that breaks leaves the rest of the tree. */
  method RemoveRecursively(fs: FileSystem, p: Path) returns (ok: bool)
    requires fs.Valid() && fs.Quiet() && p != []
    modifies fs
    ensures fs.Valid() && fs.clock >= old(fs.clock)
    ensures PrunedTo(old(Recorded(fs)), Recorded(fs), p)
    ensures ok ==> fs.disk == RemoveTree(old(fs.disk), p)
    ensures fs.CleanupWorks() ==> ok
  {
    ghost var start := Recorded(fs);
    assert PrunedTo(start, start, p);
    hide PrunedTo;
    while Below(fs.disk, p) != {}
      invariant fs.Valid() && fs.clock >= old(fs.clock) && PrunedTo(start, Recorded(fs), p)
      decreases Below(fs.disk, p)
    {
      ok := RemoveOneLeaf(fs, start, p);
      if !ok {
        return;
      }
    }
    PrunedNow(start, Recorded(fs), p);
    PrunedAll(start.disk, fs.disk, p);
    return true;
  }
}
