/** What undoing created files with the directories they leave empty does to the
    directories of a disk. */
module Rollbacks {
  import opened Outcome
  import opened Paths
  import opened Hosts
  import opened Disks
  import opened PathLookup
  import opened FileSystems
  import opened Directories

  /** `q` is a directory on the way to one of the files. */
  ghost predicate LeadsTo(files: seq<Path>, q: Path) {
    exists i :: 0 <= i < |files| && q < files[i]
  }

  /** The directory goes with the files: it lies below the root, and everything at or
      below it is one of them or a directory on the way to one. */
  ghost predicate Vacated(e: Disk, root: Path, files: seq<Path>, q: Path) {
    && q in e && e[q] == Dir && root < q
    && forall p :: p in e && q <= p ==> p in files || (e[p] == Dir && LeadsTo(files, p))
  }

  /** The disk `e` without the files, and without the directories that go with them. */
  ghost function Undone(e: Disk, root: Path, files: seq<Path>): Disk {
    map p | p in e && p !in files && !Vacated(e, root, files, p) :: e[p]
  }

  // ---------------------------------------------------- undisturbed rollbacks

  /** The files are gone from `e`, and so are the directories on the way to them that
      are empty, but perhaps the one at `cursor`. */
  ghost predicate Tidy(e: Disk, f: Disk, root: Path, files: seq<Path>, cursor: Path) {
    && WellFormed(f) && Within(f, e)
    && (forall i :: 0 <= i < |files| ==> files[i] !in f)
    && (forall q :: q in e && q !in f ==> q in files || (e[q] == Dir && root < q && LeadsTo(files, q)))
    && forall q :: q in f && f[q] == Dir && root < q && q != cursor && LeadsTo(files, q) ==> HasChild(f, q)
  }

  lemma TidyNothing(e: Disk, root: Path)
    requires WellFormed(e)
    ensures Tidy(e, e, root, [], root)
  {
  }

  lemma LeadsMore(files: seq<Path>, t: Path, q: Path)
    ensures LeadsTo([t] + files, q) <==> LeadsTo(files, q) || q < t
  {
    var all := [t] + files;
    assert all[0] == t;
    if LeadsTo(files, q) {
      var i :| 0 <= i < |files| && q < files[i];
      assert all[i + 1] == files[i];
    }
  }

  /** A child other than the removed node is still there. */
  lemma ChildStays(f: Disk, x: Path, q: Path)
    requires HasChild(f, q) && (x == [] || q != Parent(x))
    ensures HasChild(f - {x}, q)
  {
    var c :| c in f && c != [] && Parent(c) == q;
    assert c in f - {x};
  }

  /** A directory above a present path, but not its parent, has another child. */
  lemma AncestorHasChild(f: Disk, q: Path, t: Path)
    requires WellFormed(f) && t in f && q < t && q != Parent(t)
    ensures HasChild(f - {t}, q)
  {
    var c := t[..|q| + 1];
    assert Parent(t) == t[..|t| - 1];
    PrefixIsDir(f, t, |q| + 1);
    assert Parent(c) == q && c in f - {t};
  }

  /** Undoing one more file leaves its directory to be looked at. */
  lemma TidyFile(e: Disk, f: Disk, root: Path, files: seq<Path>, t: Path)
    requires Tidy(e, f, root, files, root) && t in f && f[t].File?
    ensures Tidy(e, f - {t}, root, [t] + files, Parent(t))
  {
    hide HasChild, LeadsTo, WellFormed;
    var all, g := [t] + files, f - {t};
    TakenWithin(e, f, t);
    FileHasNoChild(f, t);
    FileIsNotRoot(f, t);
    RemoveWellFormed(f, t);
    assert all[0] == t;
    hide Within;
    forall q ensures LeadsTo(all, q) <==> LeadsTo(files, q) || q < t {
      LeadsMore(files, t, q);
    }
    forall q | q in g && g[q] == Dir && root < q && q != Parent(t) && LeadsTo(all, q) ensures HasChild(g, q) {
      if q < t {
        AncestorHasChild(f, q, t);
      } else {
        ChildStays(f, t, q);
      }
    }
    forall i | 0 <= i < |all| ensures all[i] !in g {
      if i > 0 {
        assert all[i] == files[i - 1];
      }
    }
  }

  lemma TakenWithin(e: Disk, f: Disk, t: Path)
    requires Within(f, e)
    ensures Within(f - {t}, e)
    ensures forall q :: q in f ==> q in e && e[q] == f[q]
  {
  }

  lemma FileIsNotRoot(f: Disk, t: Path)
    requires WellFormed(f) && t in f && f[t].File?
    ensures t != []
  {
  }

  /** Removing the empty directory at the cursor leaves its parent to be looked at. */
  lemma TidyDir(e: Disk, f: Disk, root: Path, files: seq<Path>, cursor: Path)
    requires Tidy(e, f, root, files, cursor) && root < cursor && LeadsTo(files, cursor)
    requires cursor in f && f[cursor] == Dir && !HasChild(f, cursor)
    ensures Tidy(e, f - {cursor}, root, files, Parent(cursor))
  {
    var g := f - {cursor};
    RemoveWellFormed(f, cursor);
    hide HasChild, LeadsTo, WellFormed;
    forall q | q in g && g[q] == Dir && root < q && q != Parent(cursor) && LeadsTo(files, q) ensures HasChild(g, q) {
      ChildStays(f, cursor, q);
    }
  }

  /** The climb ends at a directory that is not empty, or at the root. */
  lemma TidyStop(e: Disk, f: Disk, root: Path, files: seq<Path>, cursor: Path)
    requires Tidy(e, f, root, files, cursor) && (cursor == root || HasChild(f, cursor))
    ensures Tidy(e, f, root, files, root)
  {
    hide LeadsTo, WellFormed;
  }

  /** A directory that went had everything below it go before. */
  lemma GoneIsVacated(e: Disk, f: Disk, root: Path, files: seq<Path>, q: Path)
    requires WellFormed(e) && Tidy(e, f, root, files, root) && q in e && q !in f && q !in files
    ensures Vacated(e, root, files, q)
  {
    assert WellFormed(f);
    hide HasChild, LeadsTo, WellFormed;
    forall p | p in e && q <= p ensures p in files || (e[p] == Dir && LeadsTo(files, p)) {
      if p in f {
        PrefixPresent(f, p, q);
      }
    }
  }

  /** A directory that goes with the files cannot be left: below it something would
      be empty. */
  lemma VacatedIsGone(e: Disk, f: Disk, root: Path, files: seq<Path>, q: Path)
    requires Tidy(e, f, root, files, root) && Vacated(e, root, files, q)
    ensures q !in f
  {
    if q in f {
      var leaf := LeafExists(f, q, q);
      hide WellFormed, LeadsTo, HasChild;
    }
  }

  /** Nothing is left over: the disk is the one without the files and the directories
      that go with them. */
  lemma TidyIsUndone(e: Disk, f: Disk, root: Path, files: seq<Path>)
    requires WellFormed(e) && Tidy(e, f, root, files, root)
    ensures f == Undone(e, root, files)
  {
    assert Within(f, e) && forall i :: 0 <= i < |files| ==> files[i] !in f;
    hide Tidy, Vacated, WellFormed;
    forall p | p in e ensures p in f <==> p !in files && !Vacated(e, root, files, p) {
      if p !in f && p !in files {
        GoneIsVacated(e, f, root, files, p);
      }
      if Vacated(e, root, files, p) {
        VacatedIsGone(e, f, root, files, p);
      }
    }
    hide Within;
    assert forall p :: p in f ==> p in e && f[p] == e[p] by {
      SameNodes(f, e);
    }
  }

  lemma SameNodes(f: Disk, e: Disk)
    requires Within(f, e)
    ensures forall p :: p in f ==> p in e && f[p] == e[p]
  {
  }

  lemma UndoneNothing(e: Disk, root: Path)
    ensures Undone(e, root, []) == e
  {
    hide LeadsTo;
    forall q ensures !Vacated(e, root, [], q) {
      NothingVacated(e, root, q);
    }
  }

  lemma NothingVacated(e: Disk, root: Path, q: Path)
    ensures !Vacated(e, root, [], q)
  {
    assert !LeadsTo([], q);
    hide LeadsTo;
  }

  // ------------------------------------------------------------ any rollback

  /** In some state a directory strictly between the root and a file led to `q`. */
  ghost predicate TakenAt(h: Host, trace: seq<Disk>, root: Path, files: seq<Path>, q: Path) {
    exists k, i, j :: 0 <= k < |trace| && 0 <= i < |files| && |root| < j < |files[i]|
                      && Place(h, trace[k], files[i][..j]) == Some(q)
  }

  ghost predicate IsDir(d: Disk, q: Path) {
    q in d && d[q] == Dir
  }

  ghost predicate AllStraight(d: Disk, files: seq<Path>) {
    forall i :: 0 <= i < |files| ==> Straight(d, files[i])
  }

  /** Since the disk `d`, directories went only by the ways from the root to the
      files. In a quiet run nothing came, and without links on those ways they went
      from the ways themselves. */
  ghost predicate DirsTaken(h: Host, quiet: bool, d: Disk, b: Record, root: Path, files: seq<Path>) {
    && (forall q :: IsDir(d, q) && !IsDir(b.disk, q) ==> TakenAt(h, b.trace, root, files, q))
    && (quiet ==> Within(b.disk, d))
    && (quiet && AllStraight(d, files) ==>
          forall q :: IsDir(d, q) && !IsDir(b.disk, q) ==> root < q && LeadsTo(files, q))
  }

  lemma TakenStays(h: Host, t: seq<Disk>, u: seq<Disk>, root: Path, files: seq<Path>, q: Path)
    requires t <= u && TakenAt(h, t, root, files, q)
    ensures TakenAt(h, u, root, files, q)
  {
    hide Place;
    var k, i, j :| 0 <= k < |t| && 0 <= i < |files| && |root| < j < |files[i]|
        && Place(h, t[k], files[i][..j]) == Some(q);
    assert u[k] == t[k];
  }

  lemma NothingTaken(h: Host, quiet: bool, b: Record, root: Path, files: seq<Path>)
    ensures DirsTaken(h, quiet, b.disk, b, root, files)
  {
    hide TakenAt;
  }

  /** An operation that takes no directory. */
  lemma TakenKeeps(h: Host, quiet: bool, d: Disk, b: Record, c: Record, root: Path, files: seq<Path>)
    requires DirsTaken(h, quiet, d, b, root, files) && b.trace <= c.trace
    requires forall q :: IsDir(b.disk, q) ==> IsDir(c.disk, q)
    requires quiet ==> Within(c.disk, b.disk)
    ensures DirsTaken(h, quiet, d, c, root, files)
  {
    hide TakenAt, IsDir, LeadsTo, AllStraight;
    if quiet {
      WithinTransitive(c.disk, b.disk, d);
    }
    hide Within;
    forall q | IsDir(d, q) && !IsDir(c.disk, q) ensures TakenAt(h, c.trace, root, files, q) {
      TakenStays(h, b.trace, c.trace, root, files, q);
    }
  }

  lemma RemovedFrom(b: Disk, x: Path)
    ensures forall q :: IsDir(b, q) && q != x ==> IsDir(b - {x}, q)
    ensures Within(b - {x}, b)
  {
  }

  /** Removing the directory where the way to a file leads. */
  lemma TakenMore(h: Host, quiet: bool, d: Disk, b: Record, e: Disk, c: Record, root: Path, files: seq<Path>,
                  i: nat, j: nat)
    requires DirsTaken(h, quiet, d, b, root, files) && Within(b.disk, e) && c.trace == b.trace + [e, c.disk]
    requires i < |files| && root < files[i] && |root| < j < |files[i]| && Place(h, e, files[i][..j]).Some?
    requires c.disk == e - {Place(h, e, files[i][..j]).value}
    requires quiet ==> e == b.disk && WellFormed(e)
    ensures DirsTaken(h, quiet, d, c, root, files)
  {
    var x := Place(h, e, files[i][..j]).value;
    assert c.trace[|b.trace|] == e;
    assert TakenAt(h, c.trace, root, files, x);
    RemovedFrom(e, x);
    assert forall q :: IsDir(b.disk, q) ==> IsDir(e, q);
    if quiet {
      WithinTransitive(c.disk, e, d);
      if AllStraight(d, files) {
        CutPlace(h, d, e, root, files, i, j);
      }
    }
    hide TakenAt, IsDir, Place, LeadsTo, Within, AllStraight;
    forall q | IsDir(d, q) && !IsDir(c.disk, q) ensures TakenAt(h, c.trace, root, files, q) {
      if q != x {
        TakenStays(h, b.trace, c.trace, root, files, q);
      }
    }
  }

  /** A way without links leads to itself. */
  lemma CutPlace(h: Host, d: Disk, e: Disk, root: Path, files: seq<Path>, i: nat, j: nat)
    requires WellFormed(e) && Within(e, d) && AllStraight(d, files)
    requires i < |files| && root < files[i] && |root| < j < |files[i]| && Place(h, e, files[i][..j]).Some?
    ensures var x := Place(h, e, files[i][..j]).value; root < x && LeadsTo(files, x)
  {
    var p := files[i][..j];
    StraightWithin(d, e, files[i]);
    StraightPrefix(e, files[i], j);
    StraightParent(e, p);
    PlaceStraight(h, e, p);
    assert root < p < files[i];
  }

  lemma PruneStep(fs: FileSystem, d: Disk, n: nat, p: Path)
    requires WellFormed(d)
    ensures var (s, f) := fs.After(d, n, OpRemoveDir(p));
            var e := Arrive(d, fs.arrivals(n));
            && WellFormed(e) && Within(d, e) && (forall q :: IsDir(d, q) ==> IsDir(e, q))
            && (if s.Done? then Place(fs.host, e, p).Some? && f == e - {Place(fs.host, e, p).value} else f == e)
            && (fs.Quiet() ==> e == d && Within(f, d))
  {
    hide Arrive, Place, HasChild, WellFormed, Within, IsDir;
    ArriveGrows(d, fs.arrivals(n));
    QuietShrinks(fs, d, n, OpRemoveDir(p));
    WithinDirs(d, Arrive(d, fs.arrivals(n)));
    if fs.Quiet() {
      QuietStep(fs, d, n, OpRemoveDir(p));
    }
  }

  lemma WithinDirs(d: Disk, e: Disk)
    requires Within(d, e)
    ensures forall q :: IsDir(d, q) ==> IsDir(e, q)
  {
  }

  /** What one operation does to the directories, whatever arrives before it. */
  lemma PruneTaken(fs: FileSystem, d: Disk, b: Record, n: nat, root: Path, files: seq<Path>, i: nat, j: nat)
    requires WellFormed(b.disk) && DirsTaken(fs.host, fs.Quiet(), d, b, root, files)
    requires i < |files| && root < files[i] && |root| < j < |files[i]|
    ensures var (s, f) := fs.After(b.disk, n, OpRemoveDir(files[i][..j]));
            forall c: Record :: c.disk == f && c.trace == b.trace + [Arrive(b.disk, fs.arrivals(n)), f] ==>
              DirsTaken(fs.host, fs.Quiet(), d, c, root, files)
  {
    var p := files[i][..j];
    var (s, f) := fs.After(b.disk, n, OpRemoveDir(p));
    var e := Arrive(b.disk, fs.arrivals(n));
    PruneStep(fs, b.disk, n, p);
    hide FileSystem.After, FileSystem.Quiet, DirsTaken, Place, Arrive, IsDir, WellFormed, Within;
    forall c: Record | c.disk == f && c.trace == b.trace + [e, f]
      ensures DirsTaken(fs.host, fs.Quiet(), d, c, root, files)
    {
      if s.Done? {
        TakenMore(fs.host, fs.Quiet(), d, b, e, c, root, files, i, j);
      } else {
        TakenKeeps(fs.host, fs.Quiet(), d, b, c, root, files);
      }
    }
  }

  lemma UndoTaken(fs: FileSystem, d: Disk, b: Record, n: nat, root: Path, files: seq<Path>, t: Path)
    requires WellFormed(b.disk) && DirsTaken(fs.host, fs.Quiet(), d, b, root, files)
    ensures var (s, f) := fs.After(b.disk, n, OpRemoveFile(t));
            forall c: Record :: c.disk == f && c.trace == b.trace + [Arrive(b.disk, fs.arrivals(n)), f] ==>
              DirsTaken(fs.host, fs.Quiet(), d, c, root, files)
  {
    var (s, f) := fs.After(b.disk, n, OpRemoveFile(t));
    var e := Arrive(b.disk, fs.arrivals(n));
    ArriveGrows(b.disk, fs.arrivals(n));
    QuietShrinks(fs, b.disk, n, OpRemoveFile(t));
    assert forall q :: IsDir(b.disk, q) ==> IsDir(e, q);
    assert forall q :: IsDir(e, q) ==> IsDir(f, q);
    hide FileSystem.After, FileSystem.Quiet, DirsTaken, Arrive, IsDir, WellFormed, Within;
    forall c: Record | c.disk == f && c.trace == b.trace + [e, f]
      ensures DirsTaken(fs.host, fs.Quiet(), d, c, root, files)
    {
      TakenKeeps(fs.host, fs.Quiet(), d, b, c, root, files);
    }
  }

  /** While nobody else writes, a removal only takes away. */
  lemma QuietShrinks(fs: FileSystem, d: Disk, n: nat, op: Op)
    requires op.OpRemoveDir? || op.OpRemoveFile?
    ensures var (_, f) := fs.After(d, n, op); fs.Quiet() ==> Within(f, d)
  {
    if fs.Quiet() {
      QuietStep(fs, d, n, op);
    }
    hide FileSystem.After, Arrive, Place, HasChild;
  }

  // ------------------------------------------------ the steps of the rollback

  /** The files are on the disk, each once. */
  ghost predicate AllPresent(e: Disk, files: seq<Path>) {
    && (forall i :: 0 <= i < |files| ==> files[i] in e && e[files[i]].File?)
    && forall i, j :: 0 <= i < j < |files| ==> files[i] != files[j]
  }

  /** All but the first `n` files are undone. */
  ghost predicate Standing(e: Disk, f: Disk, root: Path, files: seq<Path>, n: nat) {
    && WellFormed(e) && AllPresent(e, files) && n <= |files|
    && Tidy(e, f, root, files[n..], root)
  }

  /** File `n` is undone, and the climb has reached the directory at the cursor. */
  ghost predicate Climbing(e: Disk, f: Disk, root: Path, files: seq<Path>, n: nat, cursor: Path) {
    n < |files| && Tidy(e, f, root, files[n..], cursor) && IsDir(f, cursor) && root <= cursor < files[n]
  }

  lemma StandsFirst(e: Disk, root: Path, files: seq<Path>)
    requires WellFormed(e) && AllPresent(e, files)
    ensures Standing(e, e, root, files, |files|)
  {
    TidyNothing(e, root);
    assert files[|files|..] == [];
  }

  lemma StandsAgain(e: Disk, f: Disk, g: Disk, root: Path, files: seq<Path>, n: nat)
    requires Standing(e, f, root, files, n + 1) && n < |files| && Tidy(e, g, root, files[n..], root)
    ensures Standing(e, g, root, files, n)
  {
    hide Tidy, WellFormed, AllPresent;
  }

  lemma StandingIsUndone(e: Disk, f: Disk, root: Path, files: seq<Path>)
    requires Standing(e, f, root, files, 0)
    ensures f == Undone(e, root, files)
  {
    assert files[0..] == files;
    TidyIsUndone(e, f, root, files);
  }

  lemma ClimbEnds(e: Disk, f: Disk, root: Path, files: seq<Path>, n: nat)
    requires Climbing(e, f, root, files, n, root)
    ensures Tidy(e, f, root, files[n..], root)
  {
  }

  /** An operation that nothing interferes with. */
  lemma StillStep(fs: FileSystem, d: Disk, n: nat, op: Op)
    requires fs.UndisturbedFrom(n)
    ensures fs.UndisturbedFrom(n + 1)
    ensures var (s, e) := fs.After(d, n, op);
            if Effect(fs.host, d, op).None? then s == Refused && e == d
            else s == Done && Effect(fs.host, d, op) == Some(e)
  {
    QuietStep(fs, d, n, op);
    hide Effect;
  }

  lemma OwnEffects(h: Host, f: Disk, p: Path)
    requires WellFormed(f) && p in f && p != []
    ensures f[p].File? ==> Effect(h, f, OpRemoveFile(p)) == Some(f - {p})
    ensures f[p] == Dir ==> Effect(h, f, OpRemoveDir(p)) == if HasChild(f, p) then None else Some(f - {p})
    ensures Parent(p) in f && f[Parent(p)] == Dir && Parent(p) != p
  {
    PlacePresent(h, f, p);
    hide Place, HasChild;
  }

  lemma ClimbStarts(e: Disk, f: Disk, root: Path, files: seq<Path>, k: nat)
    requires k < |files| && root < files[k]
    requires Tidy(e, f - {files[k]}, root, [files[k]] + files[k + 1..], Parent(files[k]))
    requires Parent(files[k]) in f && f[Parent(files[k])] == Dir && Parent(files[k]) != files[k]
    ensures Climbing(e, f - {files[k]}, root, files, k, Parent(files[k]))
  {
    hide Tidy, Parent;
    var t := files[k];
    TailFrom(files, k);
    AboveFile(root, t);
  }

  lemma TailFrom(files: seq<Path>, k: nat)
    requires k < |files|
    ensures [files[k]] + files[k + 1..] == files[k..]
  {
  }

  lemma AboveFile(root: Path, t: Path)
    requires root < t
    ensures root <= Parent(t) < t
  {
  }

  lemma ClimbGoesOn(e: Disk, f: Disk, root: Path, files: seq<Path>, k: nat, cursor: Path)
    requires k < |files| && root < cursor < files[k] && Tidy(e, f - {cursor}, root, files[k..], Parent(cursor))
    requires Parent(cursor) in f && f[Parent(cursor)] == Dir && Parent(cursor) != cursor
    ensures Climbing(e, f - {cursor}, root, files, k, Parent(cursor))
  {
    hide Tidy;
  }

  /** Undoing one file when nothing interferes. */
  lemma UndoTidy(fs: FileSystem, e: Disk, f: Disk, n: nat, root: Path, files: seq<Path>, k: nat)
    requires fs.UndisturbedFrom(n) && Standing(e, f, root, files, k + 1) && k < |files| && root < files[k]
    ensures var (s, g) := fs.After(f, n, OpRemoveFile(files[k]));
            s.Done? && fs.UndisturbedFrom(n + 1) && Climbing(e, g, root, files, k, Parent(files[k]))
  {
    hide *;
    StillThere(e, f, root, files, k);
    TidyFile(e, f, root, files[k + 1..], files[k]);
    OwnEffects(fs.host, f, files[k]);
    StillStep(fs, f, n, OpRemoveFile(files[k]));
    ClimbStarts(e, f, root, files, k);
  }

  lemma StillThere(e: Disk, f: Disk, root: Path, files: seq<Path>, k: nat)
    requires Standing(e, f, root, files, k + 1) && k < |files|
    ensures files[k] in f && f[files[k]].File? && WellFormed(f) && Tidy(e, f, root, files[k + 1..], root)
  {
    hide LeadsTo, HasChild, WellFormed;
    var rest := files[k + 1..];
    assert forall i :: 0 <= i < |rest| ==> rest[i] == files[k + 1 + i];
  }

  /** Removing the directory at the cursor when nothing interferes: it goes exactly
      when it is empty. */
  lemma PruneTidy(fs: FileSystem, e: Disk, f: Disk, n: nat, root: Path, files: seq<Path>, k: nat, cursor: Path)
    requires fs.UndisturbedFrom(n) && Climbing(e, f, root, files, k, cursor) && root != cursor
    ensures var (s, g) := fs.After(f, n, OpRemoveDir(cursor));
            && fs.UndisturbedFrom(n + 1)
            && if s.Done? then Climbing(e, g, root, files, k, Parent(cursor)) else Tidy(e, g, root, files[k..], root)
  {
    ClimbIsAt(e, f, root, files, k, cursor);
    hide *;
    OwnEffects(fs.host, f, cursor);
    StillStep(fs, f, n, OpRemoveDir(cursor));
    if HasChild(f, cursor) {
      TidyStop(e, f, root, files[k..], cursor);
    } else {
      TidyDir(e, f, root, files[k..], cursor);
      ClimbGoesOn(e, f, root, files, k, cursor);
    }
  }

  lemma ClimbIsAt(e: Disk, f: Disk, root: Path, files: seq<Path>, k: nat, cursor: Path)
    requires Climbing(e, f, root, files, k, cursor)
    ensures k < |files| && WellFormed(f) && cursor in f && f[cursor] == Dir && root <= cursor < files[k]
    ensures LeadsTo(files[k..], cursor) && Tidy(e, f, root, files[k..], cursor)
  {
    assert files[k..][0] == files[k];
  }
}
