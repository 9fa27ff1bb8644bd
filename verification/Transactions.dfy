/** Staging trees: how an install transaction is named, recognised and framed. */
module Transactions {
  import opened Outcome
  import opened Paths
  import opened Hosts
  import opened Json
  import opened Disks
  import opened PathLookup
  import opened Listing
  import opened FileSystems
  import opened Directories
  import opened Boundary
  import opened Mappings
  import opened SourceFrame
  import opened InstalledTrees
  import opened CopyTrees
  import opened InstallCopies

  // ------------------------------------------------------ staging siblings

  function PartialPrefix(target: Path): string
    requires target != []
  {
    Last(target) + ".partial"
  }

  /** `temporarySibling(target)`; the suffix stands for the process id and the
      random digits. */
  function TemporarySibling(target: Path, suffix: string): Path
    requires target != []
  {
    Parent(target) + [PartialPrefix(target) + "-" + suffix]
  }

  predicate EndsWith(s: string, suffix: string) {
    |s| >= |suffix| && s[|s| - |suffix|..] == suffix
  }

  /** The name is that of a file in the making: `/\.(?:tmp|partial)$/`. */
  predicate IsScratch(name: string) {
    EndsWith(name, ".tmp") || EndsWith(name, ".partial")
  }

  predicate IsScratchFile(p: Path) {
    p != [] && IsScratch(Last(p))
  }

  predicate HasPartialSibling(d: Disk, parent: Path, prefix: string) {
    exists n :: n in EntryNames(d, parent) && StartsWith(n, prefix)
  }

  /** `hasIncompleteTransaction(target)`. */
  function HasIncompleteTransaction(h: Host, d: Disk, target: Path): Result<bool>
    requires target != []
  {
    var parent := Find(h, d, Parent(target));
    if parent.Some? && !(parent.value in d && d[parent.value] == Dir) then Err("ENOTDIR")
    else if parent.Some? && HasPartialSibling(d, parent.value, PartialPrefix(target)) then Ok(true)
    else if !Exists(h, d, target) then Ok(false)
    else
      var files := WalkFiles(h, d, target);
      Ok(files.Err? || exists i :: 0 <= i < |files.value| && IsScratchFile(files.value[i]))
  }

  lemma SiblingIsPath(target: Path, suffix: string)
    requires IsPath(target) && target != [] && '/' !in suffix
    ensures var s := TemporarySibling(target, suffix);
            && IsPath(s) && s != [] && Parent(s) == Parent(target) && Apart(s, target)
            && StartsWith(Last(s), PartialPrefix(target)) && Last(s) == Last(target) + ".partial-" + suffix
  {
    var s := TemporarySibling(target, suffix);
    var name := Last(s);
    assert IsName(Last(target));
    assert ".partial" + "-" == ".partial-";
    assert |name| >= 10;
    assert forall i :: 0 <= i < |".partial"| ==> ".partial"[i] != '/';
    forall i | 0 <= i < |name| ensures name[i] != '/' {
      if i < |Last(target)| {
        assert name[i] == Last(target)[i];
      } else if i > |PartialPrefix(target)| {
        assert name[i] == suffix[i - |PartialPrefix(target)| - 1];
      }
    }
    assert |name| > |Last(target)|;
  }

  /** A staging tree that a run left behind is recognised. */
  lemma SiblingIsRecognised(h: Host, d: Disk, target: Path, s: Path)
    requires WellFormed(d) && target != [] && s != [] && Parent(s) == Parent(target)
    requires StartsWith(Last(s), PartialPrefix(target)) && s in d
    ensures HasIncompleteTransaction(h, d, target) == Ok(true)
  {
    FindPresent(h, d, Parent(target));
    assert s == Parent(target) + [Last(s)];
    assert Last(s) in EntryNames(d, Parent(target));
  }

  /** The name ends like that of a file in the making. */
  ghost predicate Unfinished(name: string) {
    exists stem: string :: name == stem + ".tmp" || name == stem + ".partial"
  }

  lemma ScratchIs(name: string)
    ensures IsScratch(name) <==> Unfinished(name)
  {
    if EndsWith(name, ".tmp") {
      assert name == name[..|name| - 4] + ".tmp";
    }
    if EndsWith(name, ".partial") {
      assert name == name[..|name| - 8] + ".partial";
    }
    if stem: string :| name == stem + ".tmp" || name == stem + ".partial" {
      assert name[|stem|..] == ".tmp" || name[|stem|..] == ".partial";
    }
  }

  /** What the test looks for: a sibling named like a staging tree, or a target that is
      no directory, contains a link, or contains a file in the making. */
  lemma IncompleteMeans(h: Host, d: Disk, target: Path)
    requires Sound(h) && WellFormed(d) && target != [] && Straight(d, target)
    ensures HasIncompleteTransaction(h, d, target) ==
              if Parent(target) in d && d[Parent(target)] != Dir then Err("ENOTDIR")
              else Ok(
                || (exists n :: Parent(target) + [n] in d && StartsWith(n, Last(target) + ".partial"))
                || (target in d && (d[target] != Dir || !NoLinks(d, target)
                                    || exists r :: IsFileBelow(d, target, r) && Unfinished(Last(r)))))
  {
    StraightParent(d, target);
    FindStraight(h, d, Parent(target));
    FindStraight(h, d, target);
    hide Find, IsScratch, Unfinished, Straight;
    assert PartialPrefix(target) == Last(target) + ".partial";
    hide PartialPrefix;
    assert forall n :: Parent(Parent(target) + [n]) == Parent(target);
    if target in d && d[target] == Dir {
      ListTreeExact(h, d, target);
      var files := ListTree(h, d, target);
      if files.Ok? {
        ScratchListed(d, target, files.value);
      }
    }
    ScratchBelow(d, target);
  }

  lemma ScratchBelow(d: Disk, target: Path)
    ensures (exists r :: IsFileBelow(d, target, r) && IsScratch(Last(r))) <==>
            (exists r :: IsFileBelow(d, target, r) && Unfinished(Last(r)))
  {
    hide IsScratch, Unfinished;
    forall name ensures IsScratch(name) <==> Unfinished(name) {
      ScratchIs(name);
    }
  }

  lemma ScratchListed(d: Disk, target: Path, files: seq<Path>)
    requires ListsFiles(d, target, files)
    ensures (exists i :: 0 <= i < |files| && IsScratchFile(files[i])) <==>
            (exists r :: IsFileBelow(d, target, r) && IsScratch(Last(r)))
  {
    hide IsScratch;
    if i :| 0 <= i < |files| && IsScratchFile(files[i]) {
      assert files[i] in files;
    }
    if r :| IsFileBelow(d, target, r) && IsScratch(Last(r)) {
      assert r in files;
      var i :| 0 <= i < |files| && files[i] == r;
      assert IsScratchFile(files[i]);
    }
  }

  // ---------------------------------------------------------------- frames

  /** `e` is `d` with new directories on the way to the target, and new files and
      directories at or below the staging directory or the target. */
  ghost predicate Framed(d: Disk, e: Disk, target: Path, staging: Path) {
    && WellFormed(e) && Within(d, e)
    && forall q :: q in e && q !in d ==>
         !e[q].Link? && ((q <= Parent(target) && e[q] == Dir) || staging <= q || target <= q)
  }

  /** The same, with nothing new at the target. */
  ghost predicate Unpublished(d: Disk, e: Disk, target: Path, staging: Path) {
    Framed(d, e, target, staging) && (target in e ==> target in d)
  }

  /** Nothing changed but the directories on the way to the target. */
  ghost predicate Cleared(d: Disk, e: Disk, target: Path, staging: Path) {
    Unpublished(d, e, target, staging) && staging !in e
  }

  /** The install root is as it was, or holds exactly the installation `x`. */
  ghost predicate CrashSafe(h: Host, d: Disk, e: Disk, target: Path, staging: Path, x: Expected) {
    Framed(d, e, target, staging) && (target in e && target !in d ==> ExactlyInstalled(h, e, target, x))
  }

  lemma Nothing(d: Disk, target: Path, staging: Path)
    requires WellFormed(d)
    ensures Unpublished(d, d, target, staging)
  {
  }

  lemma UnpublishedDirs(h: Host, d: Disk, e: Disk, target: Path, staging: Path)
    requires target != [] && Tame(h, d, target) && DirsAdded(h, d, e, Parent(target))
    ensures Unpublished(d, e, target, staging)
  {
    TameParent(h, d, target);
    hide Tame;
  }

  lemma UnpublishedMore(d: Disk, e: Disk, f: Disk, target: Path, staging: Path)
    requires Unpublished(d, e, target, staging) && StagedOnly(e, f, staging) && Apart(staging, target)
    ensures Unpublished(d, f, target, staging)
  {
    WithinTransitive(d, e, f);
    forall q | q in f && q !in d
      ensures !f[q].Link? && ((q <= Parent(target) && f[q] == Dir) || staging <= q || target <= q)
    {
      assert q in e ==> f[q] == e[q];
    }
    hide Gain;
  }

  lemma UnpublishedLess(d: Disk, e: Disk, f: Disk, target: Path, staging: Path)
    requires Unpublished(d, e, target, staging) && Pruned(e, f, staging)
    requires WellFormed(d) && staging !in d
    ensures Unpublished(d, f, target, staging)
  {
    forall q | q in d ensures q in f && f[q] == d[q] {
      if staging <= q {
        PrefixPresent(d, q, staging);
      }
    }
  }

  lemma UnpublishedMoves(d: Disk, e: Disk, target: Path, staging: Path)
    requires WellFormed(d) && Unpublished(d, e, target, staging) && staging !in d && target !in e
    requires staging in e && e[staging] == Dir && staging != [] && target != [] && Apart(staging, target)
    requires Parent(target) == Parent(staging) && IsName(Last(target))
    ensures Framed(d, Move(e, staging, target), target, staging)
  {
    var f := Move(e, staging, target);
    MoveWellFormed(e, staging, target);
    forall q | q in d ensures q in f && f[q] == d[q] {
      MoveContents(e, staging, target, q);
      if staging <= q {
        PrefixPresent(d, q, staging);
      }
      if target <= q {
        PrefixPresent(d, q, target);
      }
    }
    forall q | q in f && q !in d && !(target <= q)
      ensures !f[q].Link? && ((q <= Parent(target) && f[q] == Dir) || staging <= q)
    {
      MoveContents(e, staging, target, q);
    }
    forall q | q in f && target <= q ensures !f[q].Link? {
      MoveContents(e, staging, target, q);
      MovedIsNew(d, e, target, staging, q);
    }
    hide Move;
  }

  lemma MovedIsNew(d: Disk, e: Disk, target: Path, staging: Path, q: Path)
    requires WellFormed(d) && Unpublished(d, e, target, staging) && staging !in d && target <= q
    requires staging + q[|target|..] in e
    ensures !e[staging + q[|target|..]].Link?
  {
    var s := staging + q[|target|..];
    if s in d {
      PrefixPresent(d, s, staging);
    }
  }

  // ------------------------------------------------------------ moved trees

  /** The tree at `p` in `d` is the tree at `q` in `e`. */
  ghost predicate SameTree(d: Disk, p: Path, e: Disk, q: Path) {
    forall r: Path :: (p + r in d <==> q + r in e) && (p + r in d ==> d[p + r] == e[q + r])
  }

  lemma MovedTree(d: Disk, from: Path, to: Path)
    ensures SameTree(d, from, Move(d, from, to), to)
  {
    var e := Move(d, from, to);
    forall r: Path ensures (from + r in d <==> to + r in e) && (from + r in d ==> d[from + r] == e[to + r]) {
      MoveContents(d, from, to, to + r);
      assert from + (to + r)[|to|..] == from + r;
    }
  }

  lemma SameTreeAt(d: Disk, p: Path, e: Disk, q: Path, r: Path)
    requires SameTree(d, p, e, q)
    ensures IsFileBelow(d, p, r) <==> IsFileBelow(e, q, r)
    ensures p + r in d <==> q + r in e
    ensures p + r in d ==> d[p + r] == e[q + r]
  {
  }

  lemma SameTreeLinks(d: Disk, p: Path, e: Disk, q: Path)
    requires SameTree(d, p, e, q) && NoLinks(d, p)
    ensures NoLinks(e, q)
  {
    forall s | s in e && q < s ensures !e[s].Link? {
      var r := s[|q|..];
      assert s == q + r && p < p + r;
      SameTreeAt(d, p, e, q, r);
    }
  }

  /** Whether a tree is the installation does not depend on where it is. */
  lemma InstalledMoves(h: Host, d: Disk, p: Path, e: Disk, q: Path, x: Expected)
    requires SameTree(d, p, e, q) && ExactlyInstalled(h, d, p, x)
    ensures ExactlyInstalled(h, e, q, x)
  {
    SameTreeLinks(d, p, e, q);
    SameTreeAt(d, p, e, q, [OWNERSHIP_FILE]);
    FilesMove(h, d, p, e, q, x.mappings);
    hide SameTree, FilesExact, NoLinks, OWNERSHIP_FILE;
  }

  lemma FilesMove(h: Host, d: Disk, p: Path, e: Disk, q: Path, ms: seq<Mapping>)
    requires SameTree(d, p, e, q) && FilesExact(h, d, p, ms)
    ensures FilesExact(h, e, q, ms)
  {
    hide SameTree, IsFileBelow, IsTargetPath, OWNERSHIP_FILE;
    forall r ensures IsFileBelow(e, q, r) <==> r == [OWNERSHIP_FILE] || IsTargetPath(ms, r) {
      SameTreeAt(d, p, e, q, r);
    }
    forall i | 0 <= i < |ms| ensures Delivered(h, e, q, ms[i]) {
      DeliveryMoves(h, d, p, e, q, ms[i]);
    }
  }

  lemma DeliveryMoves(h: Host, d: Disk, p: Path, e: Disk, q: Path, m: Mapping)
    requires SameTree(d, p, e, q) && Delivered(h, d, p, m)
    ensures Delivered(h, e, q, m)
  {
    var r :| m.target == Join(r) && IsFileBelow(d, p, r) && Str(h.sha256(d[p + r].data)) == m.digest;
    SameTreeAt(d, p, e, q, r);
    hide SameTree;
  }

  // ----------------------------------------------------------- what stays

  /** Every existing root apart from the target keeps its whole tree, and no node
      appears at, above or below it. */
  lemma ProtectedUntouched(d: Disk, e: Disk, target: Path, staging: Path, p: Path)
    requires WellFormed(d) && Framed(d, e, target, staging) && p in d && Apart(target, p)
    requires staging !in d && staging != [] && target != [] && Parent(staging) == Parent(target)
    ensures SameBelow(d, e, p)
    ensures forall q :: q in e && q !in d ==> Apart(q, p)
  {
    forall q | q in e && q !in d ensures Apart(q, p) {
      if q <= p {
        PrefixPresent(d, p, q);
      }
      if p <= q {
        NewIsNotBelow(d, target, staging, p, q);
      }
    }
  }

  lemma NewIsNotBelow(d: Disk, target: Path, staging: Path, p: Path, q: Path)
    requires WellFormed(d) && p in d && Apart(target, p) && p <= q
    requires staging !in d && staging != [] && target != [] && Parent(staging) == Parent(target)
    ensures !(q <= Parent(target)) && !(staging <= q) && !(target <= q)
  {
    assert Parent(target) <= target && Parent(staging) <= staging;
    if staging <= q {
      assert p <= staging && p != staging ==> p <= Parent(staging);
      if staging <= p {
        PrefixPresent(d, p, staging);
      }
    }
  }

  // ------------------------------------------------------------------ runs

  /** From `a` to `b` the disk was never published. */
  ghost predicate UnpublishedRun(a: Record, b: Record, target: Path, staging: Path) {
    && Unpublished(a.disk, b.disk, target, staging) && a.trace <= b.trace
    && forall k :: |a.trace| <= k < |b.trace| ==> Unpublished(a.disk, b.trace[k], target, staging)
  }

  /** From `a` to `b` every state was safe to crash in. */
  ghost predicate CrashSafeRun(h: Host, a: Record, b: Record, target: Path, staging: Path, x: Expected) {
    && CrashSafe(h, a.disk, b.disk, target, staging, x) && a.trace <= b.trace
    && forall k :: |a.trace| <= k < |b.trace| ==> CrashSafe(h, a.disk, b.trace[k], target, staging, x)
  }

  /** From `a` to `b` nothing changed. */
  ghost predicate Untouched(a: Record, b: Record) {
    && b.disk == a.disk && a.trace <= b.trace
    && forall k :: |a.trace| <= k < |b.trace| ==> b.trace[k] == a.disk
  }

  lemma UnpublishedNow(a: Record, b: Record, target: Path, staging: Path)
    requires UnpublishedRun(a, b, target, staging)
    ensures Unpublished(a.disk, b.disk, target, staging)
  {
  }

  lemma UnpublishedIsSafe(h: Host, a: Record, b: Record, target: Path, staging: Path, x: Expected)
    requires UnpublishedRun(a, b, target, staging)
    ensures CrashSafeRun(h, a, b, target, staging, x)
  {
    hide Framed, ExactlyInstalled;
  }

  lemma UntouchedIsUnpublished(a: Record, b: Record, target: Path, staging: Path)
    requires WellFormed(a.disk) && Untouched(a, b)
    ensures UnpublishedRun(a, b, target, staging)
  {
    Nothing(a.disk, target, staging);
    hide Unpublished;
  }

  lemma UnpublishedStep(a: Record, b: Record, c: Record, target: Path, staging: Path)
    requires UnpublishedRun(a, b, target, staging) && Unpublished(a.disk, c.disk, target, staging)
    requires c.trace == b.trace + [b.disk, c.disk]
    ensures UnpublishedRun(a, c, target, staging)
  {
    hide Unpublished;
    forall k | |a.trace| <= k < |c.trace| ensures Unpublished(a.disk, c.trace[k], target, staging) {
      if k < |b.trace| {
        assert c.trace[k] == b.trace[k];
      }
    }
  }

  lemma UnpublishedGrew(h: Host, a: Record, b: Record, target: Path, staging: Path)
    requires target != [] && Tame(h, a.disk, target) && Grew(h, true, a, b, Parent(target))
    ensures UnpublishedRun(a, b, target, staging)
  {
    hide DirsAdded, Unpublished, Tame;
    UnpublishedDirs(h, a.disk, b.disk, target, staging);
    forall k | |a.trace| <= k < |b.trace| ensures Unpublished(a.disk, b.trace[k], target, staging) {
      UnpublishedDirs(h, a.disk, b.trace[k], target, staging);
    }
  }

  lemma UnpublishedStaged(a: Record, b: Record, c: Record, target: Path, staging: Path)
    requires UnpublishedRun(a, b, target, staging) && Staged(b, c, staging) && Apart(staging, target)
    ensures UnpublishedRun(a, c, target, staging)
  {
    hide Unpublished, StagedOnly;
    UnpublishedMore(a.disk, b.disk, c.disk, target, staging);
    forall k | |a.trace| <= k < |c.trace| ensures Unpublished(a.disk, c.trace[k], target, staging) {
      if k < |b.trace| {
        assert c.trace[k] == b.trace[k];
      } else {
        UnpublishedMore(a.disk, b.disk, c.trace[k], target, staging);
      }
    }
  }

  lemma UnpublishedPruned(a: Record, b: Record, c: Record, target: Path, staging: Path)
    requires UnpublishedRun(a, b, target, staging) && PrunedTo(b, c, staging)
    requires WellFormed(a.disk) && staging !in a.disk
    ensures UnpublishedRun(a, c, target, staging)
  {
    hide Unpublished, Pruned;
    UnpublishedLess(a.disk, b.disk, c.disk, target, staging);
    forall k | |a.trace| <= k < |c.trace| ensures Unpublished(a.disk, c.trace[k], target, staging) {
      if k < |b.trace| {
        assert c.trace[k] == b.trace[k];
      } else {
        UnpublishedLess(a.disk, b.disk, c.trace[k], target, staging);
      }
    }
  }

  lemma PublishedStep(h: Host, a: Record, b: Record, c: Record, target: Path, staging: Path, x: Expected)
    requires UnpublishedRun(a, b, target, staging) && c.trace == b.trace + [b.disk, c.disk]
    requires CrashSafe(h, a.disk, c.disk, target, staging, x)
    ensures CrashSafeRun(h, a, c, target, staging, x)
  {
    UnpublishedIsSafe(h, a, b, target, staging, x);
    hide CrashSafe, Unpublished;
    forall k | |a.trace| <= k < |c.trace| ensures CrashSafe(h, a.disk, c.trace[k], target, staging, x) {
      if k < |b.trace| {
        assert c.trace[k] == b.trace[k];
      }
    }
  }
}
