/** What a failed workspace installation leaves of the directories. */
module RollbackLaws {
  import opened Outcome
  import opened Paths
  import opened Containment
  import opened Hosts
  import opened Disks
  import opened PathLookup
  import opened Directories
  import opened CopyTrees
  import opened FilePlans
  import opened Rollbacks
  import opened UndoLogs
  import opened WorkspaceCopies
  import opened Workspaces
  import opened WorkspaceInstaller

  // ---------------------------------------------------------- what stays

  /** A directory with an earlier or a foreign file or link anywhere below it is
      there after a rollback. */
  lemma LeafKeepsDirectories(a: Record, b: Record, q: Path, leaf: Path)
    requires WellFormed(b.disk) && RolledBack(a, b)
    requires q < leaf && (leaf in Leaves(a.disk) || leaf in b.foreign)
    ensures leaf in b.disk && IsDir(b.disk, q)
  {
    assert leaf in Leaves(b.disk);
    PrefixIsDir(b.disk, leaf, |q|);
    assert leaf[..|q|] == q;
  }

  // ----------------------------------------------------------- what goes

  /** An earlier or foreign file or link. */
  ghost predicate Others(a: Record, b: Record, p: Path) {
    p in Leaves(a.disk) || p in b.foreign
  }

  lemma LeavesAtStart(h: Host, a: Record, b: Record, created: seq<Path>, places: seq<Path>, datas: seq<Bytes>, p: Path)
    requires LoggedRun(h, a, b, created, places, datas) && AllStraight(b.disk, created)
    requires p in b.disk && b.disk[p] != Dir
    ensures p in created <==> !Others(a, b, p)
  {
    assert Logged(h, a.disk, b.disk, b.foreign, created, places, datas);
    assert p in Leaves(b.disk);
    PlacedKeys(places, datas);
    assert NewPlaces(Leaves(a.disk) + b.foreign, places)
        && Leaves(b.disk) == Leaves(a.disk) + b.foreign + Placed(places, datas);
    SamePlaces(h, a.disk, b.disk, b.foreign, created, places, datas);
    hide Logged, LoggedRun, Leaves, Placed;
    if p in created {
      var i :| 0 <= i < |created| && created[i] == p;
      assert places[i] !in Leaves(a.disk) + b.foreign;
    }
  }

  lemma SamePlaces(h: Host, d0: Disk, d: Disk, foreign: map<Path, Node>, created: seq<Path>, places: seq<Path>,
                   datas: seq<Bytes>)
    requires Logged(h, d0, d, foreign, created, places, datas) && AllStraight(d, created)
    ensures places == created
  {
    hide Leaves, Placed, Place, Straight;
    forall i | 0 <= i < |created| ensures places[i] == created[i] {
      SamePlace(h, d0, d, foreign, created, places, datas, i);
    }
  }

  /** The whole subtree of a directory consists of created files and of directories
      that lead to them: no file or link of others, no directory without one. */
  ghost predicate OnlyOurs(a: Record, u: Undo, q: Path) {
    forall p :: p in u.begun.disk && q <= p ==>
      if u.begun.disk[p] == Dir then LeadsTo(u.created, p) else !Others(a, u.begun, p)
  }

  /** When nothing interferes with the rollback and no link is on the way to a created
      file, a directory is gone exactly when it lies strictly inside the workspace,
      no file or link of others lies below it, and every directory at or below it
      leads to a created file. */
  lemma DirectoryGoneExactly(h: Host, p: Package, a: Record, b: Record, u: Undo, c: Conditions, q: Path)
    requires Unwinds(h, p, a, b, u, c) && c.still && AllStraight(u.begun.disk, u.created)
    requires IsDir(u.begun.disk, q)
    ensures q !in b.disk <==> p.workspace < q && OnlyOurs(a, u, q)
    ensures q in b.disk ==> b.disk[q] == Dir
  {
    var e := u.begun.disk;
    hide LeadsTo, LoggedRun, AllStraight, Begun, Stuck, Conflicting, DirsTaken, PlanOf, TargetsFor;
    assert b.disk == Undone(e, p.workspace, u.created);
    assert LoggedRun(h, a, u.begun, u.created, u.places, u.datas);
    hide Unwinds;
    NotAFile(h, a, u, q);
    forall n | n in e && e[n] != Dir ensures n in u.created <==> !Others(a, u.begun, n) {
      LeavesAtStart(h, a, u.begun, u.created, u.places, u.datas, n);
    }
    hide Others;
    forall n | n in e && e[n] == Dir ensures n !in u.created {
      NotAFile(h, a, u, n);
    }
  }

  lemma NotAFile(h: Host, a: Record, u: Undo, q: Path)
    requires LoggedRun(h, a, u.begun, u.created, u.places, u.datas) && AllStraight(u.begun.disk, u.created)
    requires IsDir(u.begun.disk, q)
    ensures q !in u.created
  {
    LoggedPresent(h, a.disk, u.begun.disk, u.begun.foreign, u.created, u.places, u.datas);
    hide LoggedRun, Logged, AllStraight;
  }

  // ------------------------------------------------------- what is left over

  lemma PlanTargets(h: Host, p: Package)
    ensures |PlanOf(h, p)| == |TargetsFor(p)|
    ensures forall i :: 0 <= i < |TargetsFor(p)| ==> TargetOf(PlanOf(h, p)[i]) == TargetsFor(p)[i]
  {
    hide RecordAt, OwnershipText;
  }

  /** The targets lie below the workspace when they are allowed. */
  lemma TargetsBelow(p: Package)
    requires IsPath(p.workspace) && AllAllowed(p.x.mappings)
    ensures forall i :: 0 <= i < |TargetsFor(p)| ==> p.workspace < TargetsFor(p)[i] && IsPath(TargetsFor(p)[i])
  {
    RecordIsBelow(p.workspace);
    hide RecordAt, TargetAllowed, Names, IsPath;
    forall i | 0 <= i < |p.x.mappings| ensures p.workspace < TargetsFor(p)[i] && IsPath(TargetsFor(p)[i]) {
      WorkspaceTargetIs(p.workspace, p.x.mappings[i].target, true);
    }
  }

  /** Some name strictly between the workspace and a target leads to `q`; without
      links on the way, it is `q`. */
  ghost predicate OnTheWay(h: Host, d: Disk, workspace: Path, target: Path, q: Path) {
    && (exists k :: |workspace| < k < |target| && Find(h, d, target[..k]) == Some(q))
    && (Straight(d, target) ==> workspace < q < target)
  }

  /** In a quiet run every new directory, which the rollback may leave, was met on
      the way to a created file or to the one after it. */
  lemma NewDirectoriesOnWays(h: Host, p: Package, a: Record, b: Record, u: Undo, c: Conditions, q: Path)
    requires WellFormed(a.disk) && IsDir(a.disk, p.workspace) && AllAllowed(p.x.mappings)
    requires Unwinds(h, p, a, b, u, c) && c.quiet && IsDir(b.disk, q) && q !in a.disk
    ensures IsDir(u.begun.disk, q)
    ensures exists i ::
              && 0 <= i <= |u.created| && i < |TargetsFor(p)|
              && OnTheWay(h, u.begun.disk, p.workspace, TargetsFor(p)[i], q)
  {
    var e, ops, n := u.begun.disk, PlanOf(h, p), |u.created|;
    PlanTargets(h, p);
    assert IsPath(p.workspace);
    TargetsBelow(p);
    assert IsDir(e, q);
    assert Begun(h, a.disk, e, ops, n) && Within(a.disk, e);
    hide Unwinds, WellFormed, TargetsFor, PlanOf, Begun, IsPath, OnTheWay, Within, AllAllowed, TargetOf;
    assert NamedTargets(ops);
    BegunLed(h, a.disk, e, ops, n);
    assert Led(h, e, ops, n + 1, q) && WellFormed(e);
    hide NewDirsLed;
    var i :| 0 <= i < n + 1 && i < |ops| && LeadsBy(h, e, Parent(TargetOf(ops[i])), q);
    LedIsOnTheWay(h, a.disk, e, p.workspace, TargetsFor(p)[i], q);
  }

  lemma LedIsOnTheWay(h: Host, d: Disk, e: Disk, workspace: Path, target: Path, q: Path)
    requires WellFormed(d) && WellFormed(e) && Within(d, e) && IsDir(d, workspace) && workspace < target
    requires q !in d && LeadsBy(h, e, Parent(target), q)
    ensures OnTheWay(h, e, workspace, target, q)
  {
    hide Find, WellFormed, Straight, Within;
    var k :| 0 <= k <= |Parent(target)| && Find(h, e, Parent(target)[..k]) == Some(q);
    assert Parent(target)[..k] == target[..k];
    if k <= |workspace| {
      assert target[..k] == workspace[..k];
      WayIsThere(h, d, e, workspace, k);
    }
    if Straight(e, target) {
      StraightPrefix(e, target, k);
      FindStraight(h, e, target[..k]);
      assert q == target[..k];
    }
  }

  lemma WayIsThere(h: Host, d: Disk, e: Disk, workspace: Path, k: nat)
    requires WellFormed(d) && WellFormed(e) && Within(d, e) && IsDir(d, workspace) && k <= |workspace|
    ensures workspace[..k] in d && Find(h, e, workspace[..k]) == Some(workspace[..k])
  {
    assert workspace[..|workspace|] == workspace;
    if k < |workspace| {
      PrefixIsDir(d, workspace, k);
    }
    FindPresent(h, e, workspace[..k]);
  }
}
