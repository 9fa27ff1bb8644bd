/** The copy loop of the workspace installer and its rollback, as runs of file
    operations during which others may add files. */
module WorkspaceCopies {
  import opened Outcome
  import opened Paths
  import opened PathLemmas
  import opened Hosts
  import opened Disks
  import opened PathLookup
  import opened FileSystems
  import opened Directories
  import opened FilePlans
  import opened Rollbacks
  import opened UndoLogs

  /** No file or link of `d` is lost or changed in `e`. */
  ghost predicate Kept(d: Disk, e: Disk) {
    forall q :: q in Leaves(d) ==> q in e && e[q] == d[q]
  }

  /** From `a` to `b` the files in the log were created, others added `b.foreign`,
      and no earlier file was lost or changed in any state between. */
  ghost predicate LoggedRun(h: Host, a: Record, b: Record, created: seq<Path>, places: seq<Path>, datas: seq<Bytes>) {
    && Logged(h, a.disk, b.disk, b.foreign, created, places, datas)
    && a.trace <= b.trace && forall k :: |a.trace| <= k < |b.trace| ==> Kept(a.disk, b.trace[k])
  }

  lemma LoggedKeeps(h: Host, d0: Disk, d: Disk, foreign: map<Path, Node>, created: seq<Path>, places: seq<Path>,
                    datas: seq<Bytes>)
    requires Logged(h, d0, d, foreign, created, places, datas)
    ensures Kept(d0, d)
  {
    PlacedKeys(places, datas);
    forall q | q in Leaves(d0) ensures q in d && d[q] == d0[q] {
      assert q !in Placed(places, datas);
      assert Leaves(d)[q] == Leaves(d0)[q];
    }
  }

  lemma KeptWithin(d: Disk, e: Disk, f: Disk)
    requires Kept(d, e) && Within(e, f)
    ensures Kept(d, f)
  {
  }

  /** One operation: `e` is the disk after the arrivals, `c` the record after the
      operation. */
  lemma LoggedStep(h: Host, a: Record, b: Record, e: Disk, c: Record, created: seq<Path>, places: seq<Path>,
                   datas: seq<Bytes>, created1: seq<Path>, places1: seq<Path>, datas1: seq<Bytes>)
    requires LoggedRun(h, a, b, created, places, datas) && Within(b.disk, e)
    requires c.trace == b.trace + [e, c.disk] && Logged(h, a.disk, c.disk, c.foreign, created1, places1, datas1)
    ensures LoggedRun(h, a, c, created1, places1, datas1)
  {
    hide Kept, Within, Logged;
    LoggedKeeps(h, a.disk, b.disk, b.foreign, created, places, datas);
    LoggedKeeps(h, a.disk, c.disk, c.foreign, created1, places1, datas1);
    KeptWithin(a.disk, b.disk, e);
    forall k | |a.trace| <= k < |c.trace| ensures Kept(a.disk, c.trace[k]) {
      if k < |b.trace| {
        assert c.trace[k] == b.trace[k];
      }
    }
  }

  /** Creating directories, whatever arrives meanwhile. */
  lemma LoggedGrew(h: Host, quiet: bool, a: Record, b: Record, c: Record, created: seq<Path>, places: seq<Path>,
                   datas: seq<Bytes>, p: Path)
    requires LoggedRun(h, a, b, created, places, datas) && Grew(h, quiet, b, c, p) && WellFormed(c.disk)
    ensures LoggedRun(h, a, c, created, places, datas)
  {
    LoggedKeeps(h, a.disk, b.disk, b.foreign, created, places, datas);
    LoggedGrows(h, a.disk, b.disk, c.disk, b.foreign, created, places, datas);
    hide Kept, Logged, DirsAdded, Gain;
    forall k | |a.trace| <= k < |c.trace| ensures Kept(a.disk, c.trace[k]) {
      if k < |b.trace| {
        assert c.trace[k] == b.trace[k];
      } else {
        KeptWithin(a.disk, b.disk, c.trace[k]);
      }
    }
  }

  // ------------------------------------------------------------- creating

  /** What a creating operation writes, if its source is there. */
  function Supply(h: Host, d: Disk, op: Creation): Option<Bytes> {
    if op.OpCreate? then Some(op.data) else ReadFile(h, d, op.from)
  }

  lemma CreationEffect(h: Host, d: Disk, op: Creation)
    ensures Effect(h, d, op) ==
              var data := Supply(h, d, op);
              if data.None? then None else CreateFile(h, d, TargetOf(op), data.value)
  {
    hide CreateFile, ReadFile;
  }

  lemma SupplyIs(h: Host, d: Disk, e: Disk, op: Creation, data: Bytes)
    requires WellFormed(e) && Within(d, e) && Supplies(d, op, data)
    ensures Supply(h, e, op) == Some(data)
  {
    if op.OpCopy? {
      FindPresent(h, e, op.from);
    }
  }

  lemma OperationStep(fs: FileSystem, d: Disk, n: nat, op: Op)
    requires WellFormed(d)
    ensures var (s, e) := fs.After(d, n, op);
            var a := Arrive(d, fs.arrivals(n));
            && WellFormed(a) && Within(d, a)
            && (if s.Done? then Effect(fs.host, a, op) == Some(e) else e == a)
            && (s.Broken? ==> fs.Faulty(op, n)) && (s.Refused? ==> Effect(fs.host, a, op).None?)
  {
    ArriveGrows(d, fs.arrivals(n));
    hide Effect, Arrive, WellFormed;
  }

  /** What a creating operation does to the log. */
  lemma CreationLogged(h: Host, a: Record, b: Record, e: Disk, c: Record, op: Creation, created: seq<Path>,
                       places: seq<Path>, datas: seq<Bytes>) returns (place: Path, data: Bytes)
    requires LoggedRun(h, a, b, created, places, datas) && IsPath(TargetOf(op))
    requires Within(a.disk, b.disk) && Within(b.disk, e) && WellFormed(e)
    requires c.foreign == b.foreign + Gain(b.disk, e) && c.trace == b.trace + [e, c.disk]
    requires Effect(h, e, op) == Some(c.disk)
    ensures LoggedRun(h, a, c, created + [TargetOf(op)], places + [place], datas + [data]) && Within(a.disk, c.disk)
    ensures forall x :: Supplies(a.disk, op, x) ==> data == x
  {
    var target := TargetOf(op);
    CreationEffect(h, e, op);
    data := Supply(h, e, op).value;
    WithinTransitive(a.disk, b.disk, e);
    forall x | Supplies(a.disk, op, x) ensures data == x {
      SupplyIs(h, a.disk, e, op, x);
    }
    place := Place(h, e, target).value;
    hide Effect, Supply, Supplies, Within, WellFormed, Gain, CreateFile, Place;
    assert Logged(h, a.disk, b.disk, b.foreign, created, places, datas);
    hide Logged, LoggedRun;
    LoggedGrows(h, a.disk, b.disk, e, b.foreign, created, places, datas);
    LoggedCreates(h, a.disk, e, c.foreign, created, places, datas, target, data);
    WithinTransitive(a.disk, e, c.disk);
    LoggedStep(h, a, b, e, c, created, places, datas, created + [target], places + [place], datas + [data]);
  }

  /** An operation that was not done leaves the log as it was. */
  lemma NothingCreated(h: Host, a: Record, b: Record, c: Record, created: seq<Path>, places: seq<Path>,
                       datas: seq<Bytes>)
    requires LoggedRun(h, a, b, created, places, datas) && Within(a.disk, b.disk) && Within(b.disk, c.disk)
    requires WellFormed(c.disk)
    requires c.foreign == b.foreign + Gain(b.disk, c.disk) && c.trace == b.trace + [c.disk, c.disk]
    ensures LoggedRun(h, a, c, created, places, datas) && Within(a.disk, c.disk)
  {
    WithinTransitive(a.disk, b.disk, c.disk);
    LoggedGrows(h, a.disk, b.disk, c.disk, b.foreign, created, places, datas);
    hide Logged, Within, Gain, WellFormed;
    LoggedStep(h, a, b, c.disk, c, created, places, datas, created, places, datas);
  }

  /** Creating one file: `fs.copyFileSync(from, target, COPYFILE_EXCL)`, or
      `fs.writeFileSync(target, text, { flag: 'wx' })`. */
  method CreateLogged(fs: FileSystem, ghost a: Record, op: Creation, ghost created: seq<Path>, ghost places: seq<Path>,
                      ghost datas: seq<Bytes>)
    returns (ok: bool, ghost place: Path, ghost data: Bytes)
    requires fs.Valid() && IsPath(TargetOf(op)) && Within(a.disk, fs.disk)
    requires LoggedRun(fs.host, a, Recorded(fs), created, places, datas)
    modifies fs
    ensures fs.Valid() && Within(a.disk, fs.disk)
    ensures if ok then LoggedRun(fs.host, a, Recorded(fs), created + [TargetOf(op)], places + [place], datas + [data])
            else LoggedRun(fs.host, a, Recorded(fs), created, places, datas)
    ensures ok ==> forall x :: Supplies(a.disk, op, x) ==> data == x
    ensures fs.Quiet() ==> fs.foreign == old(fs.foreign)
    ensures fs.Quiet() ==> if ok then Effect(fs.host, old(fs.disk), op) == Some(fs.disk) else fs.disk == old(fs.disk)
    ensures fs.Quiet() && fs.Calm() ==> ok == Effect(fs.host, old(fs.disk), op).Some?
  {
    ghost var b, n := Recorded(fs), fs.clock;
    ghost var e := Arrive(b.disk, fs.arrivals(n));
    OperationStep(fs, b.disk, n, op);
    QuietArrives(fs, b, n);
    QuietCreation(fs, b.disk, n, op);
    hide FileSystem.After, FileSystem.Quiet, FileSystem.Calm, Effect, Arrive, WellFormed, Within, LoggedRun,
      Supplies, Gain;
    var s := fs.Do(op);
    ok := s.Done?;
    place, data := [], [];
    if ok {
      place, data := CreationLogged(fs.host, a, b, e, Recorded(fs), op, created, places, datas);
    } else {
      NothingCreated(fs.host, a, b, Recorded(fs), created, places, datas);
    }
  }

  lemma QuietCreation(fs: FileSystem, d: Disk, n: nat, op: Creation)
    ensures var (s, e) := fs.After(d, n, op);
            && (fs.Quiet() ==> if s.Done? then Effect(fs.host, d, op) == Some(e) else e == d)
            && (fs.Quiet() && fs.Calm() ==> s.Done? == Effect(fs.host, d, op).Some?)
  {
    if fs.Quiet() {
      QuietStep(fs, d, n, op);
    }
    hide Effect, Arrive;
  }

  /** One round of the loop: the directories, then the file. */
  method CreateWithParents(fs: FileSystem, ghost a: Record, op: Creation, ghost created: seq<Path>,
                           ghost places: seq<Path>,
                           ghost datas: seq<Bytes>)
    returns (ok: bool, ghost place: Path, ghost data: Bytes)
    requires fs.Valid() && IsPath(TargetOf(op)) && Within(a.disk, fs.disk)
    requires LoggedRun(fs.host, a, Recorded(fs), created, places, datas)
    modifies fs
    ensures fs.Valid() && Within(a.disk, fs.disk)
    ensures if ok then LoggedRun(fs.host, a, Recorded(fs), created + [TargetOf(op)], places + [place], datas + [data])
            else LoggedRun(fs.host, a, Recorded(fs), created, places, datas)
    ensures ok ==> forall x :: Supplies(a.disk, op, x) ==> data == x
    ensures fs.Quiet() ==> fs.foreign == old(fs.foreign)
    ensures fs.Quiet() ==> if ok then CreateOne(fs.host, old(fs.disk), op) == Some(fs.disk)
                           else DirsAdded(fs.host, old(fs.disk), fs.disk, Parent(TargetOf(op)))
    ensures fs.Quiet() && fs.Calm() ==> ok == CreateOne(fs.host, old(fs.disk), op).Some?
  {
    ghost var b := Recorded(fs);
    hide LoggedRun, Grew, Supplies, Effect, WellFormed, Within, MakeDirs;
    ok := MakeDirectories(fs, Parent(TargetOf(op)));
    LoggedGrew(fs.host, fs.Quiet(), a, b, Recorded(fs), created, places, datas, Parent(TargetOf(op)));
    GrewWithin(fs.host, fs.Quiet(), a, b, Recorded(fs), Parent(TargetOf(op)));
    if fs.Quiet() {
      QuietGrew(fs.host, b, Recorded(fs), Parent(TargetOf(op)));
    }
    place, data := [], [];
    if ok {
      ok, place, data := CreateLogged(fs, a, op, created, places, datas);
    }
  }

  lemma QuietArrives(fs: FileSystem, b: Record, n: nat)
    ensures fs.Quiet() ==> b.foreign + Gain(b.disk, Arrive(b.disk, fs.arrivals(n))) == b.foreign
  {
    assert fs.Quiet() ==> Gain(b.disk, Arrive(b.disk, fs.arrivals(n))) == map[];
  }

  lemma QuietGrew(h: Host, b: Record, c: Record, p: Path)
    requires Grew(h, true, b, c, p)
    ensures c.foreign == b.foreign && DirsAdded(h, b.disk, c.disk, p)
  {
    hide LeadsBy, Tame;
    forall q | q in c.disk && q !in b.disk ensures c.disk[q] == Dir {
    }
    assert Gain(b.disk, c.disk) == map[];
  }

  lemma GrewWithin(h: Host, quiet: bool, a: Record, b: Record, c: Record, p: Path)
    requires Within(a.disk, b.disk) && Grew(h, quiet, b, c, p)
    ensures Within(a.disk, c.disk)
  {
    WithinTransitive(a.disk, b.disk, c.disk);
    hide DirsAdded, Gain;
  }

  // ------------------------------------------------------------- rollback

  /** What pruning one directory, or failing to, does to the log. */
  lemma PruneLogged(fs: FileSystem, a: Record, b: Record, n: nat, p: Path, created: seq<Path>, places: seq<Path>,
                    datas: seq<Bytes>)
    requires LoggedRun(fs.host, a, b, created, places, datas)
    ensures var (s, d) := fs.After(b.disk, n, OpRemoveDir(p));
            var e := Arrive(b.disk, fs.arrivals(n));
            forall c: Record ::
              c.disk == d && c.foreign == b.foreign + Gain(b.disk, e) && c.trace == b.trace + [e, d] ==>
                LoggedRun(fs.host, a, c, created, places, datas)
  {
    var (s, d) := fs.After(b.disk, n, OpRemoveDir(p));
    var e := Arrive(b.disk, fs.arrivals(n));
    assert WellFormed(b.disk);
    OperationStep(fs, b.disk, n, OpRemoveDir(p));
    RemoveDirEffect(fs.host, e, p);
    hide FileSystem.After, Effect, Arrive, WellFormed, Within, Gain, RemoveDir, Logged;
    LoggedGrows(fs.host, a.disk, b.disk, e, b.foreign, created, places, datas);
    var f := b.foreign + Gain(b.disk, e);
    if s.Done? {
      LoggedPrunes(fs.host, a.disk, e, f, created, places, datas, p);
    }
    forall c: Record | c.disk == d && c.foreign == f && c.trace == b.trace + [e, d]
      ensures LoggedRun(fs.host, a, c, created, places, datas)
    {
      LoggedStep(fs.host, a, b, e, c, created, places, datas, created, places, datas);
    }
  }

  lemma RemoveDirEffect(h: Host, d: Disk, p: Path)
    ensures Effect(h, d, OpRemoveDir(p)) == RemoveDir(h, d, p)
  {
    hide RemoveDir;
  }

  /** `fs.rmdirSync(dir)`, where `dir` is the way to the created file `files[n]` cut
      after the names of `at`. */
  method RemoveParent(fs: FileSystem, ghost a: Record, dir: string, ghost at: Path, ghost created: seq<Path>,
                      ghost places: seq<Path>, ghost datas: seq<Bytes>, ghost root: Path, ghost files: seq<Path>,
                      ghost n: nat, ghost e: Disk, ghost still: bool)
    returns (ok: bool)
    requires fs.Valid() && LoggedRun(fs.host, a, Recorded(fs), created, places, datas)
    requires n < |files| && root < at < files[n] && root < files[n] && IsPath(at) && dir == Render(at)
    requires DirsTaken(fs.host, fs.Quiet(), e, Recorded(fs), root, files)
    requires still ==> fs.UndisturbedFrom(fs.clock) && Climbing(e, fs.disk, root, files, n, at)
    modifies fs
    ensures fs.Valid() && LoggedRun(fs.host, a, Recorded(fs), created, places, datas)
    ensures DirsTaken(fs.host, fs.Quiet(), e, Recorded(fs), root, files)
    ensures still ==> fs.UndisturbedFrom(fs.clock)
                      && if ok then Climbing(e, fs.disk, root, files, n, Parent(at))
                         else Tidy(e, fs.disk, root, files[n..], root)
    ensures fs.Quiet() ==> fs.foreign == old(fs.foreign)
  {
    RenderSegs(at);
    PruneLogged(fs, a, Recorded(fs), fs.clock, at, created, places, datas);
    PruneTaken(fs, e, Recorded(fs), fs.clock, root, files, n, |at|);
    QuietArrives(fs, Recorded(fs), fs.clock);
    if still {
      PruneTidy(fs, e, fs.disk, fs.clock, root, files, n, at);
    }
    assert files[n][..|at|] == at;
    hide FileSystem.After, FileSystem.Quiet, FileSystem.UndisturbedFrom, LoggedRun, Gain, Arrive, WellFormed,
      DirsTaken, Tidy, Climbing, Segs, Render, Within;
    var s := fs.Do(OpRemoveDir(Segs(dir)));
    ok := s.Done?;
  }

  /** `removeEmptyParents(file, workspaceRoot)` for the created file `files[n]`: it
      only ever tries to remove directories strictly between the root and the file,
      from the file upwards, and disturbs no file. When nothing interferes it takes
      just the empty ones. */
  method RemoveEmptyParents(fs: FileSystem, ghost a: Record, file: string, root: string, ghost created: seq<Path>,
                            ghost places: seq<Path>, ghost datas: seq<Bytes>, ghost rootPath: Path,
                            ghost files: seq<Path>, ghost n: nat, ghost e: Disk, ghost still: bool)
    returns (ghost visited: seq<Path>)
    requires fs.Valid() && LoggedRun(fs.host, a, Recorded(fs), created, places, datas)
    requires n < |files| && IsPath(files[n]) && rootPath < files[n] && file == Render(files[n])
    requires root == Render(rootPath)
    requires DirsTaken(fs.host, fs.Quiet(), e, Recorded(fs), rootPath, files)
    requires still ==> fs.UndisturbedFrom(fs.clock) && Climbing(e, fs.disk, rootPath, files, n, Parent(files[n]))
    modifies fs
    ensures fs.Valid() && LoggedRun(fs.host, a, Recorded(fs), created, places, datas)
    ensures Upwards(visited, rootPath, files[n])
    ensures DirsTaken(fs.host, fs.Quiet(), e, Recorded(fs), rootPath, files)
    ensures still ==> fs.UndisturbedFrom(fs.clock) && Tidy(e, fs.disk, rootPath, files[n..], rootPath)
    ensures fs.Quiet() ==> fs.foreign == old(fs.foreign)
  {
    hide *;
    visited := [];
    ghost var at := Parent(files[n]);
    ParentBetween(rootPath, files[n], files[n]);
    DirnameDropsLast(files[n]);
    RenderSegs(rootPath);
    var cursor := Dirname(file);
    UpwardsNothing(rootPath, files[n]);
    while cursor != root
      invariant fs.Valid() && LoggedRun(fs.host, a, Recorded(fs), created, places, datas)
      invariant fs.Quiet() ==> fs.foreign == old(fs.foreign)
      invariant rootPath <= at < files[n] && IsPath(at) && |at| == |files[n]| - 1 - |visited| && cursor == Render(at)
      invariant Upwards(visited, rootPath, files[n])
      invariant DirsTaken(fs.host, fs.Quiet(), e, Recorded(fs), rootPath, files)
      invariant still ==> fs.UndisturbedFrom(fs.clock) && Climbing(e, fs.disk, rootPath, files, n, at)
      decreases |at|
    {
      StrictlyAbove(rootPath, at);
      var ok := RemoveParent(fs, a, cursor, at, created, places, datas, rootPath, files, n, e, still);
      UpwardsMore(visited, rootPath, files[n], at);
      visited := visited + [at];
      if !ok {
        return;
      }
      DirnameDropsLast(at);
      ParentBetween(rootPath, at, files[n]);
      cursor, at := Dirname(cursor), Parent(at);
    }
    RenderSegs(at);
    if still {
      ClimbEnds(e, fs.disk, rootPath, files, n);
    }
  }

  /** Directories strictly between the root and the file, from the file upwards. */
  ghost predicate Upwards(visited: seq<Path>, root: Path, file: Path) {
    forall i :: 0 <= i < |visited| ==> root < visited[i] < file && |visited[i]| == |file| - 1 - i
  }

  lemma StrictlyAbove(root: Path, at: Path)
    ensures root <= at && root != at ==> root < at
  {
    assert |root| == |at| && root <= at ==> root == at[..|at|] == at;
  }

  lemma UpwardsNothing(root: Path, file: Path)
    ensures Upwards([], root, file)
  {
  }

  lemma UpwardsMore(visited: seq<Path>, root: Path, file: Path, at: Path)
    requires Upwards(visited, root, file) && root < at < file && |at| == |file| - 1 - |visited|
    ensures Upwards(visited + [at], root, file)
  {
  }

  lemma ParentBetween(root: Path, at: Path, file: Path)
    requires root < at <= file && IsPath(at)
    ensures root <= Parent(at) < file && IsPath(root) && IsPath(Parent(at)) && |Parent(at)| == |at| - 1
  {
  }

  /** What removing the last logged file does to the log. */
  lemma UndoLogged(fs: FileSystem, a: Record, b: Record, n: nat, created: seq<Path>, places: seq<Path>,
                   datas: seq<Bytes>)
    requires created != [] && LoggedRun(fs.host, a, b, created, places, datas)
    ensures |places| == |created| && |datas| == |created|
    ensures var k := |created| - 1;
            var (s, d) := fs.After(b.disk, n, OpRemoveFile(created[k]));
            var e := Arrive(b.disk, fs.arrivals(n));
            && (!s.Done? ==> fs.removalFails(n))
            && forall c: Record ::
                 c.disk == d && c.foreign == b.foreign + Gain(b.disk, e) && c.trace == b.trace + [e, d] ==>
                   if s.Done? then LoggedRun(fs.host, a, c, created[..k], places[..k], datas[..k])
                   else LoggedRun(fs.host, a, c, created, places, datas)
  {
    var k := |created| - 1;
    var op := OpRemoveFile(created[k]);
    var (s, d) := fs.After(b.disk, n, op);
    var e := Arrive(b.disk, fs.arrivals(n));
    assert WellFormed(b.disk) && |places| == |created| && |datas| == |created|;
    OperationStep(fs, b.disk, n, op);
    RemoveFileEffect(fs.host, e, created[k]);
    hide FileSystem.After, Effect, Arrive, WellFormed, Within, Gain, RemoveFile, Logged;
    LoggedGrows(fs.host, a.disk, b.disk, e, b.foreign, created, places, datas);
    var f := b.foreign + Gain(b.disk, e);
    LoggedUndoes(fs.host, a.disk, e, f, created, places, datas);
    forall c: Record | c.disk == d && c.foreign == f && c.trace == b.trace + [e, d]
      ensures if s.Done? then LoggedRun(fs.host, a, c, created[..k], places[..k], datas[..k])
              else LoggedRun(fs.host, a, c, created, places, datas)
    {
      if s.Done? {
        LoggedStep(fs.host, a, b, e, c, created, places, datas, created[..k], places[..k], datas[..k]);
      } else {
        LoggedStep(fs.host, a, b, e, c, created, places, datas, created, places, datas);
      }
    }
  }

  lemma RemoveFileEffect(h: Host, d: Disk, p: Path)
    ensures Effect(h, d, OpRemoveFile(p)) == RemoveFile(h, d, p)
  {
    hide RemoveFile;
  }

  /** The first `n` entries of the log are left. */
  ghost predicate LoggedFirst(h: Host, a: Record, b: Record, created: seq<Path>, places: seq<Path>,
                              datas: seq<Bytes>, n: nat) {
    n <= |created| == |places| == |datas| && LoggedRun(h, a, b, created[..n], places[..n], datas[..n])
  }

  lemma LoggedWhole(h: Host, a: Record, b: Record, created: seq<Path>, places: seq<Path>, datas: seq<Bytes>)
    requires LoggedRun(h, a, b, created, places, datas)
    ensures LoggedFirst(h, a, b, created, places, datas, |created|)
  {
    assert |created| == |places| == |datas|;
    assert created[..|created|] == created && places[..|created|] == places && datas[..|created|] == datas;
    hide LoggedRun;
  }

  lemma FirstIs(h: Host, a: Record, b: Record, created: seq<Path>, places: seq<Path>, datas: seq<Bytes>, n: nat)
    requires n <= |created|
    ensures LoggedFirst(h, a, b, created, places, datas, n) <==>
              |created| == |places| == |datas| && LoggedRun(h, a, b, created[..n], places[..n], datas[..n])
  {
    hide LoggedRun;
  }

  /** One round of the catch block: the created file `n` goes, then the directories
      that it leaves empty. */
  method UndoLast(fs: FileSystem, ghost a: Record, created: seq<Path>, n: nat, root: Path, ghost places: seq<Path>,
                  ghost datas: seq<Bytes>, ghost e: Disk, ghost still: bool)
    returns (ok: bool)
    requires fs.Valid() && LoggedFirst(fs.host, a, Recorded(fs), created, places, datas, n + 1)
    requires n < |created| && root < created[n] && IsPath(created[n])
    requires DirsTaken(fs.host, fs.Quiet(), e, Recorded(fs), root, created)
    requires still ==> fs.UndisturbedFrom(fs.clock) && Standing(e, fs.disk, root, created, n + 1)
    modifies fs
    ensures fs.Valid() && LoggedFirst(fs.host, a, Recorded(fs), created, places, datas, if ok then n else n + 1)
    ensures fs.CleanupWorks() || still ==> ok
    ensures DirsTaken(fs.host, fs.Quiet(), e, Recorded(fs), root, created)
    ensures still ==> fs.UndisturbedFrom(fs.clock) && Standing(e, fs.disk, root, created, n)
    ensures fs.Quiet() ==> fs.foreign == old(fs.foreign)
  {
    hide LoggedFirst, LoggedRun, WellFormed, DirsTaken, Standing, Climbing, Tidy, Within, AllStraight, Undone,
      IsPath, Parent, FileSystem.UndisturbedFrom, FileSystem.Quiet, FileSystem.After, Arrive, Gain, Render;
    FirstIs(fs.host, a, Recorded(fs), created, places, datas, n + 1);
    ghost var f := fs.disk;
    ghost var c, p, x := created[..n + 1], places[..n + 1], datas[..n + 1];
    FrontOfFront(created, n);
    FrontOfFront(places, n);
    FrontOfFront(datas, n);
    UndoLogged(fs, a, Recorded(fs), fs.clock, c, p, x);
    UndoTaken(fs, e, Recorded(fs), fs.clock, root, created, created[n]);
    QuietArrives(fs, Recorded(fs), fs.clock);
    if still {
      UndoTidy(fs, e, fs.disk, fs.clock, root, created, n);
    }
    var s := fs.Do(OpRemoveFile(created[n]));
    ok := s.Done?;
    if ok {
      ghost var visited :=
        RemoveEmptyParents(fs, a, Render(created[n]), Render(root), c[..n], p[..n], x[..n], root, created, n, e, still);
      if still {
        StandsAgain(e, f, fs.disk, root, created, n);
      }
      FirstIs(fs.host, a, Recorded(fs), created, places, datas, n);
    } else {
      FirstIs(fs.host, a, Recorded(fs), created, places, datas, n + 1);
    }
  }

  lemma FrontOfFront<T>(s: seq<T>, n: nat)
    requires n < |s|
    ensures s[..n + 1][..n] == s[..n] && s[..n + 1][n] == s[n]
  {
  }

  lemma LoggedStands(h: Host, a: Record, b: Record, created: seq<Path>, places: seq<Path>, datas: seq<Bytes>,
                     root: Path)
    requires LoggedRun(h, a, b, created, places, datas) && AllStraight(b.disk, created)
    ensures Standing(b.disk, b.disk, root, created, |created|)
  {
    assert Logged(h, a.disk, b.disk, b.foreign, created, places, datas) && WellFormed(b.disk);
    hide LoggedRun, Logged, WellFormed, AllStraight, Standing;
    LoggedPresent(h, a.disk, b.disk, b.foreign, created, places, datas);
    StandsFirst(b.disk, root, created);
  }

  /** The catch block: the created files go in reverse order. A removal that breaks
      ends it. What happens to directories is said for any run, and exactly for one
      in which nothing interferes and no link is on the way to a created file. */
  method RollBack(fs: FileSystem, ghost a: Record, created: seq<Path>, root: Path, ghost places: seq<Path>,
                  ghost datas: seq<Bytes>)
    returns (ok: bool, ghost left: nat)
    requires fs.Valid() && LoggedRun(fs.host, a, Recorded(fs), created, places, datas)
    requires forall i :: 0 <= i < |created| ==> root < created[i] && IsPath(created[i])
    modifies fs
    ensures fs.Valid() && LoggedFirst(fs.host, a, Recorded(fs), created, places, datas, left)
    ensures ok ==> left == 0
    ensures fs.CleanupWorks() ==> ok
    ensures DirsTaken(fs.host, fs.Quiet(), old(fs.disk), Recorded(fs), root, created)
    ensures fs.UndisturbedFrom(old(fs.clock)) && AllStraight(old(fs.disk), created) ==>
              fs.disk == Undone(old(fs.disk), root, created)
    ensures fs.Quiet() ==> fs.foreign == old(fs.foreign)
  {
    hide LoggedFirst, LoggedRun, WellFormed, DirsTaken, Standing, Climbing, Tidy, Within, AllStraight, Undone,
      IsPath, Parent, FileSystem.UndisturbedFrom, FileSystem.Quiet, FileSystem.After, Arrive, Gain, Render;
    left := |created|;
    ghost var e := fs.disk;
    ghost var still := fs.UndisturbedFrom(fs.clock) && AllStraight(e, created);
    LoggedWhole(fs.host, a, Recorded(fs), created, places, datas);
    NothingTaken(fs.host, fs.Quiet(), Recorded(fs), root, created);
    if still {
      LoggedStands(fs.host, a, Recorded(fs), created, places, datas, root);
    }
    for i := |created| downto 0
      invariant fs.Quiet() ==> fs.foreign == old(fs.foreign)
      invariant fs.Valid() && left == i && LoggedFirst(fs.host, a, Recorded(fs), created, places, datas, i)
      invariant DirsTaken(fs.host, fs.Quiet(), e, Recorded(fs), root, created)
      invariant still ==> fs.UndisturbedFrom(fs.clock) && Standing(e, fs.disk, root, created, i)
    {
      ok := UndoLast(fs, a, created, i, root, places, datas, e, still);
      if !ok {
        return;
      }
      left := i;
    }
    if still {
      StandingIsUndone(e, fs.disk, root, created);
    }
    ok := true;
  }

  /** Without links, each file was created at its own path. */
  lemma SamePlace(h: Host, d0: Disk, d: Disk, foreign: map<Path, Node>, created: seq<Path>, places: seq<Path>,
                  datas: seq<Bytes>, i: nat)
    requires Logged(h, d0, d, foreign, created, places, datas) && AllStraight(d, created) && i < |created|
    ensures |places| == |created| && places[i] == created[i] && created[i] in d && d[created[i]].File?
  {
    LoggedFile(h, d0, d, foreign, created, places, datas, i);
    if created[i] != [] {
      StraightParent(d, created[i]);
      PlaceStraight(h, d, created[i]);
    }
  }

  lemma LoggedPresent(h: Host, d0: Disk, d: Disk, foreign: map<Path, Node>, created: seq<Path>, places: seq<Path>,
                      datas: seq<Bytes>)
    requires Logged(h, d0, d, foreign, created, places, datas) && AllStraight(d, created)
    ensures AllPresent(d, created)
  {
    assert NewPlaces(Leaves(d0) + foreign, places) && |places| == |created|;
    hide Logged, Leaves, Placed, Place, Straight, AllStraight;
    forall i | 0 <= i < |created|
      ensures places[i] == created[i] && created[i] in d && d[created[i]].File?
    {
      SamePlace(h, d0, d, foreign, created, places, datas, i);
    }
  }

  // ------------------------------------------------------------- the loop

  /** One file to copy. */
  datatype Item = Item(from: Path, target: Path)

  function TargetsOf(items: seq<Item>): (ts: seq<Path>)
    ensures |ts| == |items| && forall i :: 0 <= i < |items| ==> ts[i] == items[i].target
  {
    seq(|items|, i requires 0 <= i < |items| => items[i].target)
  }

  /** Each created file has the content that its source had at the start. */
  ghost predicate Copied(d: Disk, items: seq<Item>, datas: seq<Bytes>) {
    forall i :: 0 <= i < |items| && i < |datas| && items[i].from in d && d[items[i].from].File? ==>
      d[items[i].from] == File(datas[i])
  }

  /** The copies as operations. */
  function Copies(items: seq<Item>): (ops: seq<Creation>)
    ensures |ops| == |items|
    ensures forall i :: 0 <= i < |items| ==> ops[i] == OpCopy(items[i].from, items[i].target)
  {
    seq(|items|, i requires 0 <= i < |items| => OpCopy(items[i].from, items[i].target))
  }

  /** Everything that the try block creates: the copies, then the record. */
  function Plan(items: seq<Item>, ownershipFile: Path, text: Bytes): seq<Creation> {
    Copies(items) + [OpCreate(ownershipFile, text)]
  }

  lemma CopiedMore(d: Disk, items: seq<Item>, datas: seq<Bytes>, data: Bytes)
    requires Copied(d, items, datas) && |datas| < |items|
    requires forall x :: Supplies(d, Copies(items)[|datas|], x) ==> data == x
    ensures Copied(d, items, datas + [data])
  {
    var item := items[|datas|];
    if item.from in d && d[item.from].File? {
      assert Supplies(d, Copies(items)[|datas|], d[item.from].data);
    }
  }

  lemma TargetsFront(items: seq<Item>, n: nat)
    requires n < |items|
    ensures TargetsOf(items[..n]) + [items[n].target] == TargetsOf(items[..n + 1])
  {
  }

  /** The copy loop. */
  method CopyItems(fs: FileSystem, ghost a: Record, items: seq<Item>)
    returns (ok: bool, created: seq<Path>, ghost places: seq<Path>, ghost datas: seq<Bytes>)
    requires fs.Valid() && a == Recorded(fs) && a.foreign == map[]
    requires forall i :: 0 <= i < |items| ==> IsPath(items[i].target)
    modifies fs
    ensures fs.Valid() && Within(a.disk, fs.disk) && LoggedRun(fs.host, a, Recorded(fs), created, places, datas)
    ensures |created| <= |items| && |datas| == |created| && created == TargetsOf(items[..|created|])
    ensures Copied(a.disk, items, datas)
    ensures ok <==> |created| == |items|
    ensures fs.Quiet() ==> fs.foreign == map[] && Begun(fs.host, a.disk, fs.disk, Copies(items), |created|)
    ensures fs.Quiet() && fs.Calm() ==> ok == CreateEach(fs.host, a.disk, Copies(items)).Some?
    ensures fs.Quiet() && fs.Calm() && !ok ==> Stuck(fs.host, a.disk, Copies(items), |created|)
  {
    created, places, datas := [], [], [];
    ghost var ops := Copies(items);
    NothingLogged(fs.host, a.disk);
    hide Logged, Supplies, WellFormed, Leaves, Placed, FileSystem.Quiet, FileSystem.Calm;
    assert LoggedRun(fs.host, a, Recorded(fs), created, places, datas);
    CopiedNone(a.disk, items);
    assert CreateEach(fs.host, a.disk, ops[..0]) == Some(a.disk);
    hide LoggedRun, Copied, CreateEach, CreateOne, DirsAdded, Within, Begun, Stuck;
    for n := 0 to |items|
      invariant fs.Valid() && Within(a.disk, fs.disk) && LoggedRun(fs.host, a, Recorded(fs), created, places, datas)
      invariant |created| == n && |datas| == n && created == TargetsOf(items[..n]) && Copied(a.disk, items, datas)
      invariant fs.Quiet() ==> fs.foreign == map[] && CreateEach(fs.host, a.disk, ops[..n]) == Some(fs.disk)
    {
      ghost var place: Path, data: Bytes;
      ghost var e := fs.disk;
      ok, place, data := CreateWithParents(fs, a, OpCopy(items[n].from, items[n].target), created, places, datas);
      if fs.Quiet() {
        BegunNext(fs.host, a.disk, e, fs.disk, ops, n, ok);
      }
      if !ok {
        return;
      }
      CopiedMore(a.disk, items, datas, data);
      TargetsFront(items, n);
      created, places, datas := created + [items[n].target], places + [place], datas + [data];
    }
    assert ops[..|items|] == ops;
    BegunWhole(fs.host, a.disk, fs.disk, ops);
    ok := true;
  }

  lemma CopiedNone(d: Disk, items: seq<Item>)
    ensures Copied(d, items, [])
  {
  }

  /** The whole try block: the copies, then the ownership record. */
  method CreateAll(fs: FileSystem, ghost a: Record, items: seq<Item>, ownershipFile: Path, text: Bytes)
    returns (ok: bool, created: seq<Path>, ghost places: seq<Path>, ghost datas: seq<Bytes>)
    requires fs.Valid() && a == Recorded(fs) && a.foreign == map[] && IsPath(ownershipFile)
    requires forall i :: 0 <= i < |items| ==> IsPath(items[i].target)
    modifies fs
    ensures fs.Valid() && Within(a.disk, fs.disk) && LoggedRun(fs.host, a, Recorded(fs), created, places, datas)
    ensures |created| == |datas| && created <= TargetsOf(items) + [ownershipFile]
    ensures ok ==> created == TargetsOf(items) + [ownershipFile]
    ensures ok ==> Copied(a.disk, items, datas) && datas[|items|] == text
    ensures fs.Quiet() ==>
              fs.foreign == map[] && Begun(fs.host, a.disk, fs.disk, Plan(items, ownershipFile, text), |created|)
    ensures fs.Quiet() && fs.Calm() ==> ok == CreateEach(fs.host, a.disk, Plan(items, ownershipFile, text)).Some?
    ensures fs.Quiet() && fs.Calm() && !ok ==> Stuck(fs.host, a.disk, Plan(items, ownershipFile, text), |created|)
  {
    hide LoggedRun, Supplies, WellFormed, Copied, Within, Begun, Stuck, CreateEach, CreateOne, DirsAdded,
      FileSystem.Quiet, FileSystem.Calm;
    ghost var op := OpCreate(ownershipFile, text);
    ok, created, places, datas := CopyItems(fs, a, items);
    TargetsPrefix(items, |created|);
    if !ok {
      if fs.Quiet() {
        BegunLonger(fs.host, a.disk, fs.disk, Copies(items), op, |created|);
        PlanNeedsCopies(fs.host, a.disk, items, ownershipFile, text);
        if fs.Calm() {
          StuckLonger(fs.host, a.disk, Copies(items), op, |created|);
        }
      }
      return;
    }
    ghost var e := fs.disk;
    ghost var place: Path, data: Bytes;
    ok, place, data := CreateWithParents(fs, a, OpCreate(ownershipFile, text), created, places, datas);
    if fs.Quiet() {
      PlanEnds(fs.host, a.disk, e, fs.disk, items, ownershipFile, text, ok);
    }
    if ok {
      assert data == text by {
        SuppliesText(a.disk, ownershipFile, text);
      }
      CopiedLast(a.disk, items, datas, data);
      created, places, datas := created + [ownershipFile], places + [place], datas + [data];
    }
  }

  lemma PlanNeedsCopies(h: Host, d: Disk, items: seq<Item>, ownershipFile: Path, text: Bytes)
    ensures CreateEach(h, d, Copies(items)).None? ==> CreateEach(h, d, Plan(items, ownershipFile, text)).None?
  {
    var ops := Plan(items, ownershipFile, text);
    assert ops[..|items|] == Copies(items);
    hide CreateEach;
    if CreateEach(h, d, Copies(items)).None? {
      CreateEachFails(h, d, ops, |items|);
    }
  }

  /** The record is the last creation. */
  lemma PlanEnds(h: Host, d: Disk, e: Disk, f: Disk, items: seq<Item>, ownershipFile: Path, text: Bytes, ok: bool)
    requires Begun(h, d, e, Copies(items), |items|)
    requires var op := OpCreate(ownershipFile, text);
             if ok then CreateOne(h, e, op) == Some(f) else DirsAdded(h, e, f, Parent(TargetOf(op)))
    ensures var ops := Plan(items, ownershipFile, text);
            && Begun(h, d, f, ops, if ok then |ops| else |items|)
            && (ok ==> CreateEach(h, d, ops).Some?)
            && (CreateOne(h, e, OpCreate(ownershipFile, text)).None? ==>
                  CreateEach(h, d, ops).None? && Stuck(h, d, ops, |items|))
  {
    var ops := Plan(items, ownershipFile, text);
    var n := |items|;
    BegunWhole(h, d, e, Copies(items));
    assert ops[..n] == Copies(items) && ops[..n + 1] == ops;
    hide CreateEach, CreateOne, DirsAdded, Begun, Stuck, Copies;
    BegunNext(h, d, e, f, ops, n, ok);
    BegunWhole(h, d, f, ops);
  }

  lemma TargetsPrefix(items: seq<Item>, n: nat)
    requires n <= |items|
    ensures TargetsOf(items[..n]) <= TargetsOf(items) && (n == |items| ==> TargetsOf(items[..n]) == TargetsOf(items))
  {
  }

  lemma SuppliesText(d: Disk, p: Path, text: Bytes)
    ensures Supplies(d, OpCreate(p, text), text)
  {
  }

  lemma CopiedLast(d: Disk, items: seq<Item>, datas: seq<Bytes>, data: Bytes)
    requires Copied(d, items, datas) && |datas| == |items|
    ensures Copied(d, items, datas + [data])
  {
  }
}
