/** `install-workspace.mjs`: files are copied in place, and a failure undoes them. */
module WorkspaceInstaller {
  import opened Outcome
  import opened Paths
  import opened Containment
  import opened Hosts
  import opened Json
  import opened CanonicalJson
  import opened ParsedValues
  import opened RecordedFields
  import opened Disks
  import opened PathLookup
  import opened FileSystems
  import opened Directories
  import opened Mappings
  import opened InstalledTrees
  import opened InstallRecords
  import opened CopyTrees
  import opened Installer
  import opened FilePlans
  import opened Rollbacks
  import opened UndoLogs
  import opened WorkspaceCopies
  import opened Workspaces

  // ---------------------------------------------------- an earlier installation

  /** The installer's own check of a record starts with its schema and identity. */
  predicate RecordAcceptable(v: JsValue) {
    && Get(v, "schema") == Str(INSTALL_SCHEMA)
    && Get(v, "packageIdentity") == Str(PACKAGE_IDENTITY)
    && Get(v, "files").Obj?
  }

  /** `verifyOwnedFiles`. */
  method VerifyOwnedFiles(h: Host, d: Disk, workspace: Path, ownership: JsValue) returns (ok: bool)
    requires IsPath(workspace)
    ensures ok <==>
              && Get(ownership, "schema") == Str("issue-orchestration.shared-install-ownership.v1")
              && Get(ownership, "packageIdentity") == Str("issue-orchestration")
              && Get(ownership, "files").Obj?
              && forall i :: 0 <= i < |Get(ownership, "files").entries| ==>
                   EntryHolds(h, d, workspace, Get(ownership, "files").entries[i])
  {
    hide EntryHolds, Get;
    if !RecordAcceptable(ownership) {
      return false;
    }
    ok := VerifyFiles(h, d, workspace, Get(ownership, "files").entries, true);
  }

  /** The package carries the identity that the installer demands of a record. */
  predicate Identified(x: Expected) {
    Get(x.manifest, "packageIdentity") == Str("issue-orchestration")
  }

  /** A record that matches is acceptable exactly when the package is identified. */
  lemma MatchingIsAcceptable(h: Host, x: Expected, v: JsValue)
    requires Proper(h, v) && Defined(v) && Proper(h, x.ownership) && TargetsDiffer(x.mappings)
    requires x.ownership == OwnershipBody(h, x.manifest, x.mappings) && forall m :: m in x.mappings ==> m.digest.Str?
    requires Printed(Meaning(v)) == Printed(Meaning(x.ownership))
    ensures RecordAcceptable(v) <==> Identified(x)
  {
    assert x.ownership.Obj?;
    MatchingFiles(h, x, v);
    RecordKeys(h, x.manifest, x.mappings);
    hide OwnershipBody, Proper, Defined, Meaning, Printed, TargetsDiffer, Get;
    StringAgrees(h, v, x.ownership, "schema", INSTALL_SCHEMA);
    StringAgrees(h, v, x.ownership, "packageIdentity", PACKAGE_IDENTITY);
  }

  /** The branch for a workspace that already has a record. */
  method CheckCurrent(h: Host, d: Disk, workspace: Path, x: Expected) returns (r: Result<Receipt>)
    requires Sound(h) && IsPath(workspace) && Proper(h, x.ownership) && TargetsDiffer(x.mappings)
    requires x.ownership == OwnershipBody(h, x.manifest, x.mappings) && forall m :: m in x.mappings ==> m.digest.Str?
    ensures r != Ok(Installed)
    ensures r == Ok(AlreadyCurrent) <==>
              RecordMatches(h, d, workspace, x.ownership) && HoldsMappings(h, d, workspace, x.mappings) && Identified(x)
  {
    RecordProper(h, d, workspace);
    hide Proper, Meaning, Printed, CanonicalText, ReadRecord, OwnershipBody, TargetsDiffer, HoldsMappings,
      EntryHolds, Get, Defined, RecordAcceptable, Identified;
    var installed := ReadRecord(h, d, workspace);
    if installed.None? {
      return Err("workspace-install-ownership-invalid");
    }
    TextsDecide(h, d, workspace, x.ownership);
    if RecordMatches(h, d, workspace, x.ownership) {
      MatchingFiles(h, x, installed.value);
      MatchingIsAcceptable(h, x, installed.value);
      EntriesAreMappings(h, d, workspace, x.mappings, Get(installed.value, "files").entries);
    }
    var ok := VerifyOwnedFiles(h, d, workspace, installed.value);
    if !ok {
      return Err("workspace-install-ownership-drift");
    }
    if CanonicalText(installed.value) != CanonicalText(x.ownership) {
      return Err("workspace-install-version-drift");
    }
    return Ok(AlreadyCurrent);
  }

  // ------------------------------------------------------------- the targets

  /** What to copy where. */
  function ItemsOf(source: Path, workspace: Path, ms: seq<Mapping>): (items: seq<Item>)
    ensures |items| == |ms|
    ensures forall i :: 0 <= i < |ms| ==> items[i] == Item(source + ms[i].source, workspace + Names(ms[i].target))
  {
    seq(|ms|, i requires 0 <= i < |ms| => Item(source + ms[i].source, workspace + Names(ms[i].target)))
  }

  ghost predicate AllAllowed(ms: seq<Mapping>) {
    forall i :: 0 <= i < |ms| ==> TargetAllowed(ms[i].target)
  }

  /** `expected.mappings.map(... safeTarget ...)`. */
  method ResolveTargets(source: Path, workspace: Path, ms: seq<Mapping>) returns (r: Result<seq<Item>>)
    requires IsPath(workspace)
    ensures r.Ok? <==> AllAllowed(ms)
    ensures r.Ok? ==> r.value == ItemsOf(source, workspace, ms)
                      && forall i :: 0 <= i < |ms| ==> IsPath(r.value[i].target) && workspace < r.value[i].target
  {
    hide TargetAllowed, WorkspaceTarget, Names;
    var items: seq<Item> := [];
    for i := 0 to |ms|
      invariant |items| == i && forall j :: 0 <= j < i ==> TargetAllowed(ms[j].target)
      invariant forall j :: 0 <= j < i ==>
                  && items[j] == Item(source + ms[j].source, workspace + Names(ms[j].target))
                  && IsPath(items[j].target) && workspace < items[j].target
    {
      var target := WorkspaceTarget(workspace, ms[i].target, true);
      WorkspaceTargetIs(workspace, ms[i].target, true);
      if target.Err? {
        return Err(target.code);
      }
      items := items + [Item(source + ms[i].source, target.value)];
    }
    return Ok(items);
  }

  /** Nothing is found at any target. */
  predicate AllFree(h: Host, d: Disk, items: seq<Item>) {
    forall i :: 0 <= i < |items| ==> !Exists(h, d, items[i].target)
  }

  method FindConflict(h: Host, d: Disk, items: seq<Item>) returns (free: bool)
    ensures free == AllFree(h, d, items)
  {
    hide Find;
    for i := 0 to |items|
      invariant forall j :: 0 <= j < i ==> !Exists(h, d, items[j].target)
    {
      if Exists(h, d, items[i].target) {
        return false;
      }
    }
    return true;
  }

  // ---------------------------------------------------------------- the script

  datatype Package = Package(source: Path, workspace: Path, x: Expected)

  /** What has been created, and with which content. */
  ghost predicate CompleteAs(h: Host, source: Path, workspace: Path, x: Expected, a: Record, b: Record,
                             places: seq<Path>, datas: seq<Bytes>)
  {
    var items := ItemsOf(source, workspace, x.mappings);
    && LoggedRun(h, a, b, TargetsOf(items) + [RecordAt(workspace)], places, datas)
    && Copied(a.disk, items, datas)
    && |datas| == |items| + 1 && datas[|items|] == h.encode(OwnershipText(x.ownership))
  }

  /** From `a` to `b` exactly the mapped files and the record were created, all at
      places where nothing was; others may have added files of their own. */
  ghost predicate Complete(h: Host, source: Path, workspace: Path, x: Expected, a: Record, b: Record) {
    && AllAllowed(x.mappings) && Within(a.disk, b.disk)
    && exists places, datas :: CompleteAs(h, source, workspace, x, a, b, places, datas)
  }

  ghost predicate InstalledInto(h: Host, source: Path, workspace: Path, a: Record, b: Record) {
    exists x :: IsExpected(h, a.disk, source, x) && Complete(h, source, workspace, x, a, b)
  }

  /** Every file and link is as it was, but for those that others added. */
  ghost predicate RolledBack(a: Record, b: Record) {
    Leaves(b.disk) == Leaves(a.disk) + b.foreign
  }

  /** In every state from `a` to `b` the earlier files and links are unchanged. */
  ghost predicate KeptRun(a: Record, b: Record) {
    a.trace <= b.trace && forall k :: |a.trace| <= k < |b.trace| ==> Kept(a.disk, b.trace[k])
  }

  /** The targets of an installation, the record last. */
  function TargetsFor(p: Package): (ts: seq<Path>)
    ensures |ts| == |p.x.mappings| + 1 && ts[|p.x.mappings|] == RecordAt(p.workspace)
    ensures forall i :: 0 <= i < |p.x.mappings| ==> ts[i] == p.workspace + Names(p.x.mappings[i].target)
  {
    TargetsOf(ItemsOf(p.source, p.workspace, p.x.mappings)) + [RecordAt(p.workspace)]
  }

  /** Everything that the installation creates, in order. */
  function PlanOf(h: Host, p: Package): seq<Creation> {
    Plan(ItemsOf(p.source, p.workspace, p.x.mappings), RecordAt(p.workspace), h.encode(OwnershipText(p.x.ownership)))
  }

  /** The package fits the workspace: its targets are allowed and free, and its files
      can be created one after another. */
  ghost predicate FitsWorkspace(h: Host, d: Disk, p: Package) {
    && AllAllowed(p.x.mappings) && AllFree(h, d, ItemsOf(p.source, p.workspace, p.x.mappings))
    && CreateEach(h, d, PlanOf(h, p)).Some?
  }

  /** A target is not allowed, or something is there. */
  ghost predicate Conflicting(h: Host, d: Disk, p: Package) {
    !AllAllowed(p.x.mappings) || !AllFree(h, d, ItemsOf(p.source, p.workspace, p.x.mappings))
  }

  /** The state of a failed run when its catch block starts: what it has recorded, the
      time, and the files it has created. */
  datatype Undo = Undo(begun: Record, clock: nat, created: seq<Path>, places: seq<Path>, datas: seq<Bytes>)

  /** What is known of the surroundings: nobody else writes; nothing breaks; nothing
      interferes from the catch block on. */
  datatype Conditions = Conditions(quiet: bool, calm: bool, still: bool)

  ghost function Surroundings(fs: FileSystem, u: Undo): Conditions {
    Conditions(fs.Quiet(), fs.Calm(), fs.UndisturbedFrom(u.clock))
  }

  /** A failed run has created the first files of its plan, as many as can be when
      nothing breaks and nobody else writes, and then goes back. The rollback takes
      directories only on the ways from the workspace to created files; when nothing
      interferes and no link is on those ways, it takes exactly the created files and
      the directories that go with them. */
  ghost predicate Unwinds(h: Host, p: Package, a: Record, b: Record, u: Undo, c: Conditions) {
    && Within(a.disk, u.begun.disk) && LoggedRun(h, a, u.begun, u.created, u.places, u.datas)
    && u.created <= TargetsFor(p)
    && DirsTaken(h, c.quiet, u.begun.disk, b, p.workspace, u.created)
    && (c.still && AllStraight(u.begun.disk, u.created) ==> b.disk == Undone(u.begun.disk, p.workspace, u.created))
    && (c.quiet ==> u.begun.foreign == map[] && Begun(h, a.disk, u.begun.disk, PlanOf(h, p), |u.created|))
    && (c.quiet && c.calm && !Conflicting(h, a.disk, p) ==> Stuck(h, a.disk, PlanOf(h, p), |u.created|))
  }

  /** The try block with its catch. */
  method Populate(fs: FileSystem, p: Package, items: seq<Item>) returns (ok: bool, ghost u: Undo)
    requires fs.Valid() && fs.foreign == map[] && IsPath(p.workspace) && AllAllowed(p.x.mappings)
    requires items == ItemsOf(p.source, p.workspace, p.x.mappings)
    requires forall i :: 0 <= i < |items| ==> IsPath(items[i].target) && p.workspace < items[i].target
    modifies fs
    ensures fs.Valid() && KeptRun(old(Recorded(fs)), Recorded(fs))
    ensures ok ==> Complete(fs.host, p.source, p.workspace, p.x, old(Recorded(fs)), Recorded(fs))
    ensures !ok && fs.CleanupWorks() ==> RolledBack(old(Recorded(fs)), Recorded(fs))
    ensures !ok ==> Unwinds(fs.host, p, old(Recorded(fs)), Recorded(fs), u, Surroundings(fs, u))
    ensures fs.Quiet() ==> fs.foreign == map[]
    ensures fs.Quiet() && fs.Calm() ==> ok == CreateEach(fs.host, old(fs.disk), PlanOf(fs.host, p)).Some?
    ensures fs.Quiet() && ok ==> CreateEach(fs.host, old(fs.disk), PlanOf(fs.host, p)) == Some(fs.disk)
  {
    ghost var a := Recorded(fs);
    var workspace, x := p.workspace, p.x;
    RecordIsBelow(workspace);
    hide LoggedRun, LoggedFirst, Copied, AllAllowed, Within, KeptRun, RolledBack, OwnershipText, RecordAt,
      Names, WellFormed, Begun, Stuck, CreateEach, DirsTaken, Undone, AllStraight, FileSystem.Quiet,
      FileSystem.Calm, FileSystem.UndisturbedFrom, Plan;
    var text := fs.host.encode(OwnershipText(x.ownership));
    var created;
    ghost var places, datas;
    ok, created, places, datas := CreateAll(fs, a, items, RecordAt(workspace), text);
    RunIsKept(fs.host, a, Recorded(fs), created, places, datas);
    u := Undo(Recorded(fs), fs.clock, created, places, datas);
    if ok {
      BegunWhole(fs.host, a.disk, fs.disk, PlanOf(fs.host, p));
      PlanLength(fs.host, p);
      assert CompleteAs(fs.host, p.source, workspace, x, a, Recorded(fs), places, datas);
      return;
    }
    CreatedBelow(workspace, items, created);
    var undone;
    ghost var left;
    undone, left := RollBack(fs, a, created, workspace, places, datas);
    UndoneIsRolledBack(fs.host, a, Recorded(fs), created, places, datas, left);
  }

  lemma PlanLength(h: Host, p: Package)
    ensures |PlanOf(h, p)| == |p.x.mappings| + 1
  {
    hide RecordAt, OwnershipText;
  }

  lemma RecordIsBelow(workspace: Path)
    requires IsPath(workspace)
    ensures IsPath(RecordAt(workspace)) && workspace < RecordAt(workspace)
  {
    assert IsName(WORKSPACE_RECORD[0]) && IsName(WORKSPACE_RECORD[1]) by {
      assert forall i :: 0 <= i < |WORKSPACE_RECORD[0]| ==> WORKSPACE_RECORD[0][i] != '/';
      assert forall i :: 0 <= i < |WORKSPACE_RECORD[1]| ==> WORKSPACE_RECORD[1][i] != '/';
    }
  }

  lemma RunIsKept(h: Host, a: Record, b: Record, created: seq<Path>, places: seq<Path>, datas: seq<Bytes>)
    requires LoggedRun(h, a, b, created, places, datas)
    ensures KeptRun(a, b)
  {
    hide Logged, Kept;
  }

  lemma CreatedBelow(workspace: Path, items: seq<Item>, created: seq<Path>)
    requires forall i :: 0 <= i < |items| ==> workspace < items[i].target && IsPath(items[i].target)
    requires workspace < RecordAt(workspace) && IsPath(RecordAt(workspace))
    requires created <= TargetsOf(items) + [RecordAt(workspace)]
    ensures forall i :: 0 <= i < |created| ==> workspace < created[i] && IsPath(created[i])
  {
    hide RecordAt, IsPath;
    forall i | 0 <= i < |created| ensures workspace < created[i] && IsPath(created[i]) {
      assert created[i] == (TargetsOf(items) + [RecordAt(workspace)])[i];
    }
  }

  lemma UndoneIsRolledBack(h: Host, a: Record, b: Record, created: seq<Path>, places: seq<Path>, datas: seq<Bytes>,
                           left: nat)
    requires LoggedFirst(h, a, b, created, places, datas, left)
    ensures KeptRun(a, b)
    ensures left == 0 ==> RolledBack(a, b)
  {
    RunIsKept(h, a, b, created[..left], places[..left], datas[..left]);
    if left == 0 {
      assert Placed(places[..left], datas[..left]) == map[];
      assert Leaves(a.disk) + b.foreign + map[] == Leaves(a.disk) + b.foreign;
    }
    hide Leaves, Kept, LeadsToPlaces;
  }

  /** Both roots exist, and the workspace is a directory. */
  ghost predicate HasRoots(h: Host, d: Disk, args: WorkspaceArgs) {
    && PathsGiven(args)
    && RealPath(h, d, args.sourceRoot.value).Some? && RealPath(h, d, args.workspaceRoot.value).Some?
    && var w := RealPath(h, d, args.workspaceRoot.value).value; w in d && d[w] == Dir
  }

  /** The workspace holds this very package, and the package is identified. */
  ghost predicate IsCurrent(h: Host, d: Disk, source: Path, workspace: Path) {
    exists x :: IsExpected(h, d, source, x) && Identified(x)
                && RecordMatches(h, d, workspace, x.ownership) && HoldsMappings(h, d, workspace, x.mappings)
  }

  lemma IsCurrentIs(h: Host, d: Disk, source: Path, workspace: Path, x: Expected)
    requires IsExpected(h, d, source, x)
    ensures IsCurrent(h, d, source, workspace) <==>
              Identified(x) && RecordMatches(h, d, workspace, x.ownership) && HoldsMappings(h, d, workspace, x.mappings)
  {
    OneExpected(h, d, source, x);
    hide IsExpected, RecordMatches, HoldsMappings, Identified;
  }

  lemma CurrentHasRecord(h: Host, d: Disk, workspace: Path, ownership: JsValue)
    requires RecordMatches(h, d, workspace, ownership)
    ensures Exists(h, d, RecordAt(workspace))
  {
    hide Find, Meaning, Printed, JsonParser.Parse;
  }

  /** The checks before the question whether there is a record. */
  method OpenPackage(h: Host, d: Disk, args: WorkspaceArgs) returns (r: Result<Package>)
    requires Sound(h) && WellFormed(d)
    ensures r.Ok? ==> HasRoots(h, d, args) && IsPath(r.value.workspace) && Straight(d, r.value.source)
    ensures r.Ok? ==> RealPath(h, d, args.sourceRoot.value) == Some(r.value.source)
    ensures r.Ok? ==> RealPath(h, d, args.workspaceRoot.value) == Some(r.value.workspace)
    ensures r.Ok? ==> IsExpected(h, d, r.value.source, r.value.x)
    ensures r.Err? && HasRoots(h, d, args) ==>
              forall x :: !IsExpected(h, d, RealPath(h, d, args.sourceRoot.value).value, x)
  {
    hide RealPath, Straight, WellFormed, Prescribes, IsExpected;
    if !PathsGiven(args) {
      return Err("workspace-install-path-required");
    }
    var s, w := RealPath(h, d, args.sourceRoot.value), RealPath(h, d, args.workspaceRoot.value);
    if s.None? || w.None? {
      return Err("ENOENT");
    }
    RealPathIs(h, d, args.sourceRoot.value);
    RealPathIs(h, d, args.workspaceRoot.value);
    if d[w.value] != Dir {
      return Err("workspace-install-root-invalid");
    }
    var x := ExpectedInstall(h, d, s.value);
    PrescribesReal(h, d, s.value);
    if x.Err? {
      return Err(x.code);
    }
    return Ok(Package(s.value, w.value, x.value));
  }

  /** The branch for a workspace without a record. */
  method CopyPackage(fs: FileSystem, p: Package) returns (r: Result<Receipt>, ghost u: Undo)
    requires fs.Valid() && fs.foreign == map[] && IsPath(p.workspace)
    modifies fs
    ensures fs.Valid() && KeptRun(old(Recorded(fs)), Recorded(fs)) && r != Ok(AlreadyCurrent)
    ensures r == Ok(Installed) ==> Complete(fs.host, p.source, p.workspace, p.x, old(Recorded(fs)), Recorded(fs))
    ensures r.Err? && fs.CleanupWorks() ==> RolledBack(old(Recorded(fs)), Recorded(fs))
    ensures r.Err? ==> Unwinds(fs.host, p, old(Recorded(fs)), Recorded(fs), u, Surroundings(fs, u))
    ensures fs.Quiet() ==> fs.foreign == map[]
    ensures fs.Quiet() && fs.Calm() ==> (r == Ok(Installed) <==> FitsWorkspace(fs.host, old(fs.disk), p))
    ensures fs.Quiet() && r == Ok(Installed) ==> CreateEach(fs.host, old(fs.disk), PlanOf(fs.host, p)) == Some(fs.disk)
    ensures Conflicting(fs.host, old(fs.disk), p) ==> r.Err? && Recorded(fs) == old(Recorded(fs))
  {
    NothingRolledBack(Recorded(fs));
    hide KeptRun, Complete, RolledBack, AllFree, AllAllowed, WellFormed, Unwinds, CreateEach, FileSystem.Quiet,
      FileSystem.Calm, FileSystem.UndisturbedFrom, PlanOf;
    u := Undo(Recorded(fs), fs.clock, [], [], []);
    if Conflicting(fs.host, fs.disk, p) {
      NothingToUndo(fs.host, p, Recorded(fs), u, Surroundings(fs, u));
    }
    var items := ResolveTargets(p.source, p.workspace, p.x.mappings);
    if items.Err? {
      return Err(items.code), u;
    }
    var free := FindConflict(fs.host, fs.disk, items.value);
    if !free {
      return Err("workspace-install-target-conflict"), u;
    }
    var ok;
    ok, u := Populate(fs, p, items.value);
    return if ok then Ok(Installed) else Err("workspace-install-failed"), u;
  }

  lemma NothingRolledBack(a: Record)
    requires a.foreign == map[]
    ensures RolledBack(a, a) && KeptRun(a, a)
  {
    assert Leaves(a.disk) + map[] == Leaves(a.disk);
  }

  /** A run that stops before it creates anything has nothing to undo. */
  lemma NothingToUndo(h: Host, p: Package, a: Record, u: Undo, c: Conditions)
    requires Conflicting(h, a.disk, p) && WellFormed(a.disk) && a.foreign == map[] && u.begun == a
    requires u.created == u.places == [] && u.datas == []
    ensures Unwinds(h, p, a, a, u, c)
  {
    NothingLogged(h, a.disk);
    NothingTaken(h, c.quiet, a, p.workspace, []);
    UndoneNothing(a.disk, p.workspace);
    BegunNothing(h, a.disk, PlanOf(h, p));
    hide Logged, DirsTaken, Undone, Begun, PlanOf, WellFormed, Conflicting;
  }

  /** What a run on an opened package guarantees. */
  ghost predicate PackageOutcome(h: Host, source: Path, workspace: Path, a: Record, b: Record, r: Result<Receipt>,
                                 u: Undo,
                                 c: Conditions)
  {
    && (r == Ok(AlreadyCurrent) <==> IsCurrent(h, a.disk, source, workspace))
    && (r == Ok(Installed) ==> InstalledInto(h, source, workspace, a, b))
    && (Exists(h, a.disk, RecordAt(workspace)) ==> r != Ok(Installed) && b == a)
    && ((forall x :: !IsExpected(h, a.disk, source, x)) ==> r.Err? && b == a)
    && forall x :: IsExpected(h, a.disk, source, x) ==> WithoutRecord(h, Package(source, workspace, x), a, b, r, u, c)
  }

  /** A workspace without a record: when the package is installed, what a quiet run
      makes of the disk then, and how a failure is undone. A conflict changes nothing. */
  ghost predicate WithoutRecord(h: Host, p: Package, a: Record, b: Record, r: Result<Receipt>, u: Undo, c: Conditions) {
    !Exists(h, a.disk, RecordAt(p.workspace)) ==>
      && (c.quiet && c.calm ==> (r == Ok(Installed) <==> FitsWorkspace(h, a.disk, p)))
      && (c.quiet && r == Ok(Installed) ==> CreateEach(h, a.disk, PlanOf(h, p)) == Some(b.disk))
      && (r.Err? ==> Unwinds(h, p, a, b, u, c))
      && (Conflicting(h, a.disk, p) ==> r.Err? && b == a)
  }

  /** The rest of the script once the package is opened. */
  method InstallPackage(fs: FileSystem, p: Package) returns (r: Result<Receipt>, ghost u: Undo)
    requires fs.Valid() && fs.foreign == map[] && IsPath(p.workspace) && Straight(fs.disk, p.source)
    requires IsExpected(fs.host, fs.disk, p.source, p.x)
    modifies fs
    ensures fs.Valid() && KeptRun(old(Recorded(fs)), Recorded(fs))
    ensures r.Err? && fs.CleanupWorks() ==> RolledBack(old(Recorded(fs)), Recorded(fs))
    ensures fs.Quiet() ==> fs.foreign == map[]
    ensures PackageOutcome(fs.host, p.source, p.workspace, old(Recorded(fs)), Recorded(fs), r, u, Surroundings(fs, u))
  {
    ghost var a := Recorded(fs);
    NothingRolledBack(a);
    ExpectedFacts(fs.host, fs.disk, p.source, p.x);
    hide *;
    if Exists(fs.host, fs.disk, RecordAt(p.workspace)) {
      r := CheckCurrent(fs.host, fs.disk, p.workspace, p.x);
      u := Undo(a, fs.clock, [], [], []);
      CurrentOutcome(fs.host, p, a, r, u, Surroundings(fs, u));
    } else {
      r, u := CopyPackage(fs, p);
      CopiedOutcome(fs.host, p, a, Recorded(fs), r, u, Surroundings(fs, u));
    }
  }

  lemma CurrentOutcome(h: Host, p: Package, a: Record, r: Result<Receipt>, u: Undo, c: Conditions)
    requires IsExpected(h, a.disk, p.source, p.x) && r != Ok(Installed) && Exists(h, a.disk, RecordAt(p.workspace))
    requires r == Ok(AlreadyCurrent) <==>
               && RecordMatches(h, a.disk, p.workspace, p.x.ownership)
                   && HoldsMappings(h, a.disk, p.workspace, p.x.mappings)
               && Identified(p.x)
    ensures PackageOutcome(h, p.source, p.workspace, a, a, r, u, c)
  {
    hide IsExpected, RecordMatches, HoldsMappings, Identified, IsCurrent, InstalledInto, Find, RecordAt,
      Unwinds, FitsWorkspace, Conflicting;
    IsCurrentIs(h, a.disk, p.source, p.workspace, p.x);
  }

  lemma CopiedOutcome(h: Host, p: Package, a: Record, b: Record, r: Result<Receipt>, u: Undo, c: Conditions)
    requires IsExpected(h, a.disk, p.source, p.x) && r != Ok(AlreadyCurrent)
    requires !Exists(h, a.disk, RecordAt(p.workspace))
    requires r == Ok(Installed) ==> Complete(h, p.source, p.workspace, p.x, a, b)
    requires WithoutRecord(h, p, a, b, r, u, c)
    ensures PackageOutcome(h, p.source, p.workspace, a, b, r, u, c)
  {
    hide IsExpected, RecordMatches, HoldsMappings, Identified, IsCurrent, Find, RecordAt, Complete, WithoutRecord;
    IsCurrentIs(h, a.disk, p.source, p.workspace, p.x);
    OneExpected(h, a.disk, p.source, p.x);
    if RecordMatches(h, a.disk, p.workspace, p.x.ownership) {
      CurrentHasRecord(h, a.disk, p.workspace, p.x.ownership);
    }
  }

  lemma NothingHappened(h: Host, source: Path, workspace: Path, a: Record, code: string, u: Undo, c: Conditions)
    requires forall x :: !IsExpected(h, a.disk, source, x)
    ensures PackageOutcome(h, source, workspace, a, a, Err(code), u, c)
  {
    NotCurrent(h, a.disk, source, workspace);
    hide IsCurrent, IsExpected, RecordAt, Find;
  }

  ghost predicate WorkspaceOutcome(h: Host, args: WorkspaceArgs, a: Record, b: Record, r: Result<Receipt>, u: Undo,
                                   c: Conditions) {
    if HasRoots(h, a.disk, args) then
      var source := RealPath(h, a.disk, args.sourceRoot.value).value;
      var workspace := RealPath(h, a.disk, args.workspaceRoot.value).value;
      PackageOutcome(h, source, workspace, a, b, r, u, c)
    else r.Err? && b == a
  }

  /** `installWorkspace()`. Whatever breaks and whatever others add meanwhile: no
      earlier file is lost or changed in any state; a run that fails leaves every
      file as it was, and those of others; a run that succeeds has created exactly
      the mapped files and the record. A quiet run in which nothing breaks installs
      exactly what can be installed. */
  method InstallWorkspace(fs: FileSystem, args: WorkspaceArgs) returns (r: Result<Receipt>, ghost u: Undo)
    requires fs.Valid() && fs.foreign == map[]
    modifies fs
    ensures fs.Valid() && KeptRun(old(Recorded(fs)), Recorded(fs))
    ensures r.Err? && fs.CleanupWorks() ==> RolledBack(old(Recorded(fs)), Recorded(fs))
    ensures WorkspaceOutcome(fs.host, args, old(Recorded(fs)), Recorded(fs), r, u, Surroundings(fs, u))
    ensures fs.Quiet() ==> fs.foreign == map[]
  {
    ghost var a := Recorded(fs);
    NothingRolledBack(a);
    hide KeptRun, RolledBack, RealPath, Straight, IsExpected, WellFormed, PackageOutcome, FileSystem.Quiet,
      FileSystem.Calm, FileSystem.UndisturbedFrom;
    var p := OpenPackage(fs.host, fs.disk, args);
    if p.Err? {
      u := Undo(a, fs.clock, [], [], []);
      if HasRoots(fs.host, fs.disk, args) {
        NothingHappened(fs.host, RealPath(fs.host, fs.disk, args.sourceRoot.value).value,
                        RealPath(fs.host, fs.disk, args.workspaceRoot.value).value, a, p.code, u, Surroundings(fs, u));
      }
      return Err(p.code), u;
    }
    r, u := InstallPackage(fs, p.value);
  }

  lemma NotCurrent(h: Host, d: Disk, source: Path, workspace: Path)
    requires forall x :: !IsExpected(h, d, source, x)
    ensures !IsCurrent(h, d, source, workspace)
  {
    hide IsExpected;
  }
}
