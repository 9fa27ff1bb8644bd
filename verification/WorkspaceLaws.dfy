/** What a successful workspace installation means: exactly which files it adds, and
    that the independent verifier and a second run accept it. */
module WorkspaceLaws {
  import opened Outcome
  import opened Paths
  import opened Containment
  import opened Hosts
  import opened Json
  import opened JsonParser
  import opened CanonicalJson
  import opened Disks
  import opened PathLookup
  import opened Directories
  import opened Listing
  import opened Manifests
  import opened Mappings
  import opened MappingLaw
  import opened SourceFrame
  import opened InstalledTrees
  import opened CopyTrees
  import opened CopyVerification
  import opened FileSystems
  import opened InstallCopies
  import opened FilePlans
  import opened Rollbacks
  import opened RollbackLaws
  import opened UndoLogs
  import opened WorkspaceCopies
  import opened Workspaces
  import opened WorkspaceInstaller

  /** The content that goes to each target. */
  ghost predicate Content(h: Host, d: Disk, source: Path, x: Expected, i: nat, data: Bytes) {
    if i < |x.mappings| then source + x.mappings[i].source in d && d[source + x.mappings[i].source] == File(data)
    else data == h.encode(OwnershipText(x.ownership))
  }

  lemma CompleteHas(h: Host, source: Path, workspace: Path, x: Expected, a: Record, b: Record)
    returns (places: seq<Path>, datas: seq<Bytes>)
    requires Complete(h, source, workspace, x, a, b)
    ensures CompleteAs(h, source, workspace, x, a, b, places, datas)
  {
    hide CompleteAs;
    places, datas :| CompleteAs(h, source, workspace, x, a, b, places, datas);
  }

  /** One target of a complete installation. */
  lemma TargetIsFilled(h: Host, source: Path, workspace: Path, x: Expected, a: Record, b: Record,
                       places: seq<Path>, datas: seq<Bytes>, i: nat)
    requires CompleteAs(h, source, workspace, x, a, b, places, datas) && i <= |x.mappings|
    requires Within(a.disk, b.disk)
    requires forall m :: m in x.mappings ==> CarriesContent(h, a.disk, source, m)
    ensures |places| == |datas| == |x.mappings| + 1
    ensures Place(h, b.disk, TargetsFor(Package(source, workspace, x))[i]) == Some(places[i])
    ensures places[i] in b.disk && b.disk[places[i]] == File(datas[i]) && places[i] !in a.disk
    ensures Content(h, a.disk, source, x, i, datas[i])
  {
    var ts := TargetsFor(Package(source, workspace, x));
    assert LoggedRun(h, a, b, ts, places, datas);
    LoggedFile(h, a.disk, b.disk, b.foreign, ts, places, datas, i);
    assert places[i] !in Leaves(a.disk);
    if i < |x.mappings| {
      assert x.mappings[i] in x.mappings;
      assert ItemsOf(source, workspace, x.mappings)[i].from == source + x.mappings[i].source;
    }
    hide Place, Placed, OwnershipText, Names, RecordAt;
  }

  /** The places of two targets differ. */
  lemma PlacesDiffer(h: Host, source: Path, workspace: Path, x: Expected, a: Record, b: Record,
                     places: seq<Path>, datas: seq<Bytes>)
    requires CompleteAs(h, source, workspace, x, a, b, places, datas)
    ensures forall i, j :: 0 <= i < j < |places| ==> places[i] != places[j]
    ensures forall q :: q in Leaves(b.disk) <==> q in Leaves(a.disk) || q in b.foreign || q in places
    ensures |places| == |datas| == |x.mappings| + 1
  {
    PlacedKeys(places, datas);
    hide Leaves, Placed, Copied, LeadsToPlaces, OwnershipText;
  }

  /** A workspace installation adds exactly one new file for each mapping and the
      record, each with its content, where nothing was before; every other file and
      link is an earlier one or a foreign one. */
  lemma WorkspaceInstallAdds(h: Host, source: Path, workspace: Path, x: Expected, a: Record, b: Record)
    requires Sound(h) && WellFormed(a.disk) && Straight(a.disk, source) && IsExpected(h, a.disk, source, x)
    requires Complete(h, source, workspace, x, a, b)
    ensures exists places: seq<Path> ::
              && |places| == |x.mappings| + 1
              && (forall i, j :: 0 <= i < j < |places| ==> places[i] != places[j])
              && (forall q :: q in Leaves(b.disk) <==> q in Leaves(a.disk) || q in b.foreign || q in places)
              && (forall i :: 0 <= i < |places| ==>
                    && Place(h, b.disk, TargetsFor(Package(source, workspace, x))[i]) == Some(places[i])
                    && places[i] !in a.disk && places[i] in b.disk && b.disk[places[i]].File?
                    && Content(h, a.disk, source, x, i, b.disk[places[i]].data))
  {
    hide IsExpected, CompleteAs, Complete, Content, Place, Leaves, MappingAllowed, CarriesContent,
      TargetsDiffer, Straight;
    ExpectedShape(h, a.disk, source, x);
    var places, datas := CompleteHas(h, source, workspace, x, a, b);
    PlacesDiffer(h, source, workspace, x, a, b, places, datas);
    CompleteWithin(h, source, workspace, x, a, b);
    forall i | 0 <= i < |places|
      ensures Place(h, b.disk, TargetsFor(Package(source, workspace, x))[i]) == Some(places[i])
      ensures places[i] !in a.disk && places[i] in b.disk && b.disk[places[i]] == File(datas[i])
      ensures Content(h, a.disk, source, x, i, datas[i])
    {
      TargetIsFilled(h, source, workspace, x, a, b, places, datas, i);
    }
  }

  lemma CompleteWithin(h: Host, source: Path, workspace: Path, x: Expected, a: Record, b: Record)
    requires Complete(h, source, workspace, x, a, b)
    ensures Within(a.disk, b.disk) && AllAllowed(x.mappings)
  {
  }

  // --------------------------------------------------- when it can succeed

  /** No link is on the way to a target or to the record. */
  ghost predicate DirectTargets(d: Disk, p: Package) {
    AllStraight(d, TargetsFor(p))
  }

  lemma NoLinksIsDirect(d: Disk, p: Package)
    requires Open(d, p.workspace)
    ensures DirectTargets(d, p)
  {
    hide Straight, Open, Names;
    forall i | 0 <= i < |p.x.mappings| ensures Straight(d, TargetsFor(p)[i]) {
      OpenIsStraight(d, p.workspace, Names(p.x.mappings[i].target));
    }
    OpenIsStraight(d, p.workspace, WORKSPACE_RECORD);
  }

  lemma PlanIsSupplied(h: Host, d: Disk, p: Package)
    requires Sound(h) && WellFormed(d) && Straight(d, p.source) && IsExpected(h, d, p.source, p.x)
    ensures AllSupplied(d, PlanOf(h, p))
  {
    hide IsExpected, WellFormed, Straight, Proper, OwnershipBody, MappingAllowed, OwnershipText, RecordAt;
    ExpectedShape(h, d, p.source, p.x);
    var ops, items := PlanOf(h, p), ItemsOf(p.source, p.workspace, p.x.mappings);
    forall i | 0 <= i < |ops| ensures Supplied(d, ops[i]) {
      if i < |items| {
        assert p.x.mappings[i] in p.x.mappings;
        assert CarriesContent(h, d, p.source, p.x.mappings[i]);
        assert ops[i] == OpCopy(items[i].from, items[i].target);
        assert Supplies(d, ops[i], d[items[i].from].data);
      } else {
        assert Supplies(d, ops[i], h.encode(OwnershipText(p.x.ownership)));
      }
    }
  }

  /** When no link is on the way to a target, the package can be installed exactly
      when its targets are allowed, nothing is at them or in their way, and none lies
      at or below another. */
  lemma FitsExactly(h: Host, d: Disk, p: Package)
    requires Sound(h) && WellFormed(d) && IsPath(p.workspace) && Straight(d, p.source)
    requires IsExpected(h, d, p.source, p.x)
    requires DirectTargets(d, p)
    ensures FitsWorkspace(h, d, p) <==> AllAllowed(p.x.mappings) && Creatable(d, PlanOf(h, p))
  {
    hide IsExpected, AllAllowed, AllFree, Creatable, CreateEach, PlanOf, AllSupplied, Filled, TargetsFor,
      WellFormed, Straight;
    var ops := PlanOf(h, p);
    PlanIsSupplied(h, d, p);
    PlanTargets(h, p);
    if AllAllowed(p.x.mappings) {
      TargetsBelow(p);
      assert Direct(d, ops);
      CreateEachExact(h, d, ops);
      if Creatable(d, ops) {
        CreatableIsFree(h, d, p);
      }
    }
  }

  /** What a quiet run then makes of the disk: the targets with their contents, the
      directories on the way to them, and nothing else. */
  lemma InstalledIsFilled(h: Host, d: Disk, e: Disk, p: Package)
    requires Sound(h) && WellFormed(d) && IsPath(p.workspace) && Straight(d, p.source)
    requires IsExpected(h, d, p.source, p.x)
    requires DirectTargets(d, p) && AllAllowed(p.x.mappings) && CreateEach(h, d, PlanOf(h, p)) == Some(e)
    ensures Filled(d, e, PlanOf(h, p))
  {
    hide IsExpected, AllAllowed, AllFree, Creatable, CreateEach, PlanOf, AllSupplied, Filled, TargetsFor,
      WellFormed, Straight;
    PlanIsSupplied(h, d, p);
    PlanTargets(h, p);
    TargetsBelow(p);
    assert Direct(d, PlanOf(h, p));
    CreateEachExact(h, d, PlanOf(h, p));
  }

  lemma CreatableIsFree(h: Host, d: Disk, p: Package)
    requires WellFormed(d) && DirectTargets(d, p) && Creatable(d, PlanOf(h, p))
    ensures AllFree(h, d, ItemsOf(p.source, p.workspace, p.x.mappings))
  {
    PlanTargets(h, p);
    hide PlanOf, WellFormed, Straight, WayIsOpen, Comparable, RecordAt, Names, TargetOf, Find;
    var items := ItemsOf(p.source, p.workspace, p.x.mappings);
    forall i | 0 <= i < |items| ensures !Exists(h, d, items[i].target) {
      assert TargetsFor(p)[i] == items[i].target;
      assert Vacant(d, TargetOf(PlanOf(h, p)[i]));
      FindStraight(h, d, TargetsFor(p)[i]);
    }
  }

  // ------------------------------------------------------------ verification

  /** A file is read where it was placed. */
  lemma PlacedIsRead(h: Host, d: Disk, p: Path, c: Path)
    requires p != [] && Place(h, d, p) == Some(c) && c in d && d[c].File?
    ensures LinkStat(h, d, p) == Some(d[c]) && ReadFile(h, d, p) == Some(d[c].data)
  {
    PlacedIsFound(h, d, p, c);
    hide Place, Find;
  }

  lemma MappingHolds(h: Host, d: Disk, e: Disk, source: Path, workspace: Path, m: Mapping, c: Path)
    requires WellFormed(e) && IsPath(workspace) && TargetAllowed(m.target) && CarriesContent(h, d, source, m)
    requires Place(h, e, workspace + Names(m.target)) == Some(c) && c in e && e[c].File?
    requires source + m.source in d && d[source + m.source] == e[c]
    ensures EntryHolds(h, e, workspace, Entry(m.target, m.digest))
  {
    AllowedStartsOwned(m.target);
    hide TargetAllowed, Names, Place, WellFormed;
    PlacedIsRead(h, e, workspace + Names(m.target), c);
    hide LinkStat, ReadFile;
  }

  lemma RecordHolds(h: Host, e: Disk, workspace: Path, ownership: JsValue, c: Path)
    requires Sound(h) && WellFormed(e) && Proper(h, ownership)
    requires Place(h, e, RecordAt(workspace)) == Some(c) && c in e && e[c] == File(h.encode(OwnershipText(ownership)))
    ensures RecordMatches(h, e, workspace, ownership)
  {
    assert RecordAt(workspace) != [];
    hide Place, WellFormed, OwnershipText, Parse, Meaning, Printed, Proper, RecordAt;
    PlacedIsRead(h, e, RecordAt(workspace), c);
    hide ReadFile, LinkStat;
    OwnershipReadsBack(h, ownership);
  }

  /** A complete installation holds what the package prescribes. */
  lemma CompleteHolds(h: Host, source: Path, workspace: Path, x: Expected, a: Record, b: Record)
    requires Sound(h) && WellFormed(a.disk) && WellFormed(b.disk) && IsPath(workspace)
    requires Straight(a.disk, source) && IsExpected(h, a.disk, source, x) && Complete(h, source, workspace, x, a, b)
    ensures RecordMatches(h, b.disk, workspace, x.ownership) && HoldsMappings(h, b.disk, workspace, x.mappings)
  {
    hide IsExpected, CompleteAs, Complete, Place, Leaves, MappingAllowed, CarriesContent, TargetsDiffer,
      Straight, EntryHolds, RecordMatches, Proper, OwnershipBody, OwnershipText, Names, RecordAt, TargetAllowed,
      WellFormed, Within;
    ExpectedShape(h, a.disk, source, x);
    CompleteWithin(h, source, workspace, x, a, b);
    var places, datas := CompleteHas(h, source, workspace, x, a, b);
    forall i | 0 <= i < |x.mappings|
      ensures EntryHolds(h, b.disk, workspace, Entry(x.mappings[i].target, x.mappings[i].digest))
    {
      TargetIsFilled(h, source, workspace, x, a, b, places, datas, i);
      assert x.mappings[i] in x.mappings;
      MappingHolds(h, a.disk, b.disk, source, workspace, x.mappings[i], places[i]);
    }
    TargetIsFilled(h, source, workspace, x, a, b, places, datas, |x.mappings|);
    RecordHolds(h, b.disk, workspace, x.ownership, places[|x.mappings|]);
  }

  lemma RootsStayReal(h: Host, d: Disk, e: Disk, args: WorkspaceArgs)
    requires Within(d, e) && HasRoots(h, d, args)
    ensures HasRoots(h, e, args)
    ensures RealPath(h, e, args.sourceRoot.value) == RealPath(h, d, args.sourceRoot.value)
    ensures RealPath(h, e, args.workspaceRoot.value) == RealPath(h, d, args.workspaceRoot.value)
  {
    FindGrows(h, d, e, Segs(Resolve(h.cwd, args.sourceRoot.value)));
    FindGrows(h, d, e, Segs(Resolve(h.cwd, args.workspaceRoot.value)));
    hide Find, Segs, Resolve;
  }

  // --------------------------------------------------- a kept package

  /** The names of the two directories that a workspace gives to installations. */
  predicate IsOwned(name: string) {
    name == ".agents" || name == ".codex"
  }

  /** No install target asks for something in those directories. */
  ghost predicate AsksOutside(root: Path, m: JsValue) {
    InstallTargets(m).Ok? ==>
      forall i :: 0 <= i < |InstallTargets(m).value| ==> OutsideItem(root, InstallTargets(m).value[i])
  }

  ghost predicate OutsideItem(root: Path, item: JsValue) {
    item.Obj? && TargetWellTyped(item) && root < Segs(SourcePath(root, item)) ==>
      !IsOwned(Segs(SourcePath(root, item))[|root|])
  }

  /** Below the root, `e` is `d` with files and directories added in those two
      directories only. */
  ghost predicate OnlyOwnedAdded(d: Disk, e: Disk, root: Path) {
    && Within(d, e)
    && forall q :: q in e && q !in d && root <= q ==> root < q && IsOwned(q[|root|]) && !e[q].Link?
  }

  lemma OutsideIsSame(d: Disk, e: Disk, root: Path, p: Path)
    requires OnlyOwnedAdded(d, e, root) && root < p && !IsOwned(p[|root|])
    ensures SameBelow(d, e, p)
  {
    hide IsOwned;
    forall q | p <= q ensures (q in d <==> q in e) && (q in d ==> d[q] == e[q]) {
      assert root < q && q[|root|] == p[|root|];
    }
  }

  lemma OwnedNames(name: string)
    ensures IsOwned(name) ==> name !in ARTIFACT_ROOTS && name != MANIFEST_FILE
  {
    assert ".agents"[0] == ".codex"[0] == '.' && MANIFEST_FILE[0] == 'm';
    assert forall i :: 0 <= i < |ARTIFACT_ROOTS| ==> ARTIFACT_ROOTS[i] != "" && ARTIFACT_ROOTS[i][0] != '.';
  }

  /** What is added there does not touch the package. */
  lemma OwnedChangeKeeps(h: Host, d: Disk, e: Disk, root: Path, m: JsValue)
    requires LinkFree(d, root) && WellFormed(e) && OnlyOwnedAdded(d, e, root) && AsksOutside(root, m)
    ensures KeepsPackage(h, d, e, root, m)
  {
    hide IsOwned, WellFormed, ManifestAt, ARTIFACT_ROOTS, MANIFEST_FILE, InstallTargets, Segs, SourcePath, Get,
      SameBelow, TargetWellTyped;
    assert LinkFree(e, root) by {
      assert root in e;
    }
    OwnedNames(MANIFEST_FILE);
    OutsideIsSame(d, e, root, root + [MANIFEST_FILE]);
    ManifestKept(h, d, e, root);
    forall r | IsArtifactPath(r)
      ensures IsFileBelow(d, root, r) <==> IsFileBelow(e, root, r)
      ensures IsFileBelow(d, root, r) ==> d[root + r] == e[root + r]
    {
      OwnedNames(r[0]);
      OutsideIsSame(d, e, root, root + r);
      SameThere(d, e, root + r);
    }
    if InstallTargets(m).Ok? {
      var items := InstallTargets(m).value;
      forall i | 0 <= i < |items| ensures ItemKept(d, e, root, items[i]) {
        OutsideIsKept(d, e, root, items[i]);
      }
    }
  }

  lemma OutsideIsKept(d: Disk, e: Disk, root: Path, item: JsValue)
    requires OnlyOwnedAdded(d, e, root) && OutsideItem(root, item)
    ensures ItemKept(d, e, root, item)
  {
    hide IsOwned, Segs, SameBelow, OnlyOwnedAdded, Get;
    if item.Obj? && TargetWellTyped(item) && root < Segs(SourcePath(root, item)) {
      OutsideIsSame(d, e, root, Segs(SourcePath(root, item)));
    }
  }

  lemma SameThere(d: Disk, e: Disk, p: Path)
    requires SameBelow(d, e, p)
    ensures (p in d <==> p in e) && (p in d ==> d[p] == e[p])
  {
  }

  lemma ManifestKept(h: Host, d: Disk, e: Disk, root: Path)
    requires LinkFree(d, root) && LinkFree(e, root) && SameBelow(d, e, root + [MANIFEST_FILE])
    ensures ManifestAt(h, e, root) == ManifestAt(h, d, root)
  {
    hide ReadFile, LinkFree, SameBelow, Find;
    ReadSame(h, d, e, root, root + [MANIFEST_FILE]);
  }

  lemma TargetsAreOwned(p: Package)
    requires IsPath(p.workspace) && AllAllowed(p.x.mappings)
    ensures forall i :: 0 <= i < |TargetsFor(p)| ==>
              p.workspace < TargetsFor(p)[i] && IsOwned(TargetsFor(p)[i][|p.workspace|])
  {
    hide Names, TargetAllowed, IsPath;
    TargetsBelow(p);
    forall i | 0 <= i < |TargetsFor(p)| ensures IsOwned(TargetsFor(p)[i][|p.workspace|]) {
      if i < |p.x.mappings| {
        AllowedStartsOwned(p.x.mappings[i].target);
      }
    }
  }

  /** A package that is installed into its own source root, by a quiet run, is kept, if
      none of its install targets asks for something in the two directories. */
  lemma SelfInstallKeeps(h: Host, d: Disk, e: Disk, p: Package)
    requires Sound(h) && WellFormed(d) && p.source == p.workspace && IsPath(p.workspace) && Straight(d, p.source)
    requires IsExpected(h, d, p.source, p.x) && AllAllowed(p.x.mappings) && AsksOutside(p.source, p.x.manifest)
    requires CreateEach(h, d, PlanOf(h, p)) == Some(e)
    ensures KeepsPackage(h, d, e, p.source, p.x.manifest)
  {
    hide IsExpected, AllAllowed, AsksOutside, CreateEach, PlanOf, Filled, TargetsFor, WellFormed, Straight,
      MappingAllowed, CarriesContent, TargetsDiffer, Proper, OwnershipBody, NoLinks, DirectTargets,
      OnlyOwnedAdded, IsOwned, KeepsPackage;
    ExpectedShape(h, d, p.source, p.x);
    NoLinksIsDirect(d, p);
    InstalledIsFilled(h, d, e, p);
    PlanTargets(h, p);
    TargetsAreOwned(p);
    FilledIsOwned(d, e, PlanOf(h, p), p.source);
    OwnedChangeKeeps(h, d, e, p.source, p.x.manifest);
  }

  lemma FilledIsOwned(d: Disk, e: Disk, ops: seq<Creation>, root: Path)
    requires WellFormed(d) && root in d && Filled(d, e, ops)
    requires forall i :: 0 <= i < |ops| ==> root < TargetOf(ops[i]) && IsOwned(TargetOf(ops[i])[|root|])
    ensures OnlyOwnedAdded(d, e, root) && WellFormed(e)
  {
    assert WellFormed(e) && Within(d, e) && forall q :: q in e && q !in d ==> OnWays(ops, q) && !e[q].Link?;
    hide Filled, IsOwned, WellFormed, OnWays, Within, TargetOf;
    forall q | q in e && q !in d && root <= q ensures root < q && IsOwned(q[|root|]) {
      WayIsOwned(ops, root, q);
    }
  }

  lemma WayIsOwned(ops: seq<Creation>, root: Path, q: Path)
    requires OnWays(ops, q) && root <= q && root != q
    requires forall i :: 0 <= i < |ops| ==> root < TargetOf(ops[i]) && IsOwned(TargetOf(ops[i])[|root|])
    ensures root < q && IsOwned(q[|root|])
  {
    hide IsOwned, TargetOf;
    var i :| 0 <= i < |ops| && q <= TargetOf(ops[i]);
    assert |root| == |q| ==> root == q;
    assert q[|root|] == TargetOf(ops[i])[|root|];
  }

  /** When the package is kept, the independent verifier accepts what a successful
      run installed, and a second run finds it current exactly when the package
      carries the identity that the installer demands. */
  lemma WorkspaceInstallVerifies(h: Host, args: WorkspaceArgs, a: Record, b: Record, x: Expected)
    requires Sound(h) && WellFormed(a.disk) && WellFormed(b.disk) && HasRoots(h, a.disk, args)
    requires var source := RealPath(h, a.disk, args.sourceRoot.value).value;
             var workspace := RealPath(h, a.disk, args.workspaceRoot.value).value;
             && IsExpected(h, a.disk, source, x) && Complete(h, source, workspace, x, a, b)
             && KeepsPackage(h, a.disk, b.disk, source, x.manifest)
    ensures HasRoots(h, b.disk, args) && WorkspaceVerified(h, b.disk, args)
    ensures var source := RealPath(h, b.disk, args.sourceRoot.value).value;
            var workspace := RealPath(h, b.disk, args.workspaceRoot.value).value;
            IsCurrent(h, b.disk, source, workspace) <==> Identified(x)
  {
    var source := RealPath(h, a.disk, args.sourceRoot.value).value;
    var workspace := RealPath(h, a.disk, args.workspaceRoot.value).value;
    RealPathIs(h, a.disk, args.sourceRoot.value);
    RealPathIs(h, a.disk, args.workspaceRoot.value);
    hide RealPath, IsExpected, Complete, KeepsPackage, WellFormed, Straight, Within, RecordMatches, HoldsMappings,
      Identified, Proper, OwnershipBody, MappingAllowed, TargetsDiffer, Verified;
    CompleteWithin(h, source, workspace, x, a, b);
    RootsStayReal(h, a.disk, b.disk, args);
    CompleteHolds(h, source, workspace, x, a, b);
    ExpectedShape(h, a.disk, source, x);
    ExpectedKept(h, a.disk, b.disk, source, x);
    VerifiedIs(h, b.disk, source, workspace, x);
    IsCurrentIs(h, b.disk, source, workspace, x);
  }
}
