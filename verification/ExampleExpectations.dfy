/** What is expected of installations of the example package. */
module ExampleExpectations {
  import opened Outcome
  import opened Paths
  import opened PathLemmas
  import opened Hosts
  import opened Json
  import opened JsonRoundTrip
  import opened Disks
  import opened PathLookup
  import opened Listing
  import opened Manifests
  import ParsedValues
  import opened ReadManifests
  import opened BuildManifests
  import opened BuildThenRead
  import opened Mappings
  import opened MappingLaw
  import opened TargetLayouts
  import opened ExamplePackages

  /** The scratch file installed under each of the targets. */
  function ScratchItems(targets: seq<string>): (items: seq<JsValue>)
    ensures |items| == |targets| && forall i :: 0 <= i < |targets| ==> items[i] == Declare(SCRATCH_FILE, targets[i])
  {
    seq(|targets|, i requires 0 <= i < |targets| => Declare(SCRATCH_FILE, targets[i]))
  }

  function ExampleDeclared(identity: string, targets: seq<string>): Declared {
    Declared(identity, "", Arr([]), Arr(ScratchItems(targets)), Arr([]), Arr([]))
  }

  ghost predicate GoodTargets(targets: seq<string>) {
    && (forall i :: 0 <= i < |targets| ==> !IsAbsolute(targets[i]) && ".." !in Split(targets[i]))
    && forall i, j :: 0 <= i < j < |targets| ==> targets[i] != targets[j]
  }

  lemma DeclarePrints(h: Host, source: string, target: string)
    ensures Printable(h, Declare(source, target))
  {
    assert "source"[0] == 's' && "target"[0] == 't';
  }

  lemma ExampleDeclarable(h: Host, identity: string, targets: seq<string>)
    ensures Declarable(h, ExampleDeclared(identity, targets))
  {
    var items := ScratchItems(targets);
    forall i | 0 <= i < |items| ensures Printable(h, items[i]) {
      DeclarePrints(h, SCRATCH_FILE, targets[i]);
    }
    assert Printable(h, Arr([]));
    hide Declare, SCRATCH_FILE;
  }

  /** The disk on which the manifest has been built. */
  function BuiltDisk(h: Host, c: Declared): Result<Disk> {
    BuildManifest(h, ExampleDisk(), PACKAGE_ROOT, c)
  }

  lemma ExampleIsAccepted(h: Host, identity: string, targets: seq<string>) returns (e: Disk, m: JsValue, data: Bytes)
    requires Sound(h)
    ensures BuiltDisk(h, ExampleDeclared(identity, targets)) == Ok(e)
    ensures e == ExampleDisk()[PACKAGE_ROOT + [MANIFEST_FILE] := File(data)] && WellFormed(e)
    ensures Acceptable(h, e, PACKAGE_ROOT, m)
    ensures Get(m, "packageIdentity") == Str(identity) && Get(m, "installTargets") == Arr(ScratchItems(targets))
  {
    var d, c := ExampleDisk(), ExampleDeclared(identity, targets);
    ExampleIsWellFormed();
    ExampleDeclarable(h, identity, targets);
    ExampleHasAll();
    ManifestIsNew();
    hide ExampleDisk, WellFormed, ScratchItems, AllBound, Declarable, Get, Acceptable, BuildManifest;
    assert PACKAGE_ROOT in OuterDirs();
    e, m, data := BuildsAccepted(h, d, PACKAGE_ROOT, c);
  }

  // -------------------------------------------------------------- mappings

  const SCRATCH_PATH: Path := ["skills", "x.tmp"]

  lemma ScratchIsThere()
    ensures Split(SCRATCH_FILE) == SCRATCH_PATH && Join(SCRATCH_PATH) == SCRATCH_FILE && IsPath(SCRATCH_PATH)
    ensures PACKAGE_ROOT + SCRATCH_PATH in ExampleDisk() && ExampleDisk()[PACKAGE_ROOT + SCRATCH_PATH] == File([])
    ensures HasArtifact(ExampleDisk(), PACKAGE_ROOT, SCRATCH_FILE)
  {
    hide PackageFiles, ExampleDisk, Split, Join, HasArtifact, IsPath;
    ScratchNames();
    NamesOfJoin(SCRATCH_PATH);
    hide SCRATCH_FILE, SCRATCH_PATH, PACKAGE_ROOT;
    ScratchShipped();
    FileIsThere(SCRATCH_FILE);
  }

  lemma ScratchNames()
    ensures Join(SCRATCH_PATH) == SCRATCH_FILE && IsPath(SCRATCH_PATH) && SCRATCH_PATH != []
  {
    hide Join, IsPath;
    TwoNames("skills", "x.tmp");
    assert SCRATCH_FILE == "skills" + "/" + "x.tmp";
  }

  lemma ScratchShipped()
    ensures SCRATCH_FILE in PackageFiles()
  {
    hide BINDINGS, CONTRACT_FILES, RUNTIME_FILES;
  }

  lemma ScratchIsBelow()
    ensures IsPath(PACKAGE_ROOT) && IsPath(PACKAGE_ROOT + SCRATCH_PATH) && PACKAGE_ROOT != []
    ensures Names(SCRATCH_FILE) == SCRATCH_PATH && ".." !in Split(SCRATCH_FILE) && !IsAbsolute(SCRATCH_FILE)
  {
    hide Split, Join, Plain, ExampleDisk, HasArtifact;
    ScratchIsThere();
    NamesOfJoin(SCRATCH_PATH);
    assert IsName("pkg");
    PlainNames(SCRATCH_PATH);
  }

  /** The source of every item is the scratch file. */
  lemma ScratchSource()
    ensures var p := PACKAGE_ROOT + SCRATCH_PATH;
            && Resolve(Render(PACKAGE_ROOT), SCRATCH_FILE) == Render(p) && Segs(Render(p)) == p
            && StartsWith(Render(p), Render(PACKAGE_ROOT) + "/")
  {
    hide *;
    ScratchIsBelow();
    RenderSegs(PACKAGE_ROOT);
    RenderSegs(PACKAGE_ROOT + SCRATCH_PATH);
    ResolveAppends(Render(PACKAGE_ROOT), SCRATCH_FILE);
    SourceBelow(PACKAGE_ROOT, PACKAGE_ROOT + SCRATCH_PATH);
    BelowRoot();
  }

  lemma BelowRoot()
    ensures PACKAGE_ROOT < PACKAGE_ROOT + SCRATCH_PATH
    ensures (PACKAGE_ROOT + SCRATCH_PATH)[|PACKAGE_ROOT|..] == SCRATCH_PATH
    ensures PACKAGE_ROOT != []
  {
  }

  /** The mapping of one item. */
  lemma MapsScratch(h: Host, e: Disk, a: JsValue, target: string)
    requires WellFormed(e) && PACKAGE_ROOT + SCRATCH_PATH in e && e[PACKAGE_ROOT + SCRATCH_PATH].File?
    ensures MapOne(h, e, PACKAGE_ROOT, a, Declare(SCRATCH_FILE, target)) ==
            Ok([Mapping(SCRATCH_PATH, target, Get(a, SCRATCH_FILE))])
  {
    hide Segs, Render, Resolve, Find, Get, SCRATCH_FILE, MANIFEST_FILE, WellFormed, ExampleDisk, SCRATCH_PATH,
      PACKAGE_ROOT, Join, Split, Declare, IsPath, HasArtifact;
    var p := PACKAGE_ROOT + SCRATCH_PATH;
    FindPresent(h, e, p);
    ScratchIsThere();
    ScratchSource();
    BelowRoot();
    DeclaredFields(SCRATCH_FILE, target);
    ScratchIsNoManifest();
    assert Declare(SCRATCH_FILE, target).Obj? by {
      DeclareIsObject(SCRATCH_FILE, target);
    }
  }

  lemma DeclareIsObject(source: string, target: string)
    ensures Declare(source, target).Obj?
  {
  }

  lemma ScratchIsNoManifest()
    ensures SCRATCH_FILE != MANIFEST_FILE
  {
    assert SCRATCH_FILE[0] == 's' && MANIFEST_FILE[0] == 'm';
  }

  /** The mappings of all items. */
  function ScratchMappings(targets: seq<string>, digest: JsValue): (ms: seq<Mapping>)
    ensures |ms| == |targets| && forall i :: 0 <= i < |targets| ==> ms[i] == Mapping(SCRATCH_PATH, targets[i], digest)
  {
    seq(|targets|, i requires 0 <= i < |targets| => Mapping(SCRATCH_PATH, targets[i], digest))
  }

  lemma {:induction false} MapsAllScratch(h: Host, e: Disk, a: JsValue, targets: seq<string>)
    requires WellFormed(e) && PACKAGE_ROOT + SCRATCH_PATH in e && e[PACKAGE_ROOT + SCRATCH_PATH].File?
    ensures MapAll(h, e, PACKAGE_ROOT, a, ScratchItems(targets)) == Ok(ScratchMappings(targets, Get(a, SCRATCH_FILE)))
  {
    hide MapOne, Get, SCRATCH_FILE, WellFormed, Declare, PACKAGE_ROOT;
    if targets != [] {
      var n := |targets| - 1;
      MapsAllScratch(h, e, a, targets[..n]);
      MapsScratch(h, e, a, targets[n]);
      var digest := Get(a, SCRATCH_FILE);
      assert ScratchItems(targets)[..n] == ScratchItems(targets[..n]);
      assert ScratchMappings(targets, digest) ==
             ScratchMappings(targets[..n], digest) + [Mapping(SCRATCH_PATH, targets[n], digest)];
    }
  }

  lemma ScratchDigest(h: Host, e: Disk, a: JsValue)
    requires Sound(h) && RecordsArtifacts(h, e, PACKAGE_ROOT, a) && Ordered(a.entries)
    requires HasArtifact(e, PACKAGE_ROOT, SCRATCH_FILE)
    ensures Truthy(Get(a, SCRATCH_FILE))
  {
    assert a.Obj? && Distinct(a.entries);
    hide SCRATCH_FILE, RecordsArtifacts, HasArtifact, Get;
    RecordedIffPresent(h, e, PACKAGE_ROOT, a, SCRATCH_FILE);
    RecordsHasDigests(h, e, PACKAGE_ROOT, a);
    GetIsEntry(a, SCRATCH_FILE);
  }

  lemma ScratchCompiles(h: Host, e: Disk, m: JsValue, targets: seq<string>)
    requires GoodTargets(targets) && Get(m, "installTargets") == Arr(ScratchItems(targets))
    requires WellFormed(e) && PACKAGE_ROOT + SCRATCH_PATH in e && e[PACKAGE_ROOT + SCRATCH_PATH].File?
    requires Truthy(Get(Get(m, "artifactDigests"), SCRATCH_FILE))
    ensures CollectMappings(h, e, PACKAGE_ROOT, m).Ok?
    ensures var digest := Get(Get(m, "artifactDigests"), SCRATCH_FILE);
            multiset(CollectMappings(h, e, PACKAGE_ROOT, m).value) == multiset(ScratchMappings(targets, digest))
  {
    hide Get, SCRATCH_FILE, WellFormed, SortMappings, MapAll, Split, PACKAGE_ROOT, SCRATCH_PATH, ScratchMappings,
      ScratchItems, GoodTargets, Truthy, MappingAllowed, TargetsDiffer;
    var a := Get(m, "artifactDigests");
    var xs := ScratchMappings(targets, Get(a, SCRATCH_FILE));
    MapsAllScratch(h, e, a, targets);
    SortKeeps(h, xs);
    ScratchAllowed(targets, Get(a, SCRATCH_FILE));
  }

  lemma ScratchAllowed(targets: seq<string>, digest: JsValue)
    requires GoodTargets(targets) && Truthy(digest)
    ensures var xs := ScratchMappings(targets, digest);
            TargetsDiffer(xs) && forall i :: 0 <= i < |xs| ==> MappingAllowed(xs[i])
  {
    hide Truthy, Split, SCRATCH_PATH;
  }

  // ----------------------------------------------------------- expectation

  /** The disk has no links, the directories of the workspace, and else only the
      package. */
  ghost predicate LooksLikeExample(e: Disk) {
    && WellFormed(e) && (forall q :: q in e ==> !e[q].Link? && (q in OuterDirs() || PACKAGE_ROOT <= q))
    && forall q :: q in OuterDirs() ==> q in e && e[q] == Dir
  }

  lemma BuiltLooksLikeExample(e: Disk, data: Bytes)
    requires e == ExampleDisk()[PACKAGE_ROOT + [MANIFEST_FILE] := File(data)] && WellFormed(e)
    ensures LooksLikeExample(e)
  {
    ExampleIsWellFormed();
    ManifestIsNew();
    DirsAreBelow();
    hide ExampleDisk, WellFormed, OuterDirs, MANIFEST_FILE;
  }

  lemma DirsAreBelow()
    ensures forall q :: q in ExampleDisk() ==> q in OuterDirs() || PACKAGE_ROOT <= q
  {
    hide OuterDirs, PackageFiles, Folders;
  }

  lemma ScratchStays(e: Disk, data: Bytes)
    requires e == ExampleDisk()[PACKAGE_ROOT + [MANIFEST_FILE] := File(data)]
    ensures PACKAGE_ROOT + SCRATCH_PATH in e && e[PACKAGE_ROOT + SCRATCH_PATH].File?
    ensures HasArtifact(e, PACKAGE_ROOT, SCRATCH_FILE)
  {
    ScratchIsThere();
    hide ExampleDisk, Join, Split;
    assert SCRATCH_PATH[0] in ARTIFACT_ROOTS && SCRATCH_PATH != [MANIFEST_FILE];
    assert IsArtifact(e, PACKAGE_ROOT, SCRATCH_PATH);
  }

  /** The build declares the identity and the targets. */
  ghost predicate Declares(m: JsValue, identity: string, targets: seq<string>) {
    Get(m, "packageIdentity") == Str(identity) && Get(m, "installTargets") == Arr(ScratchItems(targets))
  }

  /** The package is expected to be installed with one copy of the scratch file at
      each of the targets, whatever they are and whatever its identity. */
  lemma ScratchExpected(h: Host, identity: string, targets: seq<string>) returns (e: Disk, x: Expected, digest: JsValue)
    requires Sound(h) && GoodTargets(targets)
    ensures BuiltDisk(h, ExampleDeclared(identity, targets)) == Ok(e) && LooksLikeExample(e)
    ensures IsExpected(h, e, PACKAGE_ROOT, x) && Declares(x.manifest, identity, targets)
    ensures multiset(x.mappings) == multiset(ScratchMappings(targets, digest))
  {
    hide Acceptable, CollectMappings, OwnershipBody, Get, BuiltDisk, LooksLikeExample, WellFormed, ScratchItems,
      ExampleDisk, GoodTargets, RecordsArtifacts, Ordered, HasArtifact, SCRATCH_FILE, MANIFEST_FILE,
      PACKAGE_ROOT, NoLinks, Proper, ParsedValues.Defined, Truthy, SCRATCH_PATH;
    var m, data;
    e, m, data := ExampleIsAccepted(h, identity, targets);
    BuiltLooksLikeExample(e, data);
    ScratchStays(e, data);
    var a := Get(m, "artifactDigests");
    digest := Get(a, SCRATCH_FILE);
    AcceptedMap(h, e, PACKAGE_ROOT, m);
    ScratchDigest(h, e, a);
    ScratchCompiles(h, e, m, targets);
    var ms := CollectMappings(h, e, PACKAGE_ROOT, m).value;
    x := Expected(m, ms, OwnershipBody(h, m, ms));
  }
}
