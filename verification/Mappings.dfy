/** Compiling install targets to file mappings, and the ownership record. */
module Mappings {
  import opened Outcome
  import opened Paths
  import opened Hosts
  import opened Json
  import opened CanonicalJson
  import opened Disks
  import opened Listing
  import opened Manifests
  import opened ReadManifests
  import opened PathLookup

  const OWNERSHIP_FILE := ".issue-orchestration-install.json"
  const INSTALL_SCHEMA := "issue-orchestration.shared-install-ownership.v1"

  /** One file to install: where it is below the source root, the target as the
      manifest names it, and its recorded digest. */
  datatype Mapping = Mapping(source: Path, target: string, digest: JsValue)

  /** `!value` is false. */
  predicate Truthy(v: JsValue) {
    match v
    case Undefined => false
    case Null => false
    case Bool(b) => b
    case Number(n) => n != Finite("0")
    case Str(s) => s != ""
    case _ => true
  }

  /** The elements that `for (... of manifest.installTargets ?? [])` visits. */
  function InstallTargets(m: JsValue): Result<seq<JsValue>> {
    match Get(m, "installTargets")
    case Undefined => Ok([])
    case Null => Ok([])
    case Arr(items) => Ok(items)
    case Str(s) => if s == "" then Ok([]) else Err("manifest-install-target-invalid")
    case _ => Err("TypeError")
  }

  function SourceDigest(h: Host, d: Disk, root: Path, a: JsValue, source: Path): Result<JsValue> {
    if Join(source) == MANIFEST_FILE then
      var digest := FileDigest(h, d, root + source);
      if digest.Err? then Err(digest.code) else Ok(Str(digest.value))
    else Ok(Get(a, Join(source)))
  }

  function DirMapping(a: JsValue, source: Path, target: string, r: Path): Mapping {
    Mapping(source + r, JoinPath(target, Join(r)), Get(a, Join(source + r)))
  }

  /** One mapping for each file of a directory. */
  function DirMappings(a: JsValue, source: Path, target: string, files: seq<Path>): (ms: seq<Mapping>)
    ensures |ms| == |files|
    ensures forall i :: 0 <= i < |ms| ==> ms[i] == DirMapping(a, source, target, files[i])
  {
    seq(|files|, i requires 0 <= i < |files| => DirMapping(a, source, target, files[i]))
  }

  /** The path that an install target's source denotes. */
  function SourcePath(root: Path, item: JsValue): string
    requires Get(item, "source").Str?
  {
    Resolve(Render(root), Get(item, "source").s)
  }

  predicate TargetWellTyped(item: JsValue) {
    Get(item, "source").Str? && Get(item, "target").Str?
  }

  function MapOne(h: Host, d: Disk, root: Path, a: JsValue, item: JsValue): Result<seq<Mapping>> {
    if !item.Obj? || !TargetWellTyped(item) then Err("manifest-install-target-invalid")
    else
      var source := SourcePath(root, item);
      var p := Segs(source);
      if !StartsWith(source, Render(root) + "/") || !Exists(h, d, p) then Err("manifest-install-source-invalid")
      else MapSource(h, d, root, a, Get(item, "target").s, p)
  }

  function MapSource(h: Host, d: Disk, root: Path, a: JsValue, target: string, p: Path): Result<seq<Mapping>> {
    var source := if root <= p then p[|root|..] else p;
    if IsDirAt(h, d, p) then
      var files := WalkFiles(h, d, p);
      if files.Err? then Err(files.code) else Ok(DirMappings(a, source, target, files.value))
    else
      var digest := SourceDigest(h, d, root, a, source);
      if digest.Err? then Err(digest.code) else Ok([Mapping(source, target, digest.value)])
  }

  function MapAll(h: Host, d: Disk, root: Path, a: JsValue, items: seq<JsValue>): Result<seq<Mapping>> {
    if items == [] then Ok([])
    else
      var n := |items| - 1;
      var front := MapAll(h, d, root, a, items[..n]);
      if front.Err? then front
      else
        var last := MapOne(h, d, root, a, items[n]);
        if last.Err? then last else Ok(front.value + last.value)
  }

  predicate MappingAllowed(m: Mapping) {
    Truthy(m.digest) && !IsAbsolute(m.target) && ".." !in Split(m.target)
  }

  predicate TargetsDiffer(ms: seq<Mapping>) {
    forall i, j :: 0 <= i < j < |ms| ==> ms[i].target != ms[j].target
  }

  function InsertMapping(h: Host, m: Mapping, ms: seq<Mapping>): seq<Mapping> {
    if ms == [] || h.before(m.target, ms[0].target) then [m] + ms else [ms[0]] + InsertMapping(h, m, ms[1..])
  }

  /** `mappings.sort` by `localeCompare` on the targets. */
  function SortMappings(h: Host, ms: seq<Mapping>): seq<Mapping> {
    if ms == [] then [] else InsertMapping(h, ms[0], SortMappings(h, ms[1..]))
  }

  /** What `collectSourceMappings(root, m)` computes. */
  function CollectMappings(h: Host, d: Disk, root: Path, m: JsValue): Result<seq<Mapping>> {
    var items := InstallTargets(m);
    if items.Err? then Err(items.code)
    else
      var ms := MapAll(h, d, root, Get(m, "artifactDigests"), items.value);
      if ms.Err? then ms
      else if exists i :: 0 <= i < |ms.value| && !MappingAllowed(ms.value[i]) then
        Err("manifest-install-target-invalid")
      else if !TargetsDiffer(ms.value) then Err("manifest-install-target-collision")
      else Ok(SortMappings(h, ms.value))
  }

  /** The loop that pushes the mappings of each install target. */
  method PushMappings(h: Host, d: Disk, root: Path, a: JsValue, items: seq<JsValue>) returns (r: Result<seq<Mapping>>)
    ensures r == MapAll(h, d, root, a, items)
  {
    hide MapOne;
    var mappings: seq<Mapping> := [];
    for n := 0 to |items|
      invariant MapAll(h, d, root, a, items[..n]) == Ok(mappings)
    {
      var one := MapOne(h, d, root, a, items[n]);
      assert items[..n + 1][..n] == items[..n];
      if one.Err? {
        MapAllFails(h, d, root, a, items, n + 1);
        return Err(one.code);
      }
      mappings := mappings + one.value;
    }
    assert items[..|items|] == items;
    return Ok(mappings);
  }

  /** `collectSourceMappings(root, m)`: push, check each, compare, sort. */
  method CollectSourceMappings(h: Host, d: Disk, root: Path, m: JsValue) returns (r: Result<seq<Mapping>>)
    ensures r == CollectMappings(h, d, root, m)
  {
    hide MapAll, SortMappings, MappingAllowed, Get;
    var items := InstallTargets(m);
    if items.Err? {
      return Err(items.code);
    }
    var pushed := PushMappings(h, d, root, Get(m, "artifactDigests"), items.value);
    if pushed.Err? {
      return pushed;
    }
    var mappings := pushed.value;
    for i := 0 to |mappings|
      invariant forall j :: 0 <= j < i ==> MappingAllowed(mappings[j])
    {
      if !MappingAllowed(mappings[i]) {
        return Err("manifest-install-target-invalid");
      }
    }
    if !TargetsDiffer(mappings) {
      return Err("manifest-install-target-collision");
    }
    return Ok(SortMappings(h, mappings));
  }

  lemma {:induction false} MapAllFails(h: Host, d: Disk, root: Path, a: JsValue, items: seq<JsValue>, n: nat)
    requires n <= |items| && MapAll(h, d, root, a, items[..n]).Err?
    ensures MapAll(h, d, root, a, items) == MapAll(h, d, root, a, items[..n])
    decreases |items| - n
  {
    hide MapOne;
    if n == |items| {
      assert items[..n] == items;
    } else {
      assert items[..n + 1][..n] == items[..n];
      MapAllFails(h, d, root, a, items, n + 1);
    }
  }

  // -------------------------------------------------------------- ownership

  function FileEntries(ms: seq<Mapping>): (es: seq<Entry>)
    ensures |es| == |ms| && forall i :: 0 <= i < |ms| ==> es[i] == Entry(ms[i].target, ms[i].digest)
  {
    seq(|ms|, i requires 0 <= i < |ms| => Entry(ms[i].target, ms[i].digest))
  }

  function OwnershipEntries(m: JsValue, ms: seq<Mapping>): seq<Entry> {
    [ Entry("schema", Str(INSTALL_SCHEMA)),
      Entry("packageIdentity", Get(m, "packageIdentity")),
      Entry("packageVersion", Get(m, "packageVersion")),
      Entry("manifestDigest", Get(m, "manifestDigest")),
      Entry("sourceTreeDigest", Get(m, "sourceTreeDigest")),
      Entry("files", Obj(FromEntries(FileEntries(ms)))) ]
  }

  /** `ownershipBody(m, ms)`. */
  function OwnershipBody(h: Host, m: JsValue, ms: seq<Mapping>): JsValue {
    var body := Obj(FromEntries(OwnershipEntries(m, ms)));
    Obj(Put(body.entries, "installDigest", Str(Digest(h, body))))
  }

  /** What an installation of the package must look like. */
  datatype Expected = Expected(manifest: JsValue, mappings: seq<Mapping>, ownership: JsValue)

  /** `x` is what `expectedInstall(root)` returns. */
  ghost predicate IsExpected(h: Host, d: Disk, root: Path, x: Expected) {
    && Acceptable(h, d, root, x.manifest)
    && CollectMappings(h, d, root, x.manifest) == Ok(x.mappings)
    && x.ownership == OwnershipBody(h, x.manifest, x.mappings)
  }

  /** `x` is what `expectedInstall(root)` returns, when `root` may lie behind links:
      the manifest is that of the real root, the sources are resolved from the given
      one. */
  ghost predicate Prescribes(h: Host, d: Disk, root: Path, x: Expected) {
    && Find(h, d, root).Some?
    && Acceptable(h, d, Find(h, d, root).value, x.manifest)
    && CollectMappings(h, d, root, x.manifest) == Ok(x.mappings)
    && x.ownership == OwnershipBody(h, x.manifest, x.mappings)
  }

  method ExpectedInstall(h: Host, d: Disk, root: Path) returns (r: Result<Expected>)
    requires Sound(h) && WellFormed(d)
    ensures r.Ok? ==> Prescribes(h, d, root, r.value)
    ensures r.Err? ==> forall x: Expected :: !Prescribes(h, d, root, x)
  {
    hide CollectMappings, OwnershipBody, Find;
    var m := ReadManifest(h, d, root);
    if m.Err? {
      hide Acceptable;
      return Err(m.code);
    }
    var ms := CollectSourceMappings(h, d, root, m.value);
    if ms.Err? {
      OneManifest(h, d, Find(h, d, root).value, m.value);
      hide Acceptable;
      return Err(ms.code);
    }
    hide Acceptable;
    return Ok(Expected(m.value, ms.value, OwnershipBody(h, m.value, ms.value)));
  }

  /** At a real root the two readings agree. */
  lemma PrescribesReal(h: Host, d: Disk, root: Path)
    requires WellFormed(d) && Straight(d, root)
    ensures forall x: Expected :: Prescribes(h, d, root, x) <==> IsExpected(h, d, root, x)
  {
    FindStraight(h, d, root);
    hide CollectMappings, OwnershipBody, Find;
    if root !in d {
      forall x: Expected ensures !Acceptable(h, d, root, x.manifest) {
        MissingIsUnacceptable(h, d, root, x.manifest);
      }
    }
    hide Acceptable;
  }

  lemma MissingIsUnacceptable(h: Host, d: Disk, root: Path, m: JsValue)
    requires WellFormed(d) && Find(h, d, root).None?
    ensures !Acceptable(h, d, root, m)
  {
    if ManifestAt(h, d, root).Some? {
      ManifestNeedsRoot(h, d, root);
    }
    hide BindsFields, BindsFiles, BindsAgents, RecordsArtifacts, NoLinks, Digest, Get, ManifestAt, Find;
  }

  lemma OneManifest(h: Host, d: Disk, root: Path, m: JsValue)
    requires Acceptable(h, d, root, m)
    ensures forall n :: Acceptable(h, d, root, n) ==> n == m
  {
    hide BindsFields, BindsFiles, BindsAgents, RecordsArtifacts, NoLinks, Digest, Get;
  }
}
