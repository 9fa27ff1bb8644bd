/** The package manifest: which files it binds, and what `readManifest` accepts. */
module Manifests {
  import opened Outcome
  import opened Paths
  import opened Hosts
  import opened Json
  import opened JsonParser
  import opened CanonicalJson
  import opened Disks
  import opened Listing

  const MANIFEST_FILE := "manifest.json"
  const MANIFEST_SCHEMA := "issue-orchestration.shared-package-manifest.v1"

  function PolicyFile(name: string): string {
    "policy/" + name + ".json"
  }

  function SchemaFile(dir: string, name: string): string {
    dir + "/" + name + ".schema.json"
  }

  function SkillScript(name: string): string {
    "skills/issue-orchestration/scripts/" + name + ".mjs"
  }

  const ARTIFACT_ROOTS := ["agents", "contracts", "graph", "policy", "scripts", "skills"]

  const CONTRACT_FILES := [
    SchemaFile("contracts", "compiled-dispatch-prompt"),
    SchemaFile("contracts", "executable-slice"),
    SchemaFile("contracts", "slice-terminal-receipt"),
    SchemaFile("contracts", "stage-continuation-receipt"),
    SchemaFile("contracts", "stage-progress-checkpoint"),
    SchemaFile("contracts", "stage-work-plan"),
    SchemaFile("contracts", "writer-stage-checkpoint-verification-receipt"),
    SchemaFile("contracts", "writer-stage-failure-receipt"),
    SchemaFile("contracts", "writer-stage-retry-authorization")]

  const RUNTIME_FILES := [
    SkillScript("executable-slice-compiler"),
    SkillScript("writer-stage-progress")]

  /** A manifest field that repeats the digest of one file. */
  datatype Binding = Binding(field: string, path: string)

  const BINDINGS := [
    Binding("skillDigest", "skills/issue-orchestration/SKILL.md"),
    Binding("modelPoolDigest", PolicyFile("model-pool")),
    Binding("routingPolicyDigest", PolicyFile("routing-policy")),
    Binding("stagePermissionDigest", PolicyFile("stage-permissions")),
    Binding("terminalPolicyDigest", PolicyFile("terminal-policy")),
    Binding("remoteMutationPolicyDigest", PolicyFile("remote-mutation-policy")),
    Binding("runtimeTrustPolicyDigest", PolicyFile("runtime-trust-policy")),
    Binding("runtimeStartupPolicyDigest", PolicyFile("runtime-startup-policy")),
    Binding("executionRoutingPolicyDigest", PolicyFile("execution-routing-policy")),
    Binding("runtimeExecutionBindingPolicyDigest", PolicyFile("runtime-execution-binding-policy")),
    Binding("stageMutationGuardPolicyDigest", PolicyFile("stage-mutation-guard-policy")),
    Binding("rootTakeoverPolicyDigest", PolicyFile("root-takeover-policy")),
    Binding("controlPlaneAdvisorPolicyDigest", PolicyFile("control-plane-advisor-policy")),
    Binding("graphSchemaDigest", SchemaFile("graph", "semantic-graph")),
    Binding("patchSchemaDigest", SchemaFile("graph", "graph-patch")),
    Binding("runtimeProjectionSchemaDigest", SchemaFile("graph", "runtime-projection")),
    Binding("projectorDigest", SkillScript("semantic-runtime-projection"))]

  // -------------------------------------------------------- artifact digests

  function FileDigest(h: Host, d: Disk, p: Path): Result<string> {
    var data := ReadFile(h, d, p);
    if data.None? then Err("ENOENT") else Ok(h.sha256(data.value))
  }

  /** The package files that are artifacts, relative to the source root. */
  predicate IsArtifactPath(r: Path) {
    r != [] && r != [MANIFEST_FILE] && r[0] in ARTIFACT_ROOTS
  }

  function ArtifactEntries(h: Host, d: Disk, root: Path, files: seq<Path>): Result<seq<Entry>> {
    if files == [] then Ok([])
    else
      var rest := ArtifactEntries(h, d, root, files[1..]);
      if !IsArtifactPath(files[0]) then rest
      else
        var digest := FileDigest(h, d, root + files[0]);
        if digest.Err? then Err(digest.code)
        else if rest.Err? then rest
        else Ok([Entry(Join(files[0]), Str(digest.value))] + rest.value)
  }

  function LocaleInsert(h: Host, e: Entry, es: seq<Entry>): seq<Entry> {
    if es == [] || h.before(e.key, es[0].key) then [e] + es else [es[0]] + LocaleInsert(h, e, es[1..])
  }

  /** `sort` by `localeCompare` on the keys; it is stable. */
  function LocaleSort(h: Host, es: seq<Entry>): seq<Entry> {
    if es == [] then [] else LocaleInsert(h, es[0], LocaleSort(h, es[1..]))
  }

  /** `collectArtifactDigests(root)`. */
  function CollectArtifacts(h: Host, d: Disk, root: Path): Result<JsValue> {
    var files := WalkFiles(h, d, root);
    if files.Err? then Err(files.code)
    else
      var es := ArtifactEntries(h, d, root, files.value);
      if es.Err? then Err(es.code) else Ok(Obj(FromEntries(LocaleSort(h, es.value))))
  }

  // -------------------------------------------------------------- acceptance

  /** `JSON.parse` of the manifest file, if it can be read and parsed. */
  function ManifestAt(h: Host, d: Disk, root: Path): Option<JsValue> {
    var data := ReadFile(h, d, root + [MANIFEST_FILE]);
    if data.None? then None else Parse(h, h.decode(data.value))
  }

  /** `r` is an artifact file of the package at `root`. */
  predicate IsArtifact(d: Disk, root: Path, r: Path) {
    IsFileBelow(d, root, r) && IsArtifactPath(r)
  }

  /** `e` records the content of an artifact of the package at `root`. */
  ghost predicate RecordsFile(h: Host, d: Disk, root: Path, e: Entry) {
    exists r :: IsArtifact(d, root, r) && e == Entry(Join(r), Str(h.sha256(d[root + r].data)))
  }

  /** `a` records every artifact, each under its path, and nothing else. */
  ghost predicate RecordsArtifacts(h: Host, d: Disk, root: Path, a: JsValue) {
    a.Obj? && forall e :: e in a.entries <==> RecordsFile(h, d, root, e)
  }

  /** `manifest[field]` repeats the digests of exactly these files. */
  ghost predicate BindsFiles(m: JsValue, a: JsValue, field: string, files: seq<string>) {
    var w := Get(m, field);
    && w.Obj?
    && (forall f :: f in files ==> Get(a, f) != Undefined)
    && (forall e :: e in w.entries <==> e.key in files && e.value == Get(a, e.key))
  }

  function AgentFile(id: string): string {
    "agents/" + id + ".toml"
  }

  /** Every agent digest is the digest of that agent's file. */
  ghost predicate BindsAgents(m: JsValue, a: JsValue) {
    var g := Get(m, "agentDigests");
    g.Obj? && forall e :: e in g.entries ==> Get(a, AgentFile(e.key)) == e.value
  }

  predicate IsBound(m: JsValue, a: JsValue, b: Binding) {
    Get(a, b.path) != Undefined && Get(m, b.field) == Get(a, b.path)
  }

  ghost predicate BindsFields(m: JsValue, a: JsValue) {
    forall b :: b in BINDINGS ==> IsBound(m, a, b)
  }

  /** What it means for the package at `root` to have the manifest `m`. */
  ghost predicate Acceptable(h: Host, d: Disk, root: Path, m: JsValue) {
    && ManifestAt(h, d, root) == Some(m)
    && m.Obj?
    && Get(m, "schema") == Str(MANIFEST_SCHEMA)
    && Get(m, "manifestDigest") == Str(UnsignedDigest(h, m, "manifestDigest"))
    && NoLinks(d, root)
    && var a := Get(m, "artifactDigests");
       && RecordsArtifacts(h, d, root, a)
       && Get(m, "sourceTreeDigest") == Str(Digest(h, a))
       && BindsFields(m, a)
       && BindsFiles(m, a, "writerStageContractDigests", CONTRACT_FILES)
       && BindsFiles(m, a, "writerStageRuntimeDigests", RUNTIME_FILES)
       && BindsAgents(m, a)
  }
}
