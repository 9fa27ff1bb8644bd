/** `build-manifest`: the writer whose reader is `readManifest`. */
module BuildManifests {
  import opened Outcome
  import opened Paths
  import opened Hosts
  import opened Json
  import opened CanonicalJson
  import opened Disks
  import opened Manifests
  import opened ReadManifests

  /** The parts of the manifest that the package only declares. The script names the
      package itself; another name stands for another package built alike. */
  datatype Declared = Declared(
    packageIdentity: string,
    sourceCommit: string,
    requiredCapabilities: JsValue,
    installTargets: JsValue,
    ownedDomains: JsValue,
    excludedAuthorities: JsValue)

  const AGENT_IDS := [
    "code-implementer",
    "dag-creator-updater",
    "documentation-writer",
    "test-owner",
    "ui-system-adjudicator",
    "ui-ux-implementer",
    "ux-acceptance-verifier"]

  /** The field that repeats one artifact digest, undefined if there is none. */
  function BoundEntry(a: JsValue, b: Binding): Entry {
    Entry(b.field, Get(a, b.path))
  }

  function BoundEntries(a: JsValue, bs: seq<Binding>): (es: seq<Entry>)
    ensures |es| == |bs| && forall i :: 0 <= i < |bs| ==> es[i] == BoundEntry(a, bs[i])
  {
    seq(|bs|, i requires 0 <= i < |bs| => BoundEntry(a, bs[i]))
  }

  /** `Object.fromEntries(agentIds.map(...))`. */
  function AgentEntries(a: JsValue, ids: seq<string>): seq<Entry> {
    if ids == [] then []
    else Put(AgentEntries(a, ids[..|ids| - 1]), ids[|ids| - 1], Get(a, AgentFile(ids[|ids| - 1])))
  }

  function HeadEntries(h: Host, a: JsValue, c: Declared): (es: seq<Entry>)
    ensures |es| == 9
  {
    [ Entry("schema", Str(MANIFEST_SCHEMA)),
      Entry("packageIdentity", Str(c.packageIdentity)),
      Entry("packageVersion", Str("1.0.0")),
      Entry("sourceCommit", Str(c.sourceCommit)),
      Entry("sourceTreeDigest", Str(Digest(h, a))),
      Entry("skillIdentity", Str("issue-orchestration")),
      BoundEntry(a, BINDINGS[0]),
      Entry("agentDigests", Obj(AgentEntries(a, AGENT_IDS))),
      Entry("modelPoolPolicyVersion", Str("stage-model-pool.v4")) ]
  }

  function TailEntries(a: JsValue, c: Declared): (es: seq<Entry>)
    ensures |es| == 9
  {
    [ Entry("writerStageContractDigests", Obj(ExpectedEntries(a, CONTRACT_FILES))),
      Entry("writerStageRuntimeDigests", Obj(ExpectedEntries(a, RUNTIME_FILES))),
      Entry("repositoryTargetPolicy", Str("caller-supplied-operator-owned-remote-identity")),
      Entry("sourceRepositoryDependencies", Arr([])),
      Entry("requiredCapabilities", c.requiredCapabilities),
      Entry("installTargets", c.installTargets),
      Entry("ownedDomains", c.ownedDomains),
      Entry("excludedAuthorities", c.excludedAuthorities),
      Entry("artifactDigests", a) ]
  }

  /** The object literal, before the manifest digest is added. */
  function ManifestEntries(h: Host, a: JsValue, c: Declared): seq<Entry> {
    HeadEntries(h, a, c) + BoundEntries(a, BINDINGS[1..]) + TailEntries(a, c)
  }

  /** The manifest object: the literal, then the assignment of its digest. */
  function BuiltManifest(h: Host, a: JsValue, c: Declared): JsValue {
    var literal := FromEntries(ManifestEntries(h, a, c));
    Obj(Put(literal, "manifestDigest", Str(UnsignedDigest(h, Obj(literal), "manifestDigest"))))
  }

  /** The text of the manifest file. */
  function ManifestText(m: JsValue): string {
    Serialize(m, "    ", "") + "\n"
  }

  /** The whole script: collect, build, write over any old manifest file. */
  function BuildManifest(h: Host, d: Disk, root: Path, c: Declared): Result<Disk> {
    var a := CollectArtifacts(h, d, root);
    var p := root + [MANIFEST_FILE];
    if a.Err? then Err(a.code)
    else if p in d && !d[p].File? then Err("EISDIR")
    else Ok(d[p := File(h.encode(ManifestText(BuiltManifest(h, a.value, c))))])
  }

  // ------------------------------------------------- the keys are different

  /** The keys of the manifest, in the order of the literal. */
  const MANIFEST_KEYS := [
    "schema",
    "packageIdentity",
    "packageVersion",
    "sourceCommit",
    "sourceTreeDigest",
    "skillIdentity",
    "skillDigest",
    "agentDigests",
    "modelPoolPolicyVersion",
    "modelPoolDigest",
    "routingPolicyDigest",
    "stagePermissionDigest",
    "terminalPolicyDigest",
    "remoteMutationPolicyDigest",
    "runtimeTrustPolicyDigest",
    "runtimeStartupPolicyDigest",
    "executionRoutingPolicyDigest",
    "runtimeExecutionBindingPolicyDigest",
    "stageMutationGuardPolicyDigest",
    "rootTakeoverPolicyDigest",
    "controlPlaneAdvisorPolicyDigest",
    "graphSchemaDigest",
    "patchSchemaDigest",
    "runtimeProjectionSchemaDigest",
    "projectorDigest",
    "writerStageContractDigests",
    "writerStageRuntimeDigests",
    "repositoryTargetPolicy",
    "sourceRepositoryDependencies",
    "requiredCapabilities",
    "installTargets",
    "ownedDomains",
    "excludedAuthorities",
    "artifactDigests",
    "manifestDigest"]

  lemma FirstKeysDiffer(i: nat, j: nat)
    requires i < 10 && i < j < |MANIFEST_KEYS|
    ensures MANIFEST_KEYS[i] != MANIFEST_KEYS[j]
  {
    assert |MANIFEST_KEYS[i]| != |MANIFEST_KEYS[j]| || MANIFEST_KEYS[i][2] != MANIFEST_KEYS[j][2];
  }

  lemma MiddleKeysDiffer(i: nat, j: nat)
    requires 10 <= i < 20 && i < j < |MANIFEST_KEYS|
    ensures MANIFEST_KEYS[i] != MANIFEST_KEYS[j]
  {
    assert |MANIFEST_KEYS[i]| != |MANIFEST_KEYS[j]| || MANIFEST_KEYS[i][2] != MANIFEST_KEYS[j][2];
  }

  lemma LastKeysDiffer(i: nat, j: nat)
    requires 20 <= i < 35 && i < j < |MANIFEST_KEYS|
    ensures MANIFEST_KEYS[i] != MANIFEST_KEYS[j]
  {
    assert |MANIFEST_KEYS[i]| != |MANIFEST_KEYS[j]| || MANIFEST_KEYS[i][2] != MANIFEST_KEYS[j][2];
  }

  /** The manifest keys differ: no two have the same length and the same third letter. */
  lemma KeysDiffer(i: nat, j: nat)
    requires i < j < |MANIFEST_KEYS|
    ensures MANIFEST_KEYS[i] != MANIFEST_KEYS[j]
  {
    KeyCount();
    hide MANIFEST_KEYS;
    if i < 10 {
      FirstKeysDiffer(i, j);
    } else if i < 20 {
      MiddleKeysDiffer(i, j);
    } else {
      LastKeysDiffer(i, j);
    }
  }

  lemma KeyCount()
    ensures |MANIFEST_KEYS| == 35
  {
  }

  /** Where the binding with number `n` stands in the literal. */
  function BindingSlot(n: nat): nat {
    if n == 0 then 6 else n + 8
  }

  lemma BindingKeys(n: nat)
    requires n < |BINDINGS|
    ensures BindingSlot(n) < |MANIFEST_KEYS| && BINDINGS[n].field == MANIFEST_KEYS[BindingSlot(n)]
  {
  }

  lemma HeadKeys(h: Host, a: JsValue, c: Declared, i: nat)
    requires i < 9
    ensures HeadEntries(h, a, c)[i].key == MANIFEST_KEYS[i]
  {
    hide Digest, AgentEntries;
  }

  lemma TailKeys(a: JsValue, c: Declared, i: nat)
    requires i < 9
    ensures TailEntries(a, c)[i].key == MANIFEST_KEYS[i + 25]
  {
    hide ExpectedEntries;
  }
}
