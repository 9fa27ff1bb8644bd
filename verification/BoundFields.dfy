/** The fields of an accepted manifest that repeat digests: which file each of them
    stands for, in terms of the files on the disk. */
module BoundFields {
  import opened Outcome
  import opened Paths
  import opened PathLemmas
  import opened Hosts
  import opened Json
  import opened CanonicalJson
  import opened ParsedValues
  import opened Disks
  import opened Listing
  import opened Manifests
  import opened Artifacts
  import opened ReadManifests
  import opened MappingLaw
  import opened PackageContents

  /** A field and the file whose digest it repeats. */
  datatype Field = Field(name: string, file: Path)

  function JsonFile(name: string): string {
    name + ".json"
  }

  function JsonSchema(name: string): string {
    name + ".schema.json"
  }

  function Module(name: string): string {
    name + ".mjs"
  }

  const POLICY_FIELDS := [
    Field("modelPoolDigest", ["policy", JsonFile("model-pool")]),
    Field("routingPolicyDigest", ["policy", JsonFile("routing-policy")]),
    Field("stagePermissionDigest", ["policy", JsonFile("stage-permissions")]),
    Field("terminalPolicyDigest", ["policy", JsonFile("terminal-policy")]),
    Field("remoteMutationPolicyDigest", ["policy", JsonFile("remote-mutation-policy")]),
    Field("runtimeTrustPolicyDigest", ["policy", JsonFile("runtime-trust-policy")]),
    Field("runtimeStartupPolicyDigest", ["policy", JsonFile("runtime-startup-policy")]),
    Field("executionRoutingPolicyDigest", ["policy", JsonFile("execution-routing-policy")]),
    Field("runtimeExecutionBindingPolicyDigest", ["policy", JsonFile("runtime-execution-binding-policy")]),
    Field("stageMutationGuardPolicyDigest", ["policy", JsonFile("stage-mutation-guard-policy")]),
    Field("rootTakeoverPolicyDigest", ["policy", JsonFile("root-takeover-policy")]),
    Field("controlPlaneAdvisorPolicyDigest", ["policy", JsonFile("control-plane-advisor-policy")])]

  const OTHER_FIELDS := [
    Field("skillDigest", ["skills", "issue-orchestration", "SKILL.md"]),
    Field("graphSchemaDigest", ["graph", JsonSchema("semantic-graph")]),
    Field("patchSchemaDigest", ["graph", JsonSchema("graph-patch")]),
    Field("runtimeProjectionSchemaDigest", ["graph", JsonSchema("runtime-projection")]),
    Field("projectorDigest", ["skills", "issue-orchestration", "scripts", Module("semantic-runtime-projection")])]

  const CONTRACT_SCHEMAS: seq<Path> := [
    ["contracts", JsonSchema("compiled-dispatch-prompt")],
    ["contracts", JsonSchema("executable-slice")],
    ["contracts", JsonSchema("slice-terminal-receipt")],
    ["contracts", JsonSchema("stage-continuation-receipt")],
    ["contracts", JsonSchema("stage-progress-checkpoint")],
    ["contracts", JsonSchema("stage-work-plan")],
    ["contracts", JsonSchema("writer-stage-checkpoint-verification-receipt")],
    ["contracts", JsonSchema("writer-stage-failure-receipt")],
    ["contracts", JsonSchema("writer-stage-retry-authorization")]]

  const RUNTIME_SCRIPTS: seq<Path> := [
    ["skills", "issue-orchestration", "scripts", Module("executable-slice-compiler")],
    ["skills", "issue-orchestration", "scripts", Module("writer-stage-progress")]]

  lemma JoinTwo(a: string, b: string)
    ensures Join([a, b]) == a + "/" + b
  {
    assert [a, b][1..] == [b];
  }

  lemma JoinFour(a: string, b: string, c: string, d: string)
    ensures Join([a, b, c, d]) == a + "/" + (b + "/" + (c + "/" + d))
  {
    assert [a, b, c, d][1..] == [b, c, d];
    assert [b, c, d][1..] == [c, d];
    JoinTwo(c, d);
  }

  lemma JoinThree(a: string, b: string, c: string)
    ensures Join([a, b, c]) == a + "/" + (b + "/" + c)
  {
    assert [a, b, c][1..] == [b, c];
    JoinTwo(b, c);
  }

  lemma PolicyPath(name: string)
    ensures PolicyFile(name) == Join(["policy", JsonFile(name)])
  {
    JoinTwo("policy", JsonFile(name));
    assert "policy" + "/" == "policy/";
  }

  lemma SchemaPath(dir: string, name: string)
    ensures SchemaFile(dir, name) == Join([dir, JsonSchema(name)])
  {
    JoinTwo(dir, JsonSchema(name));
  }

  lemma ScriptFolder()
    ensures "skills" + "/" + ("issue-orchestration" + "/" + ("scripts" + "/")) == "skills/issue-orchestration/scripts/"
  {
    assert "skills" + "/" == "skills/" && "scripts" + "/" == "scripts/";
    assert "issue-orchestration" + "/" == "issue-orchestration/";
    assert "skills/" + "issue-orchestration/" == "skills/issue-orchestration/";
    assert "skills/issue-orchestration/" + "scripts/" == "skills/issue-orchestration/scripts/";
  }

  lemma Regrouped(a: string, b: string, c: string, d: string)
    ensures a + "/" + (b + "/" + (c + "/")) + d == a + "/" + (b + "/" + (c + "/" + d))
  {
  }

  lemma ScriptPath(name: string)
    ensures SkillScript(name) == Join(["skills", "issue-orchestration", "scripts", Module(name)])
  {
    hide Join;
    ScriptFolder();
    JoinFour("skills", "issue-orchestration", "scripts", Module(name));
    Regrouped("skills", "issue-orchestration", "scripts", Module(name));
    Tail("skills/issue-orchestration/scripts/", name);
  }

  lemma Tail(folder: string, name: string)
    ensures folder + name + ".mjs" == folder + Module(name)
  {
  }

  lemma PolicyNamed(i: nat, field: string, name: string)
    requires i < 12 && |BINDINGS| == 17 && |POLICY_FIELDS| == 12
    requires POLICY_FIELDS[i] == Field(field, ["policy", JsonFile(name)])
    requires BINDINGS[i + 1] == Binding(field, PolicyFile(name))
    ensures BINDINGS[i + 1] == Binding(POLICY_FIELDS[i].name, Join(POLICY_FIELDS[i].file))
  {
    hide *;
    PolicyPath(name);
  }

  lemma PolicyPaths(i: nat)
    requires i < 12
    ensures |BINDINGS| == 17 && |POLICY_FIELDS| == 12
    ensures BINDINGS[i + 1] == Binding(POLICY_FIELDS[i].name, Join(POLICY_FIELDS[i].file))
  {
    hide PolicyFile, JsonFile, Join, SchemaFile, SkillScript;
    match i
    case 0 => PolicyNamed(i, BINDINGS[1].field, "model-pool");
    case 1 => PolicyNamed(i, BINDINGS[2].field, "routing-policy");
    case 2 => PolicyNamed(i, BINDINGS[3].field, "stage-permissions");
    case 3 => PolicyNamed(i, BINDINGS[4].field, "terminal-policy");
    case 4 => PolicyNamed(i, BINDINGS[5].field, "remote-mutation-policy");
    case 5 => PolicyNamed(i, BINDINGS[6].field, "runtime-trust-policy");
    case 6 => PolicyNamed(i, BINDINGS[7].field, "runtime-startup-policy");
    case 7 => PolicyNamed(i, BINDINGS[8].field, "execution-routing-policy");
    case 8 => PolicyNamed(i, BINDINGS[9].field, "runtime-execution-binding-policy");
    case 9 => PolicyNamed(i, BINDINGS[10].field, "stage-mutation-guard-policy");
    case 10 => PolicyNamed(i, BINDINGS[11].field, "root-takeover-policy");
    case _ => PolicyNamed(i, BINDINGS[12].field, "control-plane-advisor-policy");
  }

  lemma FieldCount()
    ensures |BINDINGS| == 17 && |POLICY_FIELDS| == 12 && |OTHER_FIELDS| == 5
  {
  }

  lemma OtherPaths()
    ensures |BINDINGS| == 17 && |OTHER_FIELDS| == 5
    ensures BINDINGS[0] == Binding(OTHER_FIELDS[0].name, Join(OTHER_FIELDS[0].file))
    ensures forall i :: 1 <= i < 5 ==> BINDINGS[i + 12] == Binding(OTHER_FIELDS[i].name, Join(OTHER_FIELDS[i].file))
  {
    hide SchemaFile, SkillScript, JsonSchema, Module, Join;
    SkillPath();
    SchemaPath("graph", "semantic-graph");
    SchemaPath("graph", "graph-patch");
    SchemaPath("graph", "runtime-projection");
    ScriptPath("semantic-runtime-projection");
  }

  lemma SkillPath()
    ensures Join(["skills", "issue-orchestration", "SKILL.md"]) == "skills/issue-orchestration/SKILL.md"
  {
    JoinThree("skills", "issue-orchestration", "SKILL.md");
    assert "skills" + "/" == "skills/" && "issue-orchestration" + "/" == "issue-orchestration/";
    assert "skills/" + "issue-orchestration/" == "skills/issue-orchestration/";
    assert "skills/issue-orchestration/" + "SKILL.md" == "skills/issue-orchestration/SKILL.md";
    hide Join;
  }

  lemma ContractPaths(i: nat)
    requires i < 9
    ensures |CONTRACT_FILES| == 9 && |CONTRACT_SCHEMAS| == 9
    ensures CONTRACT_FILES[i] == Join(CONTRACT_SCHEMAS[i])
  {
    hide JsonSchema, SchemaFile, Join;
    match i
    case 0 => ContractNamed(i, "compiled-dispatch-prompt");
    case 1 => ContractNamed(i, "executable-slice");
    case 2 => ContractNamed(i, "slice-terminal-receipt");
    case 3 => ContractNamed(i, "stage-continuation-receipt");
    case 4 => ContractNamed(i, "stage-progress-checkpoint");
    case 5 => ContractNamed(i, "stage-work-plan");
    case 6 => ContractNamed(i, "writer-stage-checkpoint-verification-receipt");
    case 7 => ContractNamed(i, "writer-stage-failure-receipt");
    case _ => ContractNamed(i, "writer-stage-retry-authorization");
  }

  lemma ContractNamed(i: nat, name: string)
    requires i < 9 && |CONTRACT_FILES| == 9 && |CONTRACT_SCHEMAS| == 9
    requires CONTRACT_SCHEMAS[i] == ["contracts", JsonSchema(name)]
    requires CONTRACT_FILES[i] == SchemaFile("contracts", name)
    ensures CONTRACT_FILES[i] == Join(CONTRACT_SCHEMAS[i])
  {
    hide *;
    SchemaPath("contracts", name);
  }

  lemma ListCount()
    ensures |CONTRACT_FILES| == 9 && |CONTRACT_SCHEMAS| == 9 && |RUNTIME_FILES| == 2 && |RUNTIME_SCRIPTS| == 2
  {
  }

  lemma RuntimePaths(i: nat)
    requires i < 2
    ensures |RUNTIME_FILES| == 2 && |RUNTIME_SCRIPTS| == 2
    ensures RUNTIME_FILES[i] == Join(RUNTIME_SCRIPTS[i])
  {
    hide SkillScript, Module, Join;
    ScriptPath("executable-slice-compiler");
    ScriptPath("writer-stage-progress");
  }

  // -------------------------------------------------------- the names are names

  predicate IsStem(s: string) {
    |s| > 1 && forall i :: 0 <= i < |s| ==> s[i] != '/'
  }

  lemma StemIsName(s: string, end: string)
    requires IsStem(s) && (end == ".json" || end == ".schema.json" || end == ".mjs")
    ensures IsName(s + end)
  {
    var n := s + end;
    assert |n| > 2;
    forall i | 0 <= i < |n| ensures n[i] != '/' {
      if i < |s| {
        assert n[i] == s[i];
      } else {
        assert n[i] == end[i - |s|];
      }
    }
  }

  lemma PolicyStems()
    ensures IsStem("model-pool") && IsStem("routing-policy") && IsStem("stage-permissions")
    ensures IsStem("terminal-policy") && IsStem("remote-mutation-policy") && IsStem("runtime-trust-policy")
  {
  }

  lemma MorePolicyStems()
    ensures IsStem("runtime-startup-policy") && IsStem("execution-routing-policy")
    ensures IsStem("runtime-execution-binding-policy") && IsStem("stage-mutation-guard-policy")
    ensures IsStem("root-takeover-policy") && IsStem("control-plane-advisor-policy")
  {
  }

  lemma JsonName(s: string)
    requires IsStem(s)
    ensures IsName(JsonFile(s)) && IsName(JsonSchema(s)) && IsName(Module(s))
  {
    StemIsName(s, ".json");
    StemIsName(s, ".schema.json");
    StemIsName(s, ".mjs");
  }

  lemma OtherStems()
    ensures IsStem("semantic-graph") && IsStem("graph-patch") && IsStem("runtime-projection")
    ensures IsStem("semantic-runtime-projection")
    ensures IsStem("executable-slice-compiler") && IsStem("writer-stage-progress")
  {
  }

  lemma ContractStems()
    ensures IsStem("compiled-dispatch-prompt") && IsStem("executable-slice") && IsStem("slice-terminal-receipt")
    ensures IsStem("stage-continuation-receipt") && IsStem("stage-progress-checkpoint") && IsStem("stage-work-plan")
  {
  }

  lemma MoreContractStems()
    ensures IsStem("writer-stage-checkpoint-verification-receipt")
    ensures IsStem("writer-stage-failure-receipt") && IsStem("writer-stage-retry-authorization")
  {
  }

  lemma DirectoryNames()
    ensures IsName("policy") && IsName("graph") && IsName("skills") && IsName("contracts") && IsName("scripts")
    ensures IsName("issue-orchestration") && IsName("SKILL.md")
  {
  }

  lemma PolicyNamesAt(i: nat, name: string)
    requires i < |POLICY_FIELDS| && POLICY_FIELDS[i].file == ["policy", JsonFile(name)] && IsStem(name)
    ensures IsPath(POLICY_FIELDS[i].file) && IsArtifactPath(POLICY_FIELDS[i].file)
  {
    DirectoryNames();
    JsonName(name);
    hide POLICY_FIELDS, JsonFile, IsStem, IsName, IsArtifactPath;
    ArtifactRoots(POLICY_FIELDS[i].file);
  }

  lemma PolicyNames(i: nat)
    requires i < |POLICY_FIELDS|
    ensures IsPath(POLICY_FIELDS[i].file) && IsArtifactPath(POLICY_FIELDS[i].file)
  {
    hide JsonFile, IsStem, IsPath, IsArtifactPath;
    PolicyStems();
    MorePolicyStems();
    FieldCount();
    match i
    case 0 => PolicyNamesAt(i, "model-pool");
    case 1 => PolicyNamesAt(i, "routing-policy");
    case 2 => PolicyNamesAt(i, "stage-permissions");
    case 3 => PolicyNamesAt(i, "terminal-policy");
    case 4 => PolicyNamesAt(i, "remote-mutation-policy");
    case 5 => PolicyNamesAt(i, "runtime-trust-policy");
    case 6 => PolicyNamesAt(i, "runtime-startup-policy");
    case 7 => PolicyNamesAt(i, "execution-routing-policy");
    case 8 => PolicyNamesAt(i, "runtime-execution-binding-policy");
    case 9 => PolicyNamesAt(i, "stage-mutation-guard-policy");
    case 10 => PolicyNamesAt(i, "root-takeover-policy");
    case _ => PolicyNamesAt(i, "control-plane-advisor-policy");
  }

  lemma OtherNames(i: nat)
    requires i < |OTHER_FIELDS|
    ensures IsPath(OTHER_FIELDS[i].file) && IsArtifactPath(OTHER_FIELDS[i].file)
  {
    DirectoryNames();
    OtherStems();
    ArtifactRoots(OTHER_FIELDS[i].file);
    hide JsonSchema, Module, IsStem, IsName, IsArtifactPath;
    JsonName("semantic-graph");
    JsonName("graph-patch");
    JsonName("runtime-projection");
    JsonName("semantic-runtime-projection");
  }

  lemma ContractNames(i: nat)
    requires i < |CONTRACT_SCHEMAS|
    ensures IsPath(CONTRACT_SCHEMAS[i]) && IsArtifactPath(CONTRACT_SCHEMAS[i])
  {
    DirectoryNames();
    ContractStems();
    MoreContractStems();
    ArtifactRoots(CONTRACT_SCHEMAS[i]);
    hide JsonSchema, IsStem, IsName, IsArtifactPath;
    forall s: string | IsStem(s) ensures IsName(JsonSchema(s)) {
      JsonName(s);
    }
  }

  lemma RuntimeNames(i: nat)
    requires i < |RUNTIME_SCRIPTS|
    ensures IsPath(RUNTIME_SCRIPTS[i]) && IsArtifactPath(RUNTIME_SCRIPTS[i])
  {
    DirectoryNames();
    OtherStems();
    ArtifactRoots(RUNTIME_SCRIPTS[i]);
    hide Module, IsStem, IsName, IsArtifactPath;
    JsonName("executable-slice-compiler");
    JsonName("writer-stage-progress");
  }

  // ------------------------------------------------ what acceptance says

  /** The field is the digest of the file. */
  ghost predicate Repeats(h: Host, d: Disk, root: Path, m: JsValue, f: Field) {
    IsFileBelow(d, root, f.file) && Get(m, f.name) == Str(h.sha256(d[root + f.file].data))
  }

  /** The field lists these files, all of them there, with their digests, and nothing
      else. */
  ghost predicate RepeatsAll(h: Host, d: Disk, root: Path, m: JsValue, name: string, files: seq<Path>) {
    && Get(m, name).Obj?
    && (forall i :: 0 <= i < |files| ==> IsFileBelow(d, root, files[i]))
    && forall e :: e in Get(m, name).entries <==>
         exists i :: 0 <= i < |files| && root + files[i] in d && d[root + files[i]].File?
                     && e == Entry(Join(files[i]), Str(h.sha256(d[root + files[i]].data)))
  }

  /** Every agent that is listed has a file, with the digest that is listed. */
  ghost predicate RepeatsAgents(h: Host, d: Disk, root: Path, m: JsValue) {
    && Get(m, "agentDigests").Obj?
    && forall e :: e in Get(m, "agentDigests").entries ==>
         exists r :: IsArtifact(d, root, r) && Join(r) == "agents/" + e.key + ".toml"
                     && e.value == Str(h.sha256(d[root + r].data))
  }

  lemma RecordedIs(h: Host, d: Disk, root: Path, a: JsValue, r: Path)
    requires WellFormed(d) && RecordsArtifacts(h, d, root, a) && a.Obj? && Distinct(a.entries)
    requires IsPath(r) && IsArtifactPath(r)
    ensures Get(a, Join(r)) != Undefined <==> IsFileBelow(d, root, r)
    ensures IsFileBelow(d, root, r) ==> Get(a, Join(r)) == Str(h.sha256(d[root + r].data))
  {
    if IsFileBelow(d, root, r) {
      var e := Entry(Join(r), Str(h.sha256(d[root + r].data)));
      assert IsArtifact(d, root, r);
      assert RecordsFile(h, d, root, e);
      assert e in a.entries;
      hide Distinct, RecordsArtifacts, RecordsFile, IsArtifactPath;
      LookupFinds(a.entries, e);
    }
    if Get(a, Join(r)) != Undefined {
      RecordedContent(h, d, root, a, r);
    }
  }

  lemma BoundIs(h: Host, d: Disk, root: Path, m: JsValue, a: JsValue, f: Field)
    requires WellFormed(d) && RecordsArtifacts(h, d, root, a) && a.Obj? && Distinct(a.entries)
    requires IsPath(f.file) && IsArtifactPath(f.file)
    ensures IsBound(m, a, Binding(f.name, Join(f.file))) <==> Repeats(h, d, root, m, f)
  {
    RecordedIs(h, d, root, a, f.file);
    hide RecordsArtifacts, IsArtifactPath, Distinct, Get, Join;
  }

  /** The seventeen single fields are bound exactly when each repeats the digest of its
      file. */
  lemma FieldsAre(h: Host, d: Disk, root: Path, m: JsValue, a: JsValue)
    requires WellFormed(d) && RecordsArtifacts(h, d, root, a) && a.Obj? && Distinct(a.entries)
    ensures BindsFields(m, a) <==>
              && (forall i :: 0 <= i < 12 ==> Repeats(h, d, root, m, POLICY_FIELDS[i]))
              && (forall i :: 0 <= i < 5 ==> Repeats(h, d, root, m, OTHER_FIELDS[i]))
  {
    FieldCount();
    hide BINDINGS, POLICY_FIELDS, OTHER_FIELDS, RecordsArtifacts, IsArtifactPath, Distinct, Repeats, IsBound, Join;
    forall i | 0 <= i < 12
      ensures IsBound(m, a, BINDINGS[i + 1]) <==> Repeats(h, d, root, m, POLICY_FIELDS[i])
    {
      PolicyPaths(i);
      PolicyNames(i);
      BoundIs(h, d, root, m, a, POLICY_FIELDS[i]);
    }
    OtherPaths();
    forall i | 0 <= i < 5
      ensures IsBound(m, a, BINDINGS[if i == 0 then 0 else i + 12]) <==> Repeats(h, d, root, m, OTHER_FIELDS[i])
    {
      OtherNames(i);
      BoundIs(h, d, root, m, a, OTHER_FIELDS[i]);
    }
    BoundByIndex(m, a, BINDINGS);
    Slots(h, d, root, m, a);
  }

  lemma BoundByIndex(m: JsValue, a: JsValue, bs: seq<Binding>)
    ensures (forall b :: b in bs ==> IsBound(m, a, b)) <==> forall i :: 0 <= i < |bs| ==> IsBound(m, a, bs[i])
  {
    hide IsBound;
    if forall i :: 0 <= i < |bs| ==> IsBound(m, a, bs[i]) {
      forall b | b in bs ensures IsBound(m, a, b) {
        var i :| 0 <= i < |bs| && bs[i] == b;
      }
    }
  }

  lemma Slots(h: Host, d: Disk, root: Path, m: JsValue, a: JsValue)
    requires |BINDINGS| == 17 && |POLICY_FIELDS| == 12 && |OTHER_FIELDS| == 5
    requires forall i :: 0 <= i < 12 ==> (IsBound(m, a, BINDINGS[i + 1]) <==> Repeats(h, d, root, m, POLICY_FIELDS[i]))
    requires forall i :: 0 <= i < 5 ==>
               (IsBound(m, a, BINDINGS[if i == 0 then 0 else i + 12]) <==> Repeats(h, d, root, m, OTHER_FIELDS[i]))
    ensures (forall i :: 0 <= i < 17 ==> IsBound(m, a, BINDINGS[i])) <==>
              && (forall i :: 0 <= i < 12 ==> Repeats(h, d, root, m, POLICY_FIELDS[i]))
              && (forall i :: 0 <= i < 5 ==> Repeats(h, d, root, m, OTHER_FIELDS[i]))
  {
    hide BINDINGS, POLICY_FIELDS, OTHER_FIELDS, Repeats, IsBound;
    if && (forall i :: 0 <= i < 12 ==> Repeats(h, d, root, m, POLICY_FIELDS[i]))
       && (forall i :: 0 <= i < 5 ==> Repeats(h, d, root, m, OTHER_FIELDS[i])) {
      forall i | 0 <= i < 17 ensures IsBound(m, a, BINDINGS[i]) {
        if 1 <= i < 13 {
          assert Repeats(h, d, root, m, POLICY_FIELDS[i - 1]);
        } else if i == 0 {
          assert Repeats(h, d, root, m, OTHER_FIELDS[0]);
        } else {
          assert Repeats(h, d, root, m, OTHER_FIELDS[i - 12]);
        }
      }
    }
  }

  /** A field that lists files is bound exactly when it repeats the digests of the files
      with these paths. */
  lemma ListedAre(h: Host, d: Disk, root: Path, m: JsValue, a: JsValue, name: string, files: seq<string>, rs: seq<Path>)
    requires WellFormed(d) && RecordsArtifacts(h, d, root, a) && a.Obj? && Distinct(a.entries)
    requires |files| == |rs|
    requires forall i :: 0 <= i < |rs| ==> files[i] == Join(rs[i]) && IsPath(rs[i]) && IsArtifactPath(rs[i])
    ensures BindsFiles(m, a, name, files) <==> RepeatsAll(h, d, root, m, name, rs)
  {
    hide RecordsArtifacts, Distinct, Get, Join, IsPath, IsArtifactPath, IsFileBelow;
    forall i | 0 <= i < |rs|
      ensures Get(a, files[i]) != Undefined <==> IsFileBelow(d, root, rs[i])
      ensures IsFileBelow(d, root, rs[i]) ==>
                && root + rs[i] in d && d[root + rs[i]].File?
                && Get(a, files[i]) == Str(h.sha256(d[root + rs[i]].data))
    {
      RecordedIs(h, d, root, a, rs[i]);
      BelowIsFile(d, root, rs[i]);
    }
    assert (forall f :: f in files ==> Get(a, f) != Undefined) <==>
           (forall i :: 0 <= i < |rs| ==> IsFileBelow(d, root, rs[i])) by {
      ListedPresent(d, root, a, files, rs);
    }
    if forall i :: 0 <= i < |rs| ==> IsFileBelow(d, root, rs[i]) {
      forall e: Entry
        ensures e.key in files && e.value == Get(a, e.key) <==>
                  exists i :: 0 <= i < |rs| && root + rs[i] in d && d[root + rs[i]].File?
                              && e == Entry(Join(rs[i]), Str(h.sha256(d[root + rs[i]].data)))
      {
        ListedEntry(h, d, root, a, files, rs, e);
      }
    }
  }

  lemma BelowIsFile(d: Disk, root: Path, r: Path)
    ensures IsFileBelow(d, root, r) ==> root + r in d && d[root + r].File?
  {
  }

  lemma ListedPresent(d: Disk, root: Path, a: JsValue, files: seq<string>, rs: seq<Path>)
    requires |files| == |rs|
    requires forall i :: 0 <= i < |rs| ==> (Get(a, files[i]) != Undefined <==> IsFileBelow(d, root, rs[i]))
    ensures (forall f :: f in files ==> Get(a, f) != Undefined) <==>
            (forall i :: 0 <= i < |rs| ==> IsFileBelow(d, root, rs[i]))
  {
    hide Get, IsFileBelow;
    if forall f :: f in files ==> Get(a, f) != Undefined {
      forall i | 0 <= i < |rs| ensures IsFileBelow(d, root, rs[i]) {
        assert files[i] in files;
      }
    }
  }

  lemma ListedEntry(h: Host, d: Disk, root: Path, a: JsValue, files: seq<string>, rs: seq<Path>, e: Entry)
    requires |files| == |rs|
    requires forall i :: 0 <= i < |rs| ==>
               && files[i] == Join(rs[i]) && root + rs[i] in d && d[root + rs[i]].File?
               && Get(a, files[i]) == Str(h.sha256(d[root + rs[i]].data))
    ensures e.key in files && e.value == Get(a, e.key) <==>
              exists i :: 0 <= i < |rs| && root + rs[i] in d && d[root + rs[i]].File?
                          && e == Entry(Join(rs[i]), Str(h.sha256(d[root + rs[i]].data)))
  {
    hide Get, Join;
    if e.key in files && e.value == Get(a, e.key) {
      var i :| 0 <= i < |files| && files[i] == e.key;
      assert e == Entry(Join(rs[i]), Str(h.sha256(d[root + rs[i]].data)));
    }
  }

  /** Agents are bound exactly when each listed one has its file, with the digest. */
  lemma AgentsAre(h: Host, d: Disk, root: Path, m: JsValue, a: JsValue)
    requires WellFormed(d) && RecordsArtifacts(h, d, root, a) && a.Obj? && Distinct(a.entries)
    requires Get(m, "agentDigests").Obj? ==> Defined(Get(m, "agentDigests"))
    ensures BindsAgents(m, a) <==> RepeatsAgents(h, d, root, m)
  {
    hide RecordsArtifacts, Distinct, Get, Join, IsArtifactPath;
    var g := Get(m, "agentDigests");
    if g.Obj? {
      forall e | e in g.entries
        ensures Get(a, AgentFile(e.key)) == e.value <==>
                  exists r :: IsArtifact(d, root, r) && Join(r) == "agents/" + e.key + ".toml"
                              && e.value == Str(h.sha256(d[root + r].data))
      {
        var i :| 0 <= i < |g.entries| && g.entries[i] == e;
        AgentIs(h, d, root, a, e);
      }
    }
  }

  lemma AgentIs(h: Host, d: Disk, root: Path, a: JsValue, e: Entry)
    requires WellFormed(d) && RecordsArtifacts(h, d, root, a) && a.Obj? && Distinct(a.entries)
    requires e.value != Undefined
    ensures Get(a, AgentFile(e.key)) == e.value <==>
              exists r :: IsArtifact(d, root, r) && Join(r) == "agents/" + e.key + ".toml"
                          && e.value == Str(h.sha256(d[root + r].data))
  {
    hide Distinct, Get, Join, IsArtifactPath;
    var k := "agents/" + e.key + ".toml";
    assert AgentFile(e.key) == k;
    hide AgentFile;
    GetIsEntry(a, k);
    assert Entry(k, e.value) in a.entries <==> RecordsFile(h, d, root, Entry(k, e.value));
    if Get(a, k) == e.value {
      var r :| IsArtifact(d, root, r) && Entry(k, e.value) == Entry(Join(r), Str(h.sha256(d[root + r].data)));
    }
    if r :| IsArtifact(d, root, r) && Join(r) == k && e.value == Str(h.sha256(d[root + r].data)) {
      assert RecordsFile(h, d, root, Entry(k, e.value));
    }
  }

  // --------------------------------------------------------------- theorem

  /** The artifact digests are those of the files in the six directories. */
  ghost predicate RecordsBound(h: Host, d: Disk, root: Path, a: JsValue) {
    a.Obj? && forall e :: e in a.entries <==>
      exists r :: IsFileBelow(d, root, r) && IsBoundName(r[0]) && e == Entry(Join(r), Str(h.sha256(d[root + r].data)))
  }

  /** The file that is read as the manifest says `m`. */
  ghost predicate ManifestSays(h: Host, d: Disk, root: Path, m: JsValue) {
    var data := ReadFile(h, d, root + ["manifest.json"]);
    data.Some? && JsonParser.Parse(h, h.decode(data.value)) == Some(m)
  }

  /** The package at `root` is intact under the manifest `m`, told from the files. */
  ghost predicate Intact(h: Host, d: Disk, root: Path, m: JsValue) {
    && ManifestSays(h, d, root, m) && m.Obj? && NoLinks(d, root)
    && Get(m, "schema") == Str("issue-orchestration.shared-package-manifest.v1")
    && Get(m, "manifestDigest") == Str(UnsignedDigest(h, m, "manifestDigest"))
    && RecordsBound(h, d, root, Get(m, "artifactDigests"))
    && Get(m, "sourceTreeDigest") == Str(Digest(h, Get(m, "artifactDigests")))
    && (forall i :: 0 <= i < 12 ==> Repeats(h, d, root, m, POLICY_FIELDS[i]))
    && (forall i :: 0 <= i < 5 ==> Repeats(h, d, root, m, OTHER_FIELDS[i]))
    && RepeatsAll(h, d, root, m, "writerStageContractDigests", CONTRACT_SCHEMAS)
    && RepeatsAll(h, d, root, m, "writerStageRuntimeDigests", RUNTIME_SCRIPTS)
    && RepeatsAgents(h, d, root, m)
  }

  lemma BoundRecords(h: Host, d: Disk, root: Path, a: JsValue)
    ensures RecordsArtifacts(h, d, root, a) <==> RecordsBound(h, d, root, a)
  {
    hide IsArtifactPath, IsBoundName, Join;
    forall r ensures IsArtifact(d, root, r) <==> IsFileBelow(d, root, r) && IsBoundName(r[0]) {
      ArtifactRoots(r);
    }
    hide IsArtifact, IsFileBelow;
    forall e
      ensures RecordsFile(h, d, root, e) <==>
                exists r :: IsFileBelow(d, root, r) && IsBoundName(r[0])
                            && e == Entry(Join(r), Str(h.sha256(d[root + r].data)))
    {
      if RecordsFile(h, d, root, e) {
        var r :| IsArtifact(d, root, r) && e == Entry(Join(r), Str(h.sha256(d[root + r].data)));
      }
    }
  }

  lemma ManifestSaysIs(h: Host, d: Disk, root: Path, m: JsValue)
    ensures ManifestAt(h, d, root) == Some(m) <==> ManifestSays(h, d, root, m)
  {
    hide ReadFile, JsonParser.Parse;
  }

  /** `readManifest` accepts exactly the packages that are intact: this is the whole of
      its checks, told from the files of the package and the names in them. */
  lemma AcceptedIsIntact(h: Host, d: Disk, root: Path, m: JsValue)
    requires Sound(h) && WellFormed(d)
    ensures Acceptable(h, d, root, m) <==> Intact(h, d, root, m)
  {
    var a := Get(m, "artifactDigests");
    ManifestSaysIs(h, d, root, m);
    BoundRecords(h, d, root, a);
    if ManifestAt(h, d, root) == Some(m) && RecordsArtifacts(h, d, root, a) {
      ManifestIsProper(h, d, root, m);
      RecordsIsObject(h, d, root, a);
      hide *;
      FieldsAre(h, d, root, m, a);
      ContractsAre(h, d, root, m, a);
      AgentsAre(h, d, root, m, a);
    }
    hide ManifestAt, ManifestSays, RecordsArtifacts, RecordsBound, NoLinks, Digest, Get, BindsFields, BindsFiles,
      BindsAgents, Repeats, RepeatsAll, RepeatsAgents, POLICY_FIELDS, OTHER_FIELDS, CONTRACT_SCHEMAS,
      RUNTIME_SCRIPTS, WellFormed;
  }

  lemma ManifestIsProper(h: Host, d: Disk, root: Path, m: JsValue)
    requires Sound(h) && ManifestAt(h, d, root) == Some(m)
    ensures var a, g := Get(m, "artifactDigests"), Get(m, "agentDigests");
            && (a.Obj? ==> Distinct(a.entries)) && (g.Obj? ==> Defined(g))
  {
    ParseManifestProper(h, d, root);
    GetProper(h, m, "artifactDigests");
    GetProper(h, m, "agentDigests");
    hide Get, Defined, ManifestAt;
  }

  lemma ContractsAre(h: Host, d: Disk, root: Path, m: JsValue, a: JsValue)
    requires WellFormed(d) && RecordsArtifacts(h, d, root, a) && a.Obj? && Distinct(a.entries)
    ensures BindsFiles(m, a, "writerStageContractDigests", CONTRACT_FILES) <==>
              RepeatsAll(h, d, root, m, "writerStageContractDigests", CONTRACT_SCHEMAS)
    ensures BindsFiles(m, a, "writerStageRuntimeDigests", RUNTIME_FILES) <==>
              RepeatsAll(h, d, root, m, "writerStageRuntimeDigests", RUNTIME_SCRIPTS)
  {
    ListCount();
    hide CONTRACT_FILES, CONTRACT_SCHEMAS, RUNTIME_FILES, RUNTIME_SCRIPTS, RecordsArtifacts, Distinct, Join, IsPath,
      IsArtifactPath, RepeatsAll, BindsFiles;
    forall i | 0 <= i < 9
      ensures CONTRACT_FILES[i] == Join(CONTRACT_SCHEMAS[i])
      ensures IsPath(CONTRACT_SCHEMAS[i]) && IsArtifactPath(CONTRACT_SCHEMAS[i])
    {
      ContractPaths(i);
      ContractNames(i);
    }
    forall i | 0 <= i < 2
      ensures RUNTIME_FILES[i] == Join(RUNTIME_SCRIPTS[i])
      ensures IsPath(RUNTIME_SCRIPTS[i]) && IsArtifactPath(RUNTIME_SCRIPTS[i])
    {
      RuntimePaths(i);
      RuntimeNames(i);
    }
    ListedAre(h, d, root, m, a, "writerStageContractDigests", CONTRACT_FILES, CONTRACT_SCHEMAS);
    ListedAre(h, d, root, m, a, "writerStageRuntimeDigests", RUNTIME_FILES, RUNTIME_SCRIPTS);
  }
}
