/** One small package, file by file, whose manifest `build-manifest` writes. */
module ExamplePackages {
  import opened Paths
  import opened PathLemmas
  import opened Disks
  import opened Listing
  import opened Manifests
  import opened BuildThenRead
  import opened TargetLayouts

  // ------------------------------------------------------------- the files

  /** A file that is named like one in the making. */
  const SCRATCH_FILE := "skills/x.tmp"

  /** The string names a file in the directory `dir`, with an extension. */
  predicate FileIn(dir: string, f: string) {
    && |f| > |dir| + 5 && (forall i :: 0 <= i < |dir| ==> f[i] == dir[i]) && f[|dir|] == '/'
    && (forall i :: |dir| < i < |f| ==> f[i] != '/')
    && (f[|f| - 5] == '.' || f[|f| - 4] == '.' || f[|f| - 3] == '.')
  }

  predicate Stored(f: string) {
    || FileIn("policy", f) || FileIn("graph", f) || FileIn("contracts", f) || FileIn("skills", f)
    || FileIn("skills/issue-orchestration", f) || FileIn("skills/issue-orchestration/scripts", f)
  }

  lemma PolicyStored(name: string)
    requires HasNoSlash(name) && |name| > 1
    ensures Stored(PolicyFile(name))
  {
    assert FileIn("policy", PolicyFile(name));
  }

  lemma SchemaStored(dir: string, name: string)
    requires HasNoSlash(name) && |name| > 1 && (dir == "graph" || dir == "contracts")
    ensures Stored(SchemaFile(dir, name))
  {
    assert FileIn(dir, SchemaFile(dir, name));
  }

  lemma ScriptStored(name: string)
    requires HasNoSlash(name) && |name| > 1
    ensures Stored(SkillScript(name))
  {
    assert FileIn("skills/issue-orchestration/scripts", SkillScript(name));
  }

  lemma PoliciesStored()
    ensures Stored(PolicyFile("model-pool"))
    ensures Stored(PolicyFile("routing-policy"))
    ensures Stored(PolicyFile("stage-permissions"))
    ensures Stored(PolicyFile("terminal-policy"))
    ensures Stored(PolicyFile("remote-mutation-policy"))
    ensures Stored(PolicyFile("runtime-trust-policy"))
  {
    hide Stored, PolicyFile;
    PolicyStored("model-pool");
    PolicyStored("routing-policy");
    PolicyStored("stage-permissions");
    PolicyStored("terminal-policy");
    PolicyStored("remote-mutation-policy");
    PolicyStored("runtime-trust-policy");
  }

  lemma MorePoliciesStored()
    ensures Stored(PolicyFile("runtime-startup-policy"))
    ensures Stored(PolicyFile("execution-routing-policy"))
    ensures Stored(PolicyFile("runtime-execution-binding-policy"))
    ensures Stored(PolicyFile("stage-mutation-guard-policy"))
    ensures Stored(PolicyFile("root-takeover-policy"))
    ensures Stored(PolicyFile("control-plane-advisor-policy"))
  {
    hide Stored, PolicyFile;
    PolicyStored("runtime-startup-policy");
    PolicyStored("execution-routing-policy");
    PolicyStored("runtime-execution-binding-policy");
    PolicyStored("stage-mutation-guard-policy");
    PolicyStored("root-takeover-policy");
    PolicyStored("control-plane-advisor-policy");
  }

  lemma GraphStored()
    ensures Stored(SchemaFile("graph", "semantic-graph"))
    ensures Stored(SchemaFile("graph", "graph-patch"))
    ensures Stored(SchemaFile("graph", "runtime-projection"))
  {
    hide Stored, SchemaFile;
    SchemaStored("graph", "semantic-graph");
    SchemaStored("graph", "graph-patch");
    SchemaStored("graph", "runtime-projection");
  }

  lemma ContractsStored()
    ensures Stored(SchemaFile("contracts", "compiled-dispatch-prompt"))
    ensures Stored(SchemaFile("contracts", "executable-slice"))
    ensures Stored(SchemaFile("contracts", "slice-terminal-receipt"))
    ensures Stored(SchemaFile("contracts", "stage-continuation-receipt"))
    ensures Stored(SchemaFile("contracts", "stage-progress-checkpoint"))
    ensures Stored(SchemaFile("contracts", "stage-work-plan"))
    ensures Stored(SchemaFile("contracts", "writer-stage-checkpoint-verification-receipt"))
    ensures Stored(SchemaFile("contracts", "writer-stage-failure-receipt"))
    ensures Stored(SchemaFile("contracts", "writer-stage-retry-authorization"))
  {
    hide Stored, SchemaFile;
    SchemaStored("contracts", "compiled-dispatch-prompt");
    SchemaStored("contracts", "executable-slice");
    SchemaStored("contracts", "slice-terminal-receipt");
    SchemaStored("contracts", "stage-continuation-receipt");
    SchemaStored("contracts", "stage-progress-checkpoint");
    SchemaStored("contracts", "stage-work-plan");
    SchemaStored("contracts", "writer-stage-checkpoint-verification-receipt");
    SchemaStored("contracts", "writer-stage-failure-receipt");
    SchemaStored("contracts", "writer-stage-retry-authorization");
  }

  lemma ScriptsStored()
    ensures Stored(SkillScript("semantic-runtime-projection"))
    ensures Stored(SkillScript("executable-slice-compiler"))
    ensures Stored(SkillScript("writer-stage-progress"))
  {
    hide Stored, SkillScript;
    ScriptStored("semantic-runtime-projection");
    ScriptStored("executable-slice-compiler");
    ScriptStored("writer-stage-progress");
  }

  lemma SkillStored()
    ensures Stored("skills/issue-orchestration/SKILL.md")
    ensures Stored(SCRATCH_FILE)
  {
    assert FileIn("skills/issue-orchestration", "skills/issue-orchestration/SKILL.md");
    assert FileIn("skills", SCRATCH_FILE);
  }

  lemma EarlyBindingStored(n: nat)
    requires n < 7
    ensures n < |BINDINGS| && Stored(BINDINGS[n].path)
  {
    hide Stored, PolicyFile, SchemaFile, SkillScript;
    SkillStored();
    PoliciesStored();
  }

  lemma LateBindingStored(n: nat)
    requires 7 <= n < 17
    ensures n < |BINDINGS| && Stored(BINDINGS[n].path)
  {
    hide Stored, PolicyFile, SchemaFile, SkillScript;
    MorePoliciesStored();
    GraphStored();
    ScriptsStored();
  }

  lemma BindingsStored()
    ensures forall b :: b in BINDINGS ==> Stored(b.path)
  {
    BindingsCount();
    hide BINDINGS, Stored;
    forall n | 0 <= n < |BINDINGS| ensures Stored(BINDINGS[n].path) {
      if n < 7 {
        EarlyBindingStored(n);
      } else {
        LateBindingStored(n);
      }
    }
  }

  lemma OthersStored()
    ensures forall f :: f in CONTRACT_FILES ==> Stored(f)
    ensures forall f :: f in RUNTIME_FILES ==> Stored(f)
    ensures Stored(SCRATCH_FILE)
  {
    hide Stored, SchemaFile, SkillScript;
    ContractsStored();
    ScriptsStored();
    SkillStored();
  }

  /** Every file that a manifest binds, and the scratch file. */
  function PackageFiles(): set<string> {
    (set b | b in BINDINGS :: b.path) + (set f | f in CONTRACT_FILES) + (set f | f in RUNTIME_FILES) + {SCRATCH_FILE}
  }

  lemma AllStored()
    ensures forall f :: f in PackageFiles() ==> Stored(f)
  {
    BindingsStored();
    OthersStored();
    hide BINDINGS, CONTRACT_FILES, RUNTIME_FILES, SCRATCH_FILE, Stored;
  }

  // ----------------------------------------------------------- directories

  const SKILL_DIR: Path := ["skills", "issue-orchestration"]

  /** The directories of the package, relative to its root. */
  function Folders(): set<Path> {
    {["policy"], ["graph"], ["contracts"], ["skills"], SKILL_DIR, SKILL_DIR + ["scripts"]}
  }

  lemma FolderSplits()
    ensures Split("policy") == ["policy"] && Split("graph") == ["graph"] && Split("contracts") == ["contracts"]
    ensures Split("skills") == ["skills"] && Split("skills/issue-orchestration") == SKILL_DIR
    ensures Split("skills/issue-orchestration/scripts") == SKILL_DIR + ["scripts"]
  {
    hide Split;
    OneName("policy");
    OneName("graph");
    OneName("contracts");
    OneName("skills");
    OneName("scripts");
    OneName("issue-orchestration");
    assert "skills/issue-orchestration" == "skills" + "/" + "issue-orchestration";
    assert "skills/issue-orchestration/scripts" == "skills/issue-orchestration" + "/" + "scripts";
    SplitAppend("skills", "issue-orchestration");
    SplitAppend("skills/issue-orchestration", "scripts");
  }

  lemma OneName(s: string)
    requires HasNoSlash(s)
    ensures Split(s) == [s]
  {
    SplitOnName(s, false);
  }

  /** A file of the package: a directory of it and a name with a dot. */
  ghost predicate IsPackageFile(p: Path) {
    p != [] && Parent(p) in Folders() && IsName(Last(p)) && '.' in Last(p)
  }

  lemma FileInSplits(dir: string, f: string)
    requires FileIn(dir, f)
    ensures Parent(Split(f)) == Split(dir) && IsName(Last(Split(f))) && '.' in Last(Split(f))
  {
    hide Split;
    var name := f[|dir| + 1..];
    assert f == dir + "/" + name;
    SplitAppend(dir, name);
    NameOf(dir, f);
    OneName(name);
    var parts := Split(dir) + [name];
    assert Parent(parts) == Split(dir) && Last(parts) == name;
  }

  lemma NameOf(dir: string, f: string)
    requires FileIn(dir, f)
    ensures var name := f[|dir| + 1..]; HasNoSlash(name) && IsName(name) && '.' in name
  {
    var name := f[|dir| + 1..];
    forall i | 0 <= i < |name| ensures name[i] == f[|dir| + 1 + i] {
    }
    assert name[|name| - 5] == f[|f| - 5] && name[|name| - 4] == f[|f| - 4] && name[|name| - 3] == f[|f| - 3];
  }

  lemma StoredIsFile(f: string)
    requires Stored(f)
    ensures IsPackageFile(Split(f))
  {
    FolderSplits();
    hide FileIn, Split, IsName, Parent, IsPackageFile;
    if FileIn("policy", f) {
      FileInFolder("policy", f);
    } else if FileIn("graph", f) {
      FileInFolder("graph", f);
    } else if FileIn("contracts", f) {
      FileInFolder("contracts", f);
    } else if FileIn("skills", f) {
      FileInFolder("skills", f);
    } else if FileIn("skills/issue-orchestration", f) {
      FileInFolder("skills/issue-orchestration", f);
    } else {
      FileInFolder("skills/issue-orchestration/scripts", f);
    }
  }

  lemma FileInFolder(dir: string, f: string)
    requires FileIn(dir, f) && Split(dir) in Folders()
    ensures IsPackageFile(Split(f))
  {
    FileInSplits(dir, f);
    hide Folders, Split;
  }

  // -------------------------------------------------------------- the disk

  const PACKAGE_ROOT: Path := ["pkg"]

  /** A workspace with nothing but empty directories in it. */
  const WORKSPACE: Path := ["w"]
  const OWNED_DIR: Path := ["w", ".agents"]
  const INNER_DIR: Path := ["w", ".agents", "d"]

  function OuterDirs(): set<Path> {
    {[], PACKAGE_ROOT, WORKSPACE, OWNED_DIR, INNER_DIR}
  }

  function Dirs(): set<Path> {
    OuterDirs() + (set f | f in Folders() :: PACKAGE_ROOT + f)
  }

  function Files(): set<Path> {
    set f | f in PackageFiles() :: PACKAGE_ROOT + Split(f)
  }

  /** The package before its manifest is built, and the workspace. Files are empty. */
  function ExampleDisk(): Disk {
    map p | p in Dirs() + Files() :: if p in Dirs() then Dir else File([])
  }

  lemma OuterDirsShape(q: Path)
    requires q in OuterDirs()
    ensures IsPath(q) && (q != [] ==> Parent(q) in OuterDirs()) && (q == [] || q[0] != "pkg" || q == PACKAGE_ROOT)
  {
    assert "pkg"[0] == 'p' && "w"[0] == 'w' && IsName(".agents");
    assert Parent(PACKAGE_ROOT) == [] && Parent(WORKSPACE) == [] && Parent(OWNED_DIR) == WORKSPACE
        && Parent(INNER_DIR) == OWNED_DIR;
  }

  lemma FolderNames()
    ensures forall f, i :: f in Folders() && 0 <= i < |f| ==> IsName(f[i]) && '.' !in f[i]
    ensures forall f :: f in Folders() ==> f != [] && f[0] in ARTIFACT_ROOTS
  {
  }

  lemma FolderParents()
    ensures forall f :: f in Folders() ==> Parent(f) == [] || Parent(f) in Folders()
  {
    assert Parent(["policy"]) == [] && Parent(["graph"]) == [] && Parent(["contracts"]) == []
        && Parent(["skills"]) == [];
    assert Parent(SKILL_DIR) == ["skills"] && Parent(SKILL_DIR + ["scripts"]) == SKILL_DIR;
  }

  lemma FolderInPackage(f: Path)
    requires f in Folders() && Parent(PACKAGE_ROOT + f) == PACKAGE_ROOT + Parent(f)
    ensures IsPath(PACKAGE_ROOT + f) && Parent(PACKAGE_ROOT + f) in Dirs() && PACKAGE_ROOT + f in Dirs()
  {
    hide Folders, IsName, Parent;
    FolderNames();
    FolderParents();
    RootIsName();
    assert PACKAGE_ROOT + [] == PACKAGE_ROOT;
  }

  lemma RootIsName()
    ensures IsName("pkg") && PACKAGE_ROOT == ["pkg"] && PACKAGE_ROOT in OuterDirs()
  {
  }

  lemma ParentBelowRoot(p: Path)
    requires p != []
    ensures Parent(PACKAGE_ROOT + p) == PACKAGE_ROOT + Parent(p) && Last(PACKAGE_ROOT + p) == Last(p)
    ensures |PACKAGE_ROOT + p| > 1 && (PACKAGE_ROOT + p)[0] == "pkg" && (PACKAGE_ROOT + p)[1..] == p
  {
  }

  lemma DirsShape()
    ensures forall q :: q in Dirs() ==> IsPath(q) && (q != [] ==> Parent(q) in Dirs())
  {
    FolderNames();
    hide OuterDirs, Folders, IsName;
    forall q | q in Dirs() ensures IsPath(q) && (q != [] ==> Parent(q) in Dirs()) {
      if q in OuterDirs() {
        OuterDirsShape(q);
      } else {
        var f :| f in Folders() && q == PACKAGE_ROOT + f;
        ParentBelowRoot(f);
        FolderInPackage(f);
      }
    }
  }

  /** A package file is no directory. */
  lemma FileIsNew(p: Path)
    requires IsPackageFile(p)
    ensures PACKAGE_ROOT + p !in Dirs()
  {
    FolderNames();
    hide OuterDirs, Folders, IsName;
    var q := PACKAGE_ROOT + p;
    ParentBelowRoot(p);
    if q in OuterDirs() {
      OuterDirsShape(q);
    }
    forall f | f in Folders() ensures q != PACKAGE_ROOT + f {
      ParentBelowRoot(f);
      assert f != p;
    }
  }

  lemma PackageFileShape(p: Path)
    requires IsPackageFile(p)
    ensures IsPath(p) && IsArtifactPath(p) && PACKAGE_ROOT + Parent(p) in Dirs()
  {
    hide OuterDirs, Folders, IsName, ARTIFACT_ROOTS, MANIFEST_FILE, Dirs;
    FolderNames();
    var f := Parent(p);
    assert p == f + [Last(p)];
    ParentBelowRoot(f);
    FolderInPackage(f);
    assert |p| > 1 && p[0] == f[0];
  }

  lemma FileIsThere(f: string)
    requires f in PackageFiles()
    ensures HasArtifact(ExampleDisk(), PACKAGE_ROOT, f)
    ensures IsPath(Split(f)) && IsFileBelow(ExampleDisk(), PACKAGE_ROOT, Split(f))
    ensures ExampleDisk()[PACKAGE_ROOT + Split(f)] == File([])
  {
    AllStored();
    StoredIsFile(f);
    FileIsNew(Split(f));
    PackageFileShape(Split(f));
    JoinSplit(f);
    hide Dirs, PackageFiles, Split, IsPackageFile, Stored;
    assert PACKAGE_ROOT + Split(f) in Files();
    assert IsArtifact(ExampleDisk(), PACKAGE_ROOT, Split(f));
  }

  lemma FilesShape()
    ensures forall q :: q in Files() ==> IsPath(q) && q != [] && Parent(q) in Dirs()
  {
    AllStored();
    hide PackageFiles, Split, IsPackageFile, Stored, Dirs;
    forall q | q in Files() ensures IsPath(q) && q != [] && Parent(q) in Dirs() {
      var f :| f in PackageFiles() && q == PACKAGE_ROOT + Split(f);
      StoredIsFile(f);
      PackageFileShape(Split(f));
      FileBelowRoot(Split(f));
    }
  }

  lemma FileBelowRoot(p: Path)
    requires IsPath(p) && IsPackageFile(p)
    ensures IsPath(PACKAGE_ROOT + p) && Parent(PACKAGE_ROOT + p) == PACKAGE_ROOT + Parent(p)
  {
    assert IsName("pkg");
    ParentBelowRoot(p);
    hide Folders, IsName;
  }

  lemma ExampleIsWellFormed()
    ensures WellFormed(ExampleDisk())
    ensures forall q :: q in ExampleDisk() ==> !ExampleDisk()[q].Link?
    ensures forall q :: q in OuterDirs() ==> q in ExampleDisk() && ExampleDisk()[q] == Dir
  {
    DirsShape();
    FilesShape();
    OuterInDirs();
    hide Dirs, Files, OuterDirs;
    assert forall q :: q in ExampleDisk() <==> q in Dirs() || q in Files();
  }

  lemma ManifestIsNew()
    ensures PACKAGE_ROOT + [MANIFEST_FILE] !in ExampleDisk()
  {
    assert MANIFEST_FILE[8] == '.';
    hide OuterDirs, Folders, IsName, MANIFEST_FILE, PackageFiles, Split, Stored;
    var q := PACKAGE_ROOT + [MANIFEST_FILE];
    assert q !in OuterDirs() by {
      ParentBelowRoot([MANIFEST_FILE]);
      if q in OuterDirs() {
        OuterDirsShape(q);
      }
    }
    FolderNames();
    forall f | f in Folders() ensures q != PACKAGE_ROOT + f {
      ParentBelowRoot([MANIFEST_FILE]);
      ParentBelowRoot(f);
      assert f != [MANIFEST_FILE];
    }
    forall f | f in PackageFiles() ensures q != PACKAGE_ROOT + Split(f) {
      FileIsNoManifest(f);
    }
  }

  lemma FileIsNoManifest(f: string)
    requires f in PackageFiles()
    ensures PACKAGE_ROOT + [MANIFEST_FILE] != PACKAGE_ROOT + Split(f)
  {
    hide Folders, IsName, MANIFEST_FILE, PackageFiles, Split, Stored;
    AllStored();
    FolderNames();
    StoredIsFile(f);
    ParentBelowRoot(Split(f));
    ParentBelowRoot([MANIFEST_FILE]);
    assert Parent([MANIFEST_FILE]) == [];
  }

  lemma OuterInDirs()
    ensures OuterDirs() <= Dirs() && [] in Dirs()
  {
  }

  lemma ExampleHasAll()
    ensures AllBound(ExampleDisk(), PACKAGE_ROOT)
  {
    hide BINDINGS, CONTRACT_FILES, RUNTIME_FILES, SCRATCH_FILE, HasArtifact, ExampleDisk;
    forall b | b in BINDINGS ensures HasArtifact(ExampleDisk(), PACKAGE_ROOT, b.path) {
      FileIsThere(b.path);
    }
    forall f | f in CONTRACT_FILES ensures HasArtifact(ExampleDisk(), PACKAGE_ROOT, f) {
      FileIsThere(f);
    }
    forall f | f in RUNTIME_FILES ensures HasArtifact(ExampleDisk(), PACKAGE_ROOT, f) {
      FileIsThere(f);
    }
  }
}
