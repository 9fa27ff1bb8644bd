/** `verify-workspace-install.mjs` and the checks it shares with the workspace
    installer. */
module Workspaces {
  import opened Outcome
  import opened Paths
  import opened PathLemmas
  import opened Containment
  import opened Hosts
  import opened Json
  import opened JsonParser
  import opened CanonicalJson
  import opened CanonicalLaw
  import opened ParsedValues
  import opened Artifacts
  import opened RecordedFields
  import opened Disks
  import opened PathLookup
  import opened Boundary
  import opened Mappings
  import opened MappingLaw
  import opened InstalledTrees

  /** `.agents/issue-orchestration-install.json` */
  const WORKSPACE_RECORD: Path := [".agents", "issue-orchestration-install.json"]

  const PACKAGE_IDENTITY := "issue-orchestration"

  function RecordAt(workspace: Path): Path {
    workspace + WORKSPACE_RECORD
  }

  /** `safeTarget` of the installer when `guarded`, else that of the verifier. */
  function WorkspaceTarget(workspace: Path, relative: string, guarded: bool): Result<Path> {
    var r := if guarded then SafeTarget(Render(workspace), relative) else SafeTargetUnguarded(Render(workspace),
        relative);
    if r.Err? then Err(r.code) else Ok(Segs(r.value))
  }

  lemma WorkspaceTargetIs(workspace: Path, relative: string, guarded: bool)
    requires IsPath(workspace)
    ensures WorkspaceTarget(workspace, relative, guarded).Ok? <==> TargetAllowed(relative)
    ensures TargetAllowed(relative) ==>
              && WorkspaceTarget(workspace, relative, guarded) == Ok(workspace + Names(relative))
              && IsPath(workspace + Names(relative)) && workspace < workspace + Names(relative)
  {
    hide TargetAllowed, Segs, Names, SafeTarget, SafeTargetUnguarded, Join;
    SafeTargetsAgree(Render(workspace), relative);
    RenderSegs(workspace);
    if TargetAllowed(relative) {
      AllowedStartsOwned(relative);
      RenderSegs(workspace + Names(relative));
    }
    NotAllowed(workspace, relative, guarded);
  }

  lemma NotAllowed(workspace: Path, relative: string, guarded: bool)
    ensures !TargetAllowed(relative) ==> WorkspaceTarget(workspace, relative, guarded).Err?
  {
    hide TargetAllowed, Segs;
  }

  // --------------------------------------------------------- recorded files

  /** The file at `target` is no link and has this digest. */
  predicate HoldsFile(h: Host, d: Disk, target: Path, digest: JsValue) {
    var stat := LinkStat(h, d, target);
    && stat.Some? && stat.value.File?
    && var data := ReadFile(h, d, target);
       data.Some? && Str(h.sha256(data.value)) == digest
  }

  /** An entry of the record names an allowed target with the recorded content. */
  predicate EntryHolds(h: Host, d: Disk, workspace: Path, e: Entry) {
    TargetAllowed(e.key) && HoldsFile(h, d, workspace + Names(e.key), e.value)
  }

  /** The loop over `Object.entries(ownership.files)`. */
  method VerifyFiles(h: Host, d: Disk, workspace: Path, es: seq<Entry>, guarded: bool) returns (ok: bool)
    requires IsPath(workspace)
    ensures ok <==> forall i :: 0 <= i < |es| ==> EntryHolds(h, d, workspace, es[i])
  {
    hide WorkspaceTarget, HoldsFile, TargetAllowed, Names;
    for i := 0 to |es|
      invariant forall j :: 0 <= j < i ==> EntryHolds(h, d, workspace, es[j])
    {
      var target := WorkspaceTarget(workspace, es[i].key, guarded);
      WorkspaceTargetIs(workspace, es[i].key, guarded);
      if target.Err? || !HoldsFile(h, d, target.value, es[i].value) {
        return false;
      }
    }
    return true;
  }

  /** The workspace holds every mapped file at its target. */
  ghost predicate HoldsMappings(h: Host, d: Disk, workspace: Path, ms: seq<Mapping>) {
    forall i :: 0 <= i < |ms| ==> EntryHolds(h, d, workspace, Entry(ms[i].target, ms[i].digest))
  }

  lemma EntriesAreMappings(h: Host, d: Disk, workspace: Path, ms: seq<Mapping>, es: seq<Entry>)
    requires forall e :: e in es <==> exists i :: 0 <= i < |ms| && e == Entry(ms[i].target, ms[i].digest)
    ensures (forall i :: 0 <= i < |es| ==> EntryHolds(h, d, workspace, es[i])) <==> HoldsMappings(h, d, workspace, ms)
  {
    hide EntryHolds;
    if forall i :: 0 <= i < |es| ==> EntryHolds(h, d, workspace, es[i]) {
      forall i | 0 <= i < |ms| ensures EntryHolds(h, d, workspace, Entry(ms[i].target, ms[i].digest)) {
        assert Entry(ms[i].target, ms[i].digest) in es;
      }
    }
    if HoldsMappings(h, d, workspace, ms) {
      forall j | 0 <= j < |es| ensures EntryHolds(h, d, workspace, es[j]) {
        assert es[j] in es;
        var i :| 0 <= i < |ms| && es[j] == Entry(ms[i].target, ms[i].digest);
      }
    }
  }

  // ------------------------------------------------------------- the record

  /** The parsed ownership record, if it can be read and parsed. */
  function ReadRecord(h: Host, d: Disk, workspace: Path): Option<JsValue> {
    var data := ReadFile(h, d, RecordAt(workspace));
    if data.None? then None else Parse(h, h.decode(data.value))
  }

  /** The record says what the expected one says. */
  ghost predicate RecordMatches(h: Host, d: Disk, workspace: Path, ownership: JsValue) {
    var v := ReadRecord(h, d, workspace);
    v.Some? && Printed(Meaning(v.value)) == Printed(Meaning(ownership))
  }

  lemma RecordProper(h: Host, d: Disk, workspace: Path)
    requires Sound(h)
    ensures ReadRecord(h, d, workspace).Some? ==>
              Proper(h, ReadRecord(h, d, workspace).value) && Defined(ReadRecord(h, d, workspace).value)
  {
    var data := ReadFile(h, d, RecordAt(workspace));
    hide ReadFile, Parse;
    if data.Some? {
      ParseProper(h, h.decode(data.value));
    }
  }

  /** The files of a record that matches are the mapped files. */
  lemma MatchingFiles(h: Host, x: Expected, v: JsValue)
    requires Proper(h, v) && Defined(v) && Proper(h, x.ownership) && TargetsDiffer(x.mappings)
    requires x.ownership == OwnershipBody(h, x.manifest, x.mappings) && forall m :: m in x.mappings ==> m.digest.Str?
    requires Printed(Meaning(v)) == Printed(Meaning(x.ownership))
    ensures Get(v, "files").Obj?
    ensures forall e :: e in Get(v, "files").entries <==>
              exists i :: 0 <= i < |x.mappings| && e == Entry(x.mappings[i].target, x.mappings[i].digest)
  {
    OwnershipHasFiles(h, x.manifest, x.mappings);
    OwnershipFiles(x.mappings);
    assert x.ownership.Obj?;
    hide OwnershipBody, FromEntries, Proper, Defined, Meaning, Printed, TargetsDiffer, FileEntries, Get;
    FieldAgrees(h, v, x.ownership, "files");
    FieldProper(h, v, "files");
    FieldProper(h, x.ownership, "files");
    StringFiles(x.mappings);
    EntriesAgree(h, Get(v, "files"), Get(x.ownership, "files"));
  }

  lemma FieldProper(h: Host, v: JsValue, k: string)
    requires Proper(h, v)
    ensures Get(v, k) != Undefined ==> Proper(h, Get(v, k)) && (Defined(v) ==> Defined(Get(v, k)))
  {
    if v.Obj? && Get(v, k) != Undefined {
      LookupFound(v.entries, k);
    }
    hide Lookup;
  }

  lemma StringFiles(ms: seq<Mapping>)
    requires TargetsDiffer(ms) && forall m :: m in ms ==> m.digest.Str?
    ensures OnlyStrings(FromEntries(FileEntries(ms)))
  {
    OwnershipFiles(ms);
    var fs := FromEntries(FileEntries(ms));
    hide FromEntries, FileEntries, TargetsDiffer;
    forall i | 0 <= i < |fs| ensures fs[i].value.Str? {
      assert fs[i] in fs;
      var j :| 0 <= j < |ms| && fs[i] == Entry(ms[j].target, ms[j].digest);
      assert ms[j] in ms;
    }
  }

  // ----------------------------------------------------------- the verifier

  datatype WorkspaceArgs = WorkspaceArgs(sourceRoot: Option<string>, workspaceRoot: Option<string>)

  /** `fs.realpathSync(s)`. */
  function RealPath(h: Host, d: Disk, s: string): Option<Path> {
    Find(h, d, Segs(Resolve(h.cwd, s)))
  }

  predicate PathsGiven(args: WorkspaceArgs) {
    Given(args.sourceRoot) && Given(args.workspaceRoot)
  }

  /** The record and the files of the workspace are those that the package at
      `source` prescribes. */
  ghost predicate Verified(h: Host, d: Disk, source: Path, workspace: Path) {
    exists x :: IsExpected(h, d, source, x) && RecordMatches(h, d, workspace, x.ownership)
        && HoldsMappings(h, d, workspace, x.mappings)
  }

  ghost predicate WorkspaceVerified(h: Host, d: Disk, args: WorkspaceArgs) {
    && PathsGiven(args)
    && var s, w := RealPath(h, d, args.sourceRoot.value), RealPath(h, d, args.workspaceRoot.value);
       s.Some? && w.Some? && Verified(h, d, s.value, w.value)
  }

  lemma RealPathIs(h: Host, d: Disk, s: string)
    requires WellFormed(d) && RealPath(h, d, s).Some?
    ensures var p := RealPath(h, d, s).value;
            p in d && !d[p].Link? && Straight(d, p) && IsPath(p)
  {
    FindEnds(h, d, Segs(Resolve(h.cwd, s)));
    PresentIsStraight(d, RealPath(h, d, s).value);
    hide Find, Segs, Resolve, Straight;
  }

  lemma ExpectedFacts(h: Host, d: Disk, source: Path, x: Expected)
    requires Sound(h) && WellFormed(d) && Straight(d, source) && IsExpected(h, d, source, x)
    ensures Proper(h, x.ownership) && x.ownership == OwnershipBody(h, x.manifest, x.mappings)
    ensures TargetsDiffer(x.mappings)
    ensures forall m :: m in x.mappings ==> m.digest.Str?
  {
    hide IsExpected, OwnershipBody, Proper, TargetsDiffer, MappingAllowed, Straight;
    ExpectedShape(h, d, source, x);
    forall m | m in x.mappings ensures m.digest.Str? {
      assert CarriesContent(h, d, source, m);
    }
  }

  lemma VerifiedIs(h: Host, d: Disk, source: Path, workspace: Path, x: Expected)
    requires IsExpected(h, d, source, x)
    ensures Verified(h, d, source, workspace) <==>
              RecordMatches(h, d, workspace, x.ownership) && HoldsMappings(h, d, workspace, x.mappings)
  {
    OneExpected(h, d, source, x);
    hide IsExpected, RecordMatches, HoldsMappings;
  }

  /** The comparison of canonical texts decides whether the record matches. */
  lemma TextsDecide(h: Host, d: Disk, workspace: Path, ownership: JsValue)
    requires Sound(h) && Proper(h, ownership) && ReadRecord(h, d, workspace).Some?
    ensures CanonicalText(ReadRecord(h, d, workspace).value) == CanonicalText(ownership)
            <==> RecordMatches(h, d, workspace, ownership)
  {
    RecordProper(h, d, workspace);
    hide ReadRecord, Proper, Meaning, Printed, CanonicalText;
    CanonicalTextComplete(h, ReadRecord(h, d, workspace).value, ownership);
  }

  /** The verifier's checks against a known expectation. */
  method CheckWorkspace(h: Host, d: Disk, workspace: Path, x: Expected) returns (r: Result<bool>)
    requires Sound(h) && IsPath(workspace) && Proper(h, x.ownership) && TargetsDiffer(x.mappings)
    requires x.ownership == OwnershipBody(h, x.manifest, x.mappings) && forall m :: m in x.mappings ==> m.digest.Str?
    ensures r.Ok? <==> RecordMatches(h, d, workspace, x.ownership) && HoldsMappings(h, d, workspace, x.mappings)
  {
    RecordProper(h, d, workspace);
    hide Proper, Meaning, Printed, CanonicalText, ReadRecord, OwnershipBody, TargetsDiffer, HoldsMappings,
      EntryHolds, Get, Defined;
    var installed := ReadRecord(h, d, workspace);
    if installed.None? {
      return Err("workspace-install-ownership-invalid");
    }
    TextsDecide(h, d, workspace, x.ownership);
    if CanonicalText(installed.value) != CanonicalText(x.ownership) {
      return Err("workspace-install-version-drift");
    }
    MatchingFiles(h, x, installed.value);
    var es := Get(installed.value, "files").entries;
    EntriesAreMappings(h, d, workspace, x.mappings, es);
    var ok := VerifyFiles(h, d, workspace, es, false);
    return if ok then Ok(true) else Err("workspace-install-ownership-drift");
  }

  /** `verifyWorkspace()`: it accepts exactly a workspace whose record and files are
      those that the package prescribes. */
  method VerifyWorkspace(h: Host, d: Disk, args: WorkspaceArgs) returns (r: Result<Expected>)
    requires Sound(h) && WellFormed(d)
    ensures r.Ok? <==> WorkspaceVerified(h, d, args)
    ensures args.sourceRoot == None || args.sourceRoot == Some("") ==> r == Err("workspace-install-path-required")
    ensures args.workspaceRoot == None || args.workspaceRoot == Some("") ==>
              r == Err("workspace-install-path-required")
  {
    hide RealPath, Straight, WellFormed, Prescribes, IsExpected, RecordMatches, HoldsMappings, Proper,
      OwnershipBody, TargetsDiffer;
    if !PathsGiven(args) {
      return Err("workspace-install-path-required");
    }
    var s, w := RealPath(h, d, args.sourceRoot.value), RealPath(h, d, args.workspaceRoot.value);
    if s.None? || w.None? {
      return Err("ENOENT");
    }
    RealPathIs(h, d, args.sourceRoot.value);
    RealPathIs(h, d, args.workspaceRoot.value);
    var x := ExpectedInstall(h, d, s.value);
    PrescribesReal(h, d, s.value);
    if x.Err? {
      return x;
    }
    ExpectedFacts(h, d, s.value, x.value);
    VerifiedIs(h, d, s.value, w.value, x.value);
    hide Verified;
    var ok := CheckWorkspace(h, d, w.value, x.value);
    return if ok.Ok? then x else Err(ok.code);
  }
}
