/** What an accepted workspace holds: at the place of every target a regular file with
    the content of its source file, up to a collision of the hash. */
module WorkspaceContents {
  import opened Outcome
  import opened Paths
  import opened Containment
  import opened Hosts
  import opened Json
  import opened CanonicalJson
  import opened Disks
  import opened PathLookup
  import opened Listing
  import opened Mappings
  import opened MappingLaw
  import opened SourceFrame
  import opened InstalledTrees
  import opened Workspaces
  import opened WorkspaceInstaller

  /** Not through a link at its end, the path leads to a file with this digest. */
  ghost predicate FileThere(h: Host, d: Disk, p: Path, digest: string) {
    var c := Place(h, d, p);
    c.Some? && c.value in d && d[c.value].File? && h.sha256(d[c.value].data) == digest
  }

  lemma HeldIsThere(h: Host, d: Disk, workspace: Path, target: string, digest: string)
    ensures EntryHolds(h, d, workspace, Entry(target, Str(digest))) <==>
              TargetAllowed(target) && FileThere(h, d, workspace + Names(target), digest)
  {
    if TargetAllowed(target) {
      AllowedStartsOwned(target);
      var p := workspace + Names(target);
      var c := Place(h, d, p);
      hide TargetAllowed, Names, Place, Find;
      if c.Some? && c.value in d && d[c.value].File? {
        PlacedIsFound(h, d, p, c.value);
      }
    }
  }

  /** The workspace has every file of the package where its mapping says. */
  ghost predicate HasContents(h: Host, d: Disk, source: Path, workspace: Path, ms: seq<Mapping>) {
    forall i :: 0 <= i < |ms| ==>
      && TargetAllowed(ms[i].target) && IsFileBelow(d, source, ms[i].source)
      && FileThere(h, d, workspace + Names(ms[i].target), h.sha256(d[source + ms[i].source].data))
  }

  lemma HoldsContents(h: Host, d: Disk, source: Path, workspace: Path, x: Expected)
    requires Sound(h) && WellFormed(d) && Straight(d, source) && IsExpected(h, d, source, x)
    ensures HoldsMappings(h, d, workspace, x.mappings) <==> HasContents(h, d, source, workspace, x.mappings)
  {
    hide IsExpected, OwnershipBody, Proper, TargetsDiffer, MappingAllowed, NoLinks, WellFormed, Straight;
    ExpectedShape(h, d, source, x);
    hide EntryHolds, FileThere, TargetAllowed, IsFileBelow, Names;
    var ms := x.mappings;
    forall i | 0 <= i < |ms|
      ensures IsFileBelow(d, source, ms[i].source)
      ensures EntryHolds(h, d, workspace, Entry(ms[i].target, ms[i].digest)) <==>
                && TargetAllowed(ms[i].target)
                && FileThere(h, d, workspace + Names(ms[i].target), h.sha256(d[source + ms[i].source].data))
    {
      assert ms[i] in ms;
      assert CarriesContent(h, d, source, ms[i]);
      FileInTree(d, source, ms[i].source);
      HeldIsThere(h, d, workspace, ms[i].target, h.sha256(d[source + ms[i].source].data));
    }
  }

  lemma FileInTree(d: Disk, root: Path, r: Path)
    requires IsFileBelow(d, root, r)
    ensures root + r in d && d[root + r].File?
  {
  }

  /** The record file of the workspace can be parsed and says what `ownership` says. */
  ghost predicate RecordSays(h: Host, d: Disk, workspace: Path, ownership: JsValue) {
    var data := ReadFile(h, d, workspace + [".agents", "issue-orchestration-install.json"]);
    && data.Some?
    && var v := JsonParser.Parse(h, h.decode(data.value));
       v.Some? && Printed(Meaning(v.value)) == Printed(Meaning(ownership))
  }

  lemma RecordSaysIs(h: Host, d: Disk, workspace: Path, ownership: JsValue)
    ensures RecordMatches(h, d, workspace, ownership) <==> RecordSays(h, d, workspace, ownership)
  {
    hide ReadFile, JsonParser.Parse, Meaning, Printed;
  }

  /** The verifier accepts exactly when the record says what the prescribed one says and
      every file of the package is at its target with the digest of its source. */
  lemma VerifiedExactly(h: Host, d: Disk, args: WorkspaceArgs, source: Path, workspace: Path, x: Expected)
    requires Sound(h) && WellFormed(d) && PathsGiven(args)
    requires Find(h, d, Segs(Resolve(h.cwd, args.sourceRoot.value))) == Some(source)
    requires Find(h, d, Segs(Resolve(h.cwd, args.workspaceRoot.value))) == Some(workspace)
    requires IsExpected(h, d, source, x)
    ensures WorkspaceVerified(h, d, args) <==>
              RecordSays(h, d, workspace, x.ownership) && HasContents(h, d, source, workspace, x.mappings)
  {
    hide Find, Segs, Resolve, IsExpected, RecordMatches, HoldsMappings, HasContents, Verified, WellFormed, Straight,
      RecordSays;
    assert RealPath(h, d, args.sourceRoot.value) == Some(source);
    assert RealPath(h, d, args.workspaceRoot.value) == Some(workspace);
    hide RealPath;
    RealPathIs(h, d, args.sourceRoot.value);
    VerifiedIs(h, d, source, workspace, x);
    HoldsContents(h, d, source, workspace, x);
    RecordSaysIs(h, d, workspace, x.ownership);
  }

  /** Two states of a workspace that are accepted for one package have a regular file at
      the place of every target, with the same content or a collision of the hash. */
  lemma VerifiedPinsFiles(h: Host, d: Disk, e: Disk, args: WorkspaceArgs, x: Expected, i: nat)
    requires Sound(h) && WellFormed(d) && WellFormed(e)
    requires WorkspaceVerified(h, d, args) && WorkspaceVerified(h, e, args)
    requires RealPath(h, d, args.sourceRoot.value) == RealPath(h, e, args.sourceRoot.value)
    requires RealPath(h, d, args.workspaceRoot.value) == RealPath(h, e, args.workspaceRoot.value)
    requires IsExpected(h, d, RealPath(h, d, args.sourceRoot.value).value, x)
    requires IsExpected(h, e, RealPath(h, e, args.sourceRoot.value).value, x)
    requires i < |x.mappings|
    ensures var target := RealPath(h, d, args.workspaceRoot.value).value + Names(x.mappings[i].target);
            var p, q := Place(h, d, target), Place(h, e, target);
            && p.Some? && p.value in d && d[p.value].File?
            && q.Some? && q.value in e && e[q.value].File?
            && (d[p.value].data == e[q.value].data || Collide(h, d[p.value].data, e[q.value].data))
  {
    var workspace := RealPath(h, d, args.workspaceRoot.value).value;
    hide RealPath, IsExpected, RecordMatches, Place, WellFormed, TargetAllowed, Names, HoldsMappings;
    ExpectedDigest(h, d, RealPath(h, d, args.sourceRoot.value).value, args, x, i);
    VerifiedHolds(h, d, args, x);
    VerifiedHolds(h, e, args, x);
    hide WorkspaceVerified;
    HeldMapping(h, d, workspace, x.mappings, i);
    HeldMapping(h, e, workspace, x.mappings, i);
  }

  lemma ExpectedDigest(h: Host, d: Disk, source: Path, args: WorkspaceArgs, x: Expected, i: nat)
    requires Sound(h) && WellFormed(d) && PathsGiven(args) && RealPath(h, d, args.sourceRoot.value) == Some(source)
    requires IsExpected(h, d, source, x) && i < |x.mappings|
    ensures x.mappings[i].digest.Str?
  {
    RealPathIs(h, d, args.sourceRoot.value);
    hide RealPath, IsExpected, WellFormed, Straight, Proper, OwnershipBody, TargetsDiffer;
    ExpectedFacts(h, d, source, x);
    assert x.mappings[i] in x.mappings;
  }

  lemma VerifiedHolds(h: Host, d: Disk, args: WorkspaceArgs, x: Expected)
    requires WorkspaceVerified(h, d, args)
    requires IsExpected(h, d, RealPath(h, d, args.sourceRoot.value).value, x)
    ensures HoldsMappings(h, d, RealPath(h, d, args.workspaceRoot.value).value, x.mappings)
    ensures RecordMatches(h, d, RealPath(h, d, args.workspaceRoot.value).value, x.ownership)
  {
    hide RealPath, IsExpected, RecordMatches, HoldsMappings, Verified;
    VerifiedIs(h, d, RealPath(h, d, args.sourceRoot.value).value, RealPath(h, d, args.workspaceRoot.value).value, x);
  }

  lemma HeldMapping(h: Host, d: Disk, workspace: Path, ms: seq<Mapping>, i: nat)
    requires HoldsMappings(h, d, workspace, ms) && i < |ms| && ms[i].digest.Str?
    ensures FileThere(h, d, workspace + Names(ms[i].target), ms[i].digest.s)
  {
    hide EntryHolds, FileThere, TargetAllowed, Names;
    HeldIsThere(h, d, workspace, ms[i].target, ms[i].digest.s);
  }

  // ------------------------------------------------------- a changed file

  lemma {:induction false} WalkRewritten(d: Disk, c: Path, data: Bytes, at: Path, todo: Path, links: nat)
    requires c in d && d[c].File?
    ensures Walk(d[c := File(data)], at, todo, links) == Walk(d, at, todo, links)
    decreases links, |todo|
  {
    if todo != [] && at in d && d[at] == Dir && at + [todo[0]] in d {
      var next := at + [todo[0]];
      if d[next].Link? {
        if links > 0 {
          WalkRewritten(d, c, data, [], d[next].dest + todo[1..], links - 1);
        }
      } else {
        WalkRewritten(d, c, data, next, todo[1..], links);
      }
    }
  }

  lemma FindRewritten(h: Host, d: Disk, c: Path, data: Bytes, p: Path)
    requires c in d && d[c].File?
    ensures Find(h, d[c := File(data)], p) == Find(h, d, p) && Place(h, d[c := File(data)], p) == Place(h, d, p)
  {
    WalkRewritten(d, c, data, [], p, h.linkLimit);
    WalkRewritten(d, c, data, [], Parent(p), h.linkLimit);
    hide Walk;
  }

  lemma RewrittenWellFormed(d: Disk, c: Path, data: Bytes)
    requires WellFormed(d) && c in d && d[c].File?
    ensures WellFormed(d[c := File(data)])
  {
    var e := d[c := File(data)];
    forall p | p in e && p != [] ensures Parent(p) in e && e[Parent(p)] == Dir {
    }
  }

  lemma RootsRewritten(h: Host, d: Disk, args: WorkspaceArgs, c: Path, data: Bytes)
    requires PathsGiven(args) && c in d && d[c].File?
    ensures RealPath(h, d[c := File(data)], args.sourceRoot.value) == RealPath(h, d, args.sourceRoot.value)
    ensures RealPath(h, d[c := File(data)], args.workspaceRoot.value) == RealPath(h, d, args.workspaceRoot.value)
  {
    hide Find, Place, Segs, Resolve;
    FindRewritten(h, d, c, data, Segs(Resolve(h.cwd, args.sourceRoot.value)));
    FindRewritten(h, d, c, data, Segs(Resolve(h.cwd, args.workspaceRoot.value)));
  }

  lemma RewrittenBreaks(h: Host, d: Disk, workspace: Path, ms: seq<Mapping>, i: nat, c: Path, data: Bytes)
    requires HoldsMappings(h, d, workspace, ms) && i < |ms| && ms[i].digest.Str?
    requires Place(h, d, workspace + Names(ms[i].target)) == Some(c)
    requires c in d && d[c].File? && data != d[c].data && !Collide(h, d[c].data, data)
    ensures !HoldsMappings(h, d[c := File(data)], workspace, ms)
  {
    var e := d[c := File(data)];
    hide HoldsMappings, Place, Names, Find;
    HeldMapping(h, d, workspace, ms, i);
    FindRewritten(h, d, c, data, workspace + Names(ms[i].target));
    if HoldsMappings(h, e, workspace, ms) {
      HeldMapping(h, e, workspace, ms, i);
    }
  }

  lemma SameElsewhere(d: Disk, c: Path, n: Node, root: Path)
    requires !(root <= c)
    ensures SameBelow(d, d[c := n], root)
  {
  }

  /** When the content of one installed file changes, and the old and the new content do
      not collide, the workspace is no longer accepted, and no second run finds it
      current. */
  lemma ChangedFileIsRefused(h: Host, d: Disk, args: WorkspaceArgs, x: Expected, i: nat, c: Path, data: Bytes)
    requires Sound(h) && WellFormed(d) && WorkspaceVerified(h, d, args) && i < |x.mappings|
    requires var source := RealPath(h, d, args.sourceRoot.value).value;
             IsExpected(h, d, source, x) && source in d && d[source] == Dir && !(source <= c)
    requires Place(h, d, RealPath(h, d, args.workspaceRoot.value).value + Names(x.mappings[i].target)) == Some(c)
    requires c in d && d[c].File? && data != d[c].data && !Collide(h, d[c].data, data)
    ensures !WorkspaceVerified(h, d[c := File(data)], args)
    ensures !IsCurrent(h, d[c := File(data)], RealPath(h, d, args.sourceRoot.value).value,
                       RealPath(h, d, args.workspaceRoot.value).value)
  {
    var e := d[c := File(data)];
    var source := RealPath(h, d, args.sourceRoot.value).value;
    var workspace := RealPath(h, d, args.workspaceRoot.value).value;
    hide RealPath, IsExpected, RecordMatches, WellFormed, SameBelow, Place, Names, HoldsMappings, Identified, Collide;
    assert PathsGiven(args) && RealPath(h, d, args.sourceRoot.value) == Some(source);
    hide WorkspaceVerified, PathsGiven;
    RewrittenWellFormed(d, c, data);
    RootsRewritten(h, d, args, c, data);
    SameElsewhere(d, c, File(data), source);
    ExpectedSame(h, d, e, source, x);
    ExpectedDigest(h, d, source, args, x, i);
    VerifiedHolds(h, d, args, x);
    RewrittenBreaks(h, d, workspace, x.mappings, i, c, data);
    IsCurrentIs(h, e, source, workspace, x);
    if WorkspaceVerified(h, e, args) {
      VerifiedHolds(h, e, args, x);
    }
  }
}
