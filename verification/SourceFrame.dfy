/** What a package prescribes depends only on the tree at its source root. */
module SourceFrame {
  import opened Outcome
  import opened Paths
  import opened Hosts
  import opened Json
  import opened CanonicalJson
  import opened Disks
  import opened PathLookup
  import opened Listing
  import opened Manifests
  import opened ManifestSoundness
  import opened Mappings
  import opened MappingLaw

  /** The two disks agree at and below `root`. */
  ghost predicate SameBelow(d: Disk, e: Disk, root: Path) {
    forall p :: root <= p ==> (p in d <==> p in e) && (p in d ==> d[p] == e[p])
  }

  lemma SameDeeper(d: Disk, e: Disk, root: Path, p: Path)
    requires SameBelow(d, e, root) && root <= p
    ensures SameBelow(d, e, p)
  {
    forall q | p <= q && (q in d || q in e) ensures root <= q {
      assert q == p + q[|p|..];
    }
  }

  lemma {:induction false} ListTreeSame(h: Host, d: Disk, e: Disk, p: Path)
    requires SameBelow(d, e, p)
    ensures ListTree(h, d, p) == ListTree(h, e, p)
    decreases Strictly(d, p), 1, 0
  {
    assert EntryNames(d, p) == EntryNames(e, p);
    ListNamesSame(h, d, e, p, h.listing(p, EntryNames(d, p)));
  }

  lemma {:induction false} ListNamesSame(h: Host, d: Disk, e: Disk, p: Path, names: seq<string>)
    requires SameBelow(d, e, p)
    ensures ListNames(h, d, p, names) == ListNames(h, e, p, names)
    decreases Strictly(d, p), 0, |names|
  {
    if names != [] {
      var c := p + [names[0]];
      ListNamesSame(h, d, e, p, names[1..]);
      if c in d && d[c] == Dir {
        SameDeeper(d, e, p, c);
        ChildIsSmaller(d, p, names[0]);
        ListTreeSame(h, d, e, c);
      }
    }
    hide SameBelow, ListTree, Strictly;
  }

  /** No link below the directory `root`. */
  ghost predicate LinkFree(d: Disk, root: Path) {
    WellFormed(d) && root in d && d[root] == Dir && NoLinks(d, root)
  }

  /** Every lookup below a link-free root stays below it. */
  lemma FindSame(h: Host, d: Disk, e: Disk, root: Path, p: Path)
    requires LinkFree(d, root) && LinkFree(e, root) && SameBelow(d, e, p) && root <= p
    ensures Find(h, d, p) == Find(h, e, p) == if p in d then Some(p) else None
  {
    StraightBelow(d, root, p);
    StraightBelow(e, root, p);
    FindStraight(h, d, p);
    FindStraight(h, e, p);
  }

  lemma SameIsLinkFree(d: Disk, e: Disk, root: Path)
    requires SameBelow(d, e, root) && WellFormed(e)
    ensures LinkFree(d, root) ==> LinkFree(e, root)
  {
    hide WellFormed;
  }

  lemma ReadSame(h: Host, d: Disk, e: Disk, root: Path, p: Path)
    requires LinkFree(d, root) && LinkFree(e, root) && SameBelow(d, e, p) && root <= p
    ensures ReadFile(h, d, p) == ReadFile(h, e, p)
    ensures Exists(h, d, p) == Exists(h, e, p) && IsDirAt(h, d, p) == IsDirAt(h, e, p)
    ensures WalkFiles(h, d, p) == WalkFiles(h, e, p)
  {
    FindSame(h, d, e, root, p);
    ListTreeSame(h, d, e, p);
    hide ListTree, Find, LinkFree;
    assert p in d <==> p in e;
    assert p in d ==> d[p] == e[p];
    hide SameBelow;
  }

  lemma MapSourceSame(h: Host, d: Disk, e: Disk, root: Path, a: JsValue, target: string, p: Path)
    requires LinkFree(d, root) && LinkFree(e, root) && SameBelow(d, e, p) && root < p
    ensures MapSource(h, d, root, a, target, p) == MapSource(h, e, root, a, target, p)
  {
    ReadSame(h, d, e, root, p);
    assert root + p[|root|..] == p;
    hide ReadFile, IsDirAt, WalkFiles, Find, LinkFree, SameBelow;
  }

  /** Nothing changes at or below what the install target asks for. */
  ghost predicate ItemKept(d: Disk, e: Disk, root: Path, item: JsValue) {
    item.Obj? && TargetWellTyped(item) && root < Segs(SourcePath(root, item)) ==>
      SameBelow(d, e, Segs(SourcePath(root, item)))
  }

  lemma MapOneSame(h: Host, d: Disk, e: Disk, root: Path, a: JsValue, item: JsValue)
    requires LinkFree(d, root) && LinkFree(e, root) && ItemKept(d, e, root, item)
    ensures MapOne(h, d, root, a, item) == MapOne(h, e, root, a, item)
  {
    if item.Obj? && TargetWellTyped(item) && StartsWith(SourcePath(root, item), Render(root) + "/") {
      var p := Segs(SourcePath(root, item));
      assert root in d && IsPath(root);
      SourcePathSegs(root, item);
      SourceBelow(root, p);
      ReadSame(h, d, e, root, p);
      MapSourceSame(h, d, e, root, a, Get(item, "target").s, p);
    }
    hide MapSource, Find, LinkFree, SameBelow, Get, SourcePath;
  }

  lemma {:induction false} MapAllSame(h: Host, d: Disk, e: Disk, root: Path, a: JsValue, items: seq<JsValue>)
    requires LinkFree(d, root) && LinkFree(e, root) && forall i :: 0 <= i < |items| ==> ItemKept(d, e, root, items[i])
    ensures MapAll(h, d, root, a, items) == MapAll(h, e, root, a, items)
  {
    hide MapOne, LinkFree, ItemKept;
    if items != [] {
      var n := |items| - 1;
      MapAllSame(h, d, e, root, a, items[..n]);
      MapOneSame(h, d, e, root, a, items[n]);
    }
  }

  /** Everything that the prescription of a package rests on stays: the manifest file,
      the artifact files, what the install targets ask for, and that there is no
      link. */
  ghost predicate KeepsPackage(h: Host, d: Disk, e: Disk, root: Path, m: JsValue) {
    && LinkFree(d, root) && LinkFree(e, root) && ManifestAt(h, e, root) == ManifestAt(h, d, root)
    && (forall r :: IsArtifactPath(r) ==>
          && (IsFileBelow(d, root, r) <==> IsFileBelow(e, root, r))
          && (IsFileBelow(d, root, r) ==> d[root + r] == e[root + r]))
    && (InstallTargets(m).Ok? ==>
          forall i :: 0 <= i < |InstallTargets(m).value| ==> ItemKept(d, e, root, InstallTargets(m).value[i]))
  }

  lemma CollectKept(h: Host, d: Disk, e: Disk, root: Path, m: JsValue)
    requires KeepsPackage(h, d, e, root, m)
    ensures CollectMappings(h, d, root, m) == CollectMappings(h, e, root, m)
  {
    var items := InstallTargets(m);
    if items.Ok? {
      MapAllSame(h, d, e, root, Get(m, "artifactDigests"), items.value);
    }
    hide MapAll, SortMappings, LinkFree, ItemKept, Get, MappingAllowed, ManifestAt, IsArtifactPath;
  }

  /** Whatever else changes, the package prescribes the same installation. */
  lemma ExpectedKept(h: Host, d: Disk, e: Disk, root: Path, x: Expected)
    requires IsExpected(h, d, root, x) && KeepsPackage(h, d, e, root, x.manifest)
    ensures IsExpected(h, e, root, x)
  {
    CollectKept(h, d, e, root, x.manifest);
    AcceptableKept(h, d, e, root, x.manifest);
    hide Acceptable, CollectMappings, OwnershipBody, KeepsPackage;
  }

  lemma AcceptableKept(h: Host, d: Disk, e: Disk, root: Path, m: JsValue)
    requires Acceptable(h, d, root, m) && KeepsPackage(h, d, e, root, m)
    ensures Acceptable(h, e, root, m)
  {
    AcceptableNoLinks(h, d, root, m);
    assert ManifestAt(h, e, root) == ManifestAt(h, d, root) && NoLinks(e, root);
    hide Acceptable, ManifestAt, NoLinks, ItemKept, Get, IsArtifactPath, WellFormed;
    UnrelatedChangeAccepted(h, d, e, root, m);
  }

  /** An unchanged source tree prescribes the same installation. */
  lemma ExpectedSame(h: Host, d: Disk, e: Disk, root: Path, x: Expected)
    requires WellFormed(d) && WellFormed(e) && SameBelow(d, e, root)
    requires root in d && d[root] == Dir && IsExpected(h, d, root, x)
    ensures IsExpected(h, e, root, x)
  {
    AcceptableNoLinks(h, d, root, x.manifest);
    SameKeepsPackage(h, d, e, root, x.manifest);
    hide Acceptable, CollectMappings, OwnershipBody, WellFormed, SameBelow, NoLinks, ManifestAt, KeepsPackage;
    ExpectedKept(h, d, e, root, x);
  }

  lemma SameKeepsPackage(h: Host, d: Disk, e: Disk, root: Path, m: JsValue)
    requires WellFormed(d) && WellFormed(e) && SameBelow(d, e, root)
    requires root in d && d[root] == Dir && NoLinks(d, root)
    ensures KeepsPackage(h, d, e, root, m)
  {
    SameIsLinkFree(d, e, root);
    assert LinkFree(d, root);
    ManifestSame(h, d, e, root);
    ArtifactFilesSame(d, e, root);
    hide LinkFree, ManifestAt, IsArtifactPath, WellFormed, NoLinks, InstallTargets;
    forall item ensures ItemKept(d, e, root, item) {
      ItemDeeper(d, e, root, item);
    }
    hide ItemKept, SameBelow;
  }

  lemma ItemDeeper(d: Disk, e: Disk, root: Path, item: JsValue)
    requires SameBelow(d, e, root)
    ensures ItemKept(d, e, root, item)
  {
    if item.Obj? && TargetWellTyped(item) && root < Segs(SourcePath(root, item)) {
      SameDeeper(d, e, root, Segs(SourcePath(root, item)));
    }
    hide SameBelow, Segs, SourcePath, Get;
  }

  lemma AcceptableNoLinks(h: Host, d: Disk, root: Path, m: JsValue)
    requires Acceptable(h, d, root, m)
    ensures NoLinks(d, root) && ManifestAt(h, d, root) == Some(m)
  {
    hide NoLinks, BindsFields, BindsFiles, BindsAgents, RecordsArtifacts, Digest, Get, ManifestAt;
  }

  lemma ManifestSame(h: Host, d: Disk, e: Disk, root: Path)
    requires WellFormed(d) && WellFormed(e) && SameBelow(d, e, root)
    requires root in d && d[root] == Dir && NoLinks(d, root)
    ensures ManifestAt(h, e, root) == ManifestAt(h, d, root)
  {
    assert LinkFree(d, root);
    SameIsLinkFree(d, e, root);
    SameDeeper(d, e, root, root + [MANIFEST_FILE]);
    hide ReadFile, WellFormed, SameBelow, NoLinks, Find, LinkFree;
    ReadSame(h, d, e, root, root + [MANIFEST_FILE]);
  }

  lemma ArtifactFilesSame(d: Disk, e: Disk, root: Path)
    requires SameBelow(d, e, root)
    ensures forall r :: IsArtifactPath(r) ==>
              (IsFileBelow(d, root, r) <==> IsFileBelow(e, root, r))
              && (IsFileBelow(d, root, r) ==> d[root + r] == e[root + r])
  {
    hide IsArtifactPath;
    forall r: Path ensures root <= root + r {
    }
  }
}
