/** Which install targets compile: the sources, the digests and the targets that
    `collectSourceMappings` accepts, told from the files of the package. */
module SourceTargets {
  import opened Outcome
  import opened Paths
  import opened PathLemmas
  import opened PathSteps
  import opened Containment
  import opened Hosts
  import opened Json
  import opened CanonicalJson
  import opened ParsedValues
  import opened Disks
  import opened PathLookup
  import opened Listing
  import opened Manifests
  import opened Artifacts
  import opened ReadManifests
  import opened Mappings
  import opened MappingLaw
  import opened PackageContents
  import opened BoundFields

  // ------------------------------------------------------- target strings

  /** The guard of both `safeTarget` functions, character by character. */
  lemma TargetAllowedMeans(relative: string)
    ensures TargetAllowed(relative) <==>
              && (".agents/" <= relative || ".codex/" <= relative)
              && !exists i :: DotsAt(relative, i, true)
  {
    UpPart(relative, true);
    assert ".agents/"[0] == ".codex/"[0] == '.';
    assert ".agents/" <= relative || ".codex/" <= relative ==> relative[0] == '.';
    hide SplitOn, DotsAt;
  }

  /** A target of a mapping: not absolute, and no `..` between separators. */
  ghost predicate TargetStays(target: string) {
    !IsAbsolute(target) && !exists i :: DotsAt(target, i, false)
  }

  lemma MappingAllowedMeans(m: Mapping)
    ensures MappingAllowed(m) <==> Truthy(m.digest) && TargetStays(m.target)
  {
    UpPart(m.target, false);
    hide SplitOn, DotsAt, Truthy;
  }

  // -------------------------------------------------------------- sources

  /** Where a source leads: `n` names up from the source root, then down. */
  lemma SourceLeads(root: Path, item: JsValue, n: nat, rest: Path)
    requires IsPath(root) && IsPath(rest) && Get(item, "source") == Str(Join(seq(n, _ => "..") + rest))
    ensures Segs(SourcePath(root, item)) == Climb(root, n) + rest
  {
    RenderSegs(root);
    ResolveClimbs(Render(root), n, rest);
    hide Segs, Resolve, Get, Join, Render;
  }

  /** So a source that climbs out of the package is refused, unless it comes back in, and
      so is one that leads nowhere. */
  lemma ClimbingSourceRefused(h: Host, d: Disk, root: Path, a: JsValue, item: JsValue, n: nat, rest: Path)
    requires IsPath(root) && IsPath(rest) && item.Obj? && TargetWellTyped(item)
    requires Get(item, "source") == Str(Join(seq(n, _ => "..") + rest))
    requires !(root < Climb(root, n) + rest) || !Exists(h, d, Climb(root, n) + rest)
    ensures MapOne(h, d, root, a, item) == Err("manifest-install-source-invalid")
  {
    SourceLeads(root, item, n, rest);
    SourcePathSegs(root, item);
    SourceBelow(root, Segs(SourcePath(root, item)));
    hide Segs, SourcePath, Find, Get, Join, Render;
  }

  // ------------------------------------------------------- one install target

  /** The install target has a source strictly below the root that is there. */
  ghost predicate ItemFits(d: Disk, root: Path, item: JsValue) {
    && item.Obj? && TargetWellTyped(item) && root != []
    && root < Segs(SourcePath(root, item)) && Segs(SourcePath(root, item)) in d
  }

  lemma MapOneFits(h: Host, d: Disk, root: Path, a: JsValue, item: JsValue)
    requires Sound(h) && WellFormed(d) && root in d && d[root] == Dir && NoLinks(d, root)
    ensures MapOne(h, d, root, a, item).Ok? <==> ItemFits(d, root, item)
  {
    if item.Obj? && TargetWellTyped(item) {
      var p := Segs(SourcePath(root, item));
      assert IsPath(root);
      SourcePathSegs(root, item);
      SourceBelow(root, p);
      if root < p {
        StraightBelow(d, root, p);
        FindStraight(h, d, p);
        if p in d {
          SourceMaps(h, d, root, a, Get(item, "target").s, p);
        }
      }
      hide Segs, SourcePath, Get, MapSource, Find, Straight, Render, NoLinks, WellFormed;
    }
  }

  lemma SourceMaps(h: Host, d: Disk, root: Path, a: JsValue, target: string, p: Path)
    requires Sound(h) && WellFormed(d) && NoLinks(d, root) && root < p && p in d && Straight(d, p)
    ensures MapSource(h, d, root, a, target, p).Ok?
  {
    FindStraight(h, d, p);
    assert root + p[|root|..] == p;
    if d[p] == Dir {
      assert NoLinks(d, p);
      ListTreeExact(h, d, p);
    } else {
      FileDigestPresent(h, d, p);
    }
    hide Find, ListTree, Join, NoLinks, WellFormed, Straight;
  }

  lemma {:induction false} MapAllFits(h: Host, d: Disk, root: Path, a: JsValue, items: seq<JsValue>)
    requires Sound(h) && WellFormed(d) && root in d && d[root] == Dir && NoLinks(d, root)
    ensures MapAll(h, d, root, a, items).Ok? <==> forall k :: 0 <= k < |items| ==> ItemFits(d, root, items[k])
  {
    hide MapOne, ItemFits, WellFormed, NoLinks;
    if items != [] {
      var n := |items| - 1;
      MapAllFits(h, d, root, a, items[..n]);
      MapOneFits(h, d, root, a, items[n]);
    }
  }

  // --------------------------------------------------------------- digests

  /** The files that can be installed: artifacts, and the manifest itself. */
  predicate Shippable(s: Path) {
    s == ["manifest.json"] || (s != [] && IsBoundName(s[0]))
  }

  lemma ManifestName()
    ensures IsPath(["manifest.json"]) && Join(["manifest.json"]) == MANIFEST_FILE
  {
    assert forall i :: 0 <= i < |"manifest.json"| ==> "manifest.json"[i] != '/';
    assert IsName("manifest.json");
  }

  lemma DigestThere(h: Host, d: Disk, root: Path, a: JsValue, s: Path)
    requires Sound(h) && WellFormed(d) && RecordsArtifacts(h, d, root, a) && a.Obj? && Distinct(a.entries)
    requires IsFileBelow(d, root, s)
    ensures Truthy(Get(a, Join(s))) <==> s != [] && IsBoundName(s[0])
  {
    RelativeIsPath(d, root, s);
    ArtifactRoots(s);
    hide IsBoundName, IsArtifactPath;
    if IsArtifactPath(s) {
      RecordedIs(h, d, root, a, s);
      assert |h.sha256(d[root + s].data)| == 64;
    } else if Get(a, Join(s)) != Undefined {
      GetIsEntry(a, Join(s));
      var e := Entry(Join(s), Get(a, Join(s)));
      assert RecordsFile(h, d, root, e);
      var r :| IsArtifact(d, root, r) && e == Entry(Join(r), Str(h.sha256(d[root + r].data)));
      RelativeIsPath(d, root, r);
      JoinInjective(r, s);
      assert false;
    }
    hide Get, Join;
  }

  lemma MapOneTruthy(h: Host, d: Disk, root: Path, a: JsValue, item: JsValue, m: Mapping)
    requires Sound(h) && WellFormed(d) && root in d && d[root] == Dir && NoLinks(d, root)
    requires RecordsArtifacts(h, d, root, a) && a.Obj? && Distinct(a.entries)
    requires MapOne(h, d, root, a, item).Ok? && m in MapOne(h, d, root, a, item).value
    ensures Truthy(m.digest) <==> Shippable(m.source)
  {
    MapOneCompiles(h, d, root, a, item);
    var p := Segs(SourcePath(root, item));
    assert MapOne(h, d, root, a, item) == MapSource(h, d, root, a, Get(item, "target").s, p);
    StraightBelow(d, root, p);
    hide *;
    SourceTruthy(h, d, root, a, Get(item, "target").s, p, m);
  }

  lemma SourceTruthy(h: Host, d: Disk, root: Path, a: JsValue, target: string, p: Path, m: Mapping)
    requires Sound(h) && WellFormed(d) && NoLinks(d, root) && root < p && p in d && Straight(d, p)
    requires RecordsArtifacts(h, d, root, a) && a.Obj? && Distinct(a.entries)
    requires MapSource(h, d, root, a, target, p).Ok? && m in MapSource(h, d, root, a, target, p).value
    ensures Truthy(m.digest) <==> Shippable(m.source)
  {
    FindStraight(h, d, p);
    assert root + p[|root|..] == p && p[|root|..] != [];
    assert p[..|p|] == p;
    hide RecordsArtifacts, Truthy, Straight, Get, Join, Shippable;
    if d[p] == Dir {
      assert NoLinks(d, p);
      ListTreeExact(h, d, p);
      var files := WalkFiles(h, d, p).value;
      var ms := DirMappings(a, p[|root|..], target, files);
      var i :| 0 <= i < |ms| && ms[i] == m;
      assert files[i] in files;
      hide ListTree, Find, NoLinks, WellFormed;
      DirTruthy(h, d, root, a, p, files[i], m);
    } else {
      hide Find, NoLinks;
      SingleTruthy(h, d, root, a, p[|root|..], m);
    }
  }

  lemma DirTruthy(h: Host, d: Disk, root: Path, a: JsValue, p: Path, r: Path, m: Mapping)
    requires Sound(h) && WellFormed(d) && RecordsArtifacts(h, d, root, a) && a.Obj? && Distinct(a.entries)
    requires root < p && IsFileBelow(d, p, r) && m.source == p[|root|..] + r && m.digest == Get(a, Join(m.source))
    ensures Truthy(m.digest) <==> Shippable(m.source)
  {
    hide RecordsArtifacts, Get, Join, WellFormed, Truthy, Distinct, IsBoundName;
    assert root + m.source == p + r && |m.source| >= 2;
    DigestThere(h, d, root, a, m.source);
  }

  lemma SingleTruthy(h: Host, d: Disk, root: Path, a: JsValue, s: Path, m: Mapping)
    requires Sound(h) && WellFormed(d) && RecordsArtifacts(h, d, root, a) && a.Obj? && Distinct(a.entries)
    requires s != [] && root + s in d && d[root + s].File? && m.source == s
    requires SourceDigest(h, d, root, a, s) == Ok(m.digest)
    ensures Truthy(m.digest) <==> Shippable(m.source)
  {
    ManifestName();
    RelativeIsPath(d, root, s);
    hide RecordsArtifacts, Get, Distinct, IsBoundName, Join;
    if Join(s) == MANIFEST_FILE {
      JoinInjective(s, ["manifest.json"]);
      FileDigestPresent(h, d, root + s);
      assert |h.sha256(d[root + s].data)| == 64;
    } else {
      assert s != ["manifest.json"];
      DigestThere(h, d, root, a, s);
    }
  }

  lemma {:induction false} MapAllTruthy(h: Host, d: Disk, root: Path, a: JsValue, items: seq<JsValue>)
    requires Sound(h) && WellFormed(d) && root in d && d[root] == Dir && NoLinks(d, root)
    requires RecordsArtifacts(h, d, root, a) && a.Obj? && Distinct(a.entries) && MapAll(h, d, root, a, items).Ok?
    ensures forall m :: m in MapAll(h, d, root, a, items).value ==> (Truthy(m.digest) <==> Shippable(m.source))
  {
    hide MapOne, WellFormed, NoLinks, RecordsArtifacts, Truthy, Shippable, Distinct;
    if items != [] {
      var n := |items| - 1;
      MapAllTruthy(h, d, root, a, items[..n]);
      forall m | m in MapOne(h, d, root, a, items[n]).value ensures Truthy(m.digest) <==> Shippable(m.source) {
        MapOneTruthy(h, d, root, a, items[n], m);
      }
    }
  }

  // ------------------------------------------------------ different targets

  ghost predicate SourcesDiffer(ms: seq<Mapping>) {
    forall i, j :: 0 <= i < j < |ms| ==> ms[i].source != ms[j].source
  }

  /** An install target asks for different files at different targets. */
  ghost predicate AsksOnce(d: Disk, root: Path, item: JsValue) {
    forall s, r, t :: AsksFor(d, root, item, s, t) && AsksFor(d, root, item, r, t) ==> s == r
  }

  lemma DirSourcesDiffer(a: JsValue, source: Path, target: string, files: seq<Path>)
    requires NoRepeats(files)
    ensures SourcesDiffer(DirMappings(a, source, target, files))
  {
    var ms := DirMappings(a, source, target, files);
    forall i, j | 0 <= i < j < |ms| ensures ms[i].source != ms[j].source {
      assert ms[i].source[|source|..] == files[i] && ms[j].source[|source|..] == files[j];
    }
  }

  lemma MapOneSources(h: Host, d: Disk, root: Path, a: JsValue, item: JsValue)
    requires Sound(h) && WellFormed(d) && root in d && d[root] == Dir && NoLinks(d, root)
    requires MapOne(h, d, root, a, item).Ok?
    ensures SourcesDiffer(MapOne(h, d, root, a, item).value)
  {
    MapOneCompiles(h, d, root, a, item);
    var p := Segs(SourcePath(root, item));
    assert MapOne(h, d, root, a, item) == MapSource(h, d, root, a, Get(item, "target").s, p);
    StraightBelow(d, root, p);
    FindStraight(h, d, p);
    hide Segs, SourcePath, Get, Find, Straight, MapOne, Compiled;
    if d[p] == Dir {
      assert NoLinks(d, p);
      ListTreeExact(h, d, p);
      hide ListTree, NoLinks, WellFormed;
      DirSourcesDiffer(a, p[|root|..], Get(item, "target").s, WalkFiles(h, d, p).value);
    }
  }

  lemma DifferIsOnce(ms: seq<Mapping>)
    requires SourcesDiffer(ms)
    ensures TargetsDiffer(ms) <==> forall s, r, t :: Maps(ms, s, t) && Maps(ms, r, t) ==> s == r
  {
    if TargetsDiffer(ms) {
      forall s, r, t | Maps(ms, s, t) && Maps(ms, r, t) ensures s == r {
        var i :| 0 <= i < |ms| && ms[i].source == s && ms[i].target == t;
        var j :| 0 <= j < |ms| && ms[j].source == r && ms[j].target == t;
      }
    }
    if forall s, r, t :: Maps(ms, s, t) && Maps(ms, r, t) ==> s == r {
      forall i, j | 0 <= i < j < |ms| ensures ms[i].target != ms[j].target {
        assert Maps(ms, ms[i].source, ms[i].target) && Maps(ms, ms[j].source, ms[j].target);
      }
    }
  }

  lemma DifferConcat(xs: seq<Mapping>, ys: seq<Mapping>)
    ensures TargetsDiffer(xs + ys) <==>
              && TargetsDiffer(xs) && TargetsDiffer(ys)
              && forall s, r, t :: !(Maps(xs, s, t) && Maps(ys, r, t))
  {
    var zs := xs + ys;
    if TargetsDiffer(zs) {
      forall i, j | 0 <= i < j < |xs| ensures xs[i].target != xs[j].target {
        assert zs[i] == xs[i] && zs[j] == xs[j];
      }
      forall i, j | 0 <= i < j < |ys| ensures ys[i].target != ys[j].target {
        assert zs[|xs| + i] == ys[i] && zs[|xs| + j] == ys[j];
      }
      forall i, j | 0 <= i < |xs| && 0 <= j < |ys| ensures xs[i].target != ys[j].target {
        assert zs[i] == xs[i] && zs[|xs| + j] == ys[j];
      }
    }
    if && TargetsDiffer(xs) && TargetsDiffer(ys) && forall s, r, t :: !(Maps(xs, s, t) && Maps(ys, r, t)) {
      forall i, j | 0 <= i < j < |zs| ensures zs[i].target != zs[j].target {
        if i < |xs| <= j {
          assert Maps(xs, xs[i].source, xs[i].target) && Maps(ys, ys[j - |xs|].source, ys[j - |xs|].target);
        }
      }
    }
  }

  /** No target is asked for twice: not for two files, nor by two install targets. */
  ghost predicate AskedOnce(d: Disk, root: Path, items: seq<JsValue>) {
    forall k, j, s, r, t | 0 <= k < |items| && 0 <= j < |items| ::
      AsksFor(d, root, items[k], s, t) && AsksFor(d, root, items[j], r, t) ==> k == j && s == r
  }

  lemma AskedOnceSplit(d: Disk, root: Path, items: seq<JsValue>)
    requires items != []
    ensures var n := |items| - 1;
            AskedOnce(d, root, items) <==>
              && AskedOnce(d, root, items[..n]) && AsksOnce(d, root, items[n])
              && forall s, r, t :: !(Asked(d, root, items[..n], s, t) && AsksFor(d, root, items[n], r, t))
  {
    hide AsksFor;
    var n := |items| - 1;
    if AskedOnce(d, root, items) {
      assert forall k :: 0 <= k < n ==> items[..n][k] == items[k];
    }
    if && AskedOnce(d, root, items[..n]) && AsksOnce(d, root, items[n])
       && forall s, r, t :: !(Asked(d, root, items[..n], s, t) && AsksFor(d, root, items[n], r, t)) {
      forall k, j, s, r, t | 0 <= k < |items| && 0 <= j < |items|
        && AsksFor(d, root, items[k], s, t) && AsksFor(d, root, items[j], r, t)
        ensures k == j && s == r
      {
        assert k < n ==> items[..n][k] == items[k] && Asked(d, root, items[..n], s, t);
        assert j < n ==> items[..n][j] == items[j] && Asked(d, root, items[..n], r, t);
      }
    }
  }

  lemma {:induction false} MapAllDiffers(h: Host, d: Disk, root: Path, a: JsValue, items: seq<JsValue>)
    requires Sound(h) && WellFormed(d) && root in d && d[root] == Dir && NoLinks(d, root)
    requires MapAll(h, d, root, a, items).Ok?
    ensures TargetsDiffer(MapAll(h, d, root, a, items).value) <==> AskedOnce(d, root, items)
  {
    if items != [] {
      var n := |items| - 1;
      var front, last := MapAll(h, d, root, a, items[..n]).value, MapOne(h, d, root, a, items[n]).value;
      assert MapAll(h, d, root, a, items).value == front + last;
      MapAllDiffers(h, d, root, a, items[..n]);
      MapAllCompiles(h, d, root, a, items[..n]);
      MapOneCompiles(h, d, root, a, items[n]);
      MapOneSources(h, d, root, a, items[n]);
      hide MapAll, MapOne, Asked, AsksFor, Maps, SourcesDiffer, TargetsDiffer, AskedOnce, NoLinks, WellFormed;
      DifferIsOnce(last);
      DifferConcat(front, last);
      AskedOnceSplit(d, root, items);
    }
  }

  // --------------------------------------------------------------- theorem

  /** Install targets can be left out, or be listed. */
  predicate Listable(v: JsValue) {
    v == Undefined || v == Null || v == Str("") || v.Arr?
  }

  function Listed(v: JsValue): seq<JsValue> {
    if v.Arr? then v.items else []
  }

  /** The install targets of an accepted package compile exactly when they are a list,
      each has a source strictly below the root that is there, each file that is asked
      for is an artifact or the manifest and goes to a target that stays inside, and no
      target is asked for twice. */
  lemma CompilesExactly(h: Host, d: Disk, root: Path, m: JsValue)
    requires Sound(h) && WellFormed(d) && root in d && d[root] == Dir && Acceptable(h, d, root, m)
    ensures var v := Get(m, "installTargets");
            CollectMappings(h, d, root, m).Ok? <==>
              && Listable(v)
              && (forall k :: 0 <= k < |Listed(v)| ==> ItemFits(d, root, Listed(v)[k]))
              && (forall s, t :: Asked(d, root, Listed(v), s, t) ==> Shippable(s) && TargetStays(t))
              && AskedOnce(d, root, Listed(v))
  {
    hide *;
    var v, a := Get(m, "installTargets"), Get(m, "artifactDigests");
    AcceptedMap(h, d, root, m);
    ListedIs(m);
    OrderedIsDistinct(a.entries);
    MapAllFits(h, d, root, a, Listed(v));
    if MapAll(h, d, root, a, Listed(v)).Ok? {
      MapAllDiffers(h, d, root, a, Listed(v));
      AllAllowedMeans(h, d, root, a, Listed(v));
    }
    CollectIs(h, d, root, m);
  }

  lemma OrderedIsDistinct(es: seq<Entry>)
    requires Ordered(es)
    ensures Distinct(es)
  {
  }

  lemma ListedIs(m: JsValue)
    ensures var v := Get(m, "installTargets");
            && (InstallTargets(m).Ok? <==> Listable(v))
            && (InstallTargets(m).Ok? ==> InstallTargets(m).value == Listed(v))
  {
    hide Get;
  }

  lemma CollectIs(h: Host, d: Disk, root: Path, m: JsValue)
    ensures CollectMappings(h, d, root, m).Ok? <==>
              && InstallTargets(m).Ok?
              && var ms := MapAll(h, d, root, Get(m, "artifactDigests"), InstallTargets(m).value);
                 ms.Ok? && (forall i :: 0 <= i < |ms.value| ==> MappingAllowed(ms.value[i])) && TargetsDiffer(ms.value)
  {
    hide MapAll, MappingAllowed, TargetsDiffer, SortMappings, InstallTargets, Get;
  }

  lemma AllAllowedMeans(h: Host, d: Disk, root: Path, a: JsValue, items: seq<JsValue>)
    requires Sound(h) && WellFormed(d) && root in d && d[root] == Dir && NoLinks(d, root)
    requires RecordsArtifacts(h, d, root, a) && a.Obj? && Distinct(a.entries) && MapAll(h, d, root, a, items).Ok?
    ensures var ms := MapAll(h, d, root, a, items).value;
            (forall i :: 0 <= i < |ms| ==> MappingAllowed(ms[i])) <==>
            (forall s, t :: Asked(d, root, items, s, t) ==> Shippable(s) && TargetStays(t))
  {
    MapAllTruthy(h, d, root, a, items);
    MapAllCompiles(h, d, root, a, items);
    var ms := MapAll(h, d, root, a, items).value;
    hide MapAll, Asked, Shippable, TargetStays, MappingAllowed, NoLinks, RecordsArtifacts, WellFormed, Truthy, Distinct;
    forall i | 0 <= i < |ms| ensures MappingAllowed(ms[i]) <==> Shippable(ms[i].source) && TargetStays(ms[i].target) {
      MappingAllowedMeans(ms[i]);
      assert ms[i] in ms;
    }
    if forall s, t :: Asked(d, root, items, s, t) ==> Shippable(s) && TargetStays(t) {
      forall i | 0 <= i < |ms| ensures MappingAllowed(ms[i]) {
        assert Maps(ms, ms[i].source, ms[i].target);
      }
    }
  }
}
