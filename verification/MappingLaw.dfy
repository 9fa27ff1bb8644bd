/** Mapping compilation is complete and injective, and the ownership record loses
    nothing. */
module MappingLaw {
  import opened Outcome
  import opened Paths
  import opened PathLemmas
  import opened Hosts
  import opened Json
  import opened JsonParser
  import opened CanonicalJson
  import opened ParsedValues
  import opened Disks
  import opened PathLookup
  import opened Listing
  import opened Manifests
  import opened Artifacts
  import opened ReadManifests
  import opened Mappings

  /** The install target `item` asks for the file `source` at `target`: either it
      names that file, or a directory that the file lies in. */
  ghost predicate AsksFor(d: Disk, root: Path, item: JsValue, source: Path, target: string) {
    && TargetWellTyped(item)
    && var p := Segs(SourcePath(root, item));
       if p in d && d[p] == Dir
       then exists r :: IsFileBelow(d, p, r) && root + source == p + r
                        && target == JoinPath(Get(item, "target").s, Join(r))
       else root + source == p && target == Get(item, "target").s
  }

  // ---------------------------------------------------------------- sources

  /** The string test on the source is containment in the source root. */
  lemma SourceBelow(root: Path, p: Path)
    requires IsPath(root) && IsPath(p)
    ensures StartsWith(Render(p), Render(root) + "/") <==> root != [] && root < p
  {
    if root == [] {
      assert Render(root) + "/" == "//";
      if p != [] {
        JoinNonEmpty(p);
        assert Render(p)[1] != '/';
      }
    } else {
      if root < p {
        JoinAppend(root, p[|root|..]);
        assert root + p[|root|..] == p;
      }
      if StartsWith(Render(p), Render(root) + "/") {
        var tail := Render(p)[|Render(root)| + 1..];
        assert Render(p) == Render(root) + "/" + tail;
        SplitAppend(Render(root), tail);
        PrefixOfSplit(root, p, tail);
      }
    }
  }

  lemma PrefixOfSplit(root: Path, p: Path, tail: string)
    requires IsPath(root) && IsPath(p) && root != []
    requires Split(Render(p)) == Split(Render(root)) + Split(tail)
    ensures root < p
  {
    assert IsName(root[0]);
    SplitRender(root);
    if p == [] {
      SplitSlash();
    } else {
      SplitRender(p);
      assert ([""] + p)[1..] == p;
      assert ([""] + root + Split(tail))[1..] == root + Split(tail);
    }
  }

  lemma SplitSlash()
    ensures Split("/") == ["", ""]
  {
    SplitAppend("", "");
    assert "" + "/" + "" == "/";
  }

  lemma SplitRender(p: Path)
    requires IsPath(p) && p != []
    ensures Split(Render(p)) == [""] + p
  {
    SplitJoin(p);
    SplitAppend("", Join(p));
    assert "" + "/" + Join(p) == Render(p);
  }

  lemma {:induction false} JoinAppend(p: Path, q: Path)
    requires p != [] && q != []
    ensures Join(p + q) == Join(p) + "/" + Join(q)
  {
    if |p| == 1 {
      assert (p + q)[1..] == q;
    } else {
      assert (p + q)[1..] == p[1..] + q;
      JoinAppend(p[1..], q);
    }
  }

  lemma SourcePathSegs(root: Path, item: JsValue)
    requires Get(item, "source").Str?
    ensures IsPath(Segs(SourcePath(root, item)))
    ensures Render(Segs(SourcePath(root, item))) == SourcePath(root, item)
  {
    var s := Get(item, "source").s;
    var q := if IsAbsolute(s) then s else Render(root) + "/" + s;
    SegsIsPath(q);
    RenderSegs(Segs(q));
  }

  // ----------------------------------------------------------- one target

  /** Some mapping takes `source` to `target`. */
  ghost predicate Maps(ms: seq<Mapping>, source: Path, target: string) {
    exists i :: 0 <= i < |ms| && ms[i].source == source && ms[i].target == target
  }

  ghost predicate Compiled(h: Host, d: Disk, root: Path, item: JsValue, ms: seq<Mapping>) {
    forall s, t :: Maps(ms, s, t) <==> AsksFor(d, root, item, s, t)
  }

  lemma DirCompiled(h: Host, d: Disk, root: Path, a: JsValue, item: JsValue, p: Path, files: seq<Path>)
    requires TargetWellTyped(item) && p == Segs(SourcePath(root, item)) && root < p
    requires p in d && d[p] == Dir && ListsFiles(d, p, files)
    ensures Compiled(h, d, root, item, DirMappings(a, p[|root|..], Get(item, "target").s, files))
  {
    var target, source := Get(item, "target").s, p[|root|..];
    var ms := DirMappings(a, source, target, files);
    forall s, t ensures Maps(ms, s, t) <==> AsksFor(d, root, item, s, t) {
      if Maps(ms, s, t) {
        DirMapsAsked(d, root, a, item, p, files, s, t);
      }
      if AsksFor(d, root, item, s, t) {
        DirAskedMaps(d, root, a, item, p, files, s, t);
      }
    }
    hide *;
  }

  lemma DirMapsAsked(d: Disk, root: Path, a: JsValue, item: JsValue, p: Path, files: seq<Path>, s: Path, t: string)
    requires TargetWellTyped(item) && p == Segs(SourcePath(root, item)) && root < p
    requires p in d && d[p] == Dir && ListsFiles(d, p, files)
    requires Maps(DirMappings(a, p[|root|..], Get(item, "target").s, files), s, t)
    ensures AsksFor(d, root, item, s, t)
  {
    hide Get, JoinPath, Join, Segs, SourcePath;
    var source := p[|root|..];
    var ms := DirMappings(a, source, Get(item, "target").s, files);
    var i :| 0 <= i < |ms| && ms[i].source == s && ms[i].target == t;
    var r := files[i];
    assert r in files;
    assert root + (source + r) == p + r;
    assert IsFileBelow(d, p, r) && root + s == p + r && t == JoinPath(Get(item, "target").s, Join(r));
  }

  lemma DirAskedMaps(d: Disk, root: Path, a: JsValue, item: JsValue, p: Path, files: seq<Path>, s: Path, t: string)
    requires TargetWellTyped(item) && p == Segs(SourcePath(root, item)) && root < p
    requires p in d && d[p] == Dir && ListsFiles(d, p, files)
    requires AsksFor(d, root, item, s, t)
    ensures Maps(DirMappings(a, p[|root|..], Get(item, "target").s, files), s, t)
  {
    hide Get, JoinPath, Join, Segs, SourcePath;
    var source, target := p[|root|..], Get(item, "target").s;
    var ms := DirMappings(a, source, target, files);
    var r :| IsFileBelow(d, p, r) && root + s == p + r && t == JoinPath(target, Join(r));
    assert r in files;
    var i :| 0 <= i < |files| && files[i] == r;
    assert s == (root + s)[|root|..] && source + r == (p + r)[|root|..];
    assert ms[i] == DirMapping(a, source, target, r);
  }

  lemma MapOneCompiles(h: Host, d: Disk, root: Path, a: JsValue, item: JsValue)
    requires Sound(h) && WellFormed(d) && root in d && d[root] == Dir && NoLinks(d, root)
    requires MapOne(h, d, root, a, item).Ok?
    ensures Compiled(h, d, root, item, MapOne(h, d, root, a, item).value)
    ensures root < Segs(SourcePath(root, item)) && Segs(SourcePath(root, item)) in d
  {
    var p := Segs(SourcePath(root, item));
    SourcePathSegs(root, item);
    SourceBelow(root, p);
    StraightBelow(d, root, p);
    FindStraight(h, d, p);
    if d[p] == Dir {
      assert NoLinks(d, p);
      ListTreeExact(h, d, p);
      DirCompiled(h, d, root, a, item, p, WalkFiles(h, d, p).value);
    } else {
      var ms := MapOne(h, d, root, a, item).value;
      FileCompiled(h, d, root, item, p, ms);
    }
  }

  lemma FileCompiled(h: Host, d: Disk, root: Path, item: JsValue, p: Path, ms: seq<Mapping>)
    requires TargetWellTyped(item) && p == Segs(SourcePath(root, item)) && root < p
    requires p in d && d[p] != Dir && |ms| == 1
    requires ms[0].source == p[|root|..] && ms[0].target == Get(item, "target").s
    ensures Compiled(h, d, root, item, ms)
  {
    hide Get;
    assert root + p[|root|..] == p;
    forall s, t ensures Maps(ms, s, t) <==> AsksFor(d, root, item, s, t) {
      assert Maps(ms, s, t) <==> ms[0].source == s && ms[0].target == t;
      assert root + s == p ==> s == (root + s)[|root|..];
    }
  }

  // ---------------------------------------------------------- all targets

  /** Some install target asks for the pair. */
  ghost predicate Asked(d: Disk, root: Path, items: seq<JsValue>, source: Path, target: string) {
    exists k :: 0 <= k < |items| && AsksFor(d, root, items[k], source, target)
  }

  lemma AskedSplit(d: Disk, root: Path, items: seq<JsValue>, s: Path, t: string)
    requires items != []
    ensures var n := |items| - 1;
            Asked(d, root, items, s, t) <==> Asked(d, root, items[..n], s, t) || AsksFor(d, root, items[n], s, t)
  {
    hide AsksFor;
    var n := |items| - 1;
    assert forall k :: 0 <= k < n ==> items[..n][k] == items[k];
  }

  lemma {:induction false} MapAllCompiles(h: Host, d: Disk, root: Path, a: JsValue, items: seq<JsValue>)
    requires Sound(h) && WellFormed(d) && root in d && d[root] == Dir && NoLinks(d, root)
    requires MapAll(h, d, root, a, items).Ok?
    ensures forall s, t :: Maps(MapAll(h, d, root, a, items).value, s, t) <==> Asked(d, root, items, s, t)
  {
    if items == [] {
      hide AsksFor;
    } else {
      var n := |items| - 1;
      MapAllCompiles(h, d, root, a, items[..n]);
      MapOneCompiles(h, d, root, a, items[n]);
      var front, last := MapAll(h, d, root, a, items[..n]).value, MapOne(h, d, root, a, items[n]).value;
      assert MapAll(h, d, root, a, items).value == front + last;
      hide MapAll, MapOne, Asked, AsksFor, Maps;
      forall s, t ensures Maps(front + last, s, t) <==> Asked(d, root, items, s, t) {
        MapsConcat(front, last, s, t);
        AskedSplit(d, root, items, s, t);
      }
    }
  }

  lemma MapsConcat(xs: seq<Mapping>, ys: seq<Mapping>, s: Path, t: string)
    ensures Maps(xs + ys, s, t) <==> Maps(xs, s, t) || Maps(ys, s, t)
  {
    var zs := xs + ys;
    if Maps(xs, s, t) {
      var i :| 0 <= i < |xs| && xs[i].source == s && xs[i].target == t;
      assert zs[i] == xs[i];
    }
    if Maps(ys, s, t) {
      var i :| 0 <= i < |ys| && ys[i].source == s && ys[i].target == t;
      assert zs[|xs| + i] == ys[i];
    }
  }

  lemma {:induction false} InsertKeeps(h: Host, m: Mapping, ms: seq<Mapping>)
    ensures multiset(InsertMapping(h, m, ms)) == multiset{m} + multiset(ms)
  {
    if ms != [] && !h.before(m.target, ms[0].target) {
      InsertKeeps(h, m, ms[1..]);
      assert ms == [ms[0]] + ms[1..];
    }
  }

  lemma {:induction false} SortKeeps(h: Host, ms: seq<Mapping>)
    ensures multiset(SortMappings(h, ms)) == multiset(ms)
  {
    if ms != [] {
      SortKeeps(h, ms[1..]);
      InsertKeeps(h, ms[0], SortMappings(h, ms[1..]));
      assert ms == [ms[0]] + ms[1..];
    }
  }

  /** `localeCompare` orders all strings. */
  ghost predicate LocaleOrders(h: Host) {
    && (forall a, b :: h.before(a, b) || h.before(b, a))
    && (forall a, b, c :: h.before(a, b) && h.before(b, c) ==> h.before(a, c))
  }

  ghost predicate TargetsSorted(h: Host, ms: seq<Mapping>) {
    forall i, j :: 0 <= i < j < |ms| ==> h.before(ms[i].target, ms[j].target)
  }

  lemma {:induction false} InsertSortedMapping(h: Host, m: Mapping, ms: seq<Mapping>)
    requires LocaleOrders(h) && TargetsSorted(h, ms)
    ensures TargetsSorted(h, InsertMapping(h, m, ms))
  {
    if ms != [] && !h.before(m.target, ms[0].target) {
      InsertSortedMapping(h, m, ms[1..]);
      InsertKeeps(h, m, ms[1..]);
      var r := InsertMapping(h, m, ms[1..]);
      forall j | 0 <= j < |r| ensures h.before(ms[0].target, r[j].target) {
        assert r[j] in multiset(r);
        assert r[j] == m || r[j] in ms[1..];
      }
    }
  }

  lemma {:induction false} SortSortsMappings(h: Host, ms: seq<Mapping>)
    requires LocaleOrders(h)
    ensures TargetsSorted(h, SortMappings(h, ms))
  {
    if ms != [] {
      SortSortsMappings(h, ms[1..]);
      InsertSortedMapping(h, ms[0], SortMappings(h, ms[1..]));
    }
  }

  lemma SameMultisetMaps(xs: seq<Mapping>, ys: seq<Mapping>, s: Path, t: string)
    requires multiset(xs) == multiset(ys)
    ensures Maps(xs, s, t) ==> Maps(ys, s, t)
  {
    if Maps(xs, s, t) {
      var i :| 0 <= i < |xs| && xs[i].source == s && xs[i].target == t;
      assert xs[i] in multiset(ys);
      var j :| 0 <= j < |ys| && ys[j] == xs[i];
    }
  }

  lemma {:induction false} InsertDiffers(h: Host, m: Mapping, ms: seq<Mapping>)
    requires TargetsDiffer(ms) && forall i :: 0 <= i < |ms| ==> ms[i].target != m.target
    ensures TargetsDiffer(InsertMapping(h, m, ms))
  {
    if ms != [] && !h.before(m.target, ms[0].target) {
      InsertDiffers(h, m, ms[1..]);
      InsertKeeps(h, m, ms[1..]);
      var r := InsertMapping(h, m, ms[1..]);
      forall j | 0 <= j < |r| ensures ms[0].target != r[j].target {
        assert r[j] in multiset(r);
        assert r[j] == m || r[j] in ms[1..];
      }
    }
  }

  lemma {:induction false} SortDiffers(h: Host, ms: seq<Mapping>)
    requires TargetsDiffer(ms)
    ensures TargetsDiffer(SortMappings(h, ms))
  {
    if ms != [] {
      SortDiffers(h, ms[1..]);
      SortKeeps(h, ms[1..]);
      var r := SortMappings(h, ms[1..]);
      forall j | 0 <= j < |r| ensures r[j].target != ms[0].target {
        assert r[j] in multiset(ms[1..]);
      }
      InsertDiffers(h, ms[0], r);
    }
  }

  // ---------------------------------------------------------------- digests

  /** The mapping carries the digest of the content of its source file. */
  ghost predicate CarriesContent(h: Host, d: Disk, root: Path, m: Mapping) {
    && IsFileBelow(d, root, m.source)
    && m.digest == Str(h.sha256(d[root + m.source].data))
  }

  /** A recorded path is a file, and its digest is that of its content. */
  lemma RecordedContent(h: Host, d: Disk, root: Path, a: JsValue, source: Path)
    requires WellFormed(d) && RecordsArtifacts(h, d, root, a) && Distinct(a.entries) && IsPath(source)
    requires Get(a, Join(source)) != Undefined
    ensures IsFileBelow(d, root, source)
    ensures Get(a, Join(source)) == Str(h.sha256(d[root + source].data))
  {
    GetIsEntry(a, Join(source));
    var e := Entry(Join(source), Get(a, Join(source)));
    assert RecordsFile(h, d, root, e);
    var r :| IsArtifact(d, root, r) && e == Entry(Join(r), Str(h.sha256(d[root + r].data)));
    RelativeIsPath(d, root, r);
    JoinInjective(r, source);
  }

  lemma MapOneCarries(h: Host, d: Disk, root: Path, a: JsValue, item: JsValue, i: nat)
    requires Sound(h) && WellFormed(d) && root in d && d[root] == Dir && NoLinks(d, root)
    requires RecordsArtifacts(h, d, root, a) && Distinct(a.entries)
    requires MapOne(h, d, root, a, item).Ok? && i < |MapOne(h, d, root, a, item).value|
    ensures var m := MapOne(h, d, root, a, item).value[i];
            Truthy(m.digest) ==> CarriesContent(h, d, root, m)
  {
    MapOneCompiles(h, d, root, a, item);
    var p := Segs(SourcePath(root, item));
    assert MapOne(h, d, root, a, item) == MapSource(h, d, root, a, Get(item, "target").s, p);
    hide *;
    StraightBelow(d, root, p);
    MapSourceCarries(h, d, root, a, Get(item, "target").s, p, i);
  }

  lemma MapSourceCarries(h: Host, d: Disk, root: Path, a: JsValue, target: string, p: Path, i: nat)
    requires Sound(h) && WellFormed(d) && RecordsArtifacts(h, d, root, a) && Distinct(a.entries)
    requires root < p && p in d && Straight(d, p)
    requires MapSource(h, d, root, a, target, p).Ok? && i < |MapSource(h, d, root, a, target, p).value|
    ensures var m := MapSource(h, d, root, a, target, p).value[i];
            Truthy(m.digest) ==> CarriesContent(h, d, root, m)
  {
    FindStraight(h, d, p);
    assert root + p[|root|..] == p;
    assert !d[p].Link? by {
      assert p[..|p|] == p;
    }
    hide RecordsArtifacts, Truthy, CarriesContent, WellFormed, Straight, Get;
    var m := MapSource(h, d, root, a, target, p).value[i];
    if Truthy(m.digest) {
      if d[p] == Dir {
        ListTreeExact(h, d, p);
        var files := WalkFiles(h, d, p).value;
        assert files[i] in files;
        DirCarries(h, d, root, a, p, files[i], m);
      } else {
        SingleCarries(h, d, root, a, p[|root|..], m);
      }
    }
  }

  lemma DirCarries(h: Host, d: Disk, root: Path, a: JsValue, p: Path, r: Path, m: Mapping)
    requires WellFormed(d) && RecordsArtifacts(h, d, root, a) && Distinct(a.entries)
    requires root < p && IsFileBelow(d, p, r)
    requires m.source == p[|root|..] + r && m.digest == Get(a, Join(m.source)) && Truthy(m.digest)
    ensures CarriesContent(h, d, root, m)
  {
    hide RecordsArtifacts, Get, Join, WellFormed, Truthy, Distinct;
    assert root + m.source == p + r;
    RelativeIsPath(d, root, m.source);
    assert Get(a, Join(m.source)) != Undefined by {
      UndefinedIsFalsy(m.digest);
    }
    RecordedContent(h, d, root, a, m.source);
  }

  lemma UndefinedIsFalsy(v: JsValue)
    ensures Truthy(v) ==> v != Undefined
  {
  }

  lemma SingleCarries(h: Host, d: Disk, root: Path, a: JsValue, source: Path, m: Mapping)
    requires WellFormed(d) && RecordsArtifacts(h, d, root, a) && Distinct(a.entries)
    requires source != [] && root + source in d && d[root + source].File?
    requires SourceDigest(h, d, root, a, source) == Ok(m.digest) && m.source == source && Truthy(m.digest)
    ensures CarriesContent(h, d, root, m)
  {
    RelativeIsPath(d, root, source);
    if Join(source) == MANIFEST_FILE {
      FileDigestPresent(h, d, root + source);
    } else {
      RecordedContent(h, d, root, a, source);
    }
  }

  lemma {:induction false} MapAllCarries(h: Host, d: Disk, root: Path, a: JsValue, items: seq<JsValue>, m: Mapping)
    requires Sound(h) && WellFormed(d) && root in d && d[root] == Dir && NoLinks(d, root)
    requires RecordsArtifacts(h, d, root, a) && Distinct(a.entries)
    requires MapAll(h, d, root, a, items).Ok? && m in MapAll(h, d, root, a, items).value && Truthy(m.digest)
    ensures CarriesContent(h, d, root, m)
  {
    hide MapOne, CarriesContent, RecordsArtifacts, NoLinks, WellFormed;
    if items != [] {
      var n := |items| - 1;
      var last := MapOne(h, d, root, a, items[n]).value;
      if m in last {
        var i :| 0 <= i < |last| && last[i] == m;
        MapOneCarries(h, d, root, a, items[n], i);
      } else {
        MapAllCarries(h, d, root, a, items[..n], m);
      }
    }
  }

  // ------------------------------------------------------------------ theorem

  lemma AcceptedMap(h: Host, d: Disk, root: Path, m: JsValue)
    requires Sound(h) && WellFormed(d) && Acceptable(h, d, root, m)
    ensures var a := Get(m, "artifactDigests");
            RecordsArtifacts(h, d, root, a) && a.Obj? && Ordered(a.entries)
    ensures Proper(h, m) && Defined(m) && NoLinks(d, root)
  {
    hide BindsFields, BindsFiles, BindsAgents, NoLinks, ReadFile, Parse, Digest, RecordsArtifacts;
    ParseManifestProper(h, d, root);
    GetProper(h, m, "artifactDigests");
    RecordsIsObject(h, d, root, Get(m, "artifactDigests"));
  }

  lemma RecordsIsObject(h: Host, d: Disk, root: Path, a: JsValue)
    requires RecordsArtifacts(h, d, root, a)
    ensures a.Obj?
  {
  }

  /** Under an accepted manifest the compiled mappings are exactly the pairs that
      the install targets ask for, with the digest of each source file, to
      different targets in sorted order. */
  lemma MappingsComplete(h: Host, d: Disk, root: Path, m: JsValue)
    requires Sound(h) && WellFormed(d) && root in d && d[root] == Dir
    requires Acceptable(h, d, root, m) && CollectMappings(h, d, root, m).Ok?
    ensures InstallTargets(m).Ok?
    ensures var items, ms := InstallTargets(m).value, CollectMappings(h, d, root, m).value;
            && (forall s, t :: Maps(ms, s, t) <==> Asked(d, root, items, s, t))
            && (forall x :: x in ms ==> MappingAllowed(x) && CarriesContent(h, d, root, x))
            && TargetsDiffer(ms)
            && (LocaleOrders(h) ==> TargetsSorted(h, ms))
  {
    AcceptedMap(h, d, root, m);
    hide Acceptable, CarriesContent, AsksFor, Asked, Maps, MapAll, SortMappings, NoLinks, RecordsArtifacts, Get,
      WellFormed, MappingAllowed;
    var a, items := Get(m, "artifactDigests"), InstallTargets(m).value;
    var xs, ms := MapAll(h, d, root, a, items).value, CollectMappings(h, d, root, m).value;
    MapAllCompiles(h, d, root, a, items);
    SortKeeps(h, xs);
    SortDiffers(h, xs);
    if LocaleOrders(h) {
      SortSortsMappings(h, xs);
    }
    forall s, t ensures Maps(ms, s, t) <==> Maps(xs, s, t) {
      SameMultisetMaps(xs, ms, s, t);
      SameMultisetMaps(ms, xs, s, t);
    }
    forall x | x in ms ensures MappingAllowed(x) && CarriesContent(h, d, root, x) {
      assert x in multiset(ms);
      assert x in xs;
      assert MappingAllowed(x);
      AllowedIsTruthy(x);
      MapAllCarries(h, d, root, a, items, x);
    }
  }

  lemma AllowedIsTruthy(m: Mapping)
    requires MappingAllowed(m)
    ensures Truthy(m.digest)
  {
  }

  // ---------------------------------------------------------------- ownership

  lemma FileEntriesDistinct(ms: seq<Mapping>)
    requires TargetsDiffer(ms)
    ensures Distinct(FileEntries(ms))
  {
  }

  /** `ownership.files` has one entry for each mapping and no other. */
  lemma OwnershipFiles(ms: seq<Mapping>)
    requires TargetsDiffer(ms)
    ensures var fs := FromEntries(FileEntries(ms));
            && Ordered(fs) && |fs| == |ms|
            && forall e :: e in fs <==> exists i :: 0 <= i < |ms| && e == Entry(ms[i].target, ms[i].digest)
  {
    var es := FileEntries(ms);
    var fs := FromEntries(es);
    FileEntriesDistinct(ms);
    FromDistinct(es);
    assert |multiset(fs)| == |multiset(es)|;
    hide FromEntries, Ordered;
    forall e ensures e in fs <==> exists i :: 0 <= i < |ms| && e == Entry(ms[i].target, ms[i].digest) {
      assert e in fs <==> e in multiset(fs);
      assert e in es <==> e in multiset(es);
      if e in es {
        var i :| 0 <= i < |es| && es[i] == e;
      }
      if i :| 0 <= i < |ms| && e == Entry(ms[i].target, ms[i].digest) {
        assert es[i] == e;
      }
    }
  }
}
