/** `verifyInstalled`: an installed tree is accepted exactly when it is the
    expected one. */
module InstalledTrees {
  import opened Outcome
  import opened Paths
  import opened PathLemmas
  import opened Hosts
  import opened Json
  import opened JsonParser
  import opened JsonRoundTrip
  import opened CanonicalJson
  import opened CanonicalLaw
  import opened ParsedValues
  import opened Disks
  import opened PathLookup
  import opened Listing
  import opened Manifests
  import opened Artifacts
  import opened ReadManifests
  import opened Mappings
  import opened MappingLaw

  /** Some mapping installs the file with the relative path `r`. */
  ghost predicate IsTarget(ms: seq<Mapping>, r: Path) {
    exists i :: 0 <= i < |ms| && ms[i].target == Join(r)
  }

  ghost predicate IsTargetPath(ms: seq<Mapping>, r: Path) {
    r != [] && IsPath(r) && IsTarget(ms, r)
  }

  /** The target is written as a normalised relative path. */
  ghost predicate NamesPath(m: Mapping) {
    exists r :: IsPath(r) && r != [] && m.target == Join(r)
  }

  ghost predicate NamesFile(d: Disk, root: Path, m: Mapping) {
    exists r :: IsPath(r) && IsFileBelow(d, root, r) && m.target == Join(r)
  }

  /** The mapping's target is the relative path of a file with its digest. */
  ghost predicate Delivered(h: Host, d: Disk, root: Path, m: Mapping) {
    exists r :: m.target == Join(r) && IsFileBelow(d, root, r) && Str(h.sha256(d[root + r].data)) == m.digest
  }

  /** The ownership record on disk says what the expected one says. */
  ghost predicate Owned(h: Host, d: Disk, file: Path, ownership: JsValue) {
    && file in d && d[file].File?
    && var v := Parse(h, h.decode(d[file].data));
       v.Some? && Printed(Meaning(v.value)) == Printed(Meaning(ownership))
  }

  /** The files that the record and the mappings prescribe, and their digests. */
  ghost predicate FilesExact(h: Host, d: Disk, root: Path, ms: seq<Mapping>) {
    && (forall r :: IsFileBelow(d, root, r) <==> r == [OWNERSHIP_FILE] || IsTargetPath(ms, r))
    && (forall i :: 0 <= i < |ms| ==> Delivered(h, d, root, ms[i]))
  }

  /** The tree at `root` is the installation `x`: no link, the ownership record,
      each mapped file with its content digest, and no other file. */
  ghost predicate ExactlyInstalled(h: Host, d: Disk, root: Path, x: Expected) {
    && NoLinks(d, root)
    && Owned(h, d, root + [OWNERSHIP_FILE], x.ownership)
    && FilesExact(h, d, root, x.mappings)
  }

  // ------------------------------------------------------- the expected files

  /** `new Set([...Object.keys(ownership.files), OWNERSHIP_FILE])`. */
  function ExpectedFiles(es: seq<Entry>): set<string> {
    (set i | 0 <= i < |es| :: es[i].key) + {OWNERSHIP_FILE}
  }

  function StringSet(ss: seq<string>): (r: set<string>)
    ensures forall s :: s in r <==> s in ss
  {
    set s | s in ss
  }

  lemma {:induction false} DistinctCount(ss: seq<string>)
    requires forall i, j :: 0 <= i < j < |ss| ==> ss[i] != ss[j]
    ensures |StringSet(ss)| == |ss|
  {
    if ss != [] {
      DistinctCount(ss[1..]);
      assert StringSet(ss) == {ss[0]} + StringSet(ss[1..]);
      assert forall i :: 0 <= i < |ss[1..]| ==> ss[1..][i] == ss[i + 1];
    }
  }

  lemma SubsetSameSize<T>(a: set<T>, b: set<T>)
    requires a <= b && |a| == |b|
    ensures a == b
  {
    assert b == a + (b - a);
  }

  /** Listing without repetition, the right length and membership give equality. */
  lemma Pigeonhole(ss: seq<string>, expected: set<string>)
    requires forall i, j :: 0 <= i < j < |ss| ==> ss[i] != ss[j]
    ensures StringSet(ss) == expected <==> |ss| == |expected| && forall i :: 0 <= i < |ss| ==> ss[i] in expected
  {
    DistinctCount(ss);
    if |ss| == |expected| && forall i :: 0 <= i < |ss| ==> ss[i] in expected {
      SubsetSameSize(StringSet(ss), expected);
    }
    if StringSet(ss) == expected {
      assert forall i :: 0 <= i < |ss| ==> ss[i] in StringSet(ss);
    }
  }

  function RelativeNames(ps: seq<Path>): (ss: seq<string>)
    ensures |ss| == |ps| && forall i :: 0 <= i < |ps| ==> ss[i] == Join(ps[i])
  {
    seq(|ps|, i requires 0 <= i < |ps| => Join(ps[i]))
  }

  lemma RelativeNamesDiffer(d: Disk, root: Path, ps: seq<Path>)
    requires WellFormed(d) && ListsFiles(d, root, ps)
    ensures var ss := RelativeNames(ps); forall i, j :: 0 <= i < j < |ss| ==> ss[i] != ss[j]
  {
    forall i, j | 0 <= i < j < |ps| ensures Join(ps[i]) != Join(ps[j]) {
      assert ps[i] in ps && ps[j] in ps;
      DifferentKeys(d, root, ps[i], ps[j]);
    }
  }

  /** The names listed are the expected ones exactly when the files are. */
  lemma SameFiles(d: Disk, root: Path, ms: seq<Mapping>, es: seq<Entry>, ps: seq<Path>)
    requires WellFormed(d) && ListsFiles(d, root, ps)
    requires forall e :: e in es <==> exists i :: 0 <= i < |ms| && e == Entry(ms[i].target, ms[i].digest)
    ensures StringSet(RelativeNames(ps)) == ExpectedFiles(es) <==>
              && (forall r :: IsFileBelow(d, root, r) <==> r == [OWNERSHIP_FILE] || IsTargetPath(ms, r))
              && (forall i :: 0 <= i < |ms| ==> NamesPath(ms[i]))
  {
    var names, expected := StringSet(RelativeNames(ps)), ExpectedFiles(es);
    ExpectedMembers(ms, es);
    ListedMembers(d, root, ps);
    OwnershipName();
    hide ExpectedFiles, StringSet, ListsFiles, Join, OWNERSHIP_FILE;
    if names == expected {
      forall r ensures IsFileBelow(d, root, r) <==> r == [OWNERSHIP_FILE] || IsTargetPath(ms, r) {
        ExpectedThenListed(d, root, ms, names, r);
      }
      forall i | 0 <= i < |ms| ensures NamesPath(ms[i]) {
        assert ms[i].target in names;
        var r :| IsFileBelow(d, root, r) && Join(r) == ms[i].target;
        RelativeIsPath(d, root, r);
      }
    }
    if && (forall r :: IsFileBelow(d, root, r) <==> r == [OWNERSHIP_FILE] || IsTargetPath(ms, r))
       && (forall i :: 0 <= i < |ms| ==> NamesPath(ms[i])) {
      forall s ensures s in names <==> s in expected {
        ListedThenExpected(d, root, ms, names, expected, s);
      }
    }
  }

  lemma OwnershipName()
    ensures IsName(OWNERSHIP_FILE) && Join([OWNERSHIP_FILE]) == OWNERSHIP_FILE
  {
    assert forall i :: 0 <= i < |OWNERSHIP_FILE| ==> OWNERSHIP_FILE[i] != '/';
  }

  lemma ExpectedMembers(ms: seq<Mapping>, es: seq<Entry>)
    requires forall e :: e in es <==> exists i :: 0 <= i < |ms| && e == Entry(ms[i].target, ms[i].digest)
    ensures forall s :: s in ExpectedFiles(es) <==>
              s == OWNERSHIP_FILE || exists i :: 0 <= i < |ms| && ms[i].target == s
  {
    forall s ensures s in ExpectedFiles(es) <==> s == OWNERSHIP_FILE || exists i :: 0 <= i < |ms| && ms[i].target == s {
      if j :| 0 <= j < |es| && es[j].key == s {
        assert es[j] in es;
      }
      if i :| 0 <= i < |ms| && ms[i].target == s {
        assert Entry(ms[i].target, ms[i].digest) in es;
        var j :| 0 <= j < |es| && es[j] == Entry(ms[i].target, ms[i].digest);
        assert es[j].key == s;
      }
    }
  }

  lemma ListedMembers(d: Disk, root: Path, ps: seq<Path>)
    requires ListsFiles(d, root, ps)
    ensures forall s :: s in StringSet(RelativeNames(ps)) <==> exists r :: IsFileBelow(d, root, r) && Join(r) == s
  {
    var ss := RelativeNames(ps);
    forall s ensures s in ss <==> exists r :: IsFileBelow(d, root, r) && Join(r) == s {
      if s in ss {
        var i :| 0 <= i < |ss| && ss[i] == s;
        assert ps[i] in ps;
      }
      if r :| IsFileBelow(d, root, r) && Join(r) == s {
        assert r in ps;
        var i :| 0 <= i < |ps| && ps[i] == r;
        assert ss[i] == s;
      }
    }
  }

  lemma ExpectedThenListed(d: Disk, root: Path, ms: seq<Mapping>, names: set<string>, r: Path)
    requires WellFormed(d)
    requires forall s :: s in names <==> exists q :: IsFileBelow(d, root, q) && Join(q) == s
    requires forall s :: s in names <==> s == OWNERSHIP_FILE || exists i :: 0 <= i < |ms| && ms[i].target == s
    requires IsName(OWNERSHIP_FILE) && Join([OWNERSHIP_FILE]) == OWNERSHIP_FILE
    ensures IsFileBelow(d, root, r) <==> r == [OWNERSHIP_FILE] || IsTargetPath(ms, r)
  {
    hide Join, OWNERSHIP_FILE;
    if IsFileBelow(d, root, r) {
      RelativeIsPath(d, root, r);
      assert Join(r) in names;
      if Join(r) == OWNERSHIP_FILE {
        JoinInjective(r, [OWNERSHIP_FILE]);
      }
    }
    if r == [OWNERSHIP_FILE] || IsTargetPath(ms, r) {
      assert Join(r) in names;
      var q :| IsFileBelow(d, root, q) && Join(q) == Join(r);
      RelativeIsPath(d, root, q);
      JoinInjective(q, r);
    }
  }

  lemma ListedThenExpected(d: Disk, root: Path, ms: seq<Mapping>, names: set<string>, expected: set<string>, s: string)
    requires WellFormed(d)
    requires forall t :: t in names <==> exists q :: IsFileBelow(d, root, q) && Join(q) == t
    requires forall t :: t in expected <==> t == OWNERSHIP_FILE || exists i :: 0 <= i < |ms| && ms[i].target == t
    requires IsName(OWNERSHIP_FILE) && Join([OWNERSHIP_FILE]) == OWNERSHIP_FILE
    requires forall r :: IsFileBelow(d, root, r) <==> r == [OWNERSHIP_FILE] || IsTargetPath(ms, r)
    requires forall i :: 0 <= i < |ms| ==> NamesPath(ms[i])
    ensures s in names <==> s in expected
  {
    hide Join, OWNERSHIP_FILE;
    if s in names {
      var q :| IsFileBelow(d, root, q) && Join(q) == s;
    }
    if s in expected {
      if s == OWNERSHIP_FILE {
        assert IsFileBelow(d, root, [OWNERSHIP_FILE]);
      } else {
        var i :| 0 <= i < |ms| && ms[i].target == s;
        var r :| IsPath(r) && r != [] && ms[i].target == Join(r);
        assert IsTarget(ms, r);
      }
    }
  }

  // ------------------------------------------------------ the ownership record

  lemma {:induction false} FromProper(h: Host, es: seq<Entry>)
    requires forall i :: 0 <= i < |es| ==> Proper(h, es[i].value)
    ensures Proper(h, Obj(FromEntries(es)))
  {
    if es != [] {
      var n := |es| - 1;
      FromProper(h, es[..n]);
      var front := FromEntries(es[..n]);
      PutOrdered(front, es[n].key, es[n].value);
      var r := Put(front, es[n].key, es[n].value);
      forall i | 0 <= i < |r| ensures Proper(h, r[i].value) {
        PutMembers(front, es[n].key, es[n].value, r[i]);
      }
    }
  }

  lemma OwnershipOrdered(m: JsValue, ms: seq<Mapping>, e: Entry)
    requires e.key == "installDigest"
    ensures Ordered(OwnershipEntries(m, ms) + [e])
  {
    var es := OwnershipEntries(m, ms) + [e];
    hide Get, FromEntries;
    assert |"schema"| == 6 && |"packageIdentity"| == 15 && |"packageVersion"| == 14 && |"manifestDigest"| == 14
        && |"sourceTreeDigest"| == 16 && |"files"| == 5 && |"installDigest"| == 13;
    assert "packageVersion"[0] == 'p' && "manifestDigest"[0] == 'm';
    assert !IsDigit("schema"[0]) && !IsDigit("files"[0]);
    forall i, j | 0 <= i < j < |es|
      ensures es[i].key != es[j].key
      ensures !IsIndex(es[j].key)
    {
    }
  }

  /** The installation record before its own digest is added. */
  function OwnershipRecord(m: JsValue, ms: seq<Mapping>): JsValue {
    Obj(OwnershipEntries(m, ms))
  }

  lemma OwnershipForm(h: Host, m: JsValue, ms: seq<Mapping>)
    ensures var e := Entry("installDigest", Str(Digest(h, OwnershipRecord(m, ms))));
            && OwnershipBody(h, m, ms) == Obj(OwnershipEntries(m, ms) + [e])
            && Ordered(OwnershipEntries(m, ms) + [e])
  {
    var es := OwnershipEntries(m, ms);
    var e := Entry("installDigest", Str(Digest(h, OwnershipRecord(m, ms))));
    OwnershipOrdered(m, ms, e);
    hide OwnershipEntries, Digest;
    OrderedPrefix(es + [e], |es|);
    assert (es + [e])[..|es|] == es;
    FromEntriesOrdered(es);
    PutLast(es, e);
  }

  lemma OwnershipHasFiles(h: Host, m: JsValue, ms: seq<Mapping>)
    ensures Get(OwnershipBody(h, m, ms), "files") == Obj(FromEntries(FileEntries(ms)))
  {
    OwnershipForm(h, m, ms);
    var es := OwnershipEntries(m, ms) + [Entry("installDigest", Str(Digest(h, OwnershipRecord(m, ms))))];
    assert es[5] == Entry("files", Obj(FromEntries(FileEntries(ms))));
    hide OwnershipEntries, OwnershipBody, Digest, FromEntries, FileEntries, OwnershipRecord;
    LookupFinds(es, es[5]);
  }

  lemma OwnershipProper(h: Host, m: JsValue, ms: seq<Mapping>)
    requires Proper(h, m) && Defined(m)
    requires forall x :: x in ms ==> x.digest.Str?
    ensures Proper(h, OwnershipBody(h, m, ms))
  {
    OwnershipForm(h, m, ms);
    var es := OwnershipEntries(m, ms);
    var fs := FileEntries(ms);
    forall i | 0 <= i < |fs| ensures Proper(h, fs[i].value) {
      assert ms[i] in ms;
    }
    FromProper(h, fs);
    GetProper(h, m, "packageIdentity");
    GetProper(h, m, "packageVersion");
    GetProper(h, m, "manifestDigest");
    GetProper(h, m, "sourceTreeDigest");
    hide FromEntries, FileEntries, Digest, Get, OwnershipBody;
    forall i | 0 <= i < |es| ensures Proper(h, es[i].value) {
    }
  }

  lemma ExpectedShape(h: Host, d: Disk, source: Path, x: Expected)
    requires Sound(h) && WellFormed(d) && Straight(d, source) && IsExpected(h, d, source, x)
    ensures TargetsDiffer(x.mappings)
    ensures forall m :: m in x.mappings ==> MappingAllowed(m) && CarriesContent(h, d, source, m)
    ensures Proper(h, x.ownership) && x.ownership == OwnershipBody(h, x.manifest, x.mappings)
    ensures source in d && d[source] == Dir && NoLinks(d, source)
  {
    AcceptedMap(h, d, source, x.manifest);
    AcceptedRoot(h, d, source, x.manifest);
    MappingsComplete(h, d, source, x.manifest);
    hide Acceptable, CollectMappings, MappingAllowed, Proper, Defined, OwnershipBody, NoLinks, WellFormed;
    OwnershipProper(h, x.manifest, x.mappings);
  }

  lemma AcceptedRoot(h: Host, d: Disk, root: Path, m: JsValue)
    requires WellFormed(d) && Straight(d, root) && Acceptable(h, d, root, m)
    ensures root in d && d[root] == Dir
  {
    FindStraight(h, d, root);
    hide BindsFields, BindsFiles, BindsAgents, RecordsArtifacts, NoLinks, Digest, Get, ManifestAt, Find;
    ManifestNeedsRoot(h, d, root);
  }

  /** What is needed of a prescription to check a tree against it. */
  ghost predicate Checkable(h: Host, x: Expected) {
    && TargetsDiffer(x.mappings) && Proper(h, x.ownership)
    && x.ownership == OwnershipBody(h, x.manifest, x.mappings)
  }

  lemma {:induction false} MapAllDigests(h: Host, d: Disk, root: Path, a: JsValue, items: seq<JsValue>, m: Mapping)
    requires a.Obj? && forall e :: e in a.entries ==> e.value.Str?
    requires MapAll(h, d, root, a, items).Ok? && m in MapAll(h, d, root, a, items).value && Truthy(m.digest)
    ensures m.digest.Str?
  {
    if items != [] {
      var n := |items| - 1;
      if m in MapOne(h, d, root, a, items[n]).value {
        MapOneDigests(h, d, root, a, items[n], m);
      } else {
        hide MapOne;
        MapAllDigests(h, d, root, a, items[..n], m);
      }
    }
  }

  lemma MapOneDigests(h: Host, d: Disk, root: Path, a: JsValue, item: JsValue, m: Mapping)
    requires a.Obj? && forall e :: e in a.entries ==> e.value.Str?
    requires MapOne(h, d, root, a, item).Ok? && m in MapOne(h, d, root, a, item).value && Truthy(m.digest)
    ensures m.digest.Str?
  {
    var target, p := Get(item, "target").s, Segs(SourcePath(root, item));
    var source := if root <= p then p[|root|..] else p;
    assert m in MapSource(h, d, root, a, target, p).value;
    hide SourcePath, Segs, WalkFiles, Find, ReadFile, Get;
    if IsDirAt(h, d, p) {
      var files := WalkFiles(h, d, p).value;
      var ms := DirMappings(a, source, target, files);
      var i :| 0 <= i < |ms| && ms[i] == m;
      FoundIsString(a, Join(source + files[i]));
    } else {
      FoundIsString(a, Join(source));
    }
  }

  lemma FoundIsString(a: JsValue, k: string)
    requires a.Obj? && forall e :: e in a.entries ==> e.value.Str?
    ensures Get(a, k) == Undefined || Get(a, k).Str?
  {
    if Get(a, k) != Undefined {
      LookupFound(a.entries, k);
    }
  }

  /** Every prescription can be checked. */
  lemma PrescribedIsCheckable(h: Host, d: Disk, root: Path, x: Expected)
    requires Sound(h) && WellFormed(d) && Prescribes(h, d, root, x)
    ensures Checkable(h, x)
  {
    var m, q := x.manifest, Find(h, d, root).value;
    var a, items := Get(m, "artifactDigests"), InstallTargets(m).value;
    AcceptedMap(h, d, q, m);
    RecordsHasDigests(h, d, q, a);
    var xs := MapAll(h, d, root, a, items).value;
    hide Acceptable, RecordsArtifacts, NoLinks, OwnershipBody, Find, MapAll, Get, Proper, Defined;
    SortDiffers(h, xs);
    SortKeeps(h, xs);
    forall y | y in x.mappings ensures y.digest.Str? {
      assert y in multiset(x.mappings) && y in multiset(xs);
      AllowedIsTruthy(y);
      MapAllDigests(h, d, root, a, items, y);
    }
    hide SortMappings, MappingAllowed;
    OwnershipProper(h, m, x.mappings);
  }

  // ----------------------------------------------------------- verifyInstalled

  method CheckOwnership(h: Host, d: Disk, root: Path, ghost q: Path, ownership: JsValue) returns (ok: bool)
    requires Sound(h) && WellFormed(d) && Find(h, d, root) == Some(q) && NoLinks(d, q) && Proper(h, ownership)
    ensures ok <==> Owned(h, d, q + [OWNERSHIP_FILE], ownership)
  {
    var file := root + [OWNERSHIP_FILE];
    hide OWNERSHIP_FILE;
    FindBelow(h, d, root, q, [OWNERSHIP_FILE]);
    if !Exists(h, d, file) {
      return false;
    }
    var data := ReadFile(h, d, file);
    if data.None? {
      return false;
    }
    var v := Parse(h, h.decode(data.value));
    if v.None? {
      return false;
    }
    ParseProper(h, h.decode(data.value));
    CanonicalTextComplete(h, v.value, ownership);
    ok := CanonicalText(v.value) == CanonicalText(ownership);
  }

  /** The comparison of the listed names with the expected set. */
  method CheckNames(names: seq<string>, expected: set<string>) returns (ok: bool)
    requires forall i, j :: 0 <= i < j < |names| ==> names[i] != names[j]
    ensures ok <==> StringSet(names) == expected
  {
    Pigeonhole(names, expected);
    if |names| != |expected| {
      return false;
    }
    for i := 0 to |names|
      invariant forall j :: 0 <= j < i ==> names[j] in expected
    {
      if names[i] !in expected {
        return false;
      }
    }
    return true;
  }

  /** The digest of the file that the record names. */
  predicate DigestMatches(h: Host, d: Disk, root: Path, e: Entry) {
    var data := ReadFile(h, d, root + Names(e.key));
    data.Some? && Str(h.sha256(data.value)) == e.value
  }

  method CheckDigests(h: Host, d: Disk, root: Path, es: seq<Entry>) returns (ok: bool)
    ensures ok <==> forall i :: 0 <= i < |es| ==> DigestMatches(h, d, root, es[i])
  {
    for i := 0 to |es|
      invariant forall j :: 0 <= j < i ==> DigestMatches(h, d, root, es[j])
    {
      if !DigestMatches(h, d, root, es[i]) {
        return false;
      }
    }
    return true;
  }

  lemma DigestIsDelivery(h: Host, d: Disk, root: Path, m: Mapping, r: Path)
    requires WellFormed(d) && m.target == Join(r) && IsPath(r) && IsFileBelow(d, root, r)
    ensures DigestMatches(h, d, root, Entry(m.target, m.digest)) <==> Delivered(h, d, root, m)
  {
    NamesOfJoin(r);
    FileDigestPresent(h, d, root + r);
    hide Join, Names;
    forall s | m.target == Join(s) && IsFileBelow(d, root, s) ensures s == r {
      RelativeIsPath(d, root, s);
      JoinInjective(s, r);
    }
  }

  lemma NamedFile(d: Disk, root: Path, m: Mapping) returns (r: Path)
    requires NamesFile(d, root, m)
    ensures IsPath(r) && IsFileBelow(d, root, r) && m.target == Join(r)
  {
    r :| IsPath(r) && IsFileBelow(d, root, r) && m.target == Join(r);
  }

  lemma DigestsAreDeliveries(h: Host, d: Disk, root: Path, ms: seq<Mapping>, es: seq<Entry>)
    requires WellFormed(d)
    requires forall e :: e in es <==> exists i :: 0 <= i < |ms| && e == Entry(ms[i].target, ms[i].digest)
    requires forall i :: 0 <= i < |ms| ==> NamesFile(d, root, ms[i])
    ensures (forall i :: 0 <= i < |es| ==> DigestMatches(h, d, root, es[i])) <==>
            (forall i :: 0 <= i < |ms| ==> Delivered(h, d, root, ms[i]))
  {
    hide DigestMatches, Delivered;
    forall i | 0 <= i < |ms|
      ensures DigestMatches(h, d, root, Entry(ms[i].target, ms[i].digest)) <==> Delivered(h, d, root, ms[i])
    {
      var r := NamedFile(d, root, ms[i]);
      DigestIsDelivery(h, d, root, ms[i], r);
    }
    if forall i :: 0 <= i < |es| ==> DigestMatches(h, d, root, es[i]) {
      forall i | 0 <= i < |ms| ensures Delivered(h, d, root, ms[i]) {
        assert Entry(ms[i].target, ms[i].digest) in es;
      }
    }
    if forall i :: 0 <= i < |ms| ==> Delivered(h, d, root, ms[i]) {
      forall j | 0 <= j < |es| ensures DigestMatches(h, d, root, es[j]) {
        assert es[j] in es;
        var i :| 0 <= i < |ms| && es[j] == Entry(ms[i].target, ms[i].digest);
      }
    }
  }

  /** A delivered mapping names a file of the tree. */
  lemma DeliveredIsTarget(h: Host, d: Disk, root: Path, m: Mapping)
    requires WellFormed(d) && Delivered(h, d, root, m)
    ensures NamesPath(m)
  {
    var r :| m.target == Join(r) && IsFileBelow(d, root, r) && Str(h.sha256(d[root + r].data)) == m.digest;
    RelativeIsPath(d, root, r);
  }

  /** `Object.entries(expected.ownership.files)`. */
  method RecordedFiles(h: Host, x: Expected) returns (es: seq<Entry>)
    requires TargetsDiffer(x.mappings) && x.ownership == OwnershipBody(h, x.manifest, x.mappings)
    ensures forall e :: e in es <==>
              exists i :: 0 <= i < |x.mappings| && e == Entry(x.mappings[i].target, x.mappings[i].digest)
  {
    OwnershipHasFiles(h, x.manifest, x.mappings);
    OwnershipFiles(x.mappings);
    es := Get(x.ownership, "files").entries;
    hide OwnershipBody, Get, FromEntries;
  }

  /** The checks on one tree against a known expectation. The root may lie behind
      links; what counts is the tree at its real path. */
  method CheckTree(h: Host, d: Disk, root: Path, x: Expected) returns (ok: bool)
    requires Sound(h) && WellFormed(d) && Checkable(h, x)
    ensures ok <==> Find(h, d, root).Some? && ExactlyInstalled(h, d, Find(h, d, root).value, x)
  {
    hide OwnershipBody, ListTree, Find, Proper, TargetsDiffer, FromEntries, Owned, FilesExact, WalkFiles;
    if !IsDirAt(h, d, root) {
      if Exists(h, d, root) {
        NoOwnership(h, d, Find(h, d, root).value, x.ownership);
      }
      return false;
    }
    ghost var q := Find(h, d, root).value;
    var files := RecordedFiles(h, x);
    ListedAt(h, d, root, q);
    var listed := WalkFiles(h, d, root);
    hide WellFormed, ListsFiles, NoLinks, OWNERSHIP_FILE;
    if listed.Err? {
      return false;
    }
    var owned := CheckOwnership(h, d, root, q, x.ownership);
    if !owned {
      return false;
    }
    ok := CheckFiles(h, d, root, q, x.mappings, files, listed.value);
  }

  lemma ListedAt(h: Host, d: Disk, root: Path, q: Path)
    requires Sound(h) && WellFormed(d) && Find(h, d, root) == Some(q) && q in d && d[q] == Dir
    ensures WalkFiles(h, d, root).Ok? <==> NoLinks(d, q)
    ensures WalkFiles(h, d, root).Ok? ==> ListsFiles(d, q, WalkFiles(h, d, root).value)
  {
    ListTreeExact(h, d, q);
    hide ListTree, NoLinks, ListsFiles;
  }

  lemma NoOwnership(h: Host, d: Disk, root: Path, ownership: JsValue)
    requires WellFormed(d) && !(root in d && d[root] == Dir)
    ensures !Owned(h, d, root + [OWNERSHIP_FILE], ownership)
  {
    assert Parent(root + [OWNERSHIP_FILE]) == root;
  }

  /** The comparison of names and the digest loop. */
  method CheckFiles(h: Host, d: Disk, root: Path, ghost q: Path, ms: seq<Mapping>, es: seq<Entry>, listed: seq<Path>)
    returns (ok: bool)
    requires WellFormed(d) && Find(h, d, root) == Some(q) && NoLinks(d, q) && ListsFiles(d, q, listed)
    requires forall e :: e in es <==> exists i :: 0 <= i < |ms| && e == Entry(ms[i].target, ms[i].digest)
    ensures ok <==> FilesExact(h, d, q, ms)
  {
    RelativeNamesDiffer(d, q, listed);
    SameFiles(d, q, ms, es, listed);
    hide *;
    ok := CheckNames(RelativeNames(listed), ExpectedFiles(es));
    if ok {
      TargetsAreFiles(d, q, ms);
      DigestsAreDeliveries(h, d, q, ms, es);
      DigestsAt(h, d, root, q, es);
      ok := CheckDigests(h, d, root, es);
    }
    FilesExactParts(h, d, q, ms);
  }

  /** Digests are the same through any path to the root. */
  lemma DigestsAt(h: Host, d: Disk, root: Path, q: Path, es: seq<Entry>)
    requires WellFormed(d) && Find(h, d, root) == Some(q) && NoLinks(d, q)
    ensures forall i :: 0 <= i < |es| ==> DigestMatches(h, d, root, es[i]) == DigestMatches(h, d, q, es[i])
  {
    hide Find, ReadFile, Names, NoLinks, WellFormed;
    forall i | 0 <= i < |es| ensures DigestMatches(h, d, root, es[i]) == DigestMatches(h, d, q, es[i]) {
      ReadBelow(h, d, root, q, Names(es[i].key));
    }
  }

  lemma FilesExactParts(h: Host, d: Disk, root: Path, ms: seq<Mapping>)
    requires WellFormed(d)
    ensures FilesExact(h, d, root, ms) <==>
              && (forall r :: IsFileBelow(d, root, r) <==> r == [OWNERSHIP_FILE] || IsTargetPath(ms, r))
              && (forall i :: 0 <= i < |ms| ==> NamesPath(ms[i]))
              && (forall i :: 0 <= i < |ms| ==> Delivered(h, d, root, ms[i]))
  {
    hide Delivered, NamesPath, IsFileBelow, IsTargetPath;
    forall i | 0 <= i < |ms| && Delivered(h, d, root, ms[i]) ensures NamesPath(ms[i]) {
      DeliveredIsTarget(h, d, root, ms[i]);
    }
  }

  lemma TargetsAreFiles(d: Disk, root: Path, ms: seq<Mapping>)
    requires forall r :: IsFileBelow(d, root, r) <==> r == [OWNERSHIP_FILE] || IsTargetPath(ms, r)
    requires forall i :: 0 <= i < |ms| ==> NamesPath(ms[i])
    ensures forall i :: 0 <= i < |ms| ==> NamesFile(d, root, ms[i])
  {
    forall i | 0 <= i < |ms| ensures NamesFile(d, root, ms[i]) {
      var r :| IsPath(r) && r != [] && ms[i].target == Join(r);
      assert IsTargetPath(ms, r);
    }
  }

  /** `verifyInstalled`: it accepts exactly the expected tree, at the real path of
      its root. */
  method VerifyInstalled(h: Host, d: Disk, source: Path, root: Path, driftCode: string) returns (r: Result<Expected>)
    requires Sound(h) && WellFormed(d)
    ensures r.Ok? ==>
              && Prescribes(h, d, source, r.value)
              && Find(h, d, root).Some? && ExactlyInstalled(h, d, Find(h, d, root).value, r.value)
    ensures r.Err? ==>
              forall x :: Prescribes(h, d, source, x) ==>
                Find(h, d, root).None? || !ExactlyInstalled(h, d, Find(h, d, root).value, x)
  {
    var x := ExpectedInstall(h, d, source);
    hide ExactlyInstalled, Checkable, Prescribes, Find;
    if x.Err? {
      return Err(x.code);
    }
    PrescribedIsCheckable(h, d, source, x.value);
    OnePrescribed(h, d, source, x.value);
    var ok := CheckTree(h, d, root, x.value);
    return if ok then x else Err(driftCode);
  }

  lemma OnePrescribed(h: Host, d: Disk, source: Path, x: Expected)
    requires Prescribes(h, d, source, x)
    ensures forall y :: Prescribes(h, d, source, y) ==> y == x
  {
    OneManifest(h, d, Find(h, d, source).value, x.manifest);
    hide Acceptable, CollectMappings, OwnershipBody, Find;
  }

  /** At real roots: it accepts exactly when the expected tree is at the root. */
  lemma VerifiedReal(h: Host, d: Disk, source: Path, root: Path, r: Result<Expected>)
    requires WellFormed(d) && Straight(d, source) && Straight(d, root)
    requires r.Ok? ==>
               && Prescribes(h, d, source, r.value)
               && Find(h, d, root).Some? && ExactlyInstalled(h, d, Find(h, d, root).value, r.value)
    requires r.Err? ==>
               forall x :: Prescribes(h, d, source, x) ==>
                 Find(h, d, root).None? || !ExactlyInstalled(h, d, Find(h, d, root).value, x)
    ensures r.Ok? ==> IsExpected(h, d, source, r.value) && ExactlyInstalled(h, d, root, r.value)
    ensures r.Err? ==> forall x :: IsExpected(h, d, source, x) ==> !ExactlyInstalled(h, d, root, x)
  {
    hide IsExpected, Prescribes, FilesExact, NoLinks, Find;
    PrescribesReal(h, d, source);
    FindStraight(h, d, root);
    forall x | ExactlyInstalled(h, d, root, x) ensures root in d {
      NoOwnershipAbsent(h, d, root, x.ownership);
    }
    hide ExactlyInstalled, Straight, WellFormed;
  }

  lemma NoOwnershipAbsent(h: Host, d: Disk, root: Path, ownership: JsValue)
    requires WellFormed(d) && Owned(h, d, root + [OWNERSHIP_FILE], ownership)
    ensures root in d
  {
    assert Parent(root + [OWNERSHIP_FILE]) == root;
  }

  lemma OneExpected(h: Host, d: Disk, source: Path, x: Expected)
    requires IsExpected(h, d, source, x)
    ensures forall y :: IsExpected(h, d, source, y) ==> y == x
  {
    OneManifest(h, d, source, x.manifest);
    hide Acceptable, CollectMappings, OwnershipBody;
  }
}
