/** What an accepted manifest says about the files of a package, name by name. */
module PackageContents {
  import opened Outcome
  import opened Paths
  import opened PathLemmas
  import opened Hosts
  import opened Json
  import opened CanonicalJson
  import opened ParsedValues
  import opened RecordedFields
  import opened Disks
  import opened PathLookup
  import opened Listing
  import opened Manifests
  import opened Artifacts
  import opened ReadManifests
  import opened ManifestSoundness
  import opened MappingLaw
  import opened SourceFrame

  // ------------------------------------------------------ the artifact roots

  /** The directories that a manifest binds. */
  predicate IsBoundName(name: string) {
    || name == "agents" || name == "contracts" || name == "graph"
    || name == "policy" || name == "scripts" || name == "skills"
  }

  lemma ArtifactRoots(r: Path)
    ensures IsArtifactPath(r) <==> r != [] && IsBoundName(r[0])
  {
    assert "manifest.json"[0] == 'm';
    assert ARTIFACT_ROOTS == ["agents", "contracts", "graph", "policy", "scripts", "skills"];
    if r != [] && IsBoundName(r[0]) {
      assert r[0][0] != 'm';
    }
  }

  lemma RecordedTwice(h: Host, d: Disk, e: Disk, root: Path, other: Path, a: JsValue, b: JsValue, r: Path)
    requires WellFormed(d) && WellFormed(e)
    requires RecordsArtifacts(h, d, root, a) && RecordsArtifacts(h, e, other, b)
    requires forall x :: x in a.entries <==> x in b.entries
    requires IsArtifact(d, root, r)
    ensures IsArtifact(e, other, r) && h.sha256(e[other + r].data) == h.sha256(d[root + r].data)
  {
    var x := Entry(Join(r), Str(h.sha256(d[root + r].data)));
    assert RecordsFile(h, d, root, x);
    assert x in a.entries;
    var s :| IsArtifact(e, other, s) && x == Entry(Join(s), Str(h.sha256(e[other + s].data)));
    RelativeIsPath(d, root, r);
    RelativeIsPath(e, other, s);
    JoinInjective(r, s);
  }

  /** Two packages, or two states of one, whose accepted manifests say the same have
      the same files in the six directories, and each file the same content or a
      collision of the hash. */
  lemma AcceptedPinsFiles(h: Host, d: Disk, e: Disk, root: Path, other: Path, m: JsValue, n: JsValue, r: Path)
    requires Sound(h) && WellFormed(d) && WellFormed(e)
    requires Acceptable(h, d, root, m) && Acceptable(h, e, other, n) && Printed(Meaning(m)) == Printed(Meaning(n))
    requires r != [] && IsBoundName(r[0])
    ensures IsFileBelow(d, root, r) <==> IsFileBelow(e, other, r)
    ensures IsFileBelow(d, root, r) ==>
              || d[root + r].data == e[other + r].data
              || Collide(h, d[root + r].data, e[other + r].data)
  {
    ArtifactRoots(r);
    var a, b := Get(m, "artifactDigests"), Get(n, "artifactDigests");
    SameArtifacts(h, d, e, root, other, m, n);
    hide Acceptable, RecordsArtifacts, IsArtifactPath, Meaning, Printed, IsBoundName;
    if IsFileBelow(d, root, r) {
      RecordedTwice(h, d, e, root, other, a, b, r);
    }
    if IsFileBelow(e, other, r) {
      RecordedTwice(h, e, d, other, root, b, a, r);
    }
  }

  lemma SameArtifacts(h: Host, d: Disk, e: Disk, root: Path, other: Path, m: JsValue, n: JsValue)
    requires Sound(h) && WellFormed(d) && WellFormed(e)
    requires Acceptable(h, d, root, m) && Acceptable(h, e, other, n) && Printed(Meaning(m)) == Printed(Meaning(n))
    ensures var a, b := Get(m, "artifactDigests"), Get(n, "artifactDigests");
            && RecordsArtifacts(h, d, root, a) && RecordsArtifacts(h, e, other, b)
            && forall x :: x in a.entries <==> x in b.entries
  {
    AcceptedMap(h, d, root, m);
    AcceptedMap(h, e, other, n);
    AcceptedObject(h, d, root, m);
    AcceptedObject(h, e, other, n);
    hide Acceptable, RecordsArtifacts, Meaning, Printed, Proper, Defined, Get;
    var a, b := Get(m, "artifactDigests"), Get(n, "artifactDigests");
    FieldAgrees(h, m, n, "artifactDigests");
    GetProper(h, m, "artifactDigests");
    GetProper(h, n, "artifactDigests");
    RecordsStrings(h, d, root, a);
    RecordsStrings(h, e, other, b);
    GetDefined(m, "artifactDigests");
    EntriesAgree(h, a, b);
  }

  lemma AcceptedObject(h: Host, d: Disk, root: Path, m: JsValue)
    requires Acceptable(h, d, root, m)
    ensures m.Obj?
  {
    hide BindsFields, BindsFiles, BindsAgents, RecordsArtifacts, NoLinks, Digest, Get, ManifestAt;
  }

  lemma GetDefined(m: JsValue, k: string)
    requires m.Obj? && Defined(m) && Get(m, k) != Undefined
    ensures Defined(Get(m, k))
  {
    LookupFound(m.entries, k);
  }

  lemma RecordsStrings(h: Host, d: Disk, root: Path, a: JsValue)
    requires RecordsArtifacts(h, d, root, a)
    ensures a.Obj? && OnlyStrings(a.entries)
  {
    forall i | 0 <= i < |a.entries| ensures a.entries[i].value.Str? {
      assert a.entries[i] in a.entries;
      assert RecordsFile(h, d, root, a.entries[i]);
    }
  }

  /** Whatever else changes below the root keeps the manifest accepted, as long as the
      six directories and the manifest file stay and no link appears. */
  lemma OtherFilesAreFree(h: Host, d: Disk, e: Disk, root: Path, m: JsValue)
    requires LinkFree(d, root) && LinkFree(e, root) && Acceptable(h, d, root, m)
    requires forall r :: r != [] && (IsBoundName(r[0]) || r[0] == "manifest.json") ==>
               (root + r in d <==> root + r in e) && (root + r in d ==> d[root + r] == e[root + r])
    ensures Acceptable(h, e, root, m)
  {
    hide Acceptable, IsBoundName, LinkFree, WellFormed, NoLinks, ManifestAt;
    forall r | IsArtifactPath(r)
      ensures IsFileBelow(d, root, r) <==> IsFileBelow(e, root, r)
      ensures IsFileBelow(d, root, r) ==> d[root + r] == e[root + r]
    {
      ArtifactRoots(r);
    }
    ManifestStays(h, d, e, root);
    AcceptableNoLinks(h, d, root, m);
    assert NoLinks(e, root) by {
      LinkFreeNoLinks(e, root);
    }
    hide IsArtifactPath, IsFileBelow;
    UnrelatedChangeAccepted(h, d, e, root, m);
  }

  lemma LinkFreeNoLinks(e: Disk, root: Path)
    requires LinkFree(e, root)
    ensures NoLinks(e, root)
  {
  }

  lemma ManifestStays(h: Host, d: Disk, e: Disk, root: Path)
    requires LinkFree(d, root) && LinkFree(e, root)
    requires forall r :: r != [] && (IsBoundName(r[0]) || r[0] == "manifest.json") ==>
               (root + r in d <==> root + r in e) && (root + r in d ==> d[root + r] == e[root + r])
    ensures ManifestAt(h, e, root) == ManifestAt(h, d, root)
  {
    var p := root + ["manifest.json"];
    forall q | p <= q ensures (q in d <==> q in e) && (q in d ==> d[q] == e[q]) {
      var r := q[|root|..];
      assert q == root + r && r[0] == q[|root|] == p[|root|];
    }
    hide LinkFree, ReadFile, IsBoundName, Find;
    ReadSame(h, d, e, root, p);
  }

  // ------------------------------------------------------------- their order

  ghost predicate KeysSorted(h: Host, es: seq<Entry>) {
    forall i, j :: 0 <= i < j < |es| ==> h.before(es[i].key, es[j].key)
  }

  lemma {:induction false} LocaleInsertSorts(h: Host, e: Entry, es: seq<Entry>)
    requires LocaleOrders(h) && KeysSorted(h, es)
    ensures KeysSorted(h, LocaleInsert(h, e, es))
  {
    if es != [] && !h.before(e.key, es[0].key) {
      LocaleInsertSorts(h, e, es[1..]);
      LocaleInsertHolds(h, e, es[1..]);
      var r := LocaleInsert(h, e, es[1..]);
      forall j | 0 <= j < |r| ensures h.before(es[0].key, r[j].key) {
        assert r[j] in multiset(r);
        assert r[j] == e || r[j] in es[1..];
      }
    }
  }

  lemma {:induction false} LocaleSortSorts(h: Host, es: seq<Entry>)
    requires LocaleOrders(h)
    ensures KeysSorted(h, LocaleSort(h, es))
  {
    if es != [] {
      LocaleSortSorts(h, es[1..]);
      LocaleInsertSorts(h, es[0], LocaleSort(h, es[1..]));
    }
  }

  /** The path of an artifact is no array index: it has a letter in front. */
  lemma ArtifactIsNoIndex(r: Path)
    requires IsArtifactPath(r)
    ensures !IsIndex(Join(r))
  {
    ArtifactRoots(r);
    assert !IsDigit(r[0][0]);
    assert Join(r)[0] == r[0][0];
  }

  lemma NoIndexOrdered(es: seq<Entry>)
    requires Distinct(es) && forall i :: 0 <= i < |es| ==> !IsIndex(es[i].key)
    ensures FromEntries(es) == es
  {
    hide IsIndex;
    JsonRoundTrip.FromEntriesOrdered(es);
  }

  /** The collected digests are listed in the order of their paths. */
  lemma CollectedInOrder(h: Host, d: Disk, root: Path)
    requires Sound(h) && WellFormed(d) && root in d && d[root] == Dir && LocaleOrders(h)
    requires CollectArtifacts(h, d, root).Ok?
    ensures KeysSorted(h, CollectArtifacts(h, d, root).value.entries)
  {
    FindPresent(h, d, root);
    ListTreeExact(h, d, root);
    var files := WalkFiles(h, d, root).value;
    ArtifactEntriesExact(h, d, root, files);
    var es := ArtifactEntries(h, d, root, files).value;
    var sorted := LocaleSort(h, es);
    LocaleSortHolds(h, es);
    LocaleSortSorts(h, es);
    MultisetDistinct(es, sorted);
    hide LocaleOrders, LocaleSort, IsArtifactPath, IsIndex, WellFormed, Find, ListTree, KeysSorted, FromEntries, Join;
    forall i | 0 <= i < |sorted| ensures !IsIndex(sorted[i].key) {
      assert sorted[i] in multiset(es);
      assert sorted[i] in es;
      var r :| r in files && IsArtifactPath(r) && sorted[i] == FileEntry(h, d, root, r);
      ArtifactIsNoIndex(r);
    }
    NoIndexOrdered(sorted);
  }
}
