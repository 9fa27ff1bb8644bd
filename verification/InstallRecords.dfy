/** What the installation record says, field by field, and that it fits one version of
    a package only. */
module InstallRecords {
  import opened Outcome
  import opened Paths
  import opened PathLemmas
  import opened Hosts
  import opened Json
  import opened CanonicalJson
  import opened CanonicalLaw
  import opened ParsedValues
  import opened RecordedFields
  import opened Disks
  import opened PathLookup
  import opened Listing
  import opened Manifests
  import opened Artifacts
  import opened ReadManifests
  import opened BuildThenRead
  import opened Mappings
  import opened MappingLaw
  import opened InstalledTrees

  // ----------------------------------------------------------- the fields

  lemma RecordKeys(h: Host, m: JsValue, ms: seq<Mapping>)
    ensures var v := OwnershipBody(h, m, ms);
            && Get(v, "schema") == Str("issue-orchestration.shared-install-ownership.v1")
            && Get(v, "packageIdentity") == Get(m, "packageIdentity")
            && Get(v, "packageVersion") == Get(m, "packageVersion")
            && Get(v, "manifestDigest") == Get(m, "manifestDigest")
            && Get(v, "sourceTreeDigest") == Get(m, "sourceTreeDigest")
            && Get(v, "files") == Obj(FromEntries(FileEntries(ms)))
  {
    OwnershipForm(h, m, ms);
    var es := OwnershipEntries(m, ms) + [Entry("installDigest", Str(Digest(h, OwnershipRecord(m, ms))))];
    assert es[0].key == "schema" && es[1].key == "packageIdentity" && es[2].key == "packageVersion";
    assert es[3].key == "manifestDigest" && es[4].key == "sourceTreeDigest" && es[5].key == "files";
    hide OwnershipBody, Digest, FromEntries, FileEntries, OwnershipRecord;
    forall i | 0 <= i < 6 ensures Get(Obj(es), es[i].key) == es[i].value {
      LookupFinds(es, es[i]);
    }
    hide Get;
  }

  lemma SelfDigest(h: Host, es: seq<Entry>, e: Entry)
    requires Distinct(es + [e]) && e == Entry("installDigest", Str(Digest(h, Obj(es))))
    ensures Get(Obj(es + [e]), "installDigest") == Str(UnsignedDigest(h, Obj(es + [e]), "installDigest"))
  {
    hide Digest;
    forall i | 0 <= i < |es| ensures es[i].key != e.key {
      assert (es + [e])[i] == es[i] && (es + [e])[|es|] == e;
    }
    WithoutLast(es, e);
    LookupFinds(es + [e], (es + [e])[|es|]);
    hide Distinct;
  }

  /** The record carries its own digest, and nothing besides these seven fields. */
  lemma RecordSigned(h: Host, m: JsValue, ms: seq<Mapping>)
    ensures var v := OwnershipBody(h, m, ms);
            && v.Obj? && |v.entries| == 7 && Distinct(v.entries)
            && Get(v, "installDigest") == Str(UnsignedDigest(h, v, "installDigest"))
  {
    OwnershipForm(h, m, ms);
    var es := OwnershipEntries(m, ms);
    assert |es| == 6;
    hide OwnershipBody, OwnershipEntries, Digest;
    OrderedDistinct(Obj(es + [Entry("installDigest", Str(Digest(h, OwnershipRecord(m, ms))))]).entries);
    hide Ordered, Distinct;
    SelfDigest(h, es, Entry("installDigest", Str(Digest(h, OwnershipRecord(m, ms)))));
  }

  // ------------------------------------------------------- one version only

  /** An object is known, as far as printing shows it, by its fields. */
  lemma PrintedFromFields(v: JsValue, o: JsValue)
    requires v.Obj? && o.Obj? && Distinct(v.entries) && Distinct(o.entries)
    requires forall k :: Get(v, k) == Undefined <==> Get(o, k) == Undefined
    requires forall k :: Get(v, k) != Undefined ==> Printed(Meaning(Get(v, k))) == Printed(Meaning(Get(o, k)))
    ensures Printed(Meaning(v)) == Printed(Meaning(o))
  {
    PrintedGet(v, "");
    PrintedGet(o, "");
    hide Get, Meaning, Printed;
    var a, b := Printed(Meaning(v)).fields, Printed(Meaning(o)).fields;
    forall k ensures (k in a <==> k in b) && (k in a ==> a[k] == b[k]) {
      PrintedGet(v, k);
      PrintedGet(o, k);
    }
    assert a == b;
  }

  lemma {:induction false} LookupWithout(es: seq<Entry>, k: string, j: string)
    ensures Lookup(Without(es, k), j) == if j == k then Undefined else Lookup(es, j)
  {
    if es != [] {
      LookupWithout(es[1..], k, j);
    }
  }

  lemma {:induction false} WithoutMembers(es: seq<Entry>, k: string, e: Entry)
    requires e in Without(es, k)
    ensures e in es
  {
    if es != [] {
      if e in Without(es[1..], k) {
        WithoutMembers(es[1..], k, e);
      }
    }
  }

  lemma {:induction false} WithoutOrdered(es: seq<Entry>, k: string)
    requires Ordered(es)
    ensures Ordered(Without(es, k))
  {
    if es != [] {
      JsonRoundTrip.OrderedTail(es);
      WithoutOrdered(es[1..], k);
      if es[0].key != k {
        var r := Without(es[1..], k);
        forall j | 0 <= j < |r|
          ensures es[0].key != r[j].key && (IsIndex(r[j].key) ==> IsIndex(es[0].key) && IndexLess(es[0].key, r[j].key))
        {
          WithoutMembers(es[1..], k, r[j]);
          var i :| 0 <= i < |es[1..]| && es[1..][i] == r[j];
          assert es[i + 1] == r[j];
        }
        assert [es[0]] + r == Without(es, k);
        HeadOrdered(es[0], r);
      }
    }
  }

  lemma HeadOrdered(e: Entry, r: seq<Entry>)
    requires Ordered(r)
    requires forall j :: 0 <= j < |r| ==>
               e.key != r[j].key && (IsIndex(r[j].key) ==> IsIndex(e.key) && IndexLess(e.key, r[j].key))
    ensures Ordered([e] + r)
  {
    hide IsIndex, IndexLess;
  }

  lemma WithoutProper(h: Host, v: JsValue, k: string)
    requires Proper(h, v) && v.Obj?
    ensures Proper(h, Obj(Without(v.entries, k)))
  {
    WithoutOrdered(v.entries, k);
    var r := Without(v.entries, k);
    forall i | 0 <= i < |r| ensures Proper(h, r[i].value) {
      WithoutMembers(v.entries, k, r[i]);
    }
  }

  /** The text that the manifest digest is taken of. */
  function UnsignedText(m: JsValue): string
    requires m.Obj?
  {
    CanonicalText(Obj(Without(m.entries, "manifestDigest")))
  }

  /** Two signed manifests with one manifest digest say the same, or the hash collides
      on their unsigned texts. */
  lemma SignedManifests(h: Host, m: JsValue, n: JsValue)
    requires Sound(h) && Proper(h, m) && Proper(h, n) && m.Obj? && n.Obj?
    requires Get(m, "manifestDigest") == Str(UnsignedDigest(h, m, "manifestDigest"))
    requires Get(n, "manifestDigest") == Str(UnsignedDigest(h, n, "manifestDigest"))
    requires Get(m, "manifestDigest") == Get(n, "manifestDigest")
    ensures Printed(Meaning(m)) == Printed(Meaning(n)) ||
            Collide(h, h.encode(UnsignedText(m)), h.encode(UnsignedText(n)))
  {
    var a, b := Obj(Without(m.entries, "manifestDigest")), Obj(Without(n.entries, "manifestDigest"));
    WithoutProper(h, m, "manifestDigest");
    WithoutProper(h, n, "manifestDigest");
    DigestComplete(h, a, b);
    if Printed(Meaning(a)) == Printed(Meaning(b)) {
      forall k
        ensures Get(m, k) == Undefined <==> Get(n, k) == Undefined
        ensures Get(m, k) != Undefined ==> Printed(Meaning(Get(m, k))) == Printed(Meaning(Get(n, k)))
      {
        LookupWithout(m.entries, "manifestDigest", k);
        LookupWithout(n.entries, "manifestDigest", k);
        if k != "manifestDigest" {
          FieldAgrees(h, a, b, k);
        }
      }
      PrintedFromFields(m, n);
    }
    hide Meaning, Printed, CanonicalText;
  }

  lemma AcceptedSigned(h: Host, d: Disk, root: Path, m: JsValue)
    requires Sound(h) && WellFormed(d) && Acceptable(h, d, root, m)
    ensures m.Obj? && Proper(h, m) && Defined(m)
    ensures Get(m, "manifestDigest") == Str(UnsignedDigest(h, m, "manifestDigest"))
    ensures Get(m, "sourceTreeDigest").Str?
  {
    AcceptedMap(h, d, root, m);
    hide BindsFields, BindsFiles, BindsAgents, RecordsArtifacts, NoLinks, Digest, Get, ManifestAt;
  }

  /** The four fields that the record takes from the manifest. */
  ghost predicate SameField(m: JsValue, n: JsValue, k: string) {
    && (Get(m, k) == Undefined <==> Get(n, k) == Undefined)
    && (Get(m, k) != Undefined ==> Printed(Meaning(Get(m, k))) == Printed(Meaning(Get(n, k))))
  }

  lemma RecordsAgree(h: Host, x: Expected, y: Expected)
    requires Proper(h, x.ownership) && Proper(h, y.ownership)
    requires x.ownership == OwnershipBody(h, x.manifest, x.mappings)
    requires y.ownership == OwnershipBody(h, y.manifest, y.mappings)
    requires CanonicalText(x.ownership) == CanonicalText(y.ownership)
    ensures SameField(x.manifest, y.manifest, "packageIdentity")
    ensures SameField(x.manifest, y.manifest, "packageVersion")
    ensures SameField(x.manifest, y.manifest, "manifestDigest")
    ensures SameField(x.manifest, y.manifest, "sourceTreeDigest")
    ensures Printed(Meaning(x.ownership)) == Printed(Meaning(y.ownership))
  {
    assert x.ownership.Obj? && y.ownership.Obj?;
    hide OwnershipBody, CanonicalText, Proper, Meaning, Printed, Get;
    RecordKeys(h, x.manifest, x.mappings);
    RecordKeys(h, y.manifest, y.mappings);
    CanonicalTextComplete(h, x.ownership, y.ownership);
    FieldAgrees(h, x.ownership, y.ownership, "packageIdentity");
    FieldAgrees(h, x.ownership, y.ownership, "packageVersion");
    FieldAgrees(h, x.ownership, y.ownership, "manifestDigest");
    FieldAgrees(h, x.ownership, y.ownership, "sourceTreeDigest");
  }

  /** If the record of one package passes for that of another, both have the same
      manifest up to key order, or the hash collides on the manifest texts. */
  lemma RecordsFitOneManifest(h: Host, d: Disk, e: Disk, root: Path, other: Path, x: Expected, y: Expected)
    requires Sound(h) && WellFormed(d) && WellFormed(e) && Straight(d, root) && Straight(e, other)
    requires IsExpected(h, d, root, x) && IsExpected(h, e, other, y)
    requires CanonicalText(x.ownership) == CanonicalText(y.ownership)
    ensures x.manifest.Obj? && y.manifest.Obj?
    ensures || Printed(Meaning(x.manifest)) == Printed(Meaning(y.manifest))
            || Collide(h, h.encode(UnsignedText(x.manifest)), h.encode(UnsignedText(y.manifest)))
  {
    AcceptedSigned(h, d, root, x.manifest);
    AcceptedSigned(h, e, other, y.manifest);
    hide Acceptable, CollectMappings, OwnershipBody, Proper, Defined, Digest, CanonicalText, Straight, WellFormed,
      TargetsDiffer, MappingAllowed, NoLinks, UnsignedText, Get, Meaning, Printed;
    ExpectedShape(h, d, root, x);
    ExpectedShape(h, e, other, y);
    RecordsAgree(h, x, y);
    DigestsEqual(x.manifest, y.manifest, "manifestDigest");
    SignedManifests(h, x.manifest, y.manifest);
  }

  lemma DigestsEqual(m: JsValue, n: JsValue, k: string)
    requires SameField(m, n, k) && Get(m, k).Str?
    ensures Get(m, k) == Get(n, k)
  {
    PrintedString(Get(m, k), Get(m, k).s);
    PrintedString(Get(n, k), Get(m, k).s);
    hide Meaning, Printed;
  }

  // ------------------------------------------------------ an installed tree

  /** The tree holds the record and, at each target, a file with the digest of its
      source in the package, and no other file and no link. */
  ghost predicate HoldsPackage(h: Host, e: Disk, source: Path, d: Disk, root: Path, x: Expected) {
    && NoLinks(d, root)
    && RecordThere(h, d, root + [".issue-orchestration-install.json"], x.ownership)
    && (forall r :: IsFileBelow(d, root, r) <==>
          r == [".issue-orchestration-install.json"] || (r != [] && IsPath(r) && IsTarget(x.mappings, r)))
    && forall i :: 0 <= i < |x.mappings| ==> CopyThere(h, e, source, d, root, x.mappings[i])
  }

  ghost predicate RecordThere(h: Host, d: Disk, file: Path, ownership: JsValue) {
    && file in d && d[file].File?
    && var v := JsonParser.Parse(h, h.decode(d[file].data));
       v.Some? && Printed(Meaning(v.value)) == Printed(Meaning(ownership))
  }

  ghost predicate CopyThere(h: Host, e: Disk, source: Path, d: Disk, root: Path, m: Mapping) {
    && source + m.source in e && e[source + m.source].File?
    && exists r :: IsFileBelow(d, root, r) && m.target == Join(r)
                   && h.sha256(d[root + r].data) == h.sha256(e[source + m.source].data)
  }

  /** A tree is the installation of the package exactly when it holds the package. */
  lemma InstalledExactly(h: Host, e: Disk, source: Path, d: Disk, root: Path, x: Expected)
    requires Sound(h) && WellFormed(e) && Straight(e, source) && IsExpected(h, e, source, x)
    ensures ExactlyInstalled(h, d, root, x) <==> HoldsPackage(h, e, source, d, root, x)
  {
    hide Acceptable, CollectMappings, OwnershipBody, Proper, Straight, WellFormed, TargetsDiffer, MappingAllowed,
      NoLinks, Meaning, Printed, Join;
    ExpectedShape(h, e, source, x);
    forall i | 0 <= i < |x.mappings|
      ensures Delivered(h, d, root, x.mappings[i]) <==> CopyThere(h, e, source, d, root, x.mappings[i])
    {
      assert x.mappings[i] in x.mappings;
      DeliveredIsCopy(h, e, source, d, root, x.mappings[i]);
    }
    hide Delivered, CopyThere, IsFileBelow, IsTarget;
  }

  lemma DeliveredIsCopy(h: Host, e: Disk, source: Path, d: Disk, root: Path, m: Mapping)
    requires CarriesContent(h, e, source, m)
    ensures Delivered(h, d, root, m) <==> CopyThere(h, e, source, d, root, m)
  {
    hide Join;
  }
}
