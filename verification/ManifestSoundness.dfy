/** What an accepted manifest pins down: the artifact files, and nothing else. */
module ManifestSoundness {
  import opened Outcome
  import opened Paths
  import opened PathLemmas
  import opened Hosts
  import opened Json
  import opened CanonicalJson
  import opened Disks
  import opened Listing
  import opened Manifests
  import opened Artifacts
  import opened BuildThenRead

  lemma RecordedFile(h: Host, d: Disk, e: Disk, root: Path, a: JsValue, r: Path)
    requires WellFormed(d) && WellFormed(e)
    requires RecordsArtifacts(h, d, root, a) && RecordsArtifacts(h, e, root, a) && IsArtifact(d, root, r)
    ensures IsArtifact(e, root, r) && h.sha256(e[root + r].data) == h.sha256(d[root + r].data)
  {
    var x := Entry(Join(r), Str(h.sha256(d[root + r].data)));
    assert RecordsFile(h, d, root, x);
    assert x in a.entries;
    var s :| IsArtifact(e, root, s) && x == Entry(Join(s), Str(h.sha256(e[root + s].data)));
    RelativeIsPath(d, root, r);
    RelativeIsPath(e, root, s);
    JoinInjective(r, s);
  }

  /** Two states of a package under one accepted manifest have the same artifact
      files, and each file the same content or a collision of the hash. So adding,
      removing or changing a file below an artifact root makes the manifest
      unacceptable. */
  lemma AcceptedPinsArtifacts(h: Host, d: Disk, e: Disk, root: Path, m: JsValue, r: Path)
    requires WellFormed(d) && WellFormed(e) && IsArtifactPath(r)
    requires Acceptable(h, d, root, m) && Acceptable(h, e, root, m)
    ensures IsFileBelow(d, root, r) <==> IsFileBelow(e, root, r)
    ensures IsFileBelow(d, root, r) ==>
              || d[root + r].data == e[root + r].data
              || Collide(h, d[root + r].data, e[root + r].data)
  {
    hide RecordsArtifacts, BindsFields, BindsFiles, BindsAgents, IsArtifactPath, UnsignedDigest, NoLinks;
    var a := Get(m, "artifactDigests");
    if IsFileBelow(d, root, r) {
      RecordedFile(h, d, e, root, a, r);
    }
    if IsFileBelow(e, root, r) {
      RecordedFile(h, e, d, root, a, r);
    }
  }

  /** Nothing else is pinned: any change that keeps the artifact files, the
      manifest file and the absence of links keeps the manifest acceptable. */
  lemma UnrelatedChangeAccepted(h: Host, d: Disk, e: Disk, root: Path, m: JsValue)
    requires Acceptable(h, d, root, m)
    requires ManifestAt(h, e, root) == Some(m) && NoLinks(e, root)
    requires forall r :: IsArtifactPath(r) ==>
               (IsFileBelow(d, root, r) <==> IsFileBelow(e, root, r))
               && (IsFileBelow(d, root, r) ==> d[root + r] == e[root + r])
    ensures Acceptable(h, e, root, m)
  {
    var a := Get(m, "artifactDigests");
    SameRecords(h, d, e, root, a);
    hide RecordsArtifacts, BindsFields, BindsFiles, BindsAgents, IsArtifactPath, UnsignedDigest, NoLinks, ManifestAt;
  }

  /** The digest recorded for a file is the digest of its content. */
  lemma RecordedDigest(h: Host, d: Disk, root: Path, m: JsValue, r: Path)
    requires WellFormed(d) && Acceptable(h, d, root, m) && IsArtifact(d, root, r)
    requires Distinct(Get(m, "artifactDigests").entries)
    ensures Get(Get(m, "artifactDigests"), Join(r)) == Str(h.sha256(d[root + r].data))
  {
    hide BindsFields, BindsFiles, BindsAgents, IsArtifactPath, UnsignedDigest, NoLinks, ManifestAt;
    var a := Get(m, "artifactDigests");
    var x := Entry(Join(r), Str(h.sha256(d[root + r].data)));
    assert RecordsFile(h, d, root, x);
    LookupFinds(a.entries, x);
  }
}
