/** What `copyInstallTree` builds is what `verifyInstalled` accepts, exactly when
    the targets are installable. */
module CopyVerification {
  import opened Outcome
  import opened Paths
  import opened PathLemmas
  import opened Hosts
  import opened Json
  import opened JsonParser
  import opened JsonRoundTrip
  import opened CanonicalJson
  import opened CanonicalLaw
  import opened Disks
  import opened PathLookup
  import opened Listing
  import opened Artifacts
  import opened Mappings
  import opened MappingLaw
  import opened InstalledTrees
  import opened CopyTrees

  /** The targets are normalised relative paths, none at or below another, and
      none at or below the ownership record. */
  ghost predicate Installable(ms: seq<Mapping>) {
    && (forall i :: 0 <= i < |ms| ==> NamesPath(ms[i]))
    && Copyable(ms)
    && !Leads(ms, [OWNERSHIP_FILE])
  }

  lemma NormalTarget(m: Mapping)
    requires NamesPath(m)
    ensures TargetPath(m) != [] && IsPath(TargetPath(m)) && m.target == Join(TargetPath(m))
  {
    var r :| IsPath(r) && r != [] && m.target == Join(r);
    NamesOfJoin(r);
  }

  // ------------------------------------------------------------------- copying

  /** The whole copy succeeds exactly when the files can be created and the
      ownership record too. */
  lemma CopyTreeExact(h: Host, d: Disk, source: Path, staging: Path, x: Expected)
    requires ReadyToCopy(d, source, staging) && SourcesPresent(d, source, x.mappings)
    ensures CopyTree(h, d, source, staging, x).Some? <==>
              Copyable(x.mappings) && !Leads(x.mappings, [OWNERSHIP_FILE])
    ensures CopyTree(h, d, source, staging, x).Some? ==>
              && CopyAll(h, d, source, staging, x.mappings).Some?
              && var e := CopyAll(h, d, source, staging, x.mappings).value;
                 && Shape(d, e, source, staging, x.mappings)
                 && CopyTree(h, d, source, staging, x).value
                    == e[staging + [OWNERSHIP_FILE] := File(h.encode(OwnershipText(x.ownership)))]
  {
    CopyAllExact(h, d, source, staging, x.mappings);
    if Copyable(x.mappings) {
      var e := CopyAll(h, d, source, staging, x.mappings).value;
      var p := staging + [OWNERSHIP_FILE];
      assert Parent(p) == staging;
      StagedIsStraight(d, e, source, staging, x.mappings, []);
      assert staging + [] == staging;
      PlaceStraight(h, e, p);
      assert staging in e && e[staging] == Dir;
      assert p in e <==> Leads(x.mappings, [OWNERSHIP_FILE]);
    }
    hide CopyAll, Shape, Copyable, Place, Leads, OwnershipText, WellFormed;
  }

  // ----------------------------------------------------------------- verifying

  /** The text of the ownership record reads back as the record. */
  lemma OwnershipReadsBack(h: Host, ownership: JsValue)
    requires Sound(h) && Proper(h, ownership)
    ensures var v := Parse(h, h.decode(h.encode(OwnershipText(ownership))));
            v.Some? && Printed(Meaning(v.value)) == Printed(Meaning(ownership))
  {
    hide Parse, Serialize, Clean;
    CleanPrints(h, ownership);
    SerializeClean(ownership, "  ", "");
    ParseInvertsPrint(h, Clean(ownership), "  ", "\n");
    CleanMeaning(h, ownership);
    PrintableMeaning(h, Clean(ownership));
    CleanMeaning(h, Clean(ownership));
  }

  /** The files below the staging directory after a whole copy. */
  lemma CopiedFiles(d: Disk, e: Disk, source: Path, staging: Path, ms: seq<Mapping>, data: Bytes, r: Path)
    requires Shape(d, e, source, staging, ms) && !Leads(ms, [OWNERSHIP_FILE])
    ensures var f := e[staging + [OWNERSHIP_FILE] := File(data)];
            IsFileBelow(f, staging, r) <==> r == [OWNERSHIP_FILE] || (r != [] && Hits(ms, r))
  {
    HitsLead(ms, r);
    assert r == (staging + r)[|staging|..] && [OWNERSHIP_FILE] == (staging + [OWNERSHIP_FILE])[|staging|..];
    hide Hits, Leads, StagedOnly, TargetPath;
  }

  lemma CopiedNoLinks(d: Disk, e: Disk, source: Path, staging: Path, ms: seq<Mapping>, data: Bytes)
    requires Shape(d, e, source, staging, ms)
    ensures NoLinks(e[staging + [OWNERSHIP_FILE] := File(data)], staging)
  {
    var f := e[staging + [OWNERSHIP_FILE] := File(data)];
    forall q | q in f && staging < q ensures !f[q].Link? {
      assert q == staging + q[|staging|..];
    }
    hide Hits, Leads, StagedOnly, TargetPath;
  }

  lemma CopiedDelivers(h: Host, d: Disk, e: Disk, source: Path, staging: Path, ms: seq<Mapping>, data: Bytes, i: nat)
    requires Shape(d, e, source, staging, ms) && !Leads(ms, [OWNERSHIP_FILE]) && i < |ms|
    requires CarriesContent(h, d, source, ms[i]) && NamesPath(ms[i])
    ensures Delivered(h, e[staging + [OWNERSHIP_FILE] := File(data)], staging, ms[i])
  {
    var r := TargetPath(ms[i]);
    NormalTarget(ms[i]);
    CopiedFiles(d, e, source, staging, ms, data, r);
    assert Hits(ms, r);
    assert r != [OWNERSHIP_FILE] by {
      HitsLead(ms, r);
    }
    assert staging + r != staging + [OWNERSHIP_FILE];
    assert e[staging + r] == d[source + ms[i].source];
  }

  lemma HitsAreTargets(ms: seq<Mapping>, r: Path)
    requires forall i :: 0 <= i < |ms| ==> NamesPath(ms[i])
    requires IsPath(r) && r != []
    ensures Hits(ms, r) <==> IsTarget(ms, r)
  {
    forall i | 0 <= i < |ms| ensures r == TargetPath(ms[i]) <==> ms[i].target == Join(r) {
      NormalTarget(ms[i]);
      if ms[i].target == Join(r) {
        JoinInjective(TargetPath(ms[i]), r);
      }
    }
    hide TargetPath, Join;
  }

  lemma CopiedExact(h: Host, d: Disk, e: Disk, source: Path, staging: Path, ms: seq<Mapping>, data: Bytes)
    requires Shape(d, e, source, staging, ms) && !Leads(ms, [OWNERSHIP_FILE])
    requires WellFormed(e[staging + [OWNERSHIP_FILE] := File(data)])
    requires forall m :: m in ms ==> CarriesContent(h, d, source, m)
    ensures FilesExact(h, e[staging + [OWNERSHIP_FILE] := File(data)], staging, ms) <==>
            forall i :: 0 <= i < |ms| ==> NamesPath(ms[i])
  {
    var f := e[staging + [OWNERSHIP_FILE] := File(data)];
    hide Shape, NamesPath, Leads, CarriesContent, Hits, IsFileBelow, Delivered, IsTarget, OWNERSHIP_FILE;
    if forall i :: 0 <= i < |ms| ==> NamesPath(ms[i]) {
      forall i | 0 <= i < |ms| ensures Delivered(h, f, staging, ms[i]) {
        assert ms[i] in ms;
        CopiedDelivers(h, d, e, source, staging, ms, data, i);
      }
      forall r ensures IsFileBelow(f, staging, r) <==> r == [OWNERSHIP_FILE] || IsTargetPath(ms, r) {
        CopiedFiles(d, e, source, staging, ms, data, r);
        if r != [] && IsPath(r) {
          HitsAreTargets(ms, r);
        }
        if IsFileBelow(f, staging, r) {
          FileIsPath(f, staging, r);
        }
      }
    }
    if FilesExact(h, f, staging, ms) {
      forall i | 0 <= i < |ms| ensures NamesPath(ms[i]) {
        DeliveredIsTarget(h, f, staging, ms[i]);
      }
    }
  }

  lemma FileIsPath(d: Disk, root: Path, r: Path)
    requires WellFormed(d) && IsFileBelow(d, root, r)
    ensures IsPath(r)
  {
    RelativeIsPath(d, root, r);
  }

  /** Copying into an empty directory and verifying the result succeeds exactly
      when the targets are installable. */
  lemma CopyThenVerify(h: Host, d: Disk, source: Path, staging: Path, x: Expected)
    requires Sound(h) && Straight(d, source) && IsExpected(h, d, source, x)
    requires ReadyToCopy(d, source, staging)
    ensures CopyTree(h, d, source, staging, x).Some?
            && ExactlyInstalled(h, CopyTree(h, d, source, staging, x).value, staging, x)
            <==> Installable(x.mappings)
  {
    ExpectedShape(h, d, source, x);
    ExpectedSources(h, d, source, x);
    CopyTreeExact(h, d, source, staging, x);
    hide IsExpected, SourcesPresent, CarriesContent, Copyable, Shape, NamesPath, MappingAllowed, Leads, ReadyToCopy;
    if CopyTree(h, d, source, staging, x).Some? {
      var e := CopyAll(h, d, source, staging, x.mappings).value;
      CopiedInstalls(h, d, e, source, staging, x, CopyTree(h, d, source, staging, x).value);
    }
    hide CopyTree, CopyAll, ExactlyInstalled;
  }

  lemma CopiedInstalls(h: Host, d: Disk, e: Disk, source: Path, staging: Path, x: Expected, f: Disk)
    requires Sound(h) && Proper(h, x.ownership) && ReadyToCopy(d, source, staging)
    requires Shape(d, e, source, staging, x.mappings) && !Leads(x.mappings, [OWNERSHIP_FILE])
    requires forall m :: m in x.mappings ==> CarriesContent(h, d, source, m)
    requires f == e[staging + [OWNERSHIP_FILE] := File(h.encode(OwnershipText(x.ownership)))]
    ensures WellFormed(f)
    ensures ExactlyInstalled(h, f, staging, x) <==> forall i :: 0 <= i < |x.mappings| ==> NamesPath(x.mappings[i])
  {
    var data := h.encode(OwnershipText(x.ownership));
    OwnershipReadsBack(h, x.ownership);
    CopiedWellFormed(d, e, source, staging, x.mappings, data);
    CopiedNoLinks(d, e, source, staging, x.mappings, data);
    CopiedExact(h, d, e, source, staging, x.mappings, data);
    hide Shape, NamesPath, Leads, CarriesContent, FilesExact, WellFormed, NoLinks, ReadyToCopy, OwnershipText, Parse;
  }

  lemma CopiedWellFormed(d: Disk, e: Disk, source: Path, staging: Path, ms: seq<Mapping>, data: Bytes)
    requires ReadyToCopy(d, source, staging)
    requires Shape(d, e, source, staging, ms) && !Leads(ms, [OWNERSHIP_FILE])
    ensures WellFormed(e[staging + [OWNERSHIP_FILE] := File(data)])
  {
    var p := staging + [OWNERSHIP_FILE];
    OwnershipName();
    assert Parent(p) == staging && Last(p) == OWNERSHIP_FILE;
    AddWellFormed(e, p, File(data));
    hide Hits, Leads;
  }

  lemma ExpectedSources(h: Host, d: Disk, source: Path, x: Expected)
    requires forall m :: m in x.mappings ==> MappingAllowed(m) && CarriesContent(h, d, source, m)
    ensures SourcesPresent(d, source, x.mappings)
  {
    forall i | 0 <= i < |x.mappings|
      ensures IsFileBelow(d, source, x.mappings[i].source) && ".." !in Split(x.mappings[i].target)
    {
      assert x.mappings[i] in x.mappings;
    }
    hide Truthy, Split, IsFileBelow;
  }
}
