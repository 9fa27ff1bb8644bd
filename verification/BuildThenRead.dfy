/** The manifest that `build-manifest` writes is accepted by `readManifest`
    exactly when every singly bound file and every writer-stage file exists. */
module BuildThenRead {
  import opened Outcome
  import opened Paths
  import opened Hosts
  import opened Json
  import opened JsonParser
  import opened JsonRoundTrip
  import opened CanonicalJson
  import opened CanonicalLaw
  import opened ParsedValues
  import opened Disks
  import opened PathLookup
  import opened Listing
  import opened Manifests
  import opened Artifacts
  import opened ReadManifests
  import opened BuildManifests

  /** Values that can be declared: they print in full. */
  ghost predicate Declarable(h: Host, c: Declared) {
    && Printable(h, c.requiredCapabilities) && Printable(h, c.installTargets)
    && Printable(h, c.ownedDomains) && Printable(h, c.excludedAuthorities)
  }

  /** An object that records digests: its keys differ and its values are text. */
  ghost predicate IsDigestMap(a: JsValue) {
    a.Obj? && Ordered(a.entries) && forall e :: e in a.entries ==> e.value.Str?
  }

  // ------------------------------------------------------------- the literal

  /** The keys are the manifest keys, in order. */
  ghost predicate Keyed(es: seq<Entry>) {
    |es| == 34 && |MANIFEST_KEYS| == 35 && forall i :: 0 <= i < 34 ==> es[i].key == MANIFEST_KEYS[i]
  }

  lemma BindingsCount()
    ensures |BINDINGS| == 17 && |MANIFEST_KEYS| == 35
  {
  }

  lemma LiteralBinding(h: Host, a: JsValue, c: Declared, n: nat)
    requires n < 17
    ensures |BINDINGS| == 17 && |ManifestEntries(h, a, c)| == 34
    ensures ManifestEntries(h, a, c)[BindingSlot(n)] == BoundEntry(a, BINDINGS[n])
  {
    BindingsCount();
    HeadBinding(h, a, c);
    hide BINDINGS, HeadEntries, TailEntries, BoundEntry;
    if n > 0 {
      assert ManifestEntries(h, a, c)[n + 8] == BoundEntries(a, BINDINGS[1..])[n - 1];
    }
  }

  lemma HeadBinding(h: Host, a: JsValue, c: Declared)
    requires |BINDINGS| == 17
    ensures HeadEntries(h, a, c)[6] == BoundEntry(a, BINDINGS[0])
  {
    hide BINDINGS, Digest, AgentEntries, BoundEntry;
  }

  lemma LiteralKeyed(h: Host, a: JsValue, c: Declared)
    ensures Keyed(ManifestEntries(h, a, c))
  {
    BindingsCount();
    hide MANIFEST_KEYS, HeadEntries, TailEntries, BINDINGS;
    var es := ManifestEntries(h, a, c);
    forall i | 0 <= i < 34 ensures es[i].key == MANIFEST_KEYS[i] {
      if i < 9 {
        HeadKeys(h, a, c, i);
      } else if i < 25 {
        LiteralBinding(h, a, c, i - 8);
        BindingKeys(i - 8);
      } else {
        assert es[i] == TailEntries(a, c)[i - 25];
        TailKeys(a, c, i - 25);
      }
    }
  }

  lemma KeyedDistinct(es: seq<Entry>)
    requires Keyed(es)
    ensures Ordered(es)
    ensures forall i :: 0 <= i < 34 ==> es[i].key != "manifestDigest"
  {
    LastKey();
    hide MANIFEST_KEYS;
    forall i, j | 0 <= i < j < 34 ensures es[i].key != es[j].key {
      KeysDiffer(i, j);
    }
    forall i | 0 <= i < 34 ensures es[i].key != "manifestDigest" && !IsIndex(es[i].key) {
      KeysDiffer(i, 34);
      KeyIsNoIndex(i);
    }
  }

  lemma LastKey()
    ensures |MANIFEST_KEYS| == 35 && MANIFEST_KEYS[34] == "manifestDigest"
  {
  }

  /** No manifest key is an index: the third character is a letter. */
  lemma KeyIsNoIndex(i: nat)
    requires i < |MANIFEST_KEYS|
    ensures !IsIndex(MANIFEST_KEYS[i])
  {
    var k := MANIFEST_KEYS[i];
    assert |k| >= 3 && !IsDigit(k[2]);
    hide MANIFEST_KEYS;
  }

  // ------------------------------------------------------ the built manifest

  lemma {:induction false} WithoutMissing(es: seq<Entry>, k: string)
    requires forall i :: 0 <= i < |es| ==> es[i].key != k
    ensures Without(es, k) == es
  {
    if es != [] {
      WithoutMissing(es[1..], k);
      assert es == [es[0]] + es[1..];
    }
  }

  lemma {:induction false} WithoutLast(es: seq<Entry>, e: Entry)
    requires forall i :: 0 <= i < |es| ==> es[i].key != e.key
    ensures Without(es + [e], e.key) == es
  {
    if es != [] {
      assert (es + [e])[1..] == es[1..] + [e];
      WithoutLast(es[1..], e);
      assert es == [es[0]] + es[1..];
    } else {
      assert ([e])[1..] == [];
    }
  }

  /** The entry that the last assignment adds. */
  function SelfEntry(h: Host, es: seq<Entry>): Entry {
    Entry("manifestDigest", Str(Digest(h, Obj(es))))
  }

  lemma KeyedLast(es: seq<Entry>, e: Entry)
    requires Keyed(es) && e.key == "manifestDigest"
    ensures Ordered(es + [e])
  {
    KeyedDistinct(es);
    LastKey();
    KeyIsNoIndex(34);
    var r := es + [e];
    hide Keyed, IsIndex, MANIFEST_KEYS;
    forall i, j | 0 <= i < j < |r|
      ensures r[i].key != r[j].key
      ensures IsIndex(r[j].key) ==> IsIndex(r[i].key) && IndexLess(r[i].key, r[j].key)
    {
    }
  }

  /** The built manifest is its literal followed by its own digest. */
  lemma BuiltForm(h: Host, a: JsValue, c: Declared)
    ensures var es := ManifestEntries(h, a, c);
            && BuiltManifest(h, a, c) == Obj(es + [SelfEntry(h, es)])
            && Ordered(es + [SelfEntry(h, es)]) && Ordered(es)
            && (forall i :: 0 <= i < |es| ==> es[i].key != "manifestDigest")
  {
    LiteralKeyed(h, a, c);
    hide ManifestEntries, MANIFEST_KEYS, Digest;
    var es := ManifestEntries(h, a, c);
    KeyedDistinct(es);
    KeyedLast(es, SelfEntry(h, es));
    FromEntriesOrdered(es);
    PutLast(es, SelfEntry(h, es));
    WithoutMissing(es, "manifestDigest");
  }

  lemma DigestMapGet(h: Host, a: JsValue, f: string)
    requires IsDigestMap(a)
    ensures Get(a, f) == Undefined || Get(a, f).Str?
    ensures Proper(h, Get(a, f))
  {
    GetIsEntry(a, f);
  }

  lemma DigestMapPrints(h: Host, a: JsValue)
    requires IsDigestMap(a)
    ensures Printable(h, a)
  {
    forall i | 0 <= i < |a.entries| ensures Printable(h, a.entries[i].value) {
      assert a.entries[i] in a.entries;
    }
  }

  lemma {:induction false} AgentsExact(h: Host, a: JsValue, ids: seq<string>)
    requires IsDigestMap(a)
    ensures Proper(h, Obj(AgentEntries(a, ids)))
    ensures forall e :: e in AgentEntries(a, ids) ==> e.value == Get(a, AgentFile(e.key))
  {
    if ids != [] {
      var n := |ids| - 1;
      var k := ids[n];
      AgentsExact(h, a, ids[..n]);
      var front := AgentEntries(a, ids[..n]);
      var v := Get(a, AgentFile(k));
      DigestMapGet(h, a, AgentFile(k));
      PutOrdered(front, k, v);
      PutExact(front, k, v);
      var r := Put(front, k, v);
      hide Put;
      forall i | 0 <= i < |r| ensures Proper(h, r[i].value) {
        assert r[i] in r;
      }
    }
  }

  lemma ExpectedProper(h: Host, a: JsValue, files: seq<string>)
    requires IsDigestMap(a)
    ensures Proper(h, Obj(ExpectedEntries(a, files)))
    ensures forall e :: e in ExpectedEntries(a, files) <==> e.key in files && e.value == Get(a, e.key)
  {
    forall f | f in files ensures Proper(h, Get(a, f)) {
      DigestMapGet(h, a, f);
    }
    ExpectedExact(h, a, files);
  }

  lemma HeadShape(h: Host, a: JsValue, c: Declared, i: nat)
    requires i < 9
    ensures var v := HeadEntries(h, a, c)[i].value;
            || v.Str?
            || v == Get(a, BINDINGS[0].path)
            || v == Obj(AgentEntries(a, AGENT_IDS))
  {
    hide Digest, AgentEntries, BINDINGS, AGENT_IDS, Get;
  }

  lemma TailShape(a: JsValue, c: Declared, i: nat)
    requires i < 9
    ensures var v := TailEntries(a, c)[i].value;
            || v.Str? || v == Arr([]) || v == a
            || v == Obj(ExpectedEntries(a, CONTRACT_FILES)) || v == Obj(ExpectedEntries(a, RUNTIME_FILES))
            || v == c.requiredCapabilities || v == c.installTargets
            || v == c.ownedDomains || v == c.excludedAuthorities
  {
    hide ExpectedEntries, CONTRACT_FILES, RUNTIME_FILES;
  }

  lemma HeadProper(h: Host, a: JsValue, c: Declared, i: nat)
    requires IsDigestMap(a) && i < 9
    ensures Proper(h, HeadEntries(h, a, c)[i].value)
  {
    hide Digest, AgentEntries, BINDINGS, AGENT_IDS, Get, HeadEntries;
    BindingsCount();
    HeadShape(h, a, c, i);
    AgentsExact(h, a, AGENT_IDS);
    DigestMapGet(h, a, BINDINGS[0].path);
  }

  lemma TailProper(h: Host, a: JsValue, c: Declared, i: nat)
    requires IsDigestMap(a) && Declarable(h, c) && i < 9
    ensures Proper(h, TailEntries(a, c)[i].value)
  {
    hide ExpectedEntries, CONTRACT_FILES, RUNTIME_FILES, Get, Declarable, Printable, TailEntries;
    TailShape(a, c, i);
    ExpectedProper(h, a, CONTRACT_FILES);
    ExpectedProper(h, a, RUNTIME_FILES);
    DigestMapPrints(h, a);
    PrintableMeaning(h, a);
    DeclaredProper(h, c);
  }

  lemma DeclaredProper(h: Host, c: Declared)
    requires Declarable(h, c)
    ensures Proper(h, c.requiredCapabilities) && Proper(h, c.installTargets)
    ensures Proper(h, c.ownedDomains) && Proper(h, c.excludedAuthorities)
  {
    PrintableMeaning(h, c.requiredCapabilities);
    PrintableMeaning(h, c.installTargets);
    PrintableMeaning(h, c.ownedDomains);
    PrintableMeaning(h, c.excludedAuthorities);
  }

  lemma LiteralProper(h: Host, a: JsValue, c: Declared, i: nat)
    requires IsDigestMap(a) && Declarable(h, c) && i < |ManifestEntries(h, a, c)|
    ensures Proper(h, ManifestEntries(h, a, c)[i].value)
  {
    BindingsCount();
    hide HeadEntries, TailEntries, BINDINGS, Get;
    var es := ManifestEntries(h, a, c);
    if i < 9 {
      HeadProper(h, a, c, i);
    } else if i < 25 {
      LiteralBinding(h, a, c, i - 8);
      DigestMapGet(h, a, BINDINGS[i - 8].path);
    } else {
      assert es[i] == TailEntries(a, c)[i - 25];
      TailProper(h, a, c, i - 25);
    }
  }

  lemma BuiltProper(h: Host, a: JsValue, c: Declared)
    requires IsDigestMap(a) && Declarable(h, c)
    ensures Proper(h, BuiltManifest(h, a, c)) && Proper(h, Obj(ManifestEntries(h, a, c)))
  {
    BuiltForm(h, a, c);
    hide ManifestEntries, BuiltManifest, Digest;
    var es := ManifestEntries(h, a, c);
    forall i | 0 <= i < |es| ensures Proper(h, es[i].value) {
      LiteralProper(h, a, c, i);
    }
    var r := es + [SelfEntry(h, es)];
    forall i | 0 <= i < |r| ensures Proper(h, r[i].value) {
    }
  }

  // ------------------------------------------------------- reading it back

  lemma {:induction false} CleanLookup(es: seq<Entry>, k: string)
    requires Distinct(es)
    ensures Lookup(CleanEntries(es), k) ==
            if Lookup(es, k) == Undefined then Undefined else Clean(Lookup(es, k))
  {
    if es != [] {
      CleanLookup(es[1..], k);
      if es[0].key == k && es[0].value == Undefined {
        assert forall i :: 0 <= i < |es[1..]| ==> es[1..][i] == es[i + 1];
        LookupMisses(es[1..], k);
      }
      if es[0].value != Undefined {
        assert CleanEntries(es)[1..] == CleanEntries(es[1..]);
      }
    }
  }

  /** A field of an object after it has been written and read. */
  lemma ReadField(es: seq<Entry>, e: Entry)
    requires Distinct(es) && e in es
    ensures Get(Clean(Obj(es)), e.key) == if e.value == Undefined then Undefined else Clean(e.value)
  {
    LookupFinds(es, e);
    CleanLookup(es, e.key);
  }

  /** Cleaning a value does not change its digest. */
  lemma DigestOfClean(h: Host, v: JsValue)
    requires Proper(h, v)
    ensures Digest(h, Clean(v)) == Digest(h, v)
  {
    CleanPrints(h, v);
    PrintableMeaning(h, Clean(v));
    CleanMeaning(h, v);
    CleanMeaning(h, Clean(v));
    DigestComplete(h, Clean(v), v);
  }

  lemma {:induction false} CleanAppend(es: seq<Entry>, e: Entry)
    requires e.value != Undefined
    ensures CleanEntries(es + [e]) == CleanEntries(es) + [Entry(e.key, Clean(e.value))]
  {
    if es == [] {
      assert ([e])[1..] == [];
    } else {
      assert (es + [e])[1..] == es[1..] + [e];
      CleanAppend(es[1..], e);
    }
  }

  /** The self-digest survives writing and reading: undefined fields vanish from
      the text and from what is hashed alike. */
  lemma ReadSelfDigest(h: Host, es: seq<Entry>)
    requires Proper(h, Obj(es)) && Distinct(es + [SelfEntry(h, es)])
    requires forall i :: 0 <= i < |es| ==> es[i].key != "manifestDigest"
    ensures var m := Clean(Obj(es + [SelfEntry(h, es)]));
            Get(m, "manifestDigest") == Str(UnsignedDigest(h, m, "manifestDigest"))
  {
    var e := SelfEntry(h, es);
    var cs := CleanEntries(es);
    CleanAppend(es, e);
    forall i | 0 <= i < |cs| ensures cs[i].key != "manifestDigest" {
      var j := CleanKeys(es, i);
    }
    WithoutLast(cs, e);
    DigestOfClean(h, Obj(es));
    ReadField(es + [e], e);
    hide Digest, Get;
  }

  /** The manifest file reads back as the printed part of the manifest. */
  lemma ReadBack(h: Host, m: JsValue)
    requires Sound(h) && Proper(h, m)
    ensures Parse(h, h.decode(h.encode(ManifestText(m)))) == Some(Clean(m))
  {
    hide Parse, Serialize;
    CleanPrints(h, m);
    SerializeClean(m, "    ", "");
    ParseInvertsPrint(h, Clean(m), "    ", "\n");
  }

  // --------------------------------------------------------------- theorem

  /** The package has the artifact file `f`. */
  ghost predicate HasArtifact(d: Disk, root: Path, f: string) {
    exists r :: IsArtifact(d, root, r) && Join(r) == f
  }

  /** Every file that the manifest binds exists. */
  ghost predicate AllBound(d: Disk, root: Path) {
    && (forall b :: b in BINDINGS ==> HasArtifact(d, root, b.path))
    && (forall f :: f in CONTRACT_FILES ==> HasArtifact(d, root, f))
    && (forall f :: f in RUNTIME_FILES ==> HasArtifact(d, root, f))
  }

  lemma RecordedIffPresent(h: Host, d: Disk, root: Path, a: JsValue, f: string)
    requires RecordsArtifacts(h, d, root, a) && Distinct(a.entries)
    ensures Get(a, f) != Undefined <==> HasArtifact(d, root, f)
  {
    GetIsEntry(a, f);
    if HasArtifact(d, root, f) {
      var r :| IsArtifact(d, root, r) && Join(r) == f;
      var e := Entry(f, Str(h.sha256(d[root + r].data)));
      assert RecordsFile(h, d, root, e);
      assert e in a.entries;
    }
    if Get(a, f) != Undefined {
      assert RecordsFile(h, d, root, Entry(f, Get(a, f)));
    }
  }

  lemma RecordsIsDigestMap(h: Host, d: Disk, root: Path, a: JsValue)
    requires RecordsArtifacts(h, d, root, a) && Ordered(a.entries)
    ensures IsDigestMap(a)
  {
    forall e | e in a.entries ensures e.value.Str? {
      assert RecordsFile(h, d, root, e);
    }
  }

  /** The entries of the literal that the reader looks at. */
  lemma LiteralHas(h: Host, a: JsValue, c: Declared)
    ensures var es := ManifestEntries(h, a, c);
            && Entry("schema", Str(MANIFEST_SCHEMA)) in es
            && Entry("packageIdentity", Str(c.packageIdentity)) in es
            && Entry("installTargets", c.installTargets) in es
            && Entry("sourceTreeDigest", Str(Digest(h, a))) in es
            && Entry("agentDigests", Obj(AgentEntries(a, AGENT_IDS))) in es
            && Entry("artifactDigests", a) in es
            && Entry("writerStageContractDigests", Obj(ExpectedEntries(a, CONTRACT_FILES))) in es
            && Entry("writerStageRuntimeDigests", Obj(ExpectedEntries(a, RUNTIME_FILES))) in es
  {
    hide Digest, AgentEntries, ExpectedEntries, BINDINGS, AGENT_IDS, CONTRACT_FILES, RUNTIME_FILES, BoundEntry, Get;
    var x, y := HeadEntries(h, a, c), TailEntries(a, c);
    assert x[0] in x && x[1] in x && x[4] in x && x[7] in x;
    assert y[0] in y && y[1] in y && y[5] in y && y[8] in y;
  }

  lemma LiteralHasBindings(h: Host, a: JsValue, c: Declared)
    ensures forall b :: b in BINDINGS ==> BoundEntry(a, b) in ManifestEntries(h, a, c)
  {
    BindingsCount();
    hide ManifestEntries, BINDINGS, BoundEntry;
    forall b | b in BINDINGS ensures BoundEntry(a, b) in ManifestEntries(h, a, c) {
      var n :| 0 <= n < |BINDINGS| && BINDINGS[n] == b;
      LiteralBinding(h, a, c, n);
    }
  }

  /** A bound field reads back as the digest exactly when the file is recorded. */
  lemma ReadBinding(es: seq<Entry>, a: JsValue, b: Binding)
    requires Distinct(es) && IsDigestMap(a) && BoundEntry(a, b) in es
    ensures IsBound(Clean(Obj(es)), a, b) <==> Get(a, b.path) != Undefined
  {
    ReadField(es, BoundEntry(a, b));
    GetIsEntry(a, b.path);
  }

  lemma ReadBindings(es: seq<Entry>, a: JsValue)
    requires Distinct(es) && IsDigestMap(a)
    requires forall b :: b in BINDINGS ==> BoundEntry(a, b) in es
    ensures BindsFields(Clean(Obj(es)), a) <==> forall b :: b in BINDINGS ==> Get(a, b.path) != Undefined
  {
    hide BINDINGS, BoundEntry, IsBound, Get, Clean;
    forall b | b in BINDINGS
      ensures IsBound(Clean(Obj(es)), a, b) <==> Get(a, b.path) != Undefined
    {
      ReadBinding(es, a, b);
    }
  }

  /** A digest map that the manifest repeats reads back whole exactly when every
      file in it is recorded. */
  lemma ReadFiles(h: Host, es: seq<Entry>, a: JsValue, field: string, files: seq<string>)
    requires Distinct(es) && IsDigestMap(a) && Entry(field, Obj(ExpectedEntries(a, files))) in es
    ensures BindsFiles(Clean(Obj(es)), a, field, files) <==> forall f :: f in files ==> Get(a, f) != Undefined
  {
    var x := ExpectedEntries(a, files);
    ReadField(es, Entry(field, Obj(x)));
    ExpectedProper(h, a, files);
    if forall f :: f in files ==> Get(a, f) != Undefined {
      forall i | 0 <= i < |x| ensures x[i].value.Str? {
        assert x[i] in x;
        GetIsEntry(a, x[i].key);
      }
      StringsPrint(x);
    }
  }

  lemma {:induction false} StringsPrint(es: seq<Entry>)
    requires forall i :: 0 <= i < |es| ==> es[i].value.Str?
    ensures CleanEntries(es) == es
  {
    if es != [] {
      StringsPrint(es[1..]);
      assert es == [es[0]] + es[1..];
    }
  }

  lemma ReadAgents(h: Host, es: seq<Entry>, a: JsValue, ids: seq<string>)
    requires Distinct(es) && IsDigestMap(a) && Entry("agentDigests", Obj(AgentEntries(a, ids))) in es
    ensures BindsAgents(Clean(Obj(es)), a)
  {
    var x := AgentEntries(a, ids);
    ReadField(es, Entry("agentDigests", Obj(x)));
    AgentsExact(h, a, ids);
    var r := CleanEntries(x);
    forall e | e in r ensures Get(a, AgentFile(e.key)) == e.value {
      var i :| 0 <= i < |r| && r[i] == e;
      var j := CleanKeys(x, i);
      assert x[j] in x;
      GetIsEntry(a, AgentFile(e.key));
    }
  }

  /** The conditions of acceptance that look at the manifest only. */
  lemma ReadManifestFields(h: Host, a: JsValue, c: Declared)
    requires IsDigestMap(a) && Declarable(h, c)
    ensures var m := Clean(BuiltManifest(h, a, c));
            && m.Obj?
            && Get(m, "schema") == Str(MANIFEST_SCHEMA)
            && Get(m, "manifestDigest") == Str(UnsignedDigest(h, m, "manifestDigest"))
            && Get(m, "artifactDigests") == a
            && Get(m, "sourceTreeDigest") == Str(Digest(h, a))
            && BindsAgents(m, a)
            && (BindsFields(m, a) <==> forall b :: b in BINDINGS ==> Get(a, b.path) != Undefined)
            && (BindsFiles(m, a, "writerStageContractDigests", CONTRACT_FILES) <==>
                forall f :: f in CONTRACT_FILES ==> Get(a, f) != Undefined)
            && (BindsFiles(m, a, "writerStageRuntimeDigests", RUNTIME_FILES) <==>
                forall f :: f in RUNTIME_FILES ==> Get(a, f) != Undefined)
  {
    var es := ManifestEntries(h, a, c);
    BuiltForm(h, a, c);
    BuiltProper(h, a, c);
    LiteralHas(h, a, c);
    LiteralHasBindings(h, a, c);
    hide *;
    ReadLiteral(h, a, es);
  }

  /** The descriptive fields of a manifest. */
  ghost predicate CarriesDeclared(m: JsValue, c: Declared) {
    && Get(m, "packageIdentity") == Str(c.packageIdentity)
    && Get(m, "packageVersion") == Str("1.0.0")
    && Get(m, "sourceCommit") == Str(c.sourceCommit)
    && Get(m, "skillIdentity") == Str("issue-orchestration")
    && Get(m, "modelPoolPolicyVersion") == Str("stage-model-pool.v4")
    && Get(m, "repositoryTargetPolicy") == Str("caller-supplied-operator-owned-remote-identity")
    && Get(m, "sourceRepositoryDependencies") == Arr([])
    && Get(m, "requiredCapabilities") == c.requiredCapabilities
    && Get(m, "installTargets") == c.installTargets
    && Get(m, "ownedDomains") == c.ownedDomains
    && Get(m, "excludedAuthorities") == c.excludedAuthorities
  }

  lemma LiteralDeclares(h: Host, a: JsValue, c: Declared)
    ensures var es := ManifestEntries(h, a, c);
            && Entry("packageVersion", Str("1.0.0")) in es
            && Entry("sourceCommit", Str(c.sourceCommit)) in es
            && Entry("skillIdentity", Str("issue-orchestration")) in es
            && Entry("modelPoolPolicyVersion", Str("stage-model-pool.v4")) in es
            && Entry("repositoryTargetPolicy", Str("caller-supplied-operator-owned-remote-identity")) in es
            && Entry("sourceRepositoryDependencies", Arr([])) in es
            && Entry("requiredCapabilities", c.requiredCapabilities) in es
            && Entry("ownedDomains", c.ownedDomains) in es
            && Entry("excludedAuthorities", c.excludedAuthorities) in es
  {
    hide Digest, AgentEntries, ExpectedEntries, BINDINGS, AGENT_IDS, CONTRACT_FILES, RUNTIME_FILES, BoundEntry, Get;
    var x, y := HeadEntries(h, a, c), TailEntries(a, c);
    assert x[2] in x && x[3] in x && x[5] in x && x[8] in x;
    assert y[2] in y && y[3] in y && y[4] in y && y[6] in y && y[7] in y;
  }

  lemma DeclaredPrints(h: Host, c: Declared)
    requires Declarable(h, c)
    ensures Clean(c.requiredCapabilities) == c.requiredCapabilities && c.requiredCapabilities != Undefined
    ensures Clean(c.installTargets) == c.installTargets && c.installTargets != Undefined
    ensures Clean(c.ownedDomains) == c.ownedDomains && c.ownedDomains != Undefined
    ensures Clean(c.excludedAuthorities) == c.excludedAuthorities && c.excludedAuthorities != Undefined
  {
    PrintableMeaning(h, c.requiredCapabilities);
    PrintableMeaning(h, c.installTargets);
    PrintableMeaning(h, c.ownedDomains);
    PrintableMeaning(h, c.excludedAuthorities);
  }

  lemma ReadText(es: seq<Entry>, k: string, s: string)
    requires Distinct(es) && Entry(k, Str(s)) in es
    ensures Get(Clean(Obj(es)), k) == Str(s)
  {
    ReadField(es, Entry(k, Str(s)));
  }

  lemma ReadWhole(es: seq<Entry>, k: string, v: JsValue)
    requires Distinct(es) && Entry(k, v) in es && Clean(v) == v && v != Undefined
    ensures Get(Clean(Obj(es)), k) == v
  {
    ReadField(es, Entry(k, v));
  }

  /** What the package declares reads back as it was written. */
  lemma DeclaredReadsBack(h: Host, a: JsValue, c: Declared)
    requires Declarable(h, c)
    ensures CarriesDeclared(Clean(BuiltManifest(h, a, c)), c)
  {
    var es := ManifestEntries(h, a, c);
    var r := es + [SelfEntry(h, es)];
    BuiltForm(h, a, c);
    LiteralHas(h, a, c);
    LiteralDeclares(h, a, c);
    DeclaredPrints(h, c);
    hide Get, ManifestEntries, BuiltManifest, Digest, SelfEntry, Declarable, Clean;
    OrderedDistinct(r);
    hide Ordered, Distinct;
    ReadText(r, "packageIdentity", c.packageIdentity);
    ReadText(r, "packageVersion", "1.0.0");
    ReadText(r, "sourceCommit", c.sourceCommit);
    ReadText(r, "skillIdentity", "issue-orchestration");
    ReadText(r, "modelPoolPolicyVersion", "stage-model-pool.v4");
    ReadText(r, "repositoryTargetPolicy", "caller-supplied-operator-owned-remote-identity");
    assert Clean(Arr([])) == Arr([]) by {
      EmptyIsClean();
    }
    ReadWhole(r, "sourceRepositoryDependencies", Arr([]));
    ReadWhole(r, "requiredCapabilities", c.requiredCapabilities);
    ReadWhole(r, "installTargets", c.installTargets);
    ReadWhole(r, "ownedDomains", c.ownedDomains);
    ReadWhole(r, "excludedAuthorities", c.excludedAuthorities);
  }

  lemma EmptyIsClean()
    ensures Clean(Arr([])) == Arr([])
  {
  }

  // ----------------------------------------------------------------- agents

  predicate IsAgentId(id: string) {
    || id == "code-implementer" || id == "dag-creator-updater" || id == "documentation-writer" || id == "test-owner"
    || id == "ui-system-adjudicator" || id == "ui-ux-implementer" || id == "ux-acceptance-verifier"
  }

  lemma AgentIds(id: string)
    ensures id in AGENT_IDS <==> IsAgentId(id)
  {
    assert |AGENT_IDS| == 7;
    assert AGENT_IDS[0] == "code-implementer" && AGENT_IDS[1] == "dag-creator-updater";
    assert AGENT_IDS[2] == "documentation-writer" && AGENT_IDS[3] == "test-owner";
    assert AGENT_IDS[4] == "ui-system-adjudicator" && AGENT_IDS[5] == "ui-ux-implementer";
    assert AGENT_IDS[6] == "ux-acceptance-verifier";
  }

  /** Assigning a property changes what is read under its key, and nothing else. */
  lemma {:induction false} LookupPut(es: seq<Entry>, k: string, v: JsValue, j: string)
    ensures Lookup(Put(es, k, v), j) == if j == k then v else Lookup(es, j)
  {
    hide IsIndex, IndexLess;
    if es != [] {
      LookupPut(es[1..], k, v, j);
    }
  }

  lemma {:induction false} LookupAgent(a: JsValue, ids: seq<string>, id: string)
    ensures Lookup(AgentEntries(a, ids), id) == if id in ids then Get(a, AgentFile(id)) else Undefined
  {
    if ids != [] {
      var n := |ids| - 1;
      assert ids == ids[..n] + [ids[n]];
      LookupAgent(a, ids[..n], id);
      LookupPut(AgentEntries(a, ids[..n]), ids[n], Get(a, AgentFile(ids[n])), id);
      hide Put, Get;
    }
  }

  /** The built manifest lists the seven agents that have a file, each with the digest
      of that file, and no other. */
  lemma BuiltAgents(h: Host, a: JsValue, c: Declared, id: string)
    requires IsDigestMap(a)
    ensures Get(Get(Clean(BuiltManifest(h, a, c)), "agentDigests"), id) ==
              if IsAgentId(id) then Get(a, "agents/" + id + ".toml") else Undefined
  {
    hide *;
    var es := ManifestEntries(h, a, c);
    BuiltForm(h, a, c);
    LiteralHas(h, a, c);
    AgentIds(id);
    AgentFileIs(id);
    OrderedDistinct(es + [SelfEntry(h, es)]);
    ReadAgent(h, es + [SelfEntry(h, es)], a, id);
  }

  lemma AgentFileIs(id: string)
    ensures AgentFile(id) == "agents/" + id + ".toml"
  {
  }

  lemma ReadAgent(h: Host, r: seq<Entry>, a: JsValue, id: string)
    requires IsDigestMap(a) && Distinct(r) && Entry("agentDigests", Obj(AgentEntries(a, AGENT_IDS))) in r
    ensures Get(Get(Clean(Obj(r)), "agentDigests"), id) ==
              if id in AGENT_IDS then Get(a, AgentFile(id)) else Undefined
  {
    var x := AgentEntries(a, AGENT_IDS);
    hide AGENT_IDS, AgentFile, AgentEntries;
    ReadField(r, Entry("agentDigests", Obj(x)));
    AgentsExact(h, a, AGENT_IDS);
    OrderedDistinct(x);
    hide Ordered, Distinct;
    CleanLookup(x, id);
    LookupAgent(a, AGENT_IDS, id);
    DigestMapGet(h, a, AgentFile(id));
  }

  /** The same for any object that has the entries of the literal. */
  lemma ReadLiteral(h: Host, a: JsValue, es: seq<Entry>)
    requires IsDigestMap(a) && Proper(h, Obj(es)) && Ordered(es + [SelfEntry(h, es)])
    requires forall i :: 0 <= i < |es| ==> es[i].key != "manifestDigest"
    requires Entry("schema", Str(MANIFEST_SCHEMA)) in es
    requires Entry("sourceTreeDigest", Str(Digest(h, a))) in es
    requires Entry("agentDigests", Obj(AgentEntries(a, AGENT_IDS))) in es
    requires Entry("artifactDigests", a) in es
    requires Entry("writerStageContractDigests", Obj(ExpectedEntries(a, CONTRACT_FILES))) in es
    requires Entry("writerStageRuntimeDigests", Obj(ExpectedEntries(a, RUNTIME_FILES))) in es
    requires forall b :: b in BINDINGS ==> BoundEntry(a, b) in es
    ensures var m := Clean(Obj(es + [SelfEntry(h, es)]));
            && m.Obj?
            && Get(m, "schema") == Str(MANIFEST_SCHEMA)
            && Get(m, "manifestDigest") == Str(UnsignedDigest(h, m, "manifestDigest"))
            && Get(m, "artifactDigests") == a
            && Get(m, "sourceTreeDigest") == Str(Digest(h, a))
            && BindsAgents(m, a)
            && (BindsFields(m, a) <==> forall b :: b in BINDINGS ==> Get(a, b.path) != Undefined)
            && (BindsFiles(m, a, "writerStageContractDigests", CONTRACT_FILES) <==>
                forall f :: f in CONTRACT_FILES ==> Get(a, f) != Undefined)
            && (BindsFiles(m, a, "writerStageRuntimeDigests", RUNTIME_FILES) <==>
                forall f :: f in RUNTIME_FILES ==> Get(a, f) != Undefined)
  {
    var r := es + [SelfEntry(h, es)];
    assert forall e :: e in es ==> e in r;
    ReadSelfDigest(h, es);
    hide *;
    OrderedDistinct(r);
    ReadScalars(h, a, r);
    ReadAgents(h, r, a, AGENT_IDS);
    ReadBindings(r, a);
    ReadFiles(h, r, a, "writerStageContractDigests", CONTRACT_FILES);
    ReadFiles(h, r, a, "writerStageRuntimeDigests", RUNTIME_FILES);
  }

  lemma OrderedDistinct(es: seq<Entry>)
    requires Ordered(es)
    ensures Distinct(es)
  {
  }

  lemma ReadScalars(h: Host, a: JsValue, r: seq<Entry>)
    requires IsDigestMap(a) && Distinct(r)
    requires Entry("schema", Str(MANIFEST_SCHEMA)) in r
    requires Entry("sourceTreeDigest", Str(Digest(h, a))) in r
    requires Entry("artifactDigests", a) in r
    ensures var m := Clean(Obj(r));
            && m.Obj?
            && Get(m, "schema") == Str(MANIFEST_SCHEMA)
            && Get(m, "artifactDigests") == a
            && Get(m, "sourceTreeDigest") == Str(Digest(h, a))
  {
    hide Digest, Get, MANIFEST_SCHEMA;
    DigestMapPrints(h, a);
    PrintableMeaning(h, a);
    ReadField(r, Entry("schema", Str(MANIFEST_SCHEMA)));
    ReadField(r, Entry("sourceTreeDigest", Str(Digest(h, a))));
    ReadField(r, Entry("artifactDigests", a));
  }

  /** Two disks with the same artifact files have the same artifact maps. */
  lemma SameRecords(h: Host, d: Disk, e: Disk, root: Path, a: JsValue)
    requires forall r :: IsArtifactPath(r) ==>
               (IsFileBelow(d, root, r) <==> IsFileBelow(e, root, r))
               && (IsFileBelow(d, root, r) ==> d[root + r] == e[root + r])
    ensures RecordsArtifacts(h, d, root, a) <==> RecordsArtifacts(h, e, root, a)
  {
    hide IsArtifactPath;
    forall x ensures RecordsFile(h, d, root, x) <==> RecordsFile(h, e, root, x) {
      if RecordsFile(h, d, root, x) {
        var r :| IsArtifact(d, root, r) && x == Entry(Join(r), Str(h.sha256(d[root + r].data)));
        assert IsArtifact(e, root, r);
      }
      if RecordsFile(h, e, root, x) {
        var r :| IsArtifact(e, root, r) && x == Entry(Join(r), Str(h.sha256(e[root + r].data)));
        assert IsArtifact(d, root, r);
      }
    }
    hide RecordsFile;
  }

  /** Writing the manifest file changes no artifact and adds no link. */
  lemma WriteKeepsArtifacts(h: Host, d: Disk, root: Path, data: Bytes, a: JsValue)
    requires WellFormed(d) && root in d && d[root] == Dir
    requires root + [MANIFEST_FILE] in d ==> d[root + [MANIFEST_FILE]].File?
    ensures var e := d[root + [MANIFEST_FILE] := File(data)];
            && WellFormed(e)
            && (NoLinks(d, root) <==> NoLinks(e, root))
            && (RecordsArtifacts(h, d, root, a) <==> RecordsArtifacts(h, e, root, a))
            && ReadFile(h, e, root + [MANIFEST_FILE]) == Some(data)
  {
    var p := root + [MANIFEST_FILE];
    var e := d[p := File(data)];
    WriteWellFormed(d, root, data);
    FindPresent(h, e, p);
    forall r | IsArtifactPath(r)
      ensures IsFileBelow(d, root, r) <==> IsFileBelow(e, root, r)
      ensures IsFileBelow(d, root, r) ==> d[root + r] == e[root + r]
    {
      assert root + r == p ==> r == [MANIFEST_FILE];
    }
    SameRecords(h, d, e, root, a);
    FileIsNoLink(d, root, p, data);
    hide WellFormed, RecordsArtifacts, Find, IsArtifactPath;
  }

  lemma FileIsNoLink(d: Disk, root: Path, p: Path, data: Bytes)
    requires p in d ==> d[p].File?
    ensures NoLinks(d, root) <==> NoLinks(d[p := File(data)], root)
  {
    var e := d[p := File(data)];
    if NoLinks(d, root) {
      forall q | q in e && root < q ensures !e[q].Link? {
        assert q == p || q in d;
      }
    }
    if NoLinks(e, root) {
      forall q | q in d && root < q ensures !d[q].Link? {
        assert q in e;
      }
    }
  }

  lemma WriteWellFormed(d: Disk, root: Path, data: Bytes)
    requires WellFormed(d) && root in d && d[root] == Dir
    requires root + [MANIFEST_FILE] in d ==> d[root + [MANIFEST_FILE]].File?
    ensures WellFormed(d[root + [MANIFEST_FILE] := File(data)])
  {
    var p := root + [MANIFEST_FILE];
    assert Parent(p) == root && Last(p) == MANIFEST_FILE;
    if p !in d {
      AddWellFormed(d, p, File(data));
    } else {
      OverwriteWellFormed(d, p, data);
    }
  }

  lemma OverwriteWellFormed(d: Disk, p: Path, data: Bytes)
    requires WellFormed(d) && p in d && d[p].File?
    ensures WellFormed(d[p := File(data)])
  {
    var e := d[p := File(data)];
    forall q | q in e && q != [] ensures Parent(q) in e && e[Parent(q)] == Dir {
      assert q in d;
    }
  }

  lemma BoundIffPresent(h: Host, d: Disk, root: Path, a: JsValue)
    requires RecordsArtifacts(h, d, root, a) && Distinct(a.entries)
    ensures AllBound(d, root) <==>
              && (forall b :: b in BINDINGS ==> Get(a, b.path) != Undefined)
              && (forall f :: f in CONTRACT_FILES ==> Get(a, f) != Undefined)
              && (forall f :: f in RUNTIME_FILES ==> Get(a, f) != Undefined)
  {
    hide BINDINGS, CONTRACT_FILES, RUNTIME_FILES, HasArtifact, RecordsArtifacts, Get;
    forall f ensures Get(a, f) != Undefined <==> HasArtifact(d, root, f) {
      RecordedIffPresent(h, d, root, a, f);
    }
  }

  /** What is left of acceptance when the other conditions hold. */
  lemma AcceptanceLeft(h: Host, e: Disk, root: Path, m: JsValue, a: JsValue)
    requires ManifestAt(h, e, root) == Some(m) && m.Obj? && Get(m, "artifactDigests") == a
    requires Get(m, "schema") == Str(MANIFEST_SCHEMA)
    requires Get(m, "manifestDigest") == Str(UnsignedDigest(h, m, "manifestDigest"))
    requires NoLinks(e, root) && RecordsArtifacts(h, e, root, a)
    requires Get(m, "sourceTreeDigest") == Str(Digest(h, a)) && BindsAgents(m, a)
    ensures Acceptable(h, e, root, m) <==>
              && BindsFields(m, a)
              && BindsFiles(m, a, "writerStageContractDigests", CONTRACT_FILES)
              && BindsFiles(m, a, "writerStageRuntimeDigests", RUNTIME_FILES)
  {
    hide BindsFields, BindsFiles, BindsAgents, RecordsArtifacts, Digest, Get, NoLinks, ManifestAt,
      CONTRACT_FILES, RUNTIME_FILES, UnsignedDigest, MANIFEST_SCHEMA;
  }

  /** Build and read are inverse: after the build the manifest on disk is the
      printed part of the built one, and it is accepted exactly when every file
      it binds exists. */
  lemma BuiltIsAccepted(h: Host, d: Disk, root: Path, c: Declared)
    requires Sound(h) && WellFormed(d) && root in d && d[root] == Dir && Declarable(h, c)
    requires BuildManifest(h, d, root, c).Ok?
    ensures var e := BuildManifest(h, d, root, c).value;
            var m := Clean(BuiltManifest(h, CollectArtifacts(h, d, root).value, c));
            && ManifestAt(h, e, root) == Some(m)
            && (Acceptable(h, e, root, m) <==> AllBound(d, root))
  {
    var a := CollectArtifacts(h, d, root).value;
    CollectExact(h, d, root);
    RecordsIsDigestMap(h, d, root, a);
    var m := BuiltManifest(h, a, c);
    var data := h.encode(ManifestText(m));
    var e := d[root + [MANIFEST_FILE] := File(data)];
    assert BuildManifest(h, d, root, c).value == e;
    WriteKeepsArtifacts(h, d, root, data, a);
    BuiltProper(h, a, c);
    ReadBack(h, m);
    assert ManifestAt(h, e, root) == Some(Clean(m));
    hide *;
    ReadManifestFields(h, a, c);
    DigestMapOrdered(a);
    BoundIffPresent(h, d, root, a);
    AcceptanceLeft(h, e, root, Clean(m), a);
  }

  lemma DigestMapOrdered(a: JsValue)
    requires IsDigestMap(a)
    ensures a.Obj? && Distinct(a.entries)
  {
  }

  lemma BuildSucceeds(h: Host, d: Disk, root: Path, c: Declared) returns (data: Bytes)
    requires Sound(h) && WellFormed(d) && root in d && d[root] == Dir && NoLinks(d, root)
    requires root + [MANIFEST_FILE] in d ==> d[root + [MANIFEST_FILE]].File?
    ensures CollectArtifacts(h, d, root).Ok?
    ensures BuildManifest(h, d, root, c) == Ok(d[root + [MANIFEST_FILE] := File(data)])
  {
    CollectExact(h, d, root);
    hide CollectArtifacts, NoLinks, WellFormed, BuiltManifest, ManifestText;
    data := h.encode(ManifestText(BuiltManifest(h, CollectArtifacts(h, d, root).value, c)));
  }

  /** A package without links that has every bound file gets an accepted manifest with
      what it declares. */
  lemma BuildsAccepted(h: Host, d: Disk, root: Path, c: Declared) returns (e: Disk, m: JsValue, data: Bytes)
    requires Sound(h) && WellFormed(d) && root in d && d[root] == Dir && NoLinks(d, root)
    requires root + [MANIFEST_FILE] in d ==> d[root + [MANIFEST_FILE]].File?
    requires Declarable(h, c) && AllBound(d, root)
    ensures BuildManifest(h, d, root, c) == Ok(e) && e == d[root + [MANIFEST_FILE] := File(data)] && WellFormed(e)
    ensures Acceptable(h, e, root, m)
    ensures CarriesDeclared(m, c)
  {
    hide *;
    data := BuildSucceeds(h, d, root, c);
    e := d[root + [MANIFEST_FILE] := File(data)];
    var a := CollectArtifacts(h, d, root).value;
    m := Clean(BuiltManifest(h, a, c));
    WriteWellFormed(d, root, data);
    BuiltIsAccepted(h, d, root, c);
    DeclaredReadsBack(h, a, c);
  }
}
