/** `readManifest`: the checks in the order of the script, proved to accept
    exactly the acceptable manifests. */
module ReadManifests {
  import opened Outcome
  import opened Paths
  import opened Hosts
  import opened Json
  import opened JsonRoundTrip
  import opened JsonParser
  import opened CanonicalJson
  import opened CanonicalLaw
  import opened ParsedValues
  import opened Disks
  import opened PathLookup
  import opened Listing
  import opened Manifests
  import opened Artifacts

  predicate IsDigestValue(v: JsValue) {
    v.Str? && IsDigest(v.s)
  }

  // ---------------------------------------------------------- properties

  lemma {:induction false} LookupProper(h: Host, es: seq<Entry>, k: string)
    requires forall i :: 0 <= i < |es| ==> Proper(h, es[i].value) && Defined(es[i].value)
    ensures Lookup(es, k) == Undefined || (Proper(h, Lookup(es, k)) && Defined(Lookup(es, k)))
  {
    if es != [] {
      LookupProper(h, es[1..], k);
    }
  }

  lemma GetProper(h: Host, v: JsValue, k: string)
    requires Proper(h, v) && Defined(v)
    ensures Get(v, k) == Undefined || (Proper(h, Get(v, k)) && Defined(Get(v, k)))
  {
    if v.Obj? {
      LookupProper(h, v.entries, k);
    }
  }

  /** The manifest of a package can only be read if its root leads to a directory. */
  lemma ManifestNeedsRoot(h: Host, d: Disk, root: Path)
    requires WellFormed(d) && ManifestAt(h, d, root).Some?
    ensures Find(h, d, root).Some? && Find(h, d, root).value in d && d[Find(h, d, root).value] == Dir
  {
    WalkConcat(d, [], root, [MANIFEST_FILE], h.linkLimit);
    hide Parse;
  }

  /** Without links the manifest is the same through any path to the root. */
  lemma SameManifest(h: Host, d: Disk, root: Path, q: Path)
    requires WellFormed(d) && Find(h, d, root) == Some(q) && NoLinks(d, q)
    ensures ManifestAt(h, d, root) == ManifestAt(h, d, q)
  {
    ReadBelow(h, d, root, q, [MANIFEST_FILE]);
    hide ReadFile, Find, NoLinks, WellFormed, Parse;
  }

  /** Get on the entries of an object with different keys. */
  lemma GetIsEntry(a: JsValue, k: string)
    requires a.Obj? && Distinct(a.entries)
    ensures forall v :: Entry(k, v) in a.entries ==> Get(a, k) == v
    ensures Get(a, k) != Undefined ==> Entry(k, Get(a, k)) in a.entries
  {
    forall v | Entry(k, v) in a.entries ensures Get(a, k) == v {
      LookupFinds(a.entries, Entry(k, v));
    }
    if Get(a, k) != Undefined {
      LookupFound(a.entries, k);
    }
  }

  lemma RecordsHasDigests(h: Host, d: Disk, root: Path, a: JsValue)
    requires Sound(h) && RecordsArtifacts(h, d, root, a)
    ensures forall e :: e in a.entries ==> IsDigestValue(e.value) && e.key != MANIFEST_FILE
  {
    forall e | e in a.entries ensures IsDigestValue(e.value) && e.key != MANIFEST_FILE {
      var r :| IsArtifact(d, root, r) && e == Entry(Join(r), Str(h.sha256(d[root + r].data)));
      ArtifactIsNotManifest(r);
    }
  }

  lemma ArtifactIsNotManifest(r: Path)
    requires IsArtifactPath(r)
    ensures Join(r) != MANIFEST_FILE
  {
    if |r| == 1 {
      assert r == [r[0]];
    } else {
      assert Join(r)[|r[0]|] == '/';
      assert forall i :: 0 <= i < |MANIFEST_FILE| ==> MANIFEST_FILE[i] != '/';
    }
  }

  // ------------------------------------------------------------- artifacts

  function KeySet(es: seq<Entry>): (s: set<string>)
    ensures forall k :: k in s <==> KeyAt(es, k) != -1
  {
    set i | 0 <= i < |es| :: es[i].key
  }

  /** The set comparison and the digest loop: the recorded map must equal the
      recomputed one. */
  method CompareArtifacts(recorded: seq<Entry>, actual: seq<Entry>) returns (code: Option<string>)
    requires Distinct(recorded) && Distinct(actual)
    requires forall e :: e in actual ==> IsDigestValue(e.value)
    ensures code.None? <==> forall e :: e in recorded <==> e in actual
    ensures code == Some("manifest-artifact-set-drift") <==>
              KeySet(recorded) != KeySet(actual)
  {
    var i := 0;
    while i < |actual|
      invariant 0 <= i <= |actual|
      invariant forall j :: 0 <= j < i ==> KeyAt(recorded, actual[j].key) != -1
    {
      if KeyAt(recorded, actual[i].key) == -1 {
        assert actual[i].key in KeySet(actual) && actual[i] in actual;
        return Some("manifest-artifact-set-drift");
      }
      i := i + 1;
    }
    i := 0;
    while i < |recorded|
      invariant 0 <= i <= |recorded|
      invariant forall j :: 0 <= j < i ==> KeyAt(actual, recorded[j].key) != -1
    {
      if KeyAt(actual, recorded[i].key) == -1 {
        assert recorded[i].key in KeySet(recorded) && recorded[i] in recorded;
        return Some("manifest-artifact-set-drift");
      }
      i := i + 1;
    }
    i := 0;
    SameKeys(recorded, actual);
    while i < |recorded|
      invariant 0 <= i <= |recorded|
      invariant forall j :: 0 <= j < i ==> recorded[j] in actual
    {
      var e := recorded[i];
      var k := KeyAt(actual, e.key);
      if !IsDigestValue(e.value) {
        assert e in recorded;
        return Some("manifest-artifact-digest-invalid");
      }
      if actual[k].value != e.value {
        DifferentValue(actual, k, e);
        assert e in recorded;
        return Some("manifest-artifact-drift");
      }
      assert actual[k] == e;
      i := i + 1;
    }
    SameEntries(recorded, actual);
    return None;
  }

  lemma SameKeys(xs: seq<Entry>, ys: seq<Entry>)
    requires forall j :: 0 <= j < |xs| ==> KeyAt(ys, xs[j].key) != -1
    requires forall j :: 0 <= j < |ys| ==> KeyAt(xs, ys[j].key) != -1
    ensures KeySet(xs) == KeySet(ys)
  {
    forall k ensures k in KeySet(xs) <==> k in KeySet(ys) {
    }
  }

  lemma DifferentValue(es: seq<Entry>, k: int, e: Entry)
    requires Distinct(es) && 0 <= k < |es| && es[k].key == e.key && es[k].value != e.value
    ensures e !in es
  {
  }

  lemma SameEntries(xs: seq<Entry>, ys: seq<Entry>)
    requires Distinct(ys)
    requires forall j :: 0 <= j < |xs| ==> xs[j] in ys
    requires forall j :: 0 <= j < |ys| ==> KeyAt(xs, ys[j].key) != -1
    ensures forall e :: e in xs <==> e in ys
  {
    forall e | e in ys ensures e in xs {
      var j :| 0 <= j < |ys| && ys[j] == e;
      var x := xs[KeyAt(xs, e.key)];
      assert x in ys;
    }
  }

  // -------------------------------------------------------------- bindings

  /** The object that `requireArtifactBindings` compares with. */
  function ExpectedEntries(a: JsValue, files: seq<string>): seq<Entry> {
    if files == [] then []
    else Put(ExpectedEntries(a, files[..|files| - 1]), files[|files| - 1], Get(a, files[|files| - 1]))
  }

  lemma {:induction false} ExpectedExact(h: Host, a: JsValue, files: seq<string>)
    requires forall f :: f in files ==> Proper(h, Get(a, f))
    ensures Proper(h, Obj(ExpectedEntries(a, files)))
    ensures forall e :: e in ExpectedEntries(a, files) <==> e.key in files && e.value == Get(a, e.key)
  {
    if files != [] {
      var n := |files| - 1;
      var f := files[n];
      assert files == files[..n] + [f];
      ExpectedExact(h, a, files[..n]);
      var front := ExpectedEntries(a, files[..n]);
      PutOrdered(front, f, Get(a, f));
      PutExact(front, f, Get(a, f));
      var r := Put(front, f, Get(a, f));
      forall i | 0 <= i < |r| ensures Proper(h, r[i].value) {
        assert r[i] in r;
      }
    }
  }

  /** Assigning a property leaves the other entries alone. */
  lemma {:induction false} PutExact(es: seq<Entry>, k: string, v: JsValue)
    requires Ordered(es)
    ensures forall e :: e in Put(es, k, v) <==> e == Entry(k, v) || (e in es && e.key != k)
  {
    hide IsIndex, IndexLess;
    if es == [] {
    } else if es[0].key == k {
      assert es == [es[0]] + es[1..];
      forall e | e in es[1..] ensures e.key != k {
        var j :| 0 <= j < |es[1..]| && es[1..][j] == e;
        assert es[j + 1] == e;
      }
    } else if IsIndex(k) && (!IsIndex(es[0].key) || IndexLess(k, es[0].key)) {
      forall e | e in es ensures e.key != k {
        var j :| 0 <= j < |es| && es[j] == e;
        NotLater(es, k, j);
      }
    } else {
      OrderedTail(es);
      PutExact(es[1..], k, v);
      assert es == [es[0]] + es[1..];
    }
  }

  lemma NotLater(es: seq<Entry>, k: string, j: nat)
    requires Ordered(es) && j < |es| && es[0].key != k && IsIndex(k)
    requires !IsIndex(es[0].key) || IndexLess(k, es[0].key)
    ensures es[j].key != k
  {
    if j > 0 && es[j].key == k {
      assert IsIndex(es[0].key) && IndexLess(es[0].key, es[j].key);
      IndexLessAsymmetric(k, es[0].key);
    }
  }

  /** A field value that prints as a string is that string. */
  lemma PrintedFields(h: Host, w: seq<Entry>, x: seq<Entry>)
    requires Ordered(w) && Ordered(x)
    requires forall e :: e in x ==> e.value.Str?
    requires forall e :: e in w ==> e.value != Undefined
    ensures Printed(Meaning(Obj(w))) == Printed(Meaning(Obj(x))) <==> forall e :: e in w <==> e in x
  {
    if forall e :: e in w <==> e in x {
      SameMeaningFields(w, x);
    }
    if Printed(Meaning(Obj(w))) == Printed(Meaning(Obj(x))) {
      forall e | e in x ensures e in w {
        FieldMatches(w, x, e);
      }
      forall e | e in w ensures e in x {
        FieldMatchesBack(w, x, e);
      }
    }
    hide *;
  }

  lemma FieldMatches(w: seq<Entry>, x: seq<Entry>, e: Entry)
    requires Distinct(w) && Distinct(x) && e in x && e.value.Str?
    requires Printed(Meaning(Obj(w))) == Printed(Meaning(Obj(x)))
    ensures e in w
  {
    FieldOf(x, e);
    FieldBack(w, e.key);
    var y :| y in w && y.key == e.key && Printed(Meaning(Obj(w))).fields[e.key] == Printed(Meaning(y.value));
    StringMeaning(y.value, e.value);
    assert y == e;
  }

  lemma FieldMatchesBack(w: seq<Entry>, x: seq<Entry>, e: Entry)
    requires Distinct(w) && Distinct(x) && e in w && e.value != Undefined
    requires forall y :: y in x ==> y.value.Str?
    requires Printed(Meaning(Obj(w))) == Printed(Meaning(Obj(x)))
    ensures e in x
  {
    FieldOf(w, e);
    FieldBack(x, e.key);
    var y :| y in x && y.key == e.key && Printed(Meaning(Obj(x))).fields[e.key] == Printed(Meaning(y.value));
    StringMeaning(e.value, y.value);
    assert y == e;
  }

  lemma StringMeaning(v: JsValue, s: JsValue)
    requires s.Str? && Printed(Meaning(v)) == Printed(Meaning(s))
    ensures v == s
  {
  }

  lemma SameMeaningFields(w: seq<Entry>, x: seq<Entry>)
    requires Distinct(w) && Distinct(x) && forall e :: e in w <==> e in x
    ensures MeaningEntries(w) == MeaningEntries(x)
  {
    var m, n := MeaningEntries(w), MeaningEntries(x);
    forall k | k in m ensures k in n && n[k] == m[k] {
      var i :| 0 <= i < |w| && w[i].key == k;
      assert w[i] in x;
      var j :| 0 <= j < |x| && x[j] == w[i];
      MeaningOf(w, i);
      MeaningOf(x, j);
    }
    forall k | k in n ensures k in m {
      var j :| 0 <= j < |x| && x[j].key == k;
      assert x[j] in w;
      var i :| 0 <= i < |w| && w[i] == x[j];
    }
  }

  lemma FieldOf(es: seq<Entry>, e: Entry)
    requires Distinct(es) && e in es && e.value != Undefined
    ensures var p := Printed(Meaning(Obj(es))).fields;
            e.key in p && p[e.key] == Printed(Meaning(e.value))
  {
    var i :| 0 <= i < |es| && es[i] == e;
    MeaningOf(es, i);
    assert Meaning(e.value) != VUndefined;
  }

  lemma FieldBack(es: seq<Entry>, k: string)
    requires Distinct(es) && k in Printed(Meaning(Obj(es))).fields
    ensures exists y :: y in es && y.key == k && Printed(Meaning(Obj(es))).fields[k] == Printed(Meaning(y.value))
  {
    var i :| 0 <= i < |es| && es[i].key == k;
    MeaningOf(es, i);
    assert es[i] in es;
  }

  /** `requireArtifactBindings`. */
  method RequireArtifactBindings(h: Host, m: JsValue, a: JsValue, field: string, files: seq<string>)
    returns (ok: bool)
    requires Proper(h, m) && Defined(m)
    requires a.Obj? && Distinct(a.entries) && forall e :: e in a.entries ==> e.value.Str?
    ensures ok <==> BindsFiles(m, a, field, files)
  {
    var w := Get(m, field);
    GetProper(h, m, field);
    if !w.Obj? {
      return false;
    }
    var i := 0;
    while i < |files|
      invariant 0 <= i <= |files|
      invariant forall j :: 0 <= j < i ==> Get(a, files[j]) != Undefined
    {
      if Get(a, files[i]) == Undefined {
        assert files[i] in files;
        return false;
      }
      i := i + 1;
    }
    AllStrings(h, a, files);
    var expected := Obj(ExpectedEntries(a, files));
    ExpectedExact(h, a, files);
    ok := CanonicalText(w) == CanonicalText(expected);
    CanonicalTextComplete(h, w, expected);
    DefinedEntries(w.entries);
    PrintedFields(h, w.entries, expected.entries);
  }

  lemma DefinedEntries(es: seq<Entry>)
    requires Defined(Obj(es))
    ensures forall e :: e in es ==> e.value != Undefined
  {
  }

  lemma AllStrings(h: Host, a: JsValue, files: seq<string>)
    requires a.Obj? && Distinct(a.entries) && forall e :: e in a.entries ==> e.value.Str?
    requires forall i :: 0 <= i < |files| ==> Get(a, files[i]) != Undefined
    ensures forall f :: f in files ==> Get(a, f).Str? && Proper(h, Get(a, f))
  {
    forall f | f in files ensures Get(a, f).Str? {
      GetIsEntry(a, f);
    }
  }

  method RequireBindings(m: JsValue, a: JsValue) returns (ok: bool)
    ensures ok <==> BindsFields(m, a)
  {
    var i := 0;
    while i < |BINDINGS|
      invariant 0 <= i <= |BINDINGS|
      invariant forall j :: 0 <= j < i ==> IsBound(m, a, BINDINGS[j])
    {
      var b := BINDINGS[i];
      if !IsBound(m, a, b) {
        assert b in BINDINGS;
        return false;
      }
      i := i + 1;
    }
    hide BINDINGS;
    return true;
  }

  method RequireAgents(m: JsValue, a: JsValue) returns (ok: bool)
    ensures ok <==> BindsAgents(m, a)
  {
    var g := Get(m, "agentDigests");
    if !g.Obj? {
      return false;
    }
    var i := 0;
    while i < |g.entries|
      invariant 0 <= i <= |g.entries|
      invariant forall j :: 0 <= j < i ==> Get(a, AgentFile(g.entries[j].key)) == g.entries[j].value
    {
      if Get(a, AgentFile(g.entries[i].key)) != g.entries[i].value {
        assert g.entries[i] in g.entries;
        return false;
      }
      i := i + 1;
    }
    return true;
  }

  // ---------------------------------------------------------- readManifest

  /** The recorded map is right exactly when it equals the collected one. */
  lemma RecordsSame(h: Host, d: Disk, root: Path, a: JsValue, actual: JsValue)
    requires a.Obj? && RecordsArtifacts(h, d, root, actual)
    ensures RecordsArtifacts(h, d, root, a) <==> forall e :: e in a.entries <==> e in actual.entries
  {
    hide RecordsFile;
  }

  /** What acceptance of `m` says about the way to the root. */
  lemma AcceptedThrough(h: Host, d: Disk, root: Path, q: Path, m: JsValue)
    requires WellFormed(d) && Find(h, d, root) == Some(q) && Acceptable(h, d, q, m)
    ensures ManifestAt(h, d, root) == Some(m)
  {
    hide BindsFields, BindsFiles, BindsAgents, RecordsArtifacts, NoLinks, ManifestAt, Digest, Get, Find;
    SameManifest(h, d, root, q);
  }

  /** `readManifest(root)`, for a root that may lie behind links: it returns a
      manifest exactly when the package at the real root has an acceptable one. */
  method ReadManifest(h: Host, d: Disk, root: Path) returns (r: Result<JsValue>)
    requires Sound(h) && WellFormed(d)
    ensures r.Ok? ==> Find(h, d, root).Some? && Acceptable(h, d, Find(h, d, root).value, r.value)
    ensures r.Err? && Find(h, d, root).Some? ==> forall m :: !Acceptable(h, d, Find(h, d, root).value, m)
    ensures ManifestAt(h, d, root).None? ==> r == Err("manifest-unreadable")
  {
    ghost var q := Find(h, d, root);
    if q.Some? {
      forall m | Acceptable(h, d, q.value, m) ensures ManifestAt(h, d, root) == Some(m) {
        AcceptedThrough(h, d, root, q.value, m);
      }
    }
    hide BindsFields, BindsFiles, BindsAgents, RecordsArtifacts, NoLinks, ManifestAt, Digest, Find;
    var parsed := ManifestAt(h, d, root);
    if parsed.None? {
      return Err("manifest-unreadable");
    }
    var m := parsed.value;
    ParseManifestProper(h, d, root);
    ManifestNeedsRoot(h, d, root);
    if !m.Obj? {
      return Err("manifest-invalid");
    }
    if Get(m, "schema") != Str(MANIFEST_SCHEMA) {
      return Err("manifest-schema-invalid");
    }
    UnsignedIsDigest(h, m);
    if !IsDigestValue(Get(m, "manifestDigest")) {
      return Err("manifest-digest-invalid");
    }
    if Str(UnsignedDigest(h, m, "manifestDigest")) != Get(m, "manifestDigest") {
      return Err("manifest-digest-mismatch");
    }
    r := CheckPackage(h, d, root, q.value, m);
    if r.Ok? {
      SameManifest(h, d, root, q.value);
    }
  }

  lemma ParseManifestProper(h: Host, d: Disk, root: Path)
    requires Sound(h)
    ensures var m := ManifestAt(h, d, root); m.Some? ==> Proper(h, m.value) && Defined(m.value)
  {
    var data := ReadFile(h, d, root + [MANIFEST_FILE]);
    if data.Some? {
      ParseProper(h, h.decode(data.value));
    }
  }

  lemma UnsignedIsDigest(h: Host, m: JsValue)
    requires Sound(h) && m.Obj?
    ensures IsDigest(UnsignedDigest(h, m, "manifestDigest"))
  {
  }

  /** The checks that compare the manifest with the package. */
  method CheckPackage(h: Host, d: Disk, root: Path, ghost q: Path, m: JsValue) returns (r: Result<JsValue>)
    requires Sound(h) && WellFormed(d) && Find(h, d, root) == Some(q) && q in d && d[q] == Dir
    requires m.Obj? && Proper(h, m) && Defined(m)
    ensures r.Ok? ==> r.value == m
    ensures r.Ok? <==>
              && NoLinks(d, q)
              && var a := Get(m, "artifactDigests");
                 && RecordsArtifacts(h, d, q, a)
                 && Get(m, "sourceTreeDigest") == Str(Digest(h, a))
                 && BindsFields(m, a)
                 && BindsFiles(m, a, "writerStageContractDigests", CONTRACT_FILES)
                 && BindsFiles(m, a, "writerStageRuntimeDigests", RUNTIME_FILES)
                 && BindsAgents(m, a)
  {
    var a := Get(m, "artifactDigests");
    GetProper(h, m, "artifactDigests");
    if !a.Obj? {
      return Err("manifest-artifacts-invalid");
    }
    var code := CheckArtifacts(h, d, root, q, a);
    if code.Some? {
      return Err(code.value);
    }
    RecordsHasDigests(h, d, q, a);
    hide RecordsArtifacts, NoLinks, Digest, BindsFields, BindsFiles, BindsAgents, CONTRACT_FILES, RUNTIME_FILES;
    if Get(m, "sourceTreeDigest") != Str(Digest(h, a)) {
      return Err("manifest-source-tree-drift");
    }
    var ok := RequireBindings(m, a);
    if !ok {
      return Err("manifest-binding-drift");
    }
    ok := RequireArtifactBindings(h, m, a, "writerStageContractDigests", CONTRACT_FILES);
    if !ok {
      return Err("manifest-writer-stage-contract-binding-drift");
    }
    ok := RequireArtifactBindings(h, m, a, "writerStageRuntimeDigests", RUNTIME_FILES);
    if !ok {
      return Err("manifest-writer-stage-runtime-binding-drift");
    }
    ok := RequireAgents(m, a);
    if !ok {
      return Err("manifest-agent-binding-drift");
    }
    return Ok(m);
  }

  method CheckArtifacts(h: Host, d: Disk, root: Path, ghost q: Path, a: JsValue) returns (code: Option<string>)
    requires Sound(h) && WellFormed(d) && Find(h, d, root) == Some(q) && q in d && d[q] == Dir
    requires a.Obj? && Distinct(a.entries)
    ensures code.None? <==> NoLinks(d, q) && RecordsArtifacts(h, d, q, a)
  {
    hide ArtifactEntries, Straight, Strictly, CollectArtifacts, Find;
    if KeyAt(a.entries, MANIFEST_FILE) != -1 {
      SelfRecorded(h, d, q, a);
      return Some("manifest-self-artifact-forbidden");
    }
    var actual := CollectArtifacts(h, d, root);
    CollectAt(h, d, root, q);
    CollectExact(h, d, q);
    if actual.Err? {
      return Some(actual.code);
    }
    RecordsHasDigests(h, d, q, actual.value);
    RecordsSame(h, d, q, a, actual.value);
    code := CompareArtifacts(a.entries, actual.value.entries);
    hide RecordsArtifacts, NoLinks;
  }

  lemma SelfRecorded(h: Host, d: Disk, root: Path, a: JsValue)
    requires Sound(h) && a.Obj? && KeyAt(a.entries, MANIFEST_FILE) != -1
    ensures !RecordsArtifacts(h, d, root, a)
  {
    var e := a.entries[KeyAt(a.entries, MANIFEST_FILE)];
    assert e in a.entries;
    if RecordsArtifacts(h, d, root, a) {
      RecordsHasDigests(h, d, root, a);
    }
  }
}
