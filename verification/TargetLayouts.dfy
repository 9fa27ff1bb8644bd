/** Which declared install targets can always be installed, and that the ones the
    package declares can. */
module TargetLayouts {
  import opened Paths
  import opened PathLemmas
  import opened Hosts
  import opened Json
  import opened Disks
  import opened Listing
  import opened Manifests
  import opened Artifacts
  import opened Mappings
  import opened MappingLaw
  import opened InstalledTrees
  import opened CopyTrees
  import opened CopyVerification

  // -------------------------------------------------------------- strings

  lemma SquashJoin(q: Path)
    requires IsPath(q) && q != []
    ensures Squash(Split(Join(q)), false) == q
  {
    NamesOfJoin(q);
    PlainNames(q);
    hide Join, Names, Split, Plain, IsPath;
    SquashPlain([], q, false);
    assert [] + q == q && [] + Plain(q) == q;
    assert Squash([], false) == [];
  }

  /** A normalised relative path is its own normal form. */
  lemma NormalizeJoin(q: Path)
    requires IsPath(q) && q != []
    ensures Normalize(Join(q)) == Join(q)
  {
    hide Join, Split, Squash;
    JoinNonEmpty(q);
    SquashJoin(q);
    NoTrailingSlash(q);
  }

  /** Joining two normalised relative paths appends the names. */
  lemma JoinRelative(p: Path, q: Path)
    requires IsPath(p) && IsPath(q) && p != [] && q != []
    ensures JoinPath(Join(p), Join(q)) == Join(p + q)
  {
    JoinNonEmpty(p);
    JoinNonEmpty(q);
    JoinAppend(p, q);
    hide Join, Normalize;
    NormalizeJoin(p + q);
  }

  // --------------------------------------------------------------- layouts

  /** The names of a declared target. */
  function TargetNames(item: JsValue): Path
    requires Get(item, "target").Str?
  {
    Names(Get(item, "target").s)
  }

  /** The target is a normalised relative path that does not start at the
      ownership record. */
  ghost predicate NormalItem(item: JsValue) {
    && TargetWellTyped(item)
    && var t := TargetNames(item);
       t != [] && IsPath(t) && Get(item, "target").s == Join(t) && t[0] != OWNERSHIP_FILE
  }

  /** Normalised targets, none at or below another. */
  ghost predicate Separate(items: seq<JsValue>) {
    && (forall i :: 0 <= i < |items| ==> NormalItem(items[i]))
    && forall i, j :: 0 <= i < j < |items| ==> !Comparable(TargetNames(items[i]), TargetNames(items[j]))
  }

  /** What an item asks for lies at or below its target; two files of a directory
      are not below each other. */
  lemma AskedNames(d: Disk, root: Path, item: JsValue, source: Path, target: string) returns (r: Path)
    requires WellFormed(d) && NormalItem(item) && AsksFor(d, root, item, source, target)
    ensures IsPath(TargetNames(item) + r) && target == Join(TargetNames(item) + r)
    ensures Names(target) == TargetNames(item) + r
    ensures var p := Segs(SourcePath(root, item));
            if p in d && d[p] == Dir then IsFileBelow(d, p, r) else r == []
  {
    var t := TargetNames(item);
    var p := Segs(SourcePath(root, item));
    hide Names, SourcePath, Segs, Join;
    if p in d && d[p] == Dir {
      r :| IsFileBelow(d, p, r) && root + source == p + r && target == JoinPath(Get(item, "target").s, Join(r));
      RelativeIsPath(d, p, r);
      JoinRelative(t, r);
      NamesOfJoin(t + r);
    } else {
      r := [];
      assert t + r == t;
      NamesOfJoin(t);
    }
  }

  lemma FilesAreApart(d: Disk, p: Path, r: Path, s: Path)
    requires WellFormed(d) && IsFileBelow(d, p, r) && IsFileBelow(d, p, s)
    ensures r <= s ==> r == s
  {
    NothingBelowFile(d, p + r);
    assert r < s ==> p + r < p + s;
  }

  /** Two targets of one item are comparable only if they are the same. */
  lemma OneItem(d: Disk, root: Path, item: JsValue, s: Path, t: string, s1: Path, t1: string)
    requires WellFormed(d) && NormalItem(item) && AsksFor(d, root, item, s, t) && AsksFor(d, root, item, s1, t1)
    ensures Comparable(Names(t), Names(t1)) ==> t == t1
  {
    hide AsksFor, Names, SourcePath, Segs, Join;
    var a := AskedNames(d, root, item, s, t);
    var b := AskedNames(d, root, item, s1, t1);
    var n := TargetNames(item);
    assert (n + a)[|n|..] == a && (n + b)[|n|..] == b;
    var p := Segs(SourcePath(root, item));
    if p in d && d[p] == Dir {
      FilesAreApart(d, p, a, b);
      FilesAreApart(d, p, b, a);
    }
    hide IsFileBelow;
    assert n + a <= n + b ==> a <= b;
    assert n + b <= n + a ==> b <= a;
  }

  lemma TwoItems(p: Path, q: Path, a: Path, b: Path)
    requires !Comparable(p, q)
    ensures !Comparable(p + a, q + b)
  {
    assert p <= p + a && q <= q + b;
  }

  /** Different mapped targets are apart. */
  lemma TargetsApart(d: Disk, root: Path, items: seq<JsValue>, s: Path, t: string, s1: Path, t1: string)
    requires WellFormed(d) && Separate(items) && Asked(d, root, items, s, t) && Asked(d, root, items, s1, t1) && t != t1
    ensures !Comparable(Names(t), Names(t1))
  {
    hide AsksFor, NormalItem, Names, SourcePath, Segs, Join, Comparable;
    var k :| 0 <= k < |items| && AsksFor(d, root, items[k], s, t);
    var l :| 0 <= l < |items| && AsksFor(d, root, items[l], s1, t1);
    if k == l {
      OneItem(d, root, items[k], s, t, s1, t1);
    } else {
      ItemsApart(items, k, l);
      var a := AskedNames(d, root, items[k], s, t);
      var b := AskedNames(d, root, items[l], s1, t1);
      TwoItems(TargetNames(items[k]), TargetNames(items[l]), a, b);
    }
  }

  lemma ItemsApart(items: seq<JsValue>, k: nat, l: nat)
    requires Separate(items) && k < |items| && l < |items| && k != l
    ensures TargetWellTyped(items[k]) && TargetWellTyped(items[l])
    ensures !Comparable(TargetNames(items[k]), TargetNames(items[l]))
  {
    hide TargetNames;
  }

  lemma AskedIsNormal(d: Disk, root: Path, items: seq<JsValue>, s: Path, t: string)
    requires WellFormed(d) && Separate(items) && Asked(d, root, items, s, t)
    ensures Names(t) != [] && IsPath(Names(t)) && t == Join(Names(t)) && !EndsWithSlash(t)
    ensures !([OWNERSHIP_FILE] <= Names(t))
  {
    var k :| 0 <= k < |items| && AsksFor(d, root, items[k], s, t);
    hide AsksFor, Names, SourcePath, Segs, Join, OWNERSHIP_FILE;
    assert NormalItem(items[k]);
    var r := AskedNames(d, root, items[k], s, t);
    NoTrailingSlash(Names(t));
  }

  lemma MappingIsAsked(d: Disk, root: Path, items: seq<JsValue>, ms: seq<Mapping>, i: nat)
    requires forall s, t :: Maps(ms, s, t) <==> Asked(d, root, items, s, t)
    requires i < |ms|
    ensures Asked(d, root, items, ms[i].source, ms[i].target)
  {
    hide Asked;
    assert Maps(ms, ms[i].source, ms[i].target);
  }

  lemma LayoutIsInstallable(d: Disk, root: Path, items: seq<JsValue>, ms: seq<Mapping>)
    requires WellFormed(d) && Separate(items) && TargetsDiffer(ms)
    requires forall s, t :: Maps(ms, s, t) <==> Asked(d, root, items, s, t)
    ensures Installable(ms)
  {
    hide Asked, Maps, Separate, Names, Join, Comparable, EndsWithSlash, OWNERSHIP_FILE, WellFormed;
    forall i | 0 <= i < |ms|
      ensures NamesPath(ms[i]) && TargetPath(ms[i]) != [] && !EndsWithSlash(ms[i].target)
      ensures !([OWNERSHIP_FILE] <= TargetPath(ms[i]))
    {
      MappingIsAsked(d, root, items, ms, i);
      AskedIsNormal(d, root, items, ms[i].source, ms[i].target);
    }
    forall i, j | 0 <= i < j < |ms| ensures !Comparable(TargetPath(ms[i]), TargetPath(ms[j])) {
      MappingIsAsked(d, root, items, ms, i);
      MappingIsAsked(d, root, items, ms, j);
      TargetsApart(d, root, items, ms[i].source, ms[i].target, ms[j].source, ms[j].target);
    }
  }

  /** A package whose declared targets are normalised and separate, and apart from
      the ownership record, can always be installed, whatever files it has. */
  lemma SeparateIsInstallable(h: Host, d: Disk, root: Path, x: Expected)
    requires Sound(h) && WellFormed(d) && root in d && d[root] == Dir && IsExpected(h, d, root, x)
    requires InstallTargets(x.manifest).Ok? && Separate(InstallTargets(x.manifest).value)
    ensures Installable(x.mappings)
  {
    hide Acceptable, CollectMappings, Asked, Maps, MappingAllowed, CarriesContent, Separate, InstallTargets,
      Installable, OwnershipBody, WellFormed, TargetsDiffer;
    MappingsComplete(h, d, root, x.manifest);
    LayoutIsInstallable(d, root, InstallTargets(x.manifest).value, x.mappings);
  }

  // ------------------------------------------------------- the shipped layout

  function Declare(source: string, target: string): JsValue {
    Obj([Entry("source", Str(source)), Entry("target", Str(target))])
  }

  const MANIFEST_COPY := "issue-orchestration-manifest.json"

  /** The install targets that `build-manifest` writes. */
  function ShippedTargets(): seq<JsValue> {
    [ Declare("skills/issue-orchestration", ".agents/skills/issue-orchestration"),
      Declare("agents", ".codex/agents"),
      Declare("contracts", ".agents/contracts"),
      Declare("policy", ".agents/policy"),
      Declare("graph", ".agents/graph"),
      Declare("manifest.json", ".agents/" + MANIFEST_COPY) ]
  }

  /** The names of those targets. */
  function ShippedNames(): seq<Path> {
    [ [".agents", "skills", "issue-orchestration"],
      [".codex", "agents"],
      [".agents", "contracts"],
      [".agents", "policy"],
      [".agents", "graph"],
      [".agents", MANIFEST_COPY] ]
  }

  lemma DeclaredFields(source: string, target: string)
    ensures Get(Declare(source, target), "source") == Str(source)
    ensures Get(Declare(source, target), "target") == Str(target)
  {
    var es := Declare(source, target).entries;
    assert "source"[0] != "target"[0];
    hide Lookup;
    LookupFinds(es, es[0]);
    LookupFinds(es, es[1]);
  }

  lemma DeclaredIs(source: string, target: string, names: Path)
    requires IsPath(names) && names != [] && target == Join(names) && names[0] != OWNERSHIP_FILE
    ensures NormalItem(Declare(source, target)) && TargetNames(Declare(source, target)) == names
  {
    NamesOfJoin(names);
    DeclaredFields(source, target);
    hide Join, Names, Get, OWNERSHIP_FILE, Declare;
  }

  predicate HasNoSlash(s: string) {
    forall i :: 0 <= i < |s| ==> s[i] != '/'
  }

  lemma TwoNames(a: string, b: string)
    requires |a| > 2 && |b| > 2 && HasNoSlash(a) && HasNoSlash(b)
    ensures IsPath([a, b]) && Join([a, b]) == a + "/" + b
  {
    assert [a, b][1..] == [b];
  }

  lemma TwoNamesNormal(source: string, target: string, a: string, b: string)
    requires |a| > 2 && |b| > 2 && HasNoSlash(a) && HasNoSlash(b) && |a| != |OWNERSHIP_FILE|
    requires target == a + "/" + b
    ensures NormalItem(Declare(source, target)) && TargetNames(Declare(source, target)) == [a, b]
  {
    TwoNames(a, b);
    hide Join, OWNERSHIP_FILE, Declare, NormalItem, HasNoSlash, TargetNames;
    DeclaredIs(source, target, [a, b]);
  }

  lemma ThreeNamesNormal(source: string, target: string, a: string, b: string, c: string)
    requires |a| > 2 && |b| > 2 && |c| > 2 && HasNoSlash(a) && HasNoSlash(b) && HasNoSlash(c) && |a| != |OWNERSHIP_FILE|
    requires target == a + "/" + b + "/" + c
    ensures NormalItem(Declare(source, target)) && TargetNames(Declare(source, target)) == [a, b, c]
  {
    TwoNames(b, c);
    assert IsPath([a, b, c]) && [a, b, c][1..] == [b, c];
    assert Join([a, b, c]) == a + "/" + Join([b, c]);
    assert a + "/" + (b + "/" + c) == a + "/" + b + "/" + c;
    hide Join, OWNERSHIP_FILE, Declare, NormalItem, HasNoSlash, TargetNames;
    DeclaredIs(source, target, [a, b, c]);
  }

  lemma SkillsTarget()
    ensures NormalItem(Declare("skills/issue-orchestration", ".agents/skills/issue-orchestration"))
    ensures TargetNames(Declare("skills/issue-orchestration", ".agents/skills/issue-orchestration"))
            == [".agents", "skills", "issue-orchestration"]
  {
    assert ".agents/skills/issue-orchestration" == ".agents" + "/" + "skills" + "/" + "issue-orchestration";
    hide NormalItem, TargetNames, Declare;
    ThreeNamesNormal("skills/issue-orchestration", ".agents/skills/issue-orchestration", ".agents", "skills",
        "issue-orchestration");
  }

  lemma AgentsTarget()
    ensures NormalItem(Declare("agents", ".codex/agents"))
    ensures TargetNames(Declare("agents", ".codex/agents")) == [".codex", "agents"]
  {
    assert ".codex/agents" == ".codex" + "/" + "agents";
    hide NormalItem, TargetNames, Declare;
    TwoNamesNormal("agents", ".codex/agents", ".codex", "agents");
  }

  lemma ContractsTarget()
    ensures NormalItem(Declare("contracts", ".agents/contracts"))
    ensures TargetNames(Declare("contracts", ".agents/contracts")) == [".agents", "contracts"]
  {
    assert ".agents/contracts" == ".agents" + "/" + "contracts";
    hide NormalItem, TargetNames, Declare;
    TwoNamesNormal("contracts", ".agents/contracts", ".agents", "contracts");
  }

  lemma PolicyTarget()
    ensures NormalItem(Declare("policy", ".agents/policy"))
    ensures TargetNames(Declare("policy", ".agents/policy")) == [".agents", "policy"]
  {
    assert ".agents/policy" == ".agents" + "/" + "policy";
    hide NormalItem, TargetNames, Declare;
    TwoNamesNormal("policy", ".agents/policy", ".agents", "policy");
  }

  lemma GraphTarget()
    ensures NormalItem(Declare("graph", ".agents/graph"))
    ensures TargetNames(Declare("graph", ".agents/graph")) == [".agents", "graph"]
  {
    assert ".agents/graph" == ".agents" + "/" + "graph";
    hide NormalItem, TargetNames, Declare;
    TwoNamesNormal("graph", ".agents/graph", ".agents", "graph");
  }

  lemma ManifestCopyName()
    ensures |MANIFEST_COPY| > 2 && HasNoSlash(MANIFEST_COPY)
  {
    assert forall i :: 0 <= i < |MANIFEST_COPY| ==> MANIFEST_COPY[i] != '/';
  }

  lemma ManifestTarget()
    ensures NormalItem(Declare("manifest.json", ".agents/" + MANIFEST_COPY))
    ensures TargetNames(Declare("manifest.json", ".agents/" + MANIFEST_COPY)) == [".agents", MANIFEST_COPY]
  {
    assert ".agents/" == ".agents" + "/";
    ManifestCopyName();
    hide MANIFEST_COPY;
    hide NormalItem, TargetNames, Declare;
    TwoNamesNormal("manifest.json", ".agents/" + MANIFEST_COPY, ".agents", MANIFEST_COPY);
  }

  lemma ShippedIsNormal(i: nat)
    requires i < 6
    ensures NormalItem(ShippedTargets()[i]) && TargetNames(ShippedTargets()[i]) == ShippedNames()[i]
  {
    hide NormalItem, TargetNames, Declare;
    SkillsTarget();
    AgentsTarget();
    ContractsTarget();
    PolicyTarget();
    GraphTarget();
    ManifestTarget();
  }

  lemma ShippedAreApart(i: nat, j: nat)
    requires i < j < 6
    ensures !Comparable(ShippedNames()[i], ShippedNames()[j])
  {
    var p, q := ShippedNames()[i], ShippedNames()[j];
    assert "skills"[0] != "policy"[0];
    assert p[0] != q[0] || p[1] != q[1];
  }

  lemma ShippedAreSeparate()
    ensures Separate(ShippedTargets())
  {
    hide TargetNames, Comparable, Declare, Join;
    var items := ShippedTargets();
    forall i | 0 <= i < |items| ensures NormalItem(items[i]) {
      ShippedIsNormal(i);
    }
    forall i, j | 0 <= i < j < |items| ensures !Comparable(TargetNames(items[i]), TargetNames(items[j])) {
      ShippedIsNormal(i);
      ShippedIsNormal(j);
      ShippedAreApart(i, j);
    }
  }

  /** Whatever files the package has: under the targets that `build-manifest` writes,
      every package with an acceptable manifest whose mappings compile can be
      installed. */
  lemma ShippedIsInstallable(h: Host, d: Disk, root: Path, x: Expected)
    requires Sound(h) && WellFormed(d) && root in d && d[root] == Dir && IsExpected(h, d, root, x)
    requires Get(x.manifest, "installTargets") == Arr(ShippedTargets())
    ensures Installable(x.mappings)
  {
    ShippedAreSeparate();
    hide IsExpected, Installable, Separate, ShippedTargets;
    SeparateIsInstallable(h, d, root, x);
  }
}
