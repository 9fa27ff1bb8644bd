/** `copyInstallTree` as a function on the disk, and when its result is the
    expected installation. */
module CopyTrees {
  import opened Outcome
  import opened Paths
  import opened PathLemmas
  import opened Hosts
  import opened Json
  import opened Disks
  import opened PathLookup
  import opened Listing
  import opened Mappings

  /** One round of the copy loop. A target that ends in a separator cannot be
      created as a file. */
  function CopyOne(h: Host, d: Disk, source: Path, staging: Path, m: Mapping): Option<Disk> {
    var target := staging + Names(m.target);
    var up := MakeDirs(h, d, Parent(target));
    if up.None? || EndsWithSlash(m.target) then None
    else CopyFile(h, up.value, source + m.source, target)
  }

  function CopyAll(h: Host, d: Disk, source: Path, staging: Path, ms: seq<Mapping>): Option<Disk> {
    if ms == [] then Some(d)
    else
      var front := CopyAll(h, d, source, staging, ms[..|ms| - 1]);
      if front.None? then None else CopyOne(h, front.value, source, staging, ms[|ms| - 1])
  }

  function OwnershipText(ownership: JsValue): string {
    Serialize(ownership, "  ", "") + "\n"
  }

  /** `copyInstallTree`: the mapped files, then the ownership record. */
  function CopyTree(h: Host, d: Disk, source: Path, staging: Path, x: Expected): Option<Disk> {
    var all := CopyAll(h, d, source, staging, x.mappings);
    if all.None? then None
    else CreateFile(h, all.value, staging + [OWNERSHIP_FILE], h.encode(OwnershipText(x.ownership)))
  }

  // ------------------------------------------------- recursive directories

  /** Every present name on the way to `p` is a directory. */
  ghost predicate WayIsOpen(d: Disk, p: Path) {
    forall k :: 0 <= k <= |p| && p[..k] in d ==> d[p[..k]] == Dir
  }

  /** `e` is `d` with the directories on the way to `p`. */
  ghost predicate HasWay(d: Disk, e: Disk, p: Path) {
    && (forall q :: q in e <==> q in d || q <= p)
    && (forall q :: q in e ==> e[q] == if q in d then d[q] else Dir)
  }

  lemma WayOfParent(d: Disk, p: Path)
    requires p != []
    ensures WayIsOpen(d, p) <==> WayIsOpen(d, Parent(p)) && (p in d ==> d[p] == Dir)
  {
    var q := Parent(p);
    assert p[..|p|] == p;
    forall k | 0 <= k <= |q| ensures q[..k] == p[..k] {
    }
    if WayIsOpen(d, q) && (p in d ==> d[p] == Dir) {
      forall k | 0 <= k <= |p| && p[..k] in d ensures d[p[..k]] == Dir {
        if k < |p| {
          assert q[..k] in d;
        }
      }
    }
    if WayIsOpen(d, p) {
      forall k | 0 <= k <= |q| && q[..k] in d ensures d[q[..k]] == Dir {
        assert p[..k] in d;
      }
    }
  }

  /** Without links, creating directories succeeds exactly when no file is in the
      way, and adds just the missing ones. */
  lemma {:induction false} MakeDirsStraight(h: Host, d: Disk, p: Path)
    requires WellFormed(d) && IsPath(p) && Straight(d, p)
    ensures MakeDirs(h, d, p).Some? <==> WayIsOpen(d, p)
    ensures MakeDirs(h, d, p).Some? ==> WellFormed(MakeDirs(h, d, p).value) && HasWay(d, MakeDirs(h, d, p).value, p)
    decreases |p|
  {
    FindStraight(h, d, p);
    if p in d {
      PresentWay(d, p);
    } else if p != [] {
      StraightParent(d, p);
      MakeDirsStraight(h, d, Parent(p));
      WayOfParent(d, p);
      var up := MakeDirs(h, d, Parent(p));
      if up.Some? {
        MakeDirLast(h, d, up.value, p);
      }
    }
  }

  lemma PresentWay(d: Disk, p: Path)
    requires WellFormed(d) && p in d
    ensures WayIsOpen(d, p) <==> d[p] == Dir
    ensures HasWay(d, d, p)
  {
    assert p[..|p|] == p;
    forall k | 0 <= k < |p| ensures p[..k] in d && d[p[..k]] == Dir {
      PrefixIsDir(d, p, k);
    }
    forall q | q <= p ensures q in d {
      assert q == p[..|q|];
    }
  }

  lemma MakeDirLast(h: Host, d: Disk, up: Disk, p: Path)
    requires WellFormed(d) && WellFormed(up) && IsPath(p) && p != [] && p !in d
    requires HasWay(d, up, Parent(p)) && Straight(d, Parent(p)) && WayIsOpen(d, Parent(p))
    ensures MakeDir(h, up, p) == Some(up[p := Dir])
    ensures WellFormed(up[p := Dir]) && HasWay(d, up[p := Dir], p)
  {
    assert !(p <= Parent(p));
    forall k | 0 <= k <= |Parent(p)| && Parent(p)[..k] in up ensures !up[Parent(p)[..k]].Link? {
      assert Parent(p)[..k] in d || up[Parent(p)[..k]] == Dir;
    }
    PlaceStraight(h, up, p);
    assert Parent(p) in up;
    assert Parent(p)[..|Parent(p)|] == Parent(p);
    assert up[Parent(p)] == Dir;
    AddWellFormed(up, p, Dir);
    forall q ensures q in up[p := Dir] <==> q in d || q <= p {
      PrefixLast(q, p);
    }
  }

  lemma PrefixLast(q: Path, p: Path)
    requires p != []
    ensures q <= p <==> q <= Parent(p) || q == p
  {
    assert q <= p && q != p ==> q == Parent(p)[..|q|];
  }

  // ------------------------------------------------------ the copied tree

  /** `e` is `d` with files and directories added below `staging` only. */
  ghost predicate StagedOnly(d: Disk, e: Disk, staging: Path) {
    && WellFormed(e) && Within(d, e)
    && forall q :: q in e && q !in d ==> staging <= q && !e[q].Link?
  }

  /** The relative path that a mapping writes. */
  function TargetPath(m: Mapping): Path {
    Names(m.target)
  }

  predicate Comparable(p: Path, q: Path) {
    p <= q || q <= p
  }

  /** The targets can all be created: each names a file, and none lies at or below
      another. */
  ghost predicate Copyable(ms: seq<Mapping>) {
    && (forall i :: 0 <= i < |ms| ==> TargetPath(ms[i]) != [] && !EndsWithSlash(ms[i].target))
    && (forall i, j :: 0 <= i < j < |ms| ==> !Comparable(TargetPath(ms[i]), TargetPath(ms[j])))
  }

  ghost predicate Leads(ms: seq<Mapping>, r: Path) {
    exists i :: 0 <= i < |ms| && r <= TargetPath(ms[i])
  }

  ghost predicate Hits(ms: seq<Mapping>, r: Path) {
    exists i :: 0 <= i < |ms| && r == TargetPath(ms[i])
  }

  /** `e` is `d` with, below `staging`, the directories and files of `ms`. */
  ghost predicate Shape(d: Disk, e: Disk, source: Path, staging: Path, ms: seq<Mapping>) {
    && StagedOnly(d, e, staging)
    && (forall r :: r != [] ==> (staging + r in e <==> Leads(ms, r)))
    && (forall r :: r != [] && staging + r in e ==> e[staging + r] == Dir || e[staging + r].File?)
    && (forall r :: r != [] && staging + r in e ==> (e[staging + r].File? <==> Hits(ms, r)))
    && (forall i :: 0 <= i < |ms| ==>
          staging + TargetPath(ms[i]) in e && source + ms[i].source in d
          && e[staging + TargetPath(ms[i])] == d[source + ms[i].source])
  }

  /** An empty directory to install into, apart from the source. */
  ghost predicate ReadyToCopy(d: Disk, source: Path, staging: Path) {
    && WellFormed(d) && IsPath(staging) && staging in d && d[staging] == Dir
    && (forall r :: r != [] ==> staging + r !in d)
  }

  ghost predicate SourcesPresent(d: Disk, source: Path, ms: seq<Mapping>) {
    forall i :: 0 <= i < |ms| ==> IsFileBelow(d, source, ms[i].source) && ".." !in Split(ms[i].target)
  }

  lemma StagingIsOpen(d: Disk, e: Disk, source: Path, staging: Path, ms: seq<Mapping>, r: Path, k: nat)
    requires ReadyToCopy(d, source, staging) && Shape(d, e, source, staging, ms) && k <= |staging|
    ensures (staging + r)[..k] in e && e[(staging + r)[..k]] == Dir
  {
    assert (staging + r)[..k] == staging[..k];
    if k < |staging| {
      PrefixIsDir(e, staging, k);
    } else {
      assert staging[..k] == staging;
    }
  }

  lemma StagedNoLink(d: Disk, e: Disk, source: Path, staging: Path, ms: seq<Mapping>, r: Path)
    requires Shape(d, e, source, staging, ms) && r != [] && staging + r in e
    ensures !e[staging + r].Link?
  {
    hide Leads, Hits, StagedOnly, TargetPath;
  }

  lemma StagedIsStraight(d: Disk, e: Disk, source: Path, staging: Path, ms: seq<Mapping>, r: Path)
    requires ReadyToCopy(d, source, staging) && Shape(d, e, source, staging, ms)
    ensures Straight(e, staging + r)
  {
    hide Shape, ReadyToCopy;
    var p := staging + r;
    forall k | 0 <= k <= |p| && p[..k] in e ensures !e[p[..k]].Link? {
      if k <= |staging| {
        StagingIsOpen(d, e, source, staging, ms, r, k);
      } else {
        assert p[..k] == staging + r[..k - |staging|];
        StagedNoLink(d, e, source, staging, ms, r[..k - |staging|]);
      }
    }
  }

  lemma StagedPresent(d: Disk, e: Disk, source: Path, staging: Path, ms: seq<Mapping>, r: Path)
    requires Shape(d, e, source, staging, ms) && r != []
    ensures staging + r in e <==> Leads(ms, r)
    ensures WellFormed(e) && Within(d, e)
  {
    hide Leads, Hits, TargetPath;
  }

  lemma HitsLead(ms: seq<Mapping>, r: Path)
    ensures Hits(ms, r) ==> Leads(ms, r)
  {
  }

  lemma OpenMeansNoHit(d: Disk, e: Disk, source: Path, staging: Path, ms: seq<Mapping>, r: Path, k: nat)
    requires Shape(d, e, source, staging, ms) && 0 < k <= |r| && WayIsOpen(e, staging + r)
    ensures !Hits(ms, r[..k])
  {
    hide Leads, Hits, StagedOnly;
    assert (staging + r)[..|staging| + k] == staging + r[..k];
    HitsLead(ms, r[..k]);
  }

  lemma NoHitMeansOpen(d: Disk, e: Disk, source: Path, staging: Path, ms: seq<Mapping>, r: Path, k: nat)
    requires Shape(d, e, source, staging, ms) && |staging| < k <= |staging| + |r|
    requires !Hits(ms, r[..k - |staging|]) && (staging + r)[..k] in e
    ensures e[(staging + r)[..k]] == Dir
  {
    hide Leads, Hits, StagedOnly;
    assert (staging + r)[..k] == staging + r[..k - |staging|];
  }

  /** The way to a target is open exactly when no earlier target is on it. */
  lemma StagedWay(d: Disk, e: Disk, source: Path, staging: Path, ms: seq<Mapping>, r: Path)
    requires ReadyToCopy(d, source, staging) && Shape(d, e, source, staging, ms)
    ensures WayIsOpen(e, staging + r) <==> forall k :: 0 < k <= |r| ==> !Hits(ms, r[..k])
  {
    hide Shape, Hits, ReadyToCopy;
    if WayIsOpen(e, staging + r) {
      forall k | 0 < k <= |r| ensures !Hits(ms, r[..k]) {
        OpenMeansNoHit(d, e, source, staging, ms, r, k);
      }
    }
    if forall k :: 0 < k <= |r| ==> !Hits(ms, r[..k]) {
      forall k | 0 <= k <= |staging + r| && (staging + r)[..k] in e ensures e[(staging + r)[..k]] == Dir {
        if k <= |staging| {
          StagingIsOpen(d, e, source, staging, ms, r, k);
        } else {
          NoHitMeansOpen(d, e, source, staging, ms, r, k);
        }
      }
    }
  }

  // ------------------------------------------------------------- one file

  /** The mapping's target does not clash with those in `ms`. */
  ghost predicate Fits(ms: seq<Mapping>, m: Mapping) {
    && TargetPath(m) != [] && !EndsWithSlash(m.target)
    && forall i :: 0 <= i < |ms| ==> !Comparable(TargetPath(ms[i]), TargetPath(m))
  }

  lemma ProperPrefix(n: Path, r: Path)
    requires r != []
    ensures n <= r && n != r ==> |n| <= |Parent(r)| && Parent(r)[..|n|] == n
  {
  }

  lemma FitsMeans(ms: seq<Mapping>, m: Mapping)
    requires TargetPath(m) != []
    ensures (forall i :: 0 <= i < |ms| ==> !Comparable(TargetPath(ms[i]), TargetPath(m))) <==>
              && !Leads(ms, TargetPath(m))
              && forall k :: 0 < k <= |Parent(TargetPath(m))| ==> !Hits(ms, Parent(TargetPath(m))[..k])
    requires forall i :: 0 <= i < |ms| ==> TargetPath(ms[i]) != []
  {
    var r := TargetPath(m);
    var q := Parent(r);
    forall k | 0 <= k <= |q| ensures q[..k] == r[..k] {
    }
    if forall i :: 0 <= i < |ms| ==> !Comparable(TargetPath(ms[i]), r) {
      forall k | 0 < k <= |q| ensures !Hits(ms, q[..k]) {
        assert r[..k] <= r;
      }
    }
    if !Leads(ms, r) && forall k :: 0 < k <= |q| ==> !Hits(ms, q[..k]) {
      forall i | 0 <= i < |ms| ensures !Comparable(TargetPath(ms[i]), r) {
        ProperPrefix(TargetPath(ms[i]), r);
      }
    }
  }

  lemma ReadStaged(h: Host, d: Disk, e: Disk, p: Path)
    requires WellFormed(d) && WellFormed(e) && Within(d, e) && p in d && d[p].File?
    ensures ReadFile(h, e, p) == Some(d[p].data)
  {
    FindPresent(h, e, p);
  }

  /** The disk after one more file: the way to it and the file itself. */
  ghost predicate HasFile(d: Disk, f: Disk, p: Path, n: Node) {
    && (forall q :: q in f <==> q in d || q <= p)
    && (forall q :: q in f ==> f[q] == if q in d then d[q] else if q == p then n else Dir)
  }

  lemma CreateAtEnd(h: Host, e: Disk, up: Disk, p: Path, data: Bytes)
    requires WellFormed(e) && WellFormed(up) && IsPath(p) && p != [] && Straight(e, p)
    requires HasWay(e, up, Parent(p)) && WayIsOpen(e, Parent(p))
    ensures CreateFile(h, up, p, data).Some? <==> p !in e
    ensures p !in e ==> var f := CreateFile(h, up, p, data).value;
                        WellFormed(f) && HasFile(e, f, p, File(data))
  {
    StraightParent(e, p);
    assert !(p <= Parent(p));
    forall k | 0 <= k <= |Parent(p)| && Parent(p)[..k] in up ensures !up[Parent(p)[..k]].Link? {
      assert Parent(p)[..k] in e || up[Parent(p)[..k]] == Dir;
    }
    PlaceStraight(h, up, p);
    assert Parent(p) in up;
    assert Parent(p)[..|Parent(p)|] == Parent(p);
    assert up[Parent(p)] == Dir;
    if p !in e {
      AddWellFormed(up, p, File(data));
      var f := up[p := File(data)];
      forall q | q in f || q <= p ensures q in f <==> q in e || q <= p {
        PrefixLast(q, p);
      }
    }
  }

  /** Copying to a path without links succeeds exactly when the way is open and
      nothing is there. */
  lemma CopyOneStraight(h: Host, d: Disk, e: Disk, source: Path, staging: Path, m: Mapping)
    requires WellFormed(d) && WellFormed(e) && Within(d, e) && IsFileBelow(d, source, m.source)
    requires TargetPath(m) != [] && IsPath(staging + TargetPath(m)) && Straight(e, staging + TargetPath(m))
    ensures var p := staging + TargetPath(m);
            && (CopyOne(h, e, source, staging, m).Some? <==>
                  !EndsWithSlash(m.target) && WayIsOpen(e, Parent(p)) && p !in e)
            && (CopyOne(h, e, source, staging, m).Some? ==>
                  var f := CopyOne(h, e, source, staging, m).value;
                  WellFormed(f) && HasFile(e, f, p, d[source + m.source]))
  {
    var p := staging + TargetPath(m);
    StraightParent(e, p);
    MakeDirsStraight(h, e, Parent(p));
    var up := MakeDirs(h, e, Parent(p));
    if up.Some? {
      ReadAfterWay(h, d, e, up.value, Parent(p), source + m.source);
      CreateAtEnd(h, e, up.value, p, d[source + m.source].data);
    }
    hide ReadFile, CreateFile, MakeDirs, WayIsOpen, HasFile, HasWay, WellFormed, Straight, Within, Names;
  }

  /** Copying one file succeeds exactly when its target fits. */
  lemma CopyOneExact(h: Host, d: Disk, e: Disk, source: Path, staging: Path, ms: seq<Mapping>, m: Mapping)
    requires ReadyToCopy(d, source, staging) && Shape(d, e, source, staging, ms)
    requires IsFileBelow(d, source, m.source) && ".." !in Split(m.target)
    requires forall i :: 0 <= i < |ms| ==> TargetPath(ms[i]) != []
    ensures CopyOne(h, e, source, staging, m).Some? <==> Fits(ms, m)
    ensures Fits(ms, m) ==>
              var f := CopyOne(h, e, source, staging, m).value;
              WellFormed(f) && HasFile(e, f, staging + TargetPath(m), d[source + m.source])
  {
    hide *;
    FitsIs(ms, m);
    if TargetPath(m) == [] {
      RootIsTaken(h, d, e, source, staging, ms, m);
    } else {
      CopyToTarget(h, d, e, source, staging, ms, m);
    }
  }

  lemma FitsIs(ms: seq<Mapping>, m: Mapping)
    requires forall i :: 0 <= i < |ms| ==> TargetPath(ms[i]) != []
    ensures Fits(ms, m) <==>
              && TargetPath(m) != [] && !EndsWithSlash(m.target) && !Leads(ms, TargetPath(m))
              && forall k :: 0 < k <= |Parent(TargetPath(m))| ==> !Hits(ms, Parent(TargetPath(m))[..k])
  {
    hide Leads, Hits, Comparable, TargetPath, EndsWithSlash;
    if TargetPath(m) != [] {
      FitsMeans(ms, m);
    }
  }

  lemma CopyToTarget(h: Host, d: Disk, e: Disk, source: Path, staging: Path, ms: seq<Mapping>, m: Mapping)
    requires ReadyToCopy(d, source, staging) && Shape(d, e, source, staging, ms) && TargetPath(m) != []
    requires IsFileBelow(d, source, m.source) && ".." !in Split(m.target)
    ensures CopyOne(h, e, source, staging, m).Some? <==>
              && !EndsWithSlash(m.target) && !Leads(ms, TargetPath(m))
              && forall k :: 0 < k <= |Parent(TargetPath(m))| ==> !Hits(ms, Parent(TargetPath(m))[..k])
    ensures CopyOne(h, e, source, staging, m).Some? ==>
              var f := CopyOne(h, e, source, staging, m).value;
              WellFormed(f) && HasFile(e, f, staging + TargetPath(m), d[source + m.source])
  {
    var r := TargetPath(m);
    var p := staging + r;
    NamesIsPath(m.target);
    assert WellFormed(d) && IsPath(p);
    hide Shape, ReadyToCopy, CopyOne, Hits, Leads, WayIsOpen, HasFile, WellFormed, Straight, Names,
      EndsWithSlash, Split;
    assert Parent(p) == staging + Parent(r);
    StagedPresent(d, e, source, staging, ms, r);
    StagedIsStraight(d, e, source, staging, ms, r);
    StagedWay(d, e, source, staging, ms, Parent(r));
    CopyOneStraight(h, d, e, source, staging, m);
  }

  lemma ReadAfterWay(h: Host, d: Disk, e: Disk, up: Disk, p: Path, file: Path)
    requires WellFormed(d) && WellFormed(up) && Within(d, e) && HasWay(e, up, p)
    requires file in d && d[file].File?
    ensures ReadFile(h, up, file) == Some(d[file].data)
  {
    assert Within(d, up);
    ReadStaged(h, d, up, file);
  }

  /** A target that names nothing is the directory itself, which exists. */
  lemma RootIsTaken(h: Host, d: Disk, e: Disk, source: Path, staging: Path, ms: seq<Mapping>, m: Mapping)
    requires ReadyToCopy(d, source, staging) && Shape(d, e, source, staging, ms) && TargetPath(m) == []
    ensures CopyOne(h, e, source, staging, m).None?
  {
    assert staging + TargetPath(m) == staging;
    if staging == [] {
      assert Place(h, e, []) == Some([]);
    } else {
      PlacePresent(h, e, staging);
    }
    PresentIsStraight(e, Parent(staging));
    FindPresent(h, e, Parent(staging));
  }

  // ------------------------------------------------------------ all files

  lemma LeadsMore(ms: seq<Mapping>, m: Mapping, r: Path)
    ensures Leads(ms + [m], r) <==> Leads(ms, r) || r <= TargetPath(m)
    ensures Hits(ms + [m], r) <==> Hits(ms, r) || r == TargetPath(m)
  {
    var xs := ms + [m];
    assert xs[|ms|] == m;
    if Leads(ms, r) {
      var i :| 0 <= i < |ms| && r <= TargetPath(ms[i]);
      assert xs[i] == ms[i];
    }
    if Hits(ms, r) {
      var i :| 0 <= i < |ms| && r == TargetPath(ms[i]);
      assert xs[i] == ms[i];
    }
  }

  lemma PrefixBelow(staging: Path, r: Path, t: Path)
    ensures staging + r <= staging + t <==> r <= t
  {
    if staging + r <= staging + t {
      assert r == (staging + r)[|staging|..] && t == (staging + t)[|staging|..];
    }
  }

  lemma ShortIsPresent(e: Disk, staging: Path, r: Path, q: Path)
    requires WellFormed(e) && staging in e && q <= staging + r
    ensures q in e || |q| > |staging|
  {
    if |q| < |staging| {
      PrefixIsDir(e, staging, |q|);
      assert q == staging[..|q|];
    } else if |q| == |staging| {
      assert q == (staging + r)[..|q|] == staging;
    }
  }

  lemma FitsIsNew(ms: seq<Mapping>, m: Mapping)
    requires Fits(ms, m)
    ensures !Leads(ms, TargetPath(m))
  {
    forall i | 0 <= i < |ms| ensures !(TargetPath(m) <= TargetPath(ms[i])) {
      assert !Comparable(TargetPath(ms[i]), TargetPath(m));
    }
  }

  lemma StagedMore(d: Disk, e: Disk, f: Disk, staging: Path, r: Path, n: Node)
    requires StagedOnly(d, e, staging) && WellFormed(f) && staging in e && n.File?
    requires WellFormed(e) && HasFile(e, f, staging + r, n)
    ensures StagedOnly(d, f, staging)
  {
    var p := staging + r;
    forall q | q in f && q !in d ensures staging <= q && !f[q].Link? {
      if q !in e {
        ShortIsPresent(e, staging, r, q);
        assert q == p[..|q|];
      }
    }
  }

  lemma ShapeAt(d: Disk, e: Disk, f: Disk, source: Path, staging: Path, ms: seq<Mapping>, m: Mapping, r: Path)
    requires Shape(d, e, source, staging, ms) && Fits(ms, m) && r != []
    requires source + m.source in d && d[source + m.source].File?
    requires HasFile(e, f, staging + TargetPath(m), d[source + m.source])
    ensures staging + r in f <==> Leads(ms + [m], r)
    ensures staging + r in f ==> f[staging + r] == Dir || f[staging + r].File?
    ensures staging + r in f ==> (f[staging + r].File? <==> Hits(ms + [m], r))
  {
    var t := TargetPath(m);
    LeadsMore(ms, m, r);
    PrefixBelow(staging, r, t);
    assert staging + r == staging + t ==> r == t;
    FitsIsNew(ms, m);
    HitsLead(ms, r);
    hide Leads, Hits, StagedOnly, Fits, TargetPath;
  }

  lemma ShapeMore(d: Disk, e: Disk, f: Disk, source: Path, staging: Path, ms: seq<Mapping>, m: Mapping)
    requires ReadyToCopy(d, source, staging) && Shape(d, e, source, staging, ms) && Fits(ms, m)
    requires source + m.source in d && d[source + m.source].File?
    requires WellFormed(f) && HasFile(e, f, staging + TargetPath(m), d[source + m.source])
    ensures Shape(d, f, source, staging, ms + [m])
  {
    StagedMore(d, e, f, staging, TargetPath(m), d[source + m.source]);
    hide StagedOnly, WellFormed;
    forall r | r != []
      ensures staging + r in f <==> Leads(ms + [m], r)
      ensures staging + r in f ==> f[staging + r] == Dir || f[staging + r].File?
      ensures staging + r in f ==> (f[staging + r].File? <==> Hits(ms + [m], r))
    {
      ShapeAt(d, e, f, source, staging, ms, m, r);
    }
    ShapeContents(d, e, f, source, staging, ms, m);
    hide HasFile, Leads, Hits, Fits;
  }

  lemma ShapeContents(d: Disk, e: Disk, f: Disk, source: Path, staging: Path, ms: seq<Mapping>, m: Mapping)
    requires Shape(d, e, source, staging, ms) && Fits(ms, m)
    requires source + m.source in d && HasFile(e, f, staging + TargetPath(m), d[source + m.source])
    ensures var xs := ms + [m];
            forall i :: 0 <= i < |xs| ==>
              staging + TargetPath(xs[i]) in f && source + xs[i].source in d
              && f[staging + TargetPath(xs[i])] == d[source + xs[i].source]
  {
    var xs := ms + [m];
    var p := staging + TargetPath(m);
    FitsIsNew(ms, m);
    assert p !in e;
    forall i | 0 <= i < |xs|
      ensures staging + TargetPath(xs[i]) in f && source + xs[i].source in d
      ensures f[staging + TargetPath(xs[i])] == d[source + xs[i].source]
    {
      if i < |ms| {
        assert xs[i] == ms[i];
      }
    }
  }

  lemma CopyableMore(ms: seq<Mapping>)
    requires ms != []
    ensures var n := |ms| - 1; Copyable(ms) <==> Copyable(ms[..n]) && Fits(ms[..n], ms[n])
  {
    var n := |ms| - 1;
    hide Comparable, TargetPath, EndsWithSlash;
    assert forall i :: 0 <= i < n ==> ms[..n][i] == ms[i];
    if Copyable(ms[..n]) && Fits(ms[..n], ms[n]) {
      forall i, j | 0 <= i < j < |ms| ensures !Comparable(TargetPath(ms[i]), TargetPath(ms[j])) {
        assert ms[i] == ms[..n][i];
        if j < n {
          assert ms[j] == ms[..n][j];
        }
      }
    }
    if Copyable(ms) {
      forall i | 0 <= i < n ensures !Comparable(TargetPath(ms[..n][i]), TargetPath(ms[n])) {
        assert ms[i] == ms[..n][i];
      }
    }
  }

  lemma CopyNothing(d: Disk, source: Path, staging: Path)
    requires ReadyToCopy(d, source, staging)
    ensures Shape(d, d, source, staging, [])
  {
  }

  lemma CopyAllStep(h: Host, d: Disk, e: Disk, source: Path, staging: Path, front: seq<Mapping>, m: Mapping)
    requires ReadyToCopy(d, source, staging) && Copyable(front) && Shape(d, e, source, staging, front)
    requires IsFileBelow(d, source, m.source) && ".." !in Split(m.target)
    ensures CopyOne(h, e, source, staging, m).Some? <==> Fits(front, m)
    ensures Fits(front, m) ==> Shape(d, CopyOne(h, e, source, staging, m).value, source, staging, front + [m])
  {
    assert forall i :: 0 <= i < |front| ==> TargetPath(front[i]) != [];
    assert source + m.source in d && d[source + m.source].File?;
    hide Shape, CopyOne, ReadyToCopy, Copyable, HasFile, WellFormed, Fits, TargetPath;
    CopyOneExact(h, d, e, source, staging, front, m);
    if Fits(front, m) {
      ShapeMore(d, e, CopyOne(h, e, source, staging, m).value, source, staging, front, m);
    }
  }

  lemma SourcesFront(d: Disk, source: Path, ms: seq<Mapping>)
    requires ms != [] && SourcesPresent(d, source, ms)
    ensures var n := |ms| - 1;
            SourcesPresent(d, source, ms[..n]) && IsFileBelow(d, source, ms[n].source) && ".." !in Split(ms[n].target)
  {
    assert forall i :: 0 <= i < |ms| - 1 ==> ms[..|ms| - 1][i] == ms[i];
  }

  /** Copying every file succeeds exactly when the targets do not clash, and then
      builds the tree they describe and nothing else. */
  lemma {:induction false} CopyAllExact(h: Host, d: Disk, source: Path, staging: Path, ms: seq<Mapping>)
    requires ReadyToCopy(d, source, staging) && SourcesPresent(d, source, ms)
    ensures CopyAll(h, d, source, staging, ms).Some? <==> Copyable(ms)
    ensures Copyable(ms) ==> Shape(d, CopyAll(h, d, source, staging, ms).value, source, staging, ms)
  {
    if ms == [] {
      CopyNothing(d, source, staging);
    } else {
      var n := |ms| - 1;
      var front, m := ms[..n], ms[n];
      SourcesFront(d, source, ms);
      hide Shape, CopyOne, ReadyToCopy, Copyable, Fits, IsFileBelow, Split, SourcesPresent;
      assert front + [m] == ms;
      CopyAllExact(h, d, source, staging, front);
      CopyableMore(ms);
      if Copyable(front) {
        CopyAllStep(h, d, CopyAll(h, d, source, staging, front).value, source, staging, front, m);
      }
    }
  }
}
