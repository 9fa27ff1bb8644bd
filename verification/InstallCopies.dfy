/** `copyInstallTree` as a run of file operations. */
module InstallCopies {
  import opened Outcome
  import opened Paths
  import opened PathLemmas
  import opened Hosts
  import opened Disks
  import opened PathLookup
  import opened Listing
  import opened FileSystems
  import opened Directories
  import opened Mappings
  import opened InstalledTrees
  import opened CopyTrees

  /** In a quiet run from `a` to `b` only files and directories below `staging`
      were added, in every state between. */
  ghost predicate Staged(a: Record, b: Record, staging: Path) {
    && StagedOnly(a.disk, b.disk, staging) && a.trace <= b.trace
    && forall k :: |a.trace| <= k < |b.trace| ==> StagedOnly(a.disk, b.trace[k], staging)
  }

  /** No link below the directory `staging`, which is reached directly. */
  ghost predicate Open(d: Disk, staging: Path) {
    WellFormed(d) && IsPath(staging) && staging in d && d[staging] == Dir && NoLinks(d, staging)
  }

  lemma StagedStaysOpen(d: Disk, e: Disk, staging: Path)
    requires Open(d, staging) && StagedOnly(d, e, staging)
    ensures Open(e, staging)
  {
    forall q | q in e && staging < q ensures !e[q].Link? {
      assert q in d || !e[q].Link?;
    }
  }

  lemma OpenIsStraight(d: Disk, staging: Path, r: Path)
    requires Open(d, staging)
    ensures Straight(d, staging + r)
  {
    var p := staging + r;
    forall k | 0 <= k <= |p| && p[..k] in d ensures !d[p[..k]].Link? {
      if k < |staging| {
        assert p[..k] == staging[..k];
        PrefixIsDir(d, staging, k);
      } else if k == |staging| {
        assert p[..k] == staging;
      } else {
        assert p[..k] == staging + r[..k - |staging|];
      }
    }
  }

  lemma StagedTransitive(d: Disk, e: Disk, f: Disk, staging: Path)
    requires StagedOnly(d, e, staging) && StagedOnly(e, f, staging)
    ensures StagedOnly(d, f, staging)
  {
    WithinTransitive(d, e, f);
    forall q | q in f && q !in d ensures staging <= q && !f[q].Link? {
      assert q in e ==> f[q] == e[q];
    }
  }

  /** New directories on the way to something below `staging` are below it. */
  lemma DirsAreStaged(h: Host, d: Disk, e: Disk, staging: Path, r: Path)
    requires Open(d, staging) && DirsAdded(h, d, e, staging + r)
    ensures StagedOnly(d, e, staging)
  {
    OpenIsStraight(d, staging, r);
    StraightIsTame(h, d, staging + r);
    forall q | q in e && q !in d ensures staging <= q {
      ShortIsPresent(d, staging, r, q);
      assert q == (staging + r)[..|q|];
    }
  }

  lemma StraightIsTame(h: Host, d: Disk, p: Path)
    requires Straight(d, p)
    ensures Tame(h, d, p)
  {
  }

  /** The way to the directory above an existing one adds nothing. */
  lemma AboveStaging(h: Host, d: Disk, e: Disk, staging: Path)
    requires Open(d, staging) && DirsAdded(h, d, e, Parent(staging))
    ensures StagedOnly(d, e, staging)
  {
    PresentIsStraight(d, staging);
    StraightParent(d, staging);
    StraightIsTame(h, d, Parent(staging));
    forall q | q in e && q <= Parent(staging) ensures q in d {
      PrefixOfParent(q, staging);
      PrefixPresent(d, staging, q);
    }
  }

  /** Adding directories on the way to the parent of a target is staging only. */
  lemma WayIsStaged(h: Host, d: Disk, e: Disk, staging: Path, r: Path)
    requires Open(d, staging) && DirsAdded(h, d, e, Parent(staging + r))
    ensures StagedOnly(d, e, staging)
  {
    hide Open, DirsAdded, StagedOnly;
    if r == [] {
      assert staging + r == staging;
      AboveStaging(h, d, e, staging);
    } else {
      assert Parent(staging + r) == staging + Parent(r);
      DirsAreStaged(h, d, e, staging, Parent(r));
    }
  }

  lemma StagedRun(a: Record, b: Record, c: Record, staging: Path)
    requires Staged(a, b, staging) && Staged(b, c, staging)
    ensures Staged(a, c, staging)
  {
    StagedTransitive(a.disk, b.disk, c.disk, staging);
    forall k | |a.trace| <= k < |c.trace| ensures StagedOnly(a.disk, c.trace[k], staging) {
      if k < |b.trace| {
        assert c.trace[k] == b.trace[k];
      } else {
        StagedTransitive(a.disk, b.disk, c.trace[k], staging);
      }
    }
    hide StagedOnly;
  }

  lemma GrewIsStaged(h: Host, a: Record, b: Record, staging: Path, r: Path)
    requires Open(a.disk, staging) && Grew(h, true, a, b, Parent(staging + r))
    ensures Staged(a, b, staging)
  {
    hide DirsAdded, StagedOnly, Open;
    WayIsStaged(h, a.disk, b.disk, staging, r);
    forall k | |a.trace| <= k < |b.trace| ensures StagedOnly(a.disk, b.trace[k], staging) {
      WayIsStaged(h, a.disk, b.trace[k], staging, r);
    }
  }

  /** What creating one file below the staging directory does. */
  lemma CreateStaged(h: Host, d: Disk, staging: Path, r: Path, data: Bytes)
    requires Open(d, staging) && IsPath(staging + r) && CreateFile(h, d, staging + r, data).Some?
    ensures StagedOnly(d, CreateFile(h, d, staging + r, data).value, staging)
  {
    var p := staging + r;
    if r == [] {
      assert p == staging;
      PlacePresent(h, d, staging);
    } else {
      assert Parent(p) == staging + Parent(r);
      OpenIsStraight(d, staging, Parent(r));
      PlaceStraight(h, d, p);
      AddWellFormed(d, p, File(data));
    }
  }

  lemma StagedStep(a: Record, b: Record, e: Disk, staging: Path)
    requires WellFormed(a.disk) && b == Record(e, a.foreign, a.trace + [a.disk, e]) && StagedOnly(a.disk, e, staging)
    ensures Staged(a, b, staging)
  {
  }

  lemma CopyEffect(h: Host, d: Disk, from: Path, to: Path)
    ensures Effect(h, d, OpCopy(from, to)) == CopyFile(h, d, from, to)
  {
    hide CopyFile;
  }

  lemma CreateEffect(h: Host, d: Disk, p: Path, data: Bytes)
    ensures Effect(h, d, OpCreate(p, data)) == CreateFile(h, d, p, data)
  {
    hide CreateFile;
  }

  lemma CopyStep(fs: FileSystem, d: Disk, n: nat, from: Path, staging: Path, r: Path)
    requires fs.arrivals(n) == [] && Open(d, staging) && IsPath(staging + r)
    ensures var (s, e) := fs.After(d, n, OpCopy(from, staging + r));
            && (s.Done? ==> CopyFile(fs.host, d, from, staging + r) == Some(e))
            && (!fs.fails(n) ==> s.Done? == CopyFile(fs.host, d, from, staging + r).Some?)
            && StagedOnly(d, e, staging) && Arrive(d, fs.arrivals(n)) == d && Gain(d, d) == map[]
  {
    var op := OpCopy(from, staging + r);
    assert StagedOnly(d, d, staging);
    if CopyFile(fs.host, d, from, staging + r).Some? {
      CreateStaged(fs.host, d, staging, r, ReadFile(fs.host, d, from).value);
    }
    CopyEffect(fs.host, d, from, staging + r);
    hide FileSystem.After, CreateFile, CopyFile, StagedOnly, Gain, Arrive, Open, Effect, ReadFile;
    QuietStep(fs, d, n, op);
    assert !fs.fails(n) ==> !fs.Faulty(op, n);
  }

  lemma CreateStep(fs: FileSystem, d: Disk, n: nat, staging: Path, r: Path, data: Bytes)
    requires fs.arrivals(n) == [] && Open(d, staging) && IsPath(staging + r)
    ensures var (s, e) := fs.After(d, n, OpCreate(staging + r, data));
            && (s.Done? ==> CreateFile(fs.host, d, staging + r, data) == Some(e))
            && (!fs.fails(n) ==> s.Done? == CreateFile(fs.host, d, staging + r, data).Some?)
            && StagedOnly(d, e, staging) && Arrive(d, fs.arrivals(n)) == d && Gain(d, d) == map[]
  {
    var op := OpCreate(staging + r, data);
    assert StagedOnly(d, d, staging);
    if CreateFile(fs.host, d, staging + r, data).Some? {
      CreateStaged(fs.host, d, staging, r, data);
    }
    CreateEffect(fs.host, d, staging + r, data);
    hide FileSystem.After, CreateFile, StagedOnly, Gain, Arrive, Open, Effect;
    QuietStep(fs, d, n, op);
    assert !fs.fails(n) ==> !fs.Faulty(op, n);
  }

  /** `fs.copyFileSync(from, target, COPYFILE_EXCL)`. */
  method CopyStaged(fs: FileSystem, from: Path, target: string, ghost staging: Path, ghost r: Path) returns (ok: bool)
    requires fs.Valid() && fs.Quiet() && Open(fs.disk, staging) && IsPath(staging + r) && Segs(target) == staging + r
    modifies fs
    ensures fs.Valid() && Staged(old(Recorded(fs)), Recorded(fs), staging)
    ensures ok ==> CopyFile(fs.host, old(fs.disk), from, staging + r) == Some(fs.disk)
    ensures fs.Calm() ==> ok == CopyFile(fs.host, old(fs.disk), from, staging + r).Some?
  {
    ghost var a := Recorded(fs);
    CopyStep(fs, a.disk, fs.clock, from, staging, r);
    assert WellFormed(a.disk);
    hide Segs, FileSystem.After, CopyFile, StagedOnly, Gain, Arrive, Staged, Open, WellFormed;
    var s := fs.Do(OpCopy(from, Segs(target)));
    StagedStep(a, Recorded(fs), fs.disk, staging);
    ok := s.Done?;
  }

  /** One round of the copy loop. */
  method CopyMapping(fs: FileSystem, source: Path, staging: Path, m: Mapping) returns (ok: bool)
    requires fs.Valid() && fs.Quiet() && Open(fs.disk, staging) && ".." !in Split(m.target)
    modifies fs
    ensures fs.Valid() && Staged(old(Recorded(fs)), Recorded(fs), staging)
    ensures ok ==> CopyOne(fs.host, old(fs.disk), source, staging, m) == Some(fs.disk)
    ensures fs.Calm() ==> ok == CopyOne(fs.host, old(fs.disk), source, staging, m).Some?
  {
    ghost var a := Recorded(fs);
    var target := JoinPath(Render(staging), m.target);
    NamesIsPath(m.target);
    assert IsPath(staging);
    JoinedNames(staging, m.target);
    hide JoinPath, Render, Segs, Dirname;
    ok := MakeDirectories(fs, Segs(Dirname(target)));
    ghost var b := Recorded(fs);
    GrewIsStaged(fs.host, a, b, staging, Names(m.target));
    if !ok {
      return;
    }
    if EndsWithSlash(m.target) {
      return false;
    }
    StagedNow(a, b, staging);
    StagedStaysOpen(a.disk, b.disk, staging);
    hide Open, Staged, Grew, CopyFile, MakeDirs, Names;
    ok := CopyStaged(fs, source + m.source, target, staging, Names(m.target));
    StagedRun(a, b, Recorded(fs), staging);
  }

  lemma StagedNow(a: Record, b: Record, staging: Path)
    requires Staged(a, b, staging)
    ensures StagedOnly(a.disk, b.disk, staging)
  {
  }

  lemma {:induction false} CopyAllFails(h: Host, d: Disk, source: Path, staging: Path, ms: seq<Mapping>, n: nat)
    requires n <= |ms| && CopyAll(h, d, source, staging, ms[..n]).None?
    ensures CopyAll(h, d, source, staging, ms).None?
    decreases |ms| - n
  {
    hide CopyOne;
    if n == |ms| {
      assert ms[..n] == ms;
    } else {
      assert ms[..n + 1][..n] == ms[..n];
      CopyAllFails(h, d, source, staging, ms, n + 1);
    }
  }

  lemma StagedNothing(a: Record, staging: Path)
    requires WellFormed(a.disk)
    ensures Staged(a, a, staging)
  {
  }

  /** The loop over the mappings. */
  method CopyMappings(fs: FileSystem, source: Path, staging: Path, ms: seq<Mapping>) returns (ok: bool)
    requires fs.Valid() && fs.Quiet() && Open(fs.disk, staging)
    requires forall i :: 0 <= i < |ms| ==> ".." !in Split(ms[i].target)
    modifies fs
    ensures fs.Valid() && Staged(old(Recorded(fs)), Recorded(fs), staging) && Open(fs.disk, staging)
    ensures ok ==> CopyAll(fs.host, old(fs.disk), source, staging, ms) == Some(fs.disk)
    ensures fs.Calm() ==> ok == CopyAll(fs.host, old(fs.disk), source, staging, ms).Some?
  {
    ghost var a := Recorded(fs);
    StagedNothing(a, staging);
    hide Staged, Open, CopyOne, Split;
    for n := 0 to |ms|
      invariant fs.Valid() && Staged(a, Recorded(fs), staging) && Open(fs.disk, staging)
      invariant CopyAll(fs.host, a.disk, source, staging, ms[..n]) == Some(fs.disk)
    {
      ghost var b := Recorded(fs);
      assert ms[..n + 1][..n] == ms[..n];
      ok := CopyMapping(fs, source, staging, ms[n]);
      StagedNow(b, Recorded(fs), staging);
      StagedStaysOpen(b.disk, fs.disk, staging);
      StagedRun(a, b, Recorded(fs), staging);
      if !ok {
        if fs.Calm() {
          CopyAllFails(fs.host, a.disk, source, staging, ms, n + 1);
        }
        return;
      }
    }
    assert ms[..|ms|] == ms;
    return true;
  }

  /** `fs.writeFileSync(file, text, { flag: 'wx' })` below the staging directory. */
  method CreateStagedFile(fs: FileSystem, staging: Path, r: Path, data: Bytes) returns (ok: bool)
    requires fs.Valid() && fs.Quiet() && Open(fs.disk, staging) && IsPath(staging + r)
    modifies fs
    ensures fs.Valid() && Staged(old(Recorded(fs)), Recorded(fs), staging)
    ensures ok ==> CreateFile(fs.host, old(fs.disk), staging + r, data) == Some(fs.disk)
    ensures fs.Calm() ==> ok == CreateFile(fs.host, old(fs.disk), staging + r, data).Some?
  {
    ghost var a := Recorded(fs);
    CreateStep(fs, a.disk, fs.clock, staging, r, data);
    assert WellFormed(a.disk);
    hide FileSystem.After, CreateFile, StagedOnly, Gain, Arrive, Staged, Open, WellFormed;
    var s := fs.Do(OpCreate(staging + r, data));
    StagedStep(a, Recorded(fs), fs.disk, staging);
    ok := s.Done?;
  }

  /** `copyInstallTree`: it does what its specification says or stops on the way,
      and in between adds nothing outside the staging directory. */
  method CopyInstallTree(fs: FileSystem, source: Path, staging: Path, x: Expected) returns (ok: bool)
    requires fs.Valid() && fs.Quiet() && Open(fs.disk, staging)
    requires forall i :: 0 <= i < |x.mappings| ==> ".." !in Split(x.mappings[i].target)
    modifies fs
    ensures fs.Valid() && Staged(old(Recorded(fs)), Recorded(fs), staging)
    ensures ok ==> CopyTree(fs.host, old(fs.disk), source, staging, x) == Some(fs.disk)
    ensures fs.Calm() ==> ok == CopyTree(fs.host, old(fs.disk), source, staging, x).Some?
  {
    ghost var a := Recorded(fs);
    OwnershipName();
    assert IsPath(staging + [OWNERSHIP_FILE]);
    hide Staged, Open, CreateFile, CopyAll, Split, OWNERSHIP_FILE, OwnershipText;
    ok := CopyMappings(fs, source, staging, x.mappings);
    if ok {
      ghost var b := Recorded(fs);
      ok := CreateStagedFile(fs, staging, [OWNERSHIP_FILE], fs.host.encode(OwnershipText(x.ownership)));
      StagedRun(a, b, Recorded(fs), staging);
    }
  }
}
