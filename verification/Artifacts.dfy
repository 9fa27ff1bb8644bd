/** `collectArtifactDigests` records exactly the artifact files of a link-free
    package. */
module Artifacts {
  import opened Outcome
  import opened Paths
  import opened PathLemmas
  import opened Containment
  import opened Hosts
  import opened Json
  import opened KeyOrder
  import opened ParsedValues
  import opened Disks
  import opened PathLookup
  import opened Listing
  import opened Manifests

  // ---------------------------------------------------------- entry lists

  lemma {:induction false} LookupFinds(es: seq<Entry>, e: Entry)
    requires Distinct(es) && e in es
    ensures Lookup(es, e.key) == e.value
  {
    if es[0] != e {
      assert e in es[1..];
      var i :| 0 <= i < |es[1..]| && es[1..][i] == e;
      assert es[i + 1] == e;
      LookupFinds(es[1..], e);
    }
  }

  lemma {:induction false} LookupMisses(es: seq<Entry>, k: string)
    requires forall e :: e in es ==> e.key != k
    ensures Lookup(es, k) == Undefined
  {
    if es != [] {
      assert es[0] in es;
      LookupMisses(es[1..], k);
    }
  }

  lemma {:induction false} LookupFound(es: seq<Entry>, k: string)
    requires Lookup(es, k) != Undefined
    ensures Entry(k, Lookup(es, k)) in es
  {
    if es[0].key == k {
      assert es[0] == Entry(k, Lookup(es, k));
    } else {
      LookupFound(es[1..], k);
      assert forall e :: e in es[1..] ==> e in es;
    }
  }

  lemma MultisetDistinct(xs: seq<Entry>, ys: seq<Entry>)
    requires Distinct(xs) && multiset(xs) == multiset(ys)
    ensures Distinct(ys)
  {
    forall i, j | 0 <= i < j < |ys| ensures ys[i].key != ys[j].key {
      if ys[i].key == ys[j].key {
        assert ys[i] in multiset(xs) && ys[j] in multiset(xs);
        var a :| 0 <= a < |xs| && xs[a] == ys[i];
        var b :| 0 <= b < |xs| && xs[b] == ys[j];
        assert a == b;
        TwiceInMultiset(ys, i, j);
        DistinctOnce(xs, ys[i]);
      }
    }
  }

  lemma TwiceInMultiset(ys: seq<Entry>, i: nat, j: nat)
    requires i < j < |ys| && ys[i] == ys[j]
    ensures multiset(ys)[ys[i]] >= 2
  {
    assert ys == ys[..i] + [ys[i]] + ys[i + 1..];
    assert ys[i + 1..][j - i - 1] == ys[j];
    assert multiset(ys) == multiset(ys[..i]) + multiset{ys[i]} + multiset(ys[i + 1..]);
  }

  lemma {:induction false} DistinctOnce(xs: seq<Entry>, e: Entry)
    requires Distinct(xs)
    ensures multiset(xs)[e] <= 1
  {
    if xs != [] {
      DistinctOnce(xs[1..], e);
      assert xs == [xs[0]] + xs[1..];
      if xs[0] == e {
        assert forall i :: 0 <= i < |xs[1..]| ==> xs[1..][i] == xs[i + 1];
        assert e !in xs[1..];
      }
    }
  }

  /** Building an object from entries with different keys keeps every entry. */
  lemma {:induction false} FromDistinct(es: seq<Entry>)
    requires Distinct(es)
    ensures Ordered(FromEntries(es)) && multiset(FromEntries(es)) == multiset(es)
  {
    if es != [] {
      var n := |es| - 1;
      assert es == es[..n] + [es[n]];
      FrontDistinct(es);
      FromDistinct(es[..n]);
      hide Ordered, Put, Distinct;
      var r := FromEntries(es[..n]);
      LastIsNew(es, r);
      PutOrdered(r, es[n].key, es[n].value);
      PutHolds(r, es[n].key, es[n].value);
    }
  }

  lemma FrontDistinct(es: seq<Entry>)
    requires es != [] && Distinct(es)
    ensures Distinct(es[..|es| - 1])
  {
  }

  lemma LastIsNew(es: seq<Entry>, r: seq<Entry>)
    requires es != [] && Distinct(es) && multiset(r) == multiset(es[..|es| - 1])
    ensures forall i :: 0 <= i < |r| ==> r[i].key != es[|es| - 1].key
  {
    var n := |es| - 1;
    forall i | 0 <= i < |r| ensures r[i].key != es[n].key {
      assert r[i] in multiset(es[..n]);
      var j :| 0 <= j < n && es[..n][j] == r[i];
      assert es[j] == r[i];
    }
  }

  lemma {:induction false} LocaleInsertHolds(h: Host, e: Entry, es: seq<Entry>)
    ensures multiset(LocaleInsert(h, e, es)) == multiset{e} + multiset(es)
  {
    if es != [] && !h.before(e.key, es[0].key) {
      LocaleInsertHolds(h, e, es[1..]);
      assert es == [es[0]] + es[1..];
    }
  }

  lemma {:induction false} LocaleSortHolds(h: Host, es: seq<Entry>)
    ensures multiset(LocaleSort(h, es)) == multiset(es)
  {
    if es != [] {
      LocaleSortHolds(h, es[1..]);
      LocaleInsertHolds(h, es[0], LocaleSort(h, es[1..]));
      assert es == [es[0]] + es[1..];
    }
  }

  /** Entries with different keys, sorted and made an object, are the same entries. */
  lemma SortedObject(h: Host, es: seq<Entry>)
    requires Distinct(es)
    ensures var r := FromEntries(LocaleSort(h, es));
            Ordered(r) && multiset(r) == multiset(es) && forall e :: e in r <==> e in es
  {
    LocaleSortHolds(h, es);
    MultisetDistinct(es, LocaleSort(h, es));
    FromDistinct(LocaleSort(h, es));
    var r := FromEntries(LocaleSort(h, es));
    forall e ensures e in r <==> e in es {
      assert e in r <==> e in multiset(r);
      assert e in es <==> e in multiset(es);
    }
  }

  // ------------------------------------------------------ artifact digests

  /** The entry that records the file `r`. */
  function FileEntry(h: Host, d: Disk, root: Path, r: Path): Entry
    requires IsFileBelow(d, root, r)
  {
    Entry(Join(r), Str(h.sha256(d[root + r].data)))
  }

  /** The key is what `packageRelativePath` gives for the file. */
  lemma ArtifactKeyIs(h: Host, d: Disk, root: Path, r: Path)
    requires Sound(h) && WellFormed(d) && IsPath(root) && IsFileBelow(d, root, r)
    ensures PackageRelativePath(h.cwd, Render(root), Render(root + r)) == Ok(FileEntry(h, d, root, r).key)
  {
    RelativeIsPath(d, root, r);
    assert root < root + r && (root + r)[|root|..] == r && IsPath(root + r);
    RenderSegs(root);
    RenderSegs(root + r);
    hide Segs, Join, WellFormed, PackageRelativePath, IsPath;
    assert Resolve(h.cwd, Render(root)) == Render(root) && Resolve(h.cwd, Render(root + r)) == Render(root + r);
    PackageRelativePathMeans(h.cwd, Render(root), Render(root + r));
  }

  lemma FileDigestPresent(h: Host, d: Disk, p: Path)
    requires WellFormed(d) && p in d && d[p].File?
    ensures ReadFile(h, d, p) == Some(d[p].data)
    ensures FileDigest(h, d, p) == Ok(h.sha256(d[p].data))
  {
    FindPresent(h, d, p);
  }

  lemma RelativeIsPath(d: Disk, root: Path, r: Path)
    requires WellFormed(d) && root + r in d
    ensures IsPath(r)
  {
    forall i | 0 <= i < |r| ensures IsName(r[i]) {
      assert r[i] == (root + r)[|root| + i];
    }
  }

  /** `es` records the artifacts among `files`, each under its own key. */
  ghost predicate RecordsList(h: Host, d: Disk, root: Path, files: seq<Path>, es: seq<Entry>)
    requires forall r :: r in files ==> IsFileBelow(d, root, r)
  {
    && Distinct(es)
    && (forall e :: e in es ==> exists r :: r in files && IsArtifactPath(r) && e == FileEntry(h, d, root, r))
    && (forall r :: r in files && IsArtifactPath(r) ==> FileEntry(h, d, root, r) in es)
  }

  lemma {:induction false} ArtifactEntriesExact(h: Host, d: Disk, root: Path, files: seq<Path>)
    requires WellFormed(d) && NoRepeats(files)
    requires forall r :: r in files ==> IsFileBelow(d, root, r)
    ensures ArtifactEntries(h, d, root, files).Ok?
    ensures RecordsList(h, d, root, files, ArtifactEntries(h, d, root, files).value)
  {
    if files != [] {
      assert forall i :: 0 <= i < |files[1..]| ==> files[1..][i] == files[i + 1];
      ArtifactEntriesExact(h, d, root, files[1..]);
      assert files == [files[0]] + files[1..] && files[0] in files;
      FileDigestPresent(h, d, root + files[0]);
      hide IsArtifactPath, RecordsList;
      var rest := ArtifactEntries(h, d, root, files[1..]).value;
      if IsArtifactPath(files[0]) {
        assert ArtifactEntries(h, d, root, files).value == [FileEntry(h, d, root, files[0])] + rest;
        RecordOneMore(h, d, root, files, rest);
      } else {
        RecordNoMore(h, d, root, files, rest);
      }
    }
  }

  lemma RecordNoMore(h: Host, d: Disk, root: Path, files: seq<Path>, rest: seq<Entry>)
    requires files != [] && (forall r :: r in files ==> IsFileBelow(d, root, r))
    requires !IsArtifactPath(files[0]) && RecordsList(h, d, root, files[1..], rest)
    ensures RecordsList(h, d, root, files, rest)
  {
    hide IsArtifactPath, FileEntry;
    assert files == [files[0]] + files[1..];
  }

  lemma RecordOneMore(h: Host, d: Disk, root: Path, files: seq<Path>, rest: seq<Entry>)
    requires WellFormed(d) && files != [] && NoRepeats(files)
    requires forall r :: r in files ==> IsFileBelow(d, root, r)
    requires IsArtifactPath(files[0]) && RecordsList(h, d, root, files[1..], rest)
    ensures RecordsList(h, d, root, files, [FileEntry(h, d, root, files[0])] + rest)
  {
    hide IsArtifactPath;
    var f := files[0];
    assert files == [f] + files[1..];
    forall j | 0 <= j < |rest| ensures rest[j].key != Join(f) {
      assert rest[j] in rest;
      var r :| r in files[1..] && IsArtifactPath(r) && rest[j] == FileEntry(h, d, root, r);
      assert r in files && f in files;
      DifferentKeys(d, root, r, f);
    }
    hide FileEntry;
  }

  lemma DifferentKeys(d: Disk, root: Path, r: Path, f: Path)
    requires WellFormed(d) && root + r in d && root + f in d && r != f
    ensures Join(r) != Join(f)
  {
    RelativeIsPath(d, root, r);
    RelativeIsPath(d, root, f);
    if Join(r) == Join(f) {
      JoinInjective(r, f);
    }
  }

  /** Collecting succeeds exactly when there is no link in the package, and then
      records every artifact and nothing else. */
  lemma CollectExact(h: Host, d: Disk, root: Path)
    requires Sound(h) && WellFormed(d) && root in d && d[root] == Dir
    ensures CollectArtifacts(h, d, root).Ok? <==> NoLinks(d, root)
    ensures CollectArtifacts(h, d, root).Ok? ==>
              && RecordsArtifacts(h, d, root, CollectArtifacts(h, d, root).value)
              && Ordered(CollectArtifacts(h, d, root).value.entries)
  {
    FindPresent(h, d, root);
    ListTreeExact(h, d, root);
    var files := WalkFiles(h, d, root);
    if files.Ok? {
      ArtifactEntriesExact(h, d, root, files.value);
      var es := ArtifactEntries(h, d, root, files.value).value;
      SortedObject(h, es);
      var a := CollectArtifacts(h, d, root).value;
      hide IsArtifactPath, LocaleSort, FromEntries, ArtifactEntries, CollectArtifacts;
      forall e ensures e in a.entries <==> RecordsFile(h, d, root, e) {
        if RecordsFile(h, d, root, e) {
          var r :| IsArtifact(d, root, r) && e == Entry(Join(r), Str(h.sha256(d[root + r].data)));
          assert e == FileEntry(h, d, root, r);
        }
        if e in es {
          var r :| r in files.value && IsArtifactPath(r) && e == FileEntry(h, d, root, r);
          assert IsArtifact(d, root, r);
        }
      }
    }
  }

  lemma {:induction false} ArtifactEntriesAt(h: Host, d: Disk, root: Path, q: Path, files: seq<Path>)
    requires WellFormed(d) && Find(h, d, root) == Some(q) && NoLinks(d, q)
    ensures ArtifactEntries(h, d, root, files) == ArtifactEntries(h, d, q, files)
  {
    hide ReadFile, Find, NoLinks, WellFormed, IsArtifactPath;
    if files != [] {
      ArtifactEntriesAt(h, d, root, q, files[1..]);
      ReadBelow(h, d, root, q, files[0]);
    }
  }

  /** Collecting through a link to the package root is collecting at its real path. */
  lemma CollectAt(h: Host, d: Disk, root: Path, q: Path)
    requires Sound(h) && WellFormed(d) && Find(h, d, root) == Some(q)
    ensures CollectArtifacts(h, d, root) == CollectArtifacts(h, d, q)
  {
    WalkFilesAt(h, d, root, q);
    if WalkFiles(h, d, q).Ok? {
      WalkedNoLinks(h, d, q);
      hide WalkFiles, NoLinks, Find;
      ArtifactEntriesAt(h, d, root, q, WalkFiles(h, d, q).value);
    }
    hide ArtifactEntries, LocaleSort, FromEntries;
  }

  lemma WalkedNoLinks(h: Host, d: Disk, q: Path)
    requires Sound(h) && WellFormed(d) && q in d && !d[q].Link? && WalkFiles(h, d, q).Ok?
    ensures d[q] == Dir && NoLinks(d, q)
  {
    FindPresent(h, d, q);
    if d[q] == Dir {
      ListTreeExact(h, d, q);
    }
    hide Find, ListTree, NoLinks;
  }
}
