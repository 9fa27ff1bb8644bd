/** The log of created files that the workspace installer keeps, and why undoing it
    restores every file. */
module UndoLogs {
  import opened Outcome
  import opened Paths
  import opened Hosts
  import opened Disks
  import opened PathLookup
  import opened FileSystems

  /** Everything on the disk but its directories. */
  function Leaves(d: Disk): map<Path, Node> {
    map p | p in d && d[p] != Dir :: d[p]
  }

  /** The files that were created at `places`. */
  function Placed(places: seq<Path>, datas: seq<Bytes>): map<Path, Node>
    requires |places| == |datas|
  {
    if places == [] then map[]
    else
      var n := |places| - 1;
      Placed(places[..n], datas[..n])[places[n] := File(datas[n])]
  }

  /** The physical paths in the log are new and different. */
  ghost predicate NewPlaces(before: map<Path, Node>, places: seq<Path>) {
    && (forall i :: 0 <= i < |places| ==> places[i] !in before)
    && forall i, j :: 0 <= i < j < |places| ==> places[i] != places[j]
  }

  /** Each logged path still leads to the place where its file was created. */
  ghost predicate LeadsToPlaces(h: Host, d: Disk, created: seq<Path>, places: seq<Path>) {
    |created| == |places| && forall i :: 0 <= i < |created| ==> Place(h, d, created[i]) == Some(places[i])
  }

  /** Since the disk `d0`, `foreign` arrived and the files in the log were created;
      nothing else changed but directories. */
  ghost predicate Logged(h: Host, d0: Disk, d: Disk, foreign: map<Path, Node>,
                         created: seq<Path>, places: seq<Path>, datas: seq<Bytes>)
  {
    && WellFormed(d) && |places| == |datas| && LeadsToPlaces(h, d, created, places)
    && foreign.Keys !! Leaves(d0).Keys
    && NewPlaces(Leaves(d0) + foreign, places)
    && Leaves(d) == Leaves(d0) + foreign + Placed(places, datas)
  }

  lemma {:induction false} PlacedKeys(places: seq<Path>, datas: seq<Bytes>)
    requires |places| == |datas|
    ensures forall q :: q in Placed(places, datas) <==> q in places
  {
    if places != [] {
      var n := |places| - 1;
      PlacedKeys(places[..n], datas[..n]);
      assert places == places[..n] + [places[n]];
    }
  }

  lemma {:induction false} PlacedAt(places: seq<Path>, datas: seq<Bytes>, i: nat)
    requires |places| == |datas| && i < |places|
    requires forall i, j :: 0 <= i < j < |places| ==> places[i] != places[j]
    ensures places[i] in Placed(places, datas) && Placed(places, datas)[places[i]] == File(datas[i])
  {
    var n := |places| - 1;
    if i < n {
      PlacedAt(places[..n], datas[..n], i);
    }
  }

  lemma PlacedMore(places: seq<Path>, datas: seq<Bytes>, c: Path, data: Bytes)
    requires |places| == |datas|
    ensures Placed(places + [c], datas + [data]) == Placed(places, datas)[c := File(data)]
  {
    assert (places + [c])[..|places|] == places && (datas + [data])[..|datas|] == datas;
  }

  lemma NothingLogged(h: Host, d: Disk)
    requires WellFormed(d)
    ensures Logged(h, d, d, map[], [], [], [])
  {
    assert Leaves(d) == Leaves(d) + map[] + map[];
  }

  /** A logged file is on the disk. */
  lemma LoggedFile(h: Host, d0: Disk, d: Disk, foreign: map<Path, Node>, created: seq<Path>, places: seq<Path>,
                   datas: seq<Bytes>, i: nat)
    requires Logged(h, d0, d, foreign, created, places, datas) && i < |places|
    ensures places[i] in d && d[places[i]] == File(datas[i])
  {
    PlacedAt(places, datas, i);
    assert places[i] in Leaves(d);
    hide Placed, Place;
  }

  // ------------------------------------------------------------- growing

  lemma LeavesGrow(d: Disk, e: Disk)
    requires Within(d, e)
    ensures Leaves(e) == Leaves(d) + Gain(d, e) && Gain(d, e).Keys !! Leaves(d).Keys
  {
  }

  lemma PlaceGrows(h: Host, d: Disk, e: Disk, p: Path)
    requires Within(d, e) && Place(h, d, p).Some?
    ensures Place(h, e, p) == Place(h, d, p)
  {
    if p != [] {
      FindGrows(h, d, e, Parent(p));
    }
  }

  lemma PlacesGrow(h: Host, d: Disk, e: Disk, created: seq<Path>, places: seq<Path>)
    requires Within(d, e) && LeadsToPlaces(h, d, created, places)
    ensures LeadsToPlaces(h, e, created, places)
  {
    hide Within, Place;
    forall i | 0 <= i < |created| ensures Place(h, e, created[i]) == Some(places[i]) {
      PlaceGrows(h, d, e, created[i]);
    }
  }

  lemma AddBetween(l: map<Path, Node>, f: map<Path, Node>, p: map<Path, Node>, g: map<Path, Node>)
    requires p.Keys !! g.Keys
    ensures l + f + p + g == l + (f + g) + p
  {
  }

  lemma GainIsNew(d: Disk, e: Disk, q: Path)
    ensures q in Gain(d, e) ==> q !in d
  {
  }

  /** Arrivals and directories do not disturb the log. */
  lemma LoggedGrows(h: Host, d0: Disk, d: Disk, e: Disk, foreign: map<Path, Node>, created: seq<Path>,
                    places: seq<Path>,
                    datas: seq<Bytes>)
    requires Logged(h, d0, d, foreign, created, places, datas) && Within(d, e) && WellFormed(e)
    ensures Logged(h, d0, e, foreign + Gain(d, e), created, places, datas)
  {
    PlacesGrow(h, d, e, created, places);
    LeavesGrow(d, e);
    PlacedKeys(places, datas);
    var g := Gain(d, e);
    forall q | q in g ensures q !in Leaves(d0) && q !in foreign && q !in places {
      GainIsNew(d, e, q);
      assert q !in Leaves(d);
    }
    hide Gain, Placed, LeadsToPlaces, WellFormed, Within;
    AddBetween(Leaves(d0), foreign, Placed(places, datas), g);
    hide Leaves;
  }

  lemma NewPlace(h: Host, d0: Disk, d: Disk, foreign: map<Path, Node>, created: seq<Path>, places: seq<Path>,
                 datas: seq<Bytes>, c: Path)
    requires Logged(h, d0, d, foreign, created, places, datas) && c !in d
    ensures NewPlaces(Leaves(d0) + foreign, places + [c])
  {
    assert c !in Leaves(d);
    assert c !in Leaves(d0) + foreign;
    forall i | 0 <= i < |places| ensures places[i] != c {
      LoggedFile(h, d0, d, foreign, created, places, datas, i);
    }
    hide Leaves, Placed, LeadsToPlaces;
  }

  lemma LeavesWith(d: Disk, c: Path, data: Bytes)
    ensures Leaves(d[c := File(data)]) == Leaves(d)[c := File(data)]
  {
    var e := d[c := File(data)];
    forall q ensures q in Leaves(e) <==> q in Leaves(d)[c := File(data)] {
    }
  }

  lemma UpdateRight(l: map<Path, Node>, p: map<Path, Node>, c: Path, n: Node)
    ensures (l + p)[c := n] == l + p[c := n]
  {
  }

  /** Creating a file adds one entry to the log. */
  lemma LoggedCreates(h: Host, d0: Disk, d: Disk, foreign: map<Path, Node>, created: seq<Path>, places: seq<Path>,
                      datas: seq<Bytes>, t: Path, data: Bytes)
    requires Logged(h, d0, d, foreign, created, places, datas) && IsPath(t) && CreateFile(h, d, t, data).Some?
    ensures var c := Place(h, d, t).value;
            var e := CreateFile(h, d, t, data).value;
            Within(d, e) && Logged(h, d0, e, foreign, created + [t], places + [c], datas + [data])
  {
    CreatedFile(h, d, t, data);
    hide Place, WellFormed, CreateFile, Within, Leaves, NewPlaces;
    var c := Place(h, d, t).value;
    var e := d[c := File(data)];
    PlacesGrow(h, d, e, created, places);
    NewPlace(h, d0, d, foreign, created, places, datas, c);
    PlacedMore(places, datas, c, data);
    LeavesWith(d, c, data);
    hide Placed;
    UpdateRight(Leaves(d0) + foreign, Placed(places, datas), c, File(data));
  }

  lemma CreatedFile(h: Host, d: Disk, t: Path, data: Bytes)
    requires WellFormed(d) && IsPath(t) && CreateFile(h, d, t, data).Some?
    ensures var c := Place(h, d, t).value;
            && c !in d && CreateFile(h, d, t, data) == Some(d[c := File(data)])
            && WellFormed(d[c := File(data)]) && Within(d, d[c := File(data)])
            && Place(h, d[c := File(data)], t) == Some(c)
  {
    AddPlaceWellFormed(h, d, t, File(data));
    PlaceGrows(h, d, CreateFile(h, d, t, data).value, t);
    hide Place, WellFormed;
  }

  // ------------------------------------------------------------ shrinking

  /** Removing a file or an empty directory other than its parent keeps a place. */
  lemma PlaceKeeps(h: Host, d: Disk, x: Path, p: Path)
    requires x in d && !d[x].Link? && !HasChild(d, x)
    requires Place(h, d, p).Some? && Parent(Place(h, d, p).value) != x
    ensures Place(h, d - {x}, p) == Place(h, d, p)
  {
    if p != [] {
      var q := Find(h, d, Parent(p)).value;
      assert Parent(q + [Last(p)]) == q;
      FindKeeps(h, d, x, Parent(p));
    }
  }

  lemma PlacesKeep(h: Host, d: Disk, x: Path, created: seq<Path>, places: seq<Path>)
    requires x in d && !d[x].Link? && !HasChild(d, x) && LeadsToPlaces(h, d, created, places)
    requires forall i :: 0 <= i < |places| ==> Parent(places[i]) != x
    ensures LeadsToPlaces(h, d - {x}, created, places)
  {
    hide Place, HasChild;
    forall i | 0 <= i < |created| ensures Place(h, d - {x}, created[i]) == Some(places[i]) {
      PlaceKeeps(h, d, x, created[i]);
    }
  }

  lemma RemoveLast(l: map<Path, Node>, p: map<Path, Node>, c: Path, n: Node)
    requires c !in l && c !in p
    ensures (l + p[c := n]) - {c} == l + p
  {
  }

  lemma FrontPlaces(h: Host, d: Disk, l: map<Path, Node>, created: seq<Path>, places: seq<Path>)
    requires created != [] && LeadsToPlaces(h, d, created, places) && NewPlaces(l, places)
    ensures var n := |created| - 1;
            && LeadsToPlaces(h, d, created[..n], places[..n]) && NewPlaces(l, places[..n])
            && Place(h, d, created[n]) == Some(places[n]) && places[n] !in places[..n] && places[n] !in l
  {
    hide Place;
  }

  lemma LeavesWithout(d: Disk, c: Path)
    ensures Leaves(d - {c}) == Leaves(d) - {c}
  {
  }

  /** Undoing the last entry removes just the file that it created. */
  lemma LoggedUndoes(h: Host, d0: Disk, d: Disk, foreign: map<Path, Node>, created: seq<Path>, places: seq<Path>,
                     datas: seq<Bytes>)
    requires created != [] && Logged(h, d0, d, foreign, created, places, datas)
    ensures var n := |created| - 1;
            && RemoveFile(h, d, created[n]).Some?
            && Logged(h, d0, RemoveFile(h, d, created[n]).value, foreign, created[..n], places[..n], datas[..n])
  {
    var n := |created| - 1;
    var c := places[n];
    LoggedFile(h, d0, d, foreign, created, places, datas, n);
    FrontPlaces(h, d, Leaves(d0) + foreign, created, places);
    UndoneFile(h, d, created[n], c);
    hide Place, HasChild, WellFormed, RemoveFile;
    PlacedKeys(places[..n], datas[..n]);
    RemoveLast(Leaves(d0) + foreign, Placed(places[..n], datas[..n]), c, File(datas[n]));
    LeavesWithout(d, c);
    PlacesAreBelow(h, d0, d, foreign, created, places, datas);
    hide Leaves, Parent;
    PlacesKeep(h, d, c, created[..n], places[..n]);
  }

  /** The directory of a logged file is there and not empty. */
  lemma PlacesAreBelow(h: Host, d0: Disk, d: Disk, foreign: map<Path, Node>, created: seq<Path>, places: seq<Path>,
                       datas: seq<Bytes>)
    requires Logged(h, d0, d, foreign, created, places, datas)
    ensures forall i :: 0 <= i < |places| ==>
              places[i] in d && places[i] != [] && Parent(places[i]) in d && d[Parent(places[i])] == Dir
  {
    forall i | 0 <= i < |places|
      ensures places[i] in d && places[i] != [] && Parent(places[i]) in d && d[Parent(places[i])] == Dir
    {
      LoggedFile(h, d0, d, foreign, created, places, datas, i);
    }
  }

  lemma UndoneFile(h: Host, d: Disk, t: Path, c: Path)
    requires WellFormed(d) && Place(h, d, t) == Some(c) && c in d && d[c].File?
    ensures RemoveFile(h, d, t) == Some(d - {c}) && WellFormed(d - {c}) && !HasChild(d, c)
  {
    FileHasNoChild(d, c);
    RemoveWellFormed(d, c);
  }

  lemma RemovedDir(h: Host, d: Disk, p: Path)
    requires WellFormed(d) && RemoveDir(h, d, p).Some?
    ensures var x := Place(h, d, p).value;
            && x in d && d[x] == Dir && !HasChild(d, x) && RemoveDir(h, d, p).value == d - {x}
            && WellFormed(d - {x}) && Leaves(d - {x}) == Leaves(d)
  {
    RemoveWellFormed(d, Place(h, d, p).value);
    hide Place, WellFormed;
  }

  /** Removing an empty directory disturbs neither files nor the log. */
  lemma LoggedPrunes(h: Host, d0: Disk, d: Disk, foreign: map<Path, Node>, created: seq<Path>, places: seq<Path>,
                     datas: seq<Bytes>, p: Path)
    requires Logged(h, d0, d, foreign, created, places, datas) && RemoveDir(h, d, p).Some?
    ensures Logged(h, d0, RemoveDir(h, d, p).value, foreign, created, places, datas)
  {
    var x := Place(h, d, p).value;
    RemovedDir(h, d, p);
    PlacesAreBelow(h, d0, d, foreign, created, places, datas);
    forall i | 0 <= i < |places| ensures Parent(places[i]) != x {
      assert places[i] in d;
    }
    hide Leaves, Placed, NewPlaces, RemoveDir, HasChild, WellFormed;
    PlacesKeep(h, d, x, created, places);
    hide LeadsToPlaces;
  }
}
