/** Creating files one after another, with the directories on the way to each, as a
    function on the disk. */
module FilePlans {
  import opened Outcome
  import opened Paths
  import opened Hosts
  import opened Disks
  import opened PathLookup
  import opened FileSystems
  import opened Directories
  import opened CopyTrees

  /** An operation that creates a file. */
  type Creation = op: Op | op.OpCreate? || op.OpCopy? witness OpCreate([], [])

  function TargetOf(op: Creation): Path {
    if op.OpCreate? then op.p else op.to
  }

  /** The directories on the way, then the file. */
  function CreateOne(h: Host, d: Disk, op: Creation): Option<Disk> {
    var up := MakeDirs(h, d, Parent(TargetOf(op)));
    if up.None? then None else Effect(h, up.value, op)
  }

  function CreateEach(h: Host, d: Disk, ops: seq<Creation>): Option<Disk> {
    if ops == [] then Some(d)
    else
      var front := CreateEach(h, d, ops[..|ops| - 1]);
      if front.None? then None else CreateOne(h, front.value, ops[|ops| - 1])
  }

  lemma CreateMore(h: Host, d: Disk, ops: seq<Creation>, n: nat)
    requires n < |ops|
    ensures CreateEach(h, d, ops[..n + 1]) ==
              var front := CreateEach(h, d, ops[..n]);
              if front.None? then None else CreateOne(h, front.value, ops[n])
  {
    assert ops[..n + 1][..n] == ops[..n];
    hide CreateOne;
  }

  /** Once one creation fails, so do all. */
  lemma {:induction false} CreateEachFails(h: Host, d: Disk, ops: seq<Creation>, n: nat)
    requires n <= |ops| && CreateEach(h, d, ops[..n]).None?
    ensures CreateEach(h, d, ops).None?
    decreases |ops| - n
  {
    hide CreateOne;
    if n == |ops| {
      assert ops[..n] == ops;
    } else {
      CreateMore(h, d, ops, n);
      CreateEachFails(h, d, ops, n + 1);
    }
  }

  /** From `d` to `e` the first `n` files of the plan were created, and perhaps some
      directories for the next one. */
  ghost predicate Begun(h: Host, d: Disk, e: Disk, ops: seq<Creation>, n: nat) {
    && n <= |ops| && CreateEach(h, d, ops[..n]).Some?
    && var m := CreateEach(h, d, ops[..n]).value;
       if n == |ops| then e == m else DirsAdded(h, m, e, Parent(TargetOf(ops[n])))
  }

  /** The creation after the first `n` cannot be done. */
  ghost predicate Stuck(h: Host, d: Disk, ops: seq<Creation>, n: nat) {
    n < |ops| && CreateEach(h, d, ops[..n + 1]).None?
  }

  lemma StuckLonger(h: Host, d: Disk, ops: seq<Creation>, op: Creation, n: nat)
    requires Stuck(h, d, ops, n)
    ensures Stuck(h, d, ops + [op], n)
  {
    assert (ops + [op])[..n + 1] == ops[..n + 1];
    hide CreateEach;
  }

  lemma BegunWhole(h: Host, d: Disk, e: Disk, ops: seq<Creation>)
    ensures Begun(h, d, e, ops, |ops|) <==> CreateEach(h, d, ops) == Some(e)
  {
    assert ops[..|ops|] == ops;
    hide CreateEach;
  }

  lemma BegunNothing(h: Host, d: Disk, ops: seq<Creation>)
    requires WellFormed(d)
    ensures Begun(h, d, d, ops, 0)
  {
    assert ops[..0] == [];
    hide LeadsBy, Tame, TargetOf;
  }

  lemma BegunLonger(h: Host, d: Disk, e: Disk, ops: seq<Creation>, op: Creation, n: nat)
    requires Begun(h, d, e, ops, n) && n < |ops|
    ensures Begun(h, d, e, ops + [op], n)
  {
    assert (ops + [op])[..n] == ops[..n];
    hide CreateEach, DirsAdded, TargetOf;
  }

  /** The next creation, done or not. */
  lemma BegunNext(h: Host, d: Disk, e: Disk, f: Disk, ops: seq<Creation>, n: nat, ok: bool)
    requires n < |ops| && CreateEach(h, d, ops[..n]) == Some(e)
    requires if ok then CreateOne(h, e, ops[n]) == Some(f) else DirsAdded(h, e, f, Parent(TargetOf(ops[n])))
    ensures if ok then CreateEach(h, d, ops[..n + 1]) == Some(f) else Begun(h, d, f, ops, n)
    ensures CreateOne(h, e, ops[n]).None? ==> CreateEach(h, d, ops).None? && Stuck(h, d, ops, n)
  {
    CreateMore(h, d, ops, n);
    hide CreateEach, CreateOne, DirsAdded;
    if CreateOne(h, e, ops[n]).None? {
      CreateEachFails(h, d, ops, n + 1);
    }
  }

  // ------------------------------------------------------- new directories

  /** The way to the target of one of the creations leads to `q`. */
  ghost predicate Led(h: Host, e: Disk, ops: seq<Creation>, n: nat, q: Path) {
    exists i :: 0 <= i < n && i < |ops| && LeadsBy(h, e, Parent(TargetOf(ops[i])), q)
  }

  /** Directories that are new lie where the ways to the first `n` targets lead. */
  ghost predicate NewDirsLed(h: Host, d: Disk, e: Disk, ops: seq<Creation>, n: nat) {
    && WellFormed(e) && Within(d, e)
    && forall q :: q in e && q !in d && e[q] == Dir ==> Led(h, e, ops, n, q)
  }

  ghost predicate NamedTargets(ops: seq<Creation>) {
    forall i :: 0 <= i < |ops| ==> IsPath(TargetOf(ops[i]))
  }

  lemma LedGrows(h: Host, e: Disk, f: Disk, ops: seq<Creation>, n: nat, q: Path)
    requires Within(e, f) && Led(h, e, ops, n, q)
    ensures Led(h, f, ops, n + 1, q)
  {
    var i :| 0 <= i < n && i < |ops| && LeadsBy(h, e, Parent(TargetOf(ops[i])), q);
    LeadsGrows(h, e, f, Parent(TargetOf(ops[i])), q);
    hide LeadsBy;
  }

  /** The directories for one more target. */
  lemma LedMore(h: Host, d: Disk, e: Disk, f: Disk, ops: seq<Creation>, n: nat)
    requires NewDirsLed(h, d, e, ops, n) && n < |ops| && DirsAdded(h, e, f, Parent(TargetOf(ops[n])))
    ensures NewDirsLed(h, d, f, ops, n + 1)
  {
    WithinTransitive(d, e, f);
    hide LeadsBy, Led, WellFormed;
    forall q | q in f && q !in d && f[q] == Dir ensures Led(h, f, ops, n + 1, q) {
      if q in e {
        LedGrows(h, e, f, ops, n, q);
      } else {
        LedLast(h, f, ops, n, q);
      }
    }
  }

  lemma LedLast(h: Host, f: Disk, ops: seq<Creation>, n: nat, q: Path)
    requires n < |ops| && LeadsBy(h, f, Parent(TargetOf(ops[n])), q)
    ensures Led(h, f, ops, n + 1, q)
  {
    hide LeadsBy;
  }

  /** A new file adds no directory. */
  lemma LedFile(h: Host, d: Disk, e: Disk, f: Disk, ops: seq<Creation>, n: nat)
    requires NewDirsLed(h, d, e, ops, n) && WellFormed(f) && Within(e, f) && forall q :: q in f && q !in e ==>
               f[q] != Dir
    ensures NewDirsLed(h, d, f, ops, n)
  {
    WithinTransitive(d, e, f);
    hide LeadsBy, Led, WellFormed;
    forall q | q in f && q !in d && f[q] == Dir ensures Led(h, f, ops, n, q) {
      LedStays(h, e, f, ops, n, q);
    }
  }

  lemma LedStays(h: Host, e: Disk, f: Disk, ops: seq<Creation>, n: nat, q: Path)
    requires Within(e, f) && Led(h, e, ops, n, q)
    ensures Led(h, f, ops, n, q)
  {
    var i :| 0 <= i < n && i < |ops| && LeadsBy(h, e, Parent(TargetOf(ops[i])), q);
    LeadsGrows(h, e, f, Parent(TargetOf(ops[i])), q);
    hide LeadsBy;
  }

  lemma CreationAddsFile(h: Host, d: Disk, op: Creation)
    requires WellFormed(d) && IsPath(TargetOf(op)) && Effect(h, d, op).Some?
    ensures var e := Effect(h, d, op).value;
            WellFormed(e) && Within(d, e) && forall q :: q in e && q !in d ==> e[q] != Dir
  {
    EffectWellFormed(h, d, op);
    hide Place, ReadFile, WellFormed;
  }

  /** Every directory that the plan makes is met on the way to one of its targets. */
  lemma {:induction false} CreateEachLed(h: Host, d: Disk, ops: seq<Creation>, n: nat)
    requires WellFormed(d) && NamedTargets(ops) && n <= |ops| && CreateEach(h, d, ops[..n]).Some?
    ensures NewDirsLed(h, d, CreateEach(h, d, ops[..n]).value, ops, n)
  {
    if n > 0 {
      CreateMore(h, d, ops, n - 1);
      hide NewDirsLed, DirsAdded, Effect, MakeDirs, WellFormed, CreateEach;
      CreateEachLed(h, d, ops, n - 1);
      var e := CreateEach(h, d, ops[..n - 1]).value;
      NextLed(h, d, e, ops, n - 1);
    } else {
      assert ops[..0] == [];
    }
  }

  lemma NextLed(h: Host, d: Disk, e: Disk, ops: seq<Creation>, n: nat)
    requires NewDirsLed(h, d, e, ops, n) && n < |ops| && IsPath(TargetOf(ops[n])) && CreateOne(h, e, ops[n]).Some?
    ensures NewDirsLed(h, d, CreateOne(h, e, ops[n]).value, ops, n + 1)
  {
    var p := Parent(TargetOf(ops[n]));
    var up := MakeDirs(h, e, p).value;
    assert WellFormed(e) && IsPath(p);
    hide NewDirsLed, Effect, MakeDirs, WellFormed, LeadsBy, Tame, TargetOf;
    MakeDirsAdds(h, e, p);
    LedMore(h, d, e, up, ops, n);
    CreationAddsFile(h, up, ops[n]);
    LedFile(h, d, up, CreateOne(h, e, ops[n]).value, ops, n + 1);
  }

  /** So is every directory of a run that began the plan. */
  lemma BegunLed(h: Host, d: Disk, e: Disk, ops: seq<Creation>, n: nat)
    requires WellFormed(d) && NamedTargets(ops) && Begun(h, d, e, ops, n)
    ensures NewDirsLed(h, d, e, ops, n + 1)
  {
    var m := CreateEach(h, d, ops[..n]).value;
    CreateEachLed(h, d, ops, n);
    hide WellFormed, CreateEach, DirsAdded, NamedTargets, TargetOf;
    if n == |ops| {
      LedFurther(h, d, m, ops, n);
    } else {
      hide NewDirsLed;
      LedMore(h, d, m, e, ops, n);
    }
  }

  lemma LedFurther(h: Host, d: Disk, e: Disk, ops: seq<Creation>, n: nat)
    requires NewDirsLed(h, d, e, ops, n)
    ensures NewDirsLed(h, d, e, ops, n + 1)
  {
    hide LeadsBy;
  }

  // ----------------------------------------------------- targets without links

  /** What the file will hold is given, or is the content of a file that is there. */
  predicate Supplies(d: Disk, op: Creation, data: Bytes) {
    match op
    case OpCreate(_, x) => x == data
    case OpCopy(from, _) => from in d && d[from] == File(data)
  }

  ghost predicate Supplied(d: Disk, op: Creation) {
    exists data :: Supplies(d, op, data)
  }

  /** Nothing is at the path, and no file on the way to it. */
  ghost predicate Vacant(d: Disk, t: Path) {
    t !in d && WayIsOpen(d, Parent(t))
  }

  /** Every target is a proper path without links. */
  ghost predicate Direct(d: Disk, ops: seq<Creation>) {
    forall i :: 0 <= i < |ops| ==> IsPath(TargetOf(ops[i])) && TargetOf(ops[i]) != [] && Straight(d, TargetOf(ops[i]))
  }

  ghost predicate AllSupplied(d: Disk, ops: seq<Creation>) {
    forall i :: 0 <= i < |ops| ==> Supplied(d, ops[i])
  }

  /** Every target can be created, and none lies at or below another. */
  ghost predicate Creatable(d: Disk, ops: seq<Creation>) {
    && (forall i :: 0 <= i < |ops| ==> Vacant(d, TargetOf(ops[i])))
    && forall i, j :: 0 <= i < j < |ops| ==> !Comparable(TargetOf(ops[i]), TargetOf(ops[j]))
  }

  ghost predicate OnWays(ops: seq<Creation>, q: Path) {
    exists i :: 0 <= i < |ops| && q <= TargetOf(ops[i])
  }

  ghost predicate AtTarget(ops: seq<Creation>, q: Path) {
    exists i :: 0 <= i < |ops| && q == TargetOf(ops[i])
  }

  /** `e` is `d` with the directories and files of the plan. */
  ghost predicate Filled(d: Disk, e: Disk, ops: seq<Creation>) {
    && WellFormed(e) && Within(d, e)
    && (forall q :: q in e <==> q in d || OnWays(ops, q))
    && (forall q :: q in e && q !in d ==> e[q] == Dir || (AtTarget(ops, q) && e[q].File?))
    && forall i :: 0 <= i < |ops| ==>
         var t := TargetOf(ops[i]);
         t in e && e[t].File? && Supplies(d, ops[i], e[t].data)
  }

  /** The node that a creation makes. */
  lemma CreateOneStraight(h: Host, e: Disk, op: Creation, data: Bytes)
    requires WellFormed(e) && IsPath(TargetOf(op)) && TargetOf(op) != [] && Straight(e, TargetOf(op))
    requires Supplies(e, op, data)
    ensures CreateOne(h, e, op).Some? <==> Vacant(e, TargetOf(op))
    ensures Vacant(e, TargetOf(op)) ==>
              var f := CreateOne(h, e, op).value;
              WellFormed(f) && HasFile(e, f, TargetOf(op), File(data))
  {
    var t := TargetOf(op);
    StraightParent(e, t);
    MakeDirsStraight(h, e, Parent(t));
    var up := MakeDirs(h, e, Parent(t));
    if up.Some? {
      SuppliedLater(h, e, up.value, op, data);
      CreateAtEnd(h, e, up.value, t, data);
    }
    hide ReadFile, CreateFile, MakeDirs, WayIsOpen, HasFile, HasWay, WellFormed, Straight, Supplies;
  }

  lemma SuppliedLater(h: Host, e: Disk, up: Disk, op: Creation, data: Bytes)
    requires WellFormed(e) && WellFormed(up) && HasWay(e, up, Parent(TargetOf(op))) && Supplies(e, op, data)
    ensures Effect(h, up, op) == CreateFile(h, up, TargetOf(op), data)
  {
    hide CreateFile;
    if op.OpCopy? {
      ReadAfterWay(h, e, e, up, Parent(TargetOf(op)), op.from);
    }
    hide ReadFile;
  }

  /** After some creations a target can be created exactly when it could be before
      and does not clash with theirs. */
  lemma VacantAfter(d: Disk, e: Disk, ops: seq<Creation>, t: Path)
    requires Filled(d, e, ops) && t != []
    ensures Vacant(e, t) <==> Vacant(d, t) && forall i :: 0 <= i < |ops| ==> !Comparable(TargetOf(ops[i]), t)
  {
    hide Filled, Vacant, Comparable;
    if Vacant(e, t) {
      VacantBefore(d, e, ops, t);
      forall i | 0 <= i < |ops| ensures !Comparable(TargetOf(ops[i]), t) {
        NotComparable(d, e, ops, t, i);
      }
    }
    if Vacant(d, t) && forall i :: 0 <= i < |ops| ==> !Comparable(TargetOf(ops[i]), t) {
      VacantStill(d, e, ops, t);
    }
  }

  lemma VacantBefore(d: Disk, e: Disk, ops: seq<Creation>, t: Path)
    requires Filled(d, e, ops) && Vacant(e, t)
    ensures Vacant(d, t)
  {
    hide OnWays, AtTarget;
    forall k | 0 <= k <= |Parent(t)| && Parent(t)[..k] in d ensures d[Parent(t)[..k]] == Dir {
      assert Parent(t)[..k] in e;
    }
  }

  lemma VacantStill(d: Disk, e: Disk, ops: seq<Creation>, t: Path)
    requires Filled(d, e, ops) && t != [] && Vacant(d, t)
    requires forall i :: 0 <= i < |ops| ==> !Comparable(TargetOf(ops[i]), t)
    ensures Vacant(e, t)
  {
    assert !OnWays(ops, t);
    hide OnWays, Supplies, WellFormed;
    forall k | 0 <= k <= |Parent(t)| && Parent(t)[..k] in e ensures e[Parent(t)[..k]] == Dir {
      NotAtTarget(ops, t, Parent(t)[..k]);
    }
  }

  lemma NotAtTarget(ops: seq<Creation>, t: Path, q: Path)
    requires q <= t && forall i :: 0 <= i < |ops| ==> !Comparable(TargetOf(ops[i]), t)
    ensures !AtTarget(ops, q)
  {
    hide TargetOf;
  }

  lemma NotComparable(d: Disk, e: Disk, ops: seq<Creation>, t: Path, i: nat)
    requires Filled(d, e, ops) && t != [] && Vacant(e, t) && i < |ops|
    ensures !Comparable(TargetOf(ops[i]), t)
  {
    var s := TargetOf(ops[i]);
    assert s in e && e[s].File?;
    if s <= t {
      ProperPrefix(s, t);
    }
  }

  lemma StraightAfter(d: Disk, e: Disk, ops: seq<Creation>, t: Path)
    requires Filled(d, e, ops) && Straight(d, t)
    ensures Straight(e, t)
  {
    hide OnWays, AtTarget;
    forall k | 0 <= k <= |t| && t[..k] in e ensures !e[t[..k]].Link? {
      assert t[..k] in d ==> e[t[..k]] == d[t[..k]];
    }
  }

  lemma WaysMore(ops: seq<Creation>, op: Creation, q: Path)
    ensures OnWays(ops + [op], q) <==> OnWays(ops, q) || q <= TargetOf(op)
    ensures AtTarget(ops + [op], q) <==> AtTarget(ops, q) || q == TargetOf(op)
  {
    var all := ops + [op];
    assert all[|ops|] == op;
    if OnWays(ops, q) {
      var i :| 0 <= i < |ops| && q <= TargetOf(ops[i]);
      assert all[i] == ops[i];
    }
    if AtTarget(ops, q) {
      var i :| 0 <= i < |ops| && q == TargetOf(ops[i]);
      assert all[i] == ops[i];
    }
  }

  lemma FilledMore(d: Disk, e: Disk, f: Disk, ops: seq<Creation>, op: Creation, data: Bytes)
    requires Filled(d, e, ops) && Supplies(d, op, data) && WellFormed(f)
    requires HasFile(e, f, TargetOf(op), File(data)) && TargetOf(op) !in e
    ensures Filled(d, f, ops + [op])
  {
    hide OnWays, AtTarget, HasFile, WellFormed, Supplies, Within, TargetOf;
    FilledTargets(d, e, f, ops, op, data);
    FilledKeys(d, e, f, ops, op, File(data));
    FilledKinds(d, e, f, ops, op, File(data));
  }

  lemma FilledKeys(d: Disk, e: Disk, f: Disk, ops: seq<Creation>, op: Creation, n: Node)
    requires Filled(d, e, ops) && HasFile(e, f, TargetOf(op), n)
    ensures Within(d, f)
    ensures forall q :: q in f <==> q in d || OnWays(ops + [op], q)
  {
    hide WellFormed, OnWays, AtTarget, Supplies, TargetOf;
    forall q ensures q in f <==> q in d || OnWays(ops + [op], q) {
      WaysMore(ops, op, q);
    }
    forall q | q in d ensures q in f && f[q] == d[q] {
      assert q in e;
    }
  }

  lemma FilledKinds(d: Disk, e: Disk, f: Disk, ops: seq<Creation>, op: Creation, n: Node)
    requires Filled(d, e, ops) && HasFile(e, f, TargetOf(op), n) && n.File?
    ensures forall q :: q in f && q !in d ==> f[q] == Dir || (AtTarget(ops + [op], q) && f[q].File?)
  {
    hide WellFormed, OnWays, AtTarget, Supplies, TargetOf, Within;
    forall q | q in f && q !in d ensures f[q] == Dir || (AtTarget(ops + [op], q) && f[q].File?) {
      WaysMore(ops, op, q);
    }
  }

  lemma FilledTargets(d: Disk, e: Disk, f: Disk, ops: seq<Creation>, op: Creation, data: Bytes)
    requires Filled(d, e, ops) && Supplies(d, op, data)
    requires HasFile(e, f, TargetOf(op), File(data)) && TargetOf(op) !in e
    ensures var all := ops + [op];
            forall i :: 0 <= i < |all| ==>
              var t := TargetOf(all[i]);
              t in f && f[t].File? && Supplies(d, all[i], f[t].data)
  {
    hide WellFormed, OnWays, AtTarget, Supplies, Within;
    var all := ops + [op];
    forall i | 0 <= i < |all|
      ensures TargetOf(all[i]) in f && f[TargetOf(all[i])].File? && Supplies(d, all[i], f[TargetOf(all[i])].data)
    {
      if i < |ops| {
        assert all[i] == ops[i] && TargetOf(ops[i]) in e;
      }
    }
  }

  lemma CreatableMore(d: Disk, ops: seq<Creation>, op: Creation)
    ensures Creatable(d, ops + [op]) <==>
              && Creatable(d, ops) && Vacant(d, TargetOf(op))
              && forall i :: 0 <= i < |ops| ==> !Comparable(TargetOf(ops[i]), TargetOf(op))
  {
    var all := ops + [op];
    hide Vacant, Comparable, TargetOf;
    assert all[|ops|] == op && forall i :: 0 <= i < |ops| ==> all[i] == ops[i];
    if Creatable(d, all) {
      forall i | 0 <= i < |ops| ensures Vacant(d, TargetOf(ops[i])) && !Comparable(TargetOf(ops[i]), TargetOf(op)) {
        assert Vacant(d, TargetOf(all[i])) && !Comparable(TargetOf(all[i]), TargetOf(all[|ops|]));
      }
      forall i, j | 0 <= i < j < |ops| ensures !Comparable(TargetOf(ops[i]), TargetOf(ops[j])) {
        assert !Comparable(TargetOf(all[i]), TargetOf(all[j]));
      }
    }
  }

  lemma DirectFront(d: Disk, ops: seq<Creation>, n: nat)
    requires Direct(d, ops) && n <= |ops|
    ensures Direct(d, ops[..n])
  {
    hide Straight;
  }

  /** One more file on a disk that holds the earlier ones. */
  lemma CreateNext(h: Host, d: Disk, e: Disk, ops: seq<Creation>, op: Creation)
    requires WellFormed(d) && Filled(d, e, ops) && Supplied(d, op)
    requires IsPath(TargetOf(op)) && TargetOf(op) != [] && Straight(d, TargetOf(op))
    ensures CreateOne(h, e, op).Some? <==>
              Vacant(d, TargetOf(op)) && forall i :: 0 <= i < |ops| ==> !Comparable(TargetOf(ops[i]), TargetOf(op))
    ensures CreateOne(h, e, op).Some? ==> Filled(d, CreateOne(h, e, op).value, ops + [op])
  {
    var data :| Supplies(d, op, data);
    VacantAfter(d, e, ops, TargetOf(op));
    StraightAfter(d, e, ops, TargetOf(op));
    assert WellFormed(e) && Supplies(e, op, data);
    hide Filled, CreateOne, Straight, Comparable, WellFormed, HasFile, Supplies;
    CreateOneStraight(h, e, op, data);
    if CreateOne(h, e, op).Some? {
      FilledMore(d, e, CreateOne(h, e, op).value, ops, op, data);
    }
  }

  /** On targets without links the plan succeeds exactly when every target is vacant
      and none clashes with another, and then adds its directories and files and
      nothing else. */
  lemma {:induction false} CreateEachExact(h: Host, d: Disk, ops: seq<Creation>)
    requires WellFormed(d) && Direct(d, ops) && AllSupplied(d, ops)
    ensures CreateEach(h, d, ops).Some? <==> Creatable(d, ops)
    ensures Creatable(d, ops) ==> Filled(d, CreateEach(h, d, ops).value, ops)
  {
    hide Filled, CreateOne, Straight, Comparable, WellFormed, Supplied, Vacant, Creatable, TargetOf, IsPath;
    if ops == [] {
      NothingFilled(d);
    } else {
      var n := |ops| - 1;
      var front, op := ops[..n], ops[n];
      assert front + [op] == ops;
      DirectFront(d, ops, n);
      CreateEachExact(h, d, front);
      CreatableMore(d, front, op);
      if Creatable(d, front) {
        CreateNext(h, d, CreateEach(h, d, front).value, front, op);
      }
    }
  }

  lemma NothingFilled(d: Disk)
    requires WellFormed(d)
    ensures Creatable(d, []) && Filled(d, d, [])
  {
    hide WellFormed;
  }
}
