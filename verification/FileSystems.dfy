/** The running file system: a disk that scripts change one operation at a time,
    while the operating system may refuse any of them and others may add files. */
module FileSystems {
  import opened Outcome
  import opened Paths
  import opened Hosts
  import opened Disks
  import opened PathLookup

  /** One atomic change, or one reading of the disk that may break. */
  datatype Op =
    | OpRead
    | OpMakeDir(p: Path)
    | OpCreate(p: Path, data: Bytes)
    | OpCopy(from: Path, to: Path)
    | OpRemoveDir(p: Path)
    | OpRemoveFile(p: Path)
    | OpRename(from: Path, to: Path)
    | OpRemoveLeaf(p: Path)

  /** Done; refused because the disk does not allow it; or broken by a fault that
      changed nothing. */
  datatype Status = Done | Refused | Broken

  /** Removing one file, link or empty directory by its physical path, as a
      recursive removal does. */
  function RemoveLeaf(d: Disk, p: Path): Option<Disk> {
    if p != [] && p in d && !HasChild(d, p) then Some(d - {p}) else None
  }

  function Effect(h: Host, d: Disk, op: Op): Option<Disk> {
    match op
    case OpRead => Some(d)
    case OpMakeDir(p) => MakeDir(h, d, p)
    case OpCreate(p, data) => CreateFile(h, d, p, data)
    case OpCopy(from, to) => CopyFile(h, d, from, to)
    case OpRemoveDir(p) => RemoveDir(h, d, p)
    case OpRemoveFile(p) => RemoveFile(h, d, p)
    case OpRename(from, to) => Rename(h, d, from, to)
    case OpRemoveLeaf(p) => RemoveLeaf(d, p)
  }

  predicate IsRemoval(op: Op) {
    op.OpRemoveFile? || op.OpRemoveLeaf?
  }

  /** A node that somebody else adds at `p`, where there is room for it. */
  predicate CanArrive(d: Disk, p: Path, n: Node) {
    && p !in d && p != [] && IsName(Last(p))
    && Parent(p) in d && d[Parent(p)] == Dir
    && (n.Link? ==> IsPath(n.dest))
  }

  datatype Arrival = Arrival(p: Path, n: Node)

  /** The disk after the arrivals that find room. */
  function Arrive(d: Disk, arrivals: seq<Arrival>): Disk
    decreases |arrivals|
  {
    if arrivals == [] then d
    else
      var a := arrivals[0];
      Arrive(if CanArrive(d, a.p, a.n) then d[a.p := a.n] else d, arrivals[1..])
  }

  lemma {:induction false} ArriveGrows(d: Disk, arrivals: seq<Arrival>)
    requires WellFormed(d)
    ensures WellFormed(Arrive(d, arrivals)) && Within(d, Arrive(d, arrivals))
    decreases |arrivals|
  {
    if arrivals != [] {
      var a := arrivals[0];
      if CanArrive(d, a.p, a.n) {
        AddWellFormed(d, a.p, a.n);
        ArriveGrows(d[a.p := a.n], arrivals[1..]);
      } else {
        ArriveGrows(d, arrivals[1..]);
      }
    }
  }

  lemma MoveContents(d: Disk, from: Path, to: Path, q: Path)
    ensures q in Move(d, from, to) <==>
              if to <= q then from + q[|to|..] in d else q in d && !(from <= q)
    ensures q in Move(d, from, to) ==> Move(d, from, to)[q] == d[Moved(from, to, q)]
  {
    if to <= q && from + q[|to|..] in d {
      var s := from + q[|to|..];
      assert to + s[|from|..] == q;
      assert q in Targets(d, from, to);
    }
  }

  lemma MoveWellFormed(d: Disk, from: Path, to: Path)
    requires WellFormed(d) && from in d && d[from] == Dir && from != [] && to != []
    requires !(from <= to) && !(to <= from)
    requires Parent(to) in d && d[Parent(to)] == Dir && IsName(Last(to))
    ensures WellFormed(Move(d, from, to))
  {
    var e := Move(d, from, to);
    forall q ensures q in e <==> if to <= q then from + q[|to|..] in d else q in d && !(from <= q) {
      MoveContents(d, from, to, q);
    }
    assert IsPath(to) by {
      assert to == Parent(to) + [Last(to)];
    }
    forall q | q in e
      ensures IsPath(q) && (q != [] ==> Parent(q) in e && e[Parent(q)] == Dir)
      ensures e[q].Link? ==> IsPath(e[q].dest)
    {
      MoveContents(d, from, to, q);
      MovedParent(d, from, to, q);
    }
    MoveContents(d, from, to, []);
  }

  lemma MovedParent(d: Disk, from: Path, to: Path, q: Path)
    requires WellFormed(d) && from in d && d[from] == Dir && from != [] && to != [] && IsPath(to)
    requires !(from <= to) && !(to <= from) && Parent(to) in d && d[Parent(to)] == Dir
    requires q in Move(d, from, to)
    ensures IsPath(q) && (q != [] ==> Parent(q) in Move(d, from, to) && Move(d, from, to)[Parent(q)] == Dir)
  {
    MoveContents(d, from, to, q);
    MoveContents(d, from, to, Parent(q));
    hide Move;
    if to <= q {
      var s := from + q[|to|..];
      assert q == to + q[|to|..];
      MovedIsPath(d, from, to, q);
      if q == to {
        assert from + to[|to|..] == from;
        assert !(from <= Parent(to));
      } else {
        assert Parent(q) == to + Parent(q)[|to|..];
        assert Parent(s) == from + Parent(q)[|to|..];
      }
    } else if q != [] {
      PrefixOfParent(to, q);
      PrefixOfParent(from, q);
    }
  }

  lemma PrefixOfParent(p: Path, q: Path)
    ensures p <= Parent(q) ==> p <= q
  {
    assert Parent(q) <= q;
  }

  lemma MovedIsPath(d: Disk, from: Path, to: Path, q: Path)
    requires WellFormed(d) && IsPath(to) && to <= q && from + q[|to|..] in d
    ensures IsPath(q)
  {
    var s := from + q[|to|..];
    assert IsPath(s);
    forall i | 0 <= i < |q| ensures IsName(q[i]) {
      if i >= |to| {
        assert q[i] == s[|from| + i - |to|];
      } else {
        assert q[i] == to[i];
      }
    }
  }

  // ------------------------------------------------ what operations preserve

  /** The paths an operation may create are well named. */
  predicate WellNamed(op: Op) {
    match op
    case OpMakeDir(p) => IsPath(p)
    case OpCreate(p, _) => IsPath(p)
    case OpCopy(_, to) => IsPath(to)
    case OpRename(_, to) => IsPath(to)
    case _ => true
  }

  lemma AddPlaceWellFormed(h: Host, d: Disk, p: Path, n: Node)
    requires WellFormed(d) && IsPath(p) && Place(h, d, p).Some? && Place(h, d, p).value !in d && !n.Link?
    ensures WellFormed(d[Place(h, d, p).value := n])
  {
    PlaceEnds(h, d, p);
    AddWellFormed(d, Place(h, d, p).value, n);
  }

  /** Every operation keeps the shape of the disk. */
  lemma EffectWellFormed(h: Host, d: Disk, op: Op)
    requires WellFormed(d) && WellNamed(op) && Effect(h, d, op).Some?
    ensures WellFormed(Effect(h, d, op).value)
  {
    match op
    case OpRead =>
    case OpMakeDir(p) => AddPlaceWellFormed(h, d, p, Dir);
    case OpCreate(p, data) => AddPlaceWellFormed(h, d, p, File(data));
    case OpCopy(from, to) => AddPlaceWellFormed(h, d, to, File(ReadFile(h, d, from).value));
    case OpRemoveDir(p) => RemoveWellFormed(d, Place(h, d, p).value);
    case OpRemoveFile(p) =>
      var c := Place(h, d, p);
      if c.Some? && c.value in d {
        FileHasNoChild(d, c.value);
        RemoveWellFormed(d, c.value);
      }
    case OpRename(from, to) =>
      var f, t := Place(h, d, from).value, Place(h, d, to).value;
      PlaceEnds(h, d, to);
      MoveWellFormed(d, f, t);
    case OpRemoveLeaf(p) => RemoveWellFormed(d, p);
  }

  lemma BelowHasChild(d: Disk, t: Path, q: Path)
    requires WellFormed(d) && q in d && t < q
    ensures HasChild(d, t)
  {
    var c := q[..|t| + 1];
    PrefixPresent(d, q, c);
    assert Parent(c) == t;
  }

  lemma MoveKeeps(d: Disk, f: Path, t: Path, q: Path)
    requires q in d && !(f <= t) && !(t <= f) && (f <= q || !(t <= q))
    ensures var r := if f <= q then t + q[|f|..] else q;
            r in Move(d, f, t) && Move(d, f, t)[r] == d[q]
  {
    if f <= q {
      var r := t + q[|f|..];
      assert r[|t|..] == q[|f|..];
      assert Moved(f, t, r) == q;
      assert r in Targets(d, f, t);
    } else {
      assert Moved(f, t, q) == q;
    }
  }

  /** Renaming moves files and loses none: a directory that holds anything is not
      replaced. */
  lemma RenameKeepsLeaves(h: Host, d: Disk, from: Path, to: Path, q: Path)
    requires WellFormed(d) && Rename(h, d, from, to).Some? && q in d && d[q] != Dir
    ensures var f, t := Place(h, d, from).value, Place(h, d, to).value;
            var r := if f <= q then t + q[|f|..] else q;
            r in Rename(h, d, from, to).value && Rename(h, d, from, to).value[r] == d[q]
  {
    hide *;
    RenameIs(h, d, from, to);
    NotBelow(d, Place(h, d, to).value, q);
    MoveKeeps(d, Place(h, d, from).value, Place(h, d, to).value, q);
  }

  lemma RenameIs(h: Host, d: Disk, from: Path, to: Path)
    requires Rename(h, d, from, to).Some?
    ensures Place(h, d, from).Some? && Place(h, d, to).Some?
    ensures var f, t := Place(h, d, from).value, Place(h, d, to).value;
            && !(f <= t) && !(t <= f) && (t in d ==> d[t] == Dir && !HasChild(d, t))
            && Rename(h, d, from, to) == Some(Move(d, f, t))
  {
    hide Place, Move, HasChild;
  }

  lemma NotBelow(d: Disk, t: Path, q: Path)
    requires WellFormed(d) && q in d && d[q] != Dir && (t in d ==> d[t] == Dir && !HasChild(d, t))
    ensures !(t <= q)
  {
    hide WellFormed, HasChild;
    if t <= q {
      PrefixPresent(d, q, t);
      if t != q {
        BelowHasChild(d, t, q);
      }
    }
  }

  /** The nodes other than directories that `e` has and `d` has not. */
  function Gain(d: Disk, e: Disk): map<Path, Node> {
    map p | p in e && p !in d && e[p] != Dir :: e[p]
  }

  // --------------------------------------------------------------- the class

  class FileSystem {
    const host: Host
    /** whether the operation at a given time meets a fault */
    const fails: nat -> bool
    /** the same for removals during a cleanup */
    const removalFails: nat -> bool
    /** what others add just before the operation at a given time */
    const arrivals: nat -> seq<Arrival>

    var disk: Disk
    var clock: nat
    /** every state of the disk so far */
    ghost var trace: seq<Disk>
    /** the files and links that others added so far */
    ghost var foreign: map<Path, Node>

    constructor (host: Host, fails: nat -> bool, removalFails: nat -> bool, arrivals: nat -> seq<Arrival>, disk: Disk)
      requires Sound(host) && WellFormed(disk)
      ensures Valid() && this.disk == disk && clock == 0 && trace == [disk] && foreign == map[]
      ensures this.host == host && this.fails == fails && this.removalFails == removalFails && this.arrivals == arrivals
    {
      this.host := host;
      this.fails := fails;
      this.removalFails := removalFails;
      this.arrivals := arrivals;
      this.disk := disk;
      clock := 0;
      trace := [disk];
      foreign := map[];
    }

    ghost predicate Valid()
      reads this
    {
      Sound(host) && WellFormed(disk)
    }

    /** Nobody else writes. */
    ghost predicate Quiet() {
      forall n :: arrivals(n) == []
    }

    /** Nothing breaks. */
    ghost predicate Calm() {
      forall n :: !fails(n)
    }

    /** No removal breaks. */
    ghost predicate CleanupWorks() {
      forall n :: !removalFails(n)
    }

    /** From time `n` on nothing breaks and nobody else writes. */
    ghost predicate UndisturbedFrom(n: nat) {
      forall m: nat :: n <= m ==> arrivals(m) == [] && !fails(m) && !removalFails(m)
    }

    predicate Faulty(op: Op, n: nat) {
      if IsRemoval(op) then removalFails(n) else fails(n)
    }

    /** What an operation at time `n` does to the disk `d`. */
    function After(d: Disk, n: nat, op: Op): (Status, Disk) {
      var e := Arrive(d, arrivals(n));
      if Faulty(op, n) then (Broken, e)
      else
        var r := Effect(host, e, op);
        if r.None? then (Refused, e) else (Done, r.value)
    }

    /** Performs one operation. */
    method Do(op: Op) returns (s: Status)
      requires Valid() && WellNamed(op)
      modifies this
      ensures Valid() && clock == old(clock) + 1
      ensures (s, disk) == After(old(disk), old(clock), op)
      ensures var e := Arrive(old(disk), arrivals(old(clock)));
              trace == old(trace) + [e, disk] && foreign == old(foreign) + Gain(old(disk), e)
    {
      hide Effect, Gain;
      var e := Arrive(disk, arrivals(clock));
      ArriveGrows(disk, arrivals(clock));
      foreign := foreign + Gain(disk, e);
      var r := Effect(host, e, op);
      if Faulty(op, clock) {
        s, disk := Broken, e;
      } else if r.None? {
        s, disk := Refused, e;
      } else {
        EffectWellFormed(host, e, op);
        s, disk := Done, r.value;
      }
      clock := clock + 1;
      trace := trace + [e, disk];
    }
  }

  /** One operation while nobody else writes. */
  lemma QuietStep(fs: FileSystem, d: Disk, n: nat, op: Op)
    requires fs.arrivals(n) == []
    ensures var (s, e) := fs.After(d, n, op);
            && (s.Done? ==> Effect(fs.host, d, op) == Some(e))
            && (s.Refused? ==> Effect(fs.host, d, op).None?)
            && (s.Broken? ==> fs.Faulty(op, n))
            && (!s.Done? ==> e == d)
            && Arrive(d, fs.arrivals(n)) == d && Gain(d, d) == map[]
  {
    hide Effect;
  }
}
