/** The state of the file system, path lookup through symbolic links, and each
    file operation the scripts use as a function on that state. */
module Disks {
  import opened Outcome
  import opened Paths
  import opened Hosts

  /** A link leads to an absolute path without `..`. */
  datatype Node = File(data: Bytes) | Dir | Link(dest: Path)

  type Disk = map<Path, Node>

  ghost predicate WellFormed(d: Disk) {
    && [] in d && d[[]] == Dir
    && (forall p :: p in d ==> IsPath(p))
    && (forall p :: p in d && p != [] ==> Parent(p) in d && d[Parent(p)] == Dir)
    && (forall p :: p in d && d[p].Link? ==> IsPath(d[p].dest))
  }

  // ----------------------------------------------------------------- lookup

  /** Where a lookup ended and how many links it may still follow. */
  datatype Found = Found(at: Path, links: nat)

  /** Looking up `todo` from the directory `at`, following every link. */
  function Walk(d: Disk, at: Path, todo: Path, links: nat): Option<Found>
    decreases links, |todo|
  {
    if todo == [] then Some(Found(at, links))
    else if at !in d || d[at] != Dir then None
    else
      var next := at + [todo[0]];
      if next !in d then None
      else if d[next].Link? then
        if links == 0 then None else Walk(d, [], d[next].dest + todo[1..], links - 1)
      else Walk(d, next, todo[1..], links)
  }

  /** What `realpath` gives and `exists`, `stat` and `readFile` look at. */
  function Find(h: Host, d: Disk, p: Path): Option<Path> {
    var r := Walk(d, [], p, h.linkLimit);
    if r.None? then None else Some(r.value.at)
  }

  predicate Exists(h: Host, d: Disk, p: Path) {
    Find(h, d, p).Some?
  }

  predicate IsDirAt(h: Host, d: Disk, p: Path) {
    var q := Find(h, d, p);
    q.Some? && q.value in d && d[q.value] == Dir
  }

  function ReadFile(h: Host, d: Disk, p: Path): Option<Bytes> {
    var q := Find(h, d, p);
    if q.Some? && q.value in d && d[q.value].File? then Some(d[q.value].data) else None
  }

  /** Where an operation that does not follow the last name acts. */
  function Place(h: Host, d: Disk, p: Path): Option<Path> {
    if p == [] then Some([])
    else
      var q := Find(h, d, Parent(p));
      if q.Some? && q.value in d && d[q.value] == Dir then Some(q.value + [Last(p)]) else None
  }

  /** `lstat(p)`. */
  function LinkStat(h: Host, d: Disk, p: Path): Option<Node> {
    var c := Place(h, d, p);
    if c.Some? && c.value in d then Some(d[c.value]) else None
  }

  // ------------------------------------------------------------- operations

  /** `mkdir(p)`. */
  function MakeDir(h: Host, d: Disk, p: Path): Option<Disk> {
    var c := Place(h, d, p);
    if c.Some? && c.value !in d then Some(d[c.value := Dir]) else None
  }

  /** `mkdir(p, { recursive: true })`: a directory that is there already is fine. */
  function MakeDirs(h: Host, d: Disk, p: Path): Option<Disk>
    decreases |p|
  {
    if Exists(h, d, p) then (if IsDirAt(h, d, p) then Some(d) else None)
    else if p == [] then None
    else
      var up := MakeDirs(h, d, Parent(p));
      if up.None? then None
      else
        var made := MakeDir(h, up.value, p);
        if made.Some? then made else if IsDirAt(h, up.value, p) then up else None
  }

  /** Creating a file that must not exist: flag `wx`, or `COPYFILE_EXCL`. */
  function CreateFile(h: Host, d: Disk, p: Path, data: Bytes): Option<Disk> {
    var c := Place(h, d, p);
    if c.Some? && c.value !in d then Some(d[c.value := File(data)]) else None
  }

  function CopyFile(h: Host, d: Disk, from: Path, to: Path): Option<Disk> {
    var data := ReadFile(h, d, from);
    if data.None? then None else CreateFile(h, d, to, data.value)
  }

  predicate HasChild(d: Disk, p: Path) {
    exists q :: q in d && q != [] && Parent(q) == p
  }

  /** `rmdir(p)`. */
  function RemoveDir(h: Host, d: Disk, p: Path): Option<Disk> {
    var c := Place(h, d, p);
    if c.Some? && c.value != [] && c.value in d && d[c.value] == Dir && !HasChild(d, c.value)
    then Some(d - {c.value}) else None
  }

  /** `rm(p, { force: true })` of a file or link; nothing there is no error. */
  function RemoveFile(h: Host, d: Disk, p: Path): Option<Disk> {
    var c := Place(h, d, p);
    if c.None? || c.value !in d then Some(d)
    else if d[c.value] == Dir then None
    else Some(d - {c.value})
  }

  /** Everything at or below a path. */
  function Below(d: Disk, p: Path): (s: set<Path>)
    ensures forall q :: q in s <==> q in d && p <= q
  {
    set q | q in d && p <= q
  }

  /** `rm(p, { recursive: true })` at a physical path. */
  function RemoveTree(d: Disk, p: Path): Disk {
    d - Below(d, p)
  }

  /** A renamed node: `from` and what is below it moves to `to`. */
  function Moved(from: Path, to: Path, q: Path): Path {
    if to <= q then from + q[|to|..] else q
  }

  function Move(d: Disk, from: Path, to: Path): Disk {
    map q | q in Targets(d, from, to) && Moved(from, to, q) in d :: d[Moved(from, to, q)]
  }

  /** The paths that a move may leave occupied. */
  function Targets(d: Disk, from: Path, to: Path): set<Path> {
    (set q | q in d && !(from <= q) && !(to <= q)) + (set q | q in d && from <= q :: to + q[|from|..])
  }

  /** `rename(from, to)` of a directory. An empty directory may be replaced. */
  function Rename(h: Host, d: Disk, from: Path, to: Path): Option<Disk> {
    var f, t := Place(h, d, from), Place(h, d, to);
    if f.None? || t.None? || f.value !in d || d[f.value] != Dir || f.value == [] || t.value == [] then None
    else if f.value <= t.value || t.value <= f.value then None
    else if t.value in d && (d[t.value] != Dir || HasChild(d, t.value)) then None
    else Some(Move(d, f.value, t.value))
  }

  // ---------------------------------------------------------------- listing

  /** The names in a directory. */
  function EntryNames(d: Disk, p: Path): (s: set<string>)
    ensures forall n :: n in s <==> p + [n] in d
  {
    var s := set q | q in d && |q| == |p| + 1 && p <= q :: q[|p|];
    assert forall n :: p + [n] in d ==> (p + [n])[|p|] in s;
    assert forall q :: q in d && |q| == |p| + 1 && p <= q ==> q == p + [q[|p|]];
    s
  }

  function Strictly(d: Disk, p: Path): set<Path> {
    Below(d, p) - {p}
  }

  lemma ChildIsSmaller(d: Disk, p: Path, n: string)
    requires p + [n] in d
    ensures Strictly(d, p + [n]) < Strictly(d, p)
  {
    assert p + [n] in Strictly(d, p);
    assert forall q :: q in d && p + [n] <= q ==> p <= q;
  }

  function Prefixed(n: string, ps: seq<Path>): (r: seq<Path>)
    ensures |r| == |ps| && forall i :: 0 <= i < |ps| ==> r[i] == [n] + ps[i]
  {
    seq(|ps|, i requires 0 <= i < |ps| => [n] + ps[i])
  }

  /** `walkFiles` of the directory `p`, as paths relative to it. Links are
      refused; anything that is not a directory counts as a file. */
  function ListTree(h: Host, d: Disk, p: Path): Result<seq<Path>>
    decreases Strictly(d, p), 1, 0
  {
    ListNames(h, d, p, h.listing(p, EntryNames(d, p)))
  }

  function ListNames(h: Host, d: Disk, p: Path, names: seq<string>): Result<seq<Path>>
    decreases Strictly(d, p), 0, |names|
  {
    if names == [] then Ok([])
    else
      var first := ListEntry(h, d, p, names[0]);
      if first.Err? then first
      else
        var rest := ListNames(h, d, p, names[1..]);
        if rest.Err? then rest else Ok(first.value + rest.value)
  }

  function ListEntry(h: Host, d: Disk, p: Path, n: string): Result<seq<Path>>
    decreases Strictly(d, p), 0, 0
  {
    if p + [n] !in d then Ok([])
    else
      match d[p + [n]]
      case Link(_) => Err("artifact-symlink-forbidden")
      case File(_) => Ok([[n]])
      case Dir =>
        ChildIsSmaller(d, p, n);
        var r := ListTree(h, d, p + [n]);
        if r.Err? then r else Ok(Prefixed(n, r.value))
  }

  /** `walkFiles(p)`. */
  function WalkFiles(h: Host, d: Disk, p: Path): Result<seq<Path>> {
    var q := Find(h, d, p);
    if q.None? then Ok([])
    else if q.value in d && d[q.value] == Dir then ListTree(h, d, q.value)
    else Err("ENOTDIR")
  }
}
