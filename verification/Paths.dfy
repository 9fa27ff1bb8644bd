/** POSIX path strings as Node's `path` module treats them, and the string tests
    the package scripts run on them. */
module Paths {

  /** The names of an absolute path, from the root down. */
  type Path = seq<string>

  predicate IsName(s: string) {
    s != "" && s != "." && s != ".." && '/' !in s
  }

  predicate IsPath(p: Path) {
    forall i :: 0 <= i < |p| ==> IsName(p[i])
  }

  // ---------------------------------------------------------------- strings

  predicate IsSeparator(c: char, backslash: bool) {
    c == '/' || (backslash && c == '\\')
  }

  /** `s.split('/')`, or `s.split(/[\\/]/)` when `backslash` is set. */
  function SplitOn(s: string, backslash: bool): (parts: seq<string>)
    ensures |parts| >= 1
  {
    if s == "" then [""]
    else
      var rest := SplitOn(s[1..], backslash);
      if IsSeparator(s[0], backslash) then [""] + rest
      else [[s[0]] + rest[0]] + rest[1..]
  }

  function Split(s: string): seq<string> {
    SplitOn(s, false)
  }

  function Join(parts: seq<string>): string {
    if |parts| == 0 then ""
    else if |parts| == 1 then parts[0]
    else parts[0] + "/" + Join(parts[1..])
  }

  predicate StartsWith(s: string, prefix: string) {
    prefix <= s
  }

  predicate IsAbsolute(p: string) {
    |p| > 0 && p[0] == '/'
  }

  // ------------------------------------------------------------ path module

  /** One step of Node's `normalizeString`. */
  function SquashStep(done: seq<string>, part: string, absolute: bool): seq<string> {
    if part == "" || part == "." then done
    else if part == ".." then
      if done != [] && done[|done| - 1] != ".." then done[..|done| - 1]
      else if absolute then done
      else done + [".."]
    else done + [part]
  }

  function Squash(parts: seq<string>, absolute: bool): seq<string> {
    if parts == [] then []
    else SquashStep(Squash(parts[..|parts| - 1], absolute), parts[|parts| - 1], absolute)
  }

  /** The names an absolute path string denotes. */
  function Segs(p: string): Path {
    Squash(Split(p), true)
  }

  /** The normalised absolute string with the given names. */
  function Render(p: Path): string {
    "/" + Join(p)
  }

  /** `path.resolve(base, p)` for an absolute `base`. */
  function Resolve(base: string, p: string): string {
    if IsAbsolute(p) then Render(Segs(p)) else Render(Segs(base + "/" + p))
  }

  /** `path.normalize(p)`. */
  function Normalize(p: string): string {
    if p == "" then "."
    else
      var body := Join(Squash(Split(p), IsAbsolute(p)));
      var slash := p[|p| - 1] == '/';
      if body == "" then (if IsAbsolute(p) then "/" else if slash then "./" else ".")
      else (if IsAbsolute(p) then "/" else "") + body + (if slash then "/" else "")
  }

  /** `path.join(a, b)`: empty arguments are skipped. */
  function JoinPath(a: string, b: string): string {
    if a == "" then Normalize(b)
    else if b == "" then Normalize(a)
    else Normalize(a + "/" + b)
  }

  function CommonLength(a: Path, b: Path): (n: nat)
    ensures n <= |a| && n <= |b| && a[..n] == b[..n]
    ensures n < |a| && n < |b| ==> a[n] != b[n]
  {
    if a == [] || b == [] || a[0] != b[0] then 0
    else
      var n := CommonLength(a[1..], b[1..]);
      assert a[..n + 1] == [a[0]] + a[1..][..n];
      assert b[..n + 1] == [b[0]] + b[1..][..n];
      n + 1
  }

  function Ups(n: nat): seq<string> {
    seq(n, _ => "..")
  }

  /** `path.relative(from, to)` for absolute arguments. */
  function Relative(from: string, to: string): string
    requires IsAbsolute(from) && IsAbsolute(to)
  {
    if from == to then ""
    else
      var f, t := Segs(from), Segs(to);
      var n := CommonLength(f, t);
      Join(Ups(|f| - n) + t[n..])
  }

  /** Where the loop of `path.dirname` stops: the last separator that is not
      trailing, or -1. */
  function DirEnd(p: string, i: int, trailing: bool): (end: int)
    requires i < |p|
    ensures -1 <= end <= i || end == -1
    decreases i
  {
    if i < 1 then -1
    else if p[i] == '/' && !trailing then i
    else DirEnd(p, i - 1, trailing && p[i] == '/')
  }

  /** `path.dirname(p)`. */
  function Dirname(p: string): string {
    if p == "" then "."
    else
      var end := DirEnd(p, |p| - 1, true);
      if end == -1 then (if IsAbsolute(p) then "/" else ".")
      else if IsAbsolute(p) && end == 1 then "//"
      else p[..end]
  }

  /** The same two operations on names: `path.dirname` and `path.basename`. */
  function Parent(p: Path): Path {
    if p == [] then [] else p[..|p| - 1]
  }

  function Last(p: Path): string
    requires p != []
  {
    p[|p| - 1]
  }

  /** `path.join(root, rel)` on names, for a `rel` without `..` parts. */
  function Names(rel: string): Path {
    Plain(Split(rel))
  }

  function Plain(parts: seq<string>): seq<string> {
    if parts == [] then []
    else if parts[0] == "" || parts[0] == "." then Plain(parts[1..])
    else [parts[0]] + Plain(parts[1..])
  }

  predicate EndsWithSlash(s: string) {
    |s| > 0 && s[|s| - 1] == '/'
  }
}
