/** The containment tests the scripts run on path strings, and what they mean on
    names. */
module Containment {
  import opened Outcome
  import opened Paths
  import opened PathLemmas

  // ----------------------------------------------------------- the scripts

  /** `relative` stays inside the directory it was computed from. */
  predicate StaysInside(relative: string) {
    relative == ""
    || (!StartsWith(relative, "../") && relative != ".." && !IsAbsolute(relative))
  }

  predicate Overlaps(left: string, right: string)
    requires IsAbsolute(left) && IsAbsolute(right)
  {
    StaysInside(Relative(left, right)) || StaysInside(Relative(right, left))
  }

  function PackageRelativePath(cwd: string, sourceRoot: string, file: string): Result<string>
    requires IsAbsolute(cwd)
  {
    var resolvedRoot := Resolve(cwd, sourceRoot);
    var relative := Relative(resolvedRoot, Resolve(cwd, file));
    if relative == "" || relative == ".." || StartsWith(relative, "../") || IsAbsolute(relative) then
      Err("manifest-artifact-path-invalid")
    else Ok(Join(Split(relative)))
  }

  /** The guard both `safeTarget` functions start with. */
  predicate TargetAllowed(relative: string) {
    && !IsAbsolute(relative)
    && ".." !in SplitOn(relative, true)
    && (StartsWith(relative, ".agents/") || StartsWith(relative, ".codex/"))
  }

  /** `safeTarget` of the workspace installer. */
  function SafeTarget(workspaceRoot: string, relative: string): Result<string>
    requires IsAbsolute(workspaceRoot)
  {
    if !TargetAllowed(relative) then Err("workspace-install-target-invalid")
    else
      var target := Resolve(workspaceRoot, relative);
      var boundary := Relative(workspaceRoot, target);
      if StartsWith(boundary, "..") || IsAbsolute(boundary) then Err("workspace-install-target-invalid")
      else Ok(target)
  }

  /** `safeTarget` of the workspace verifier: no boundary guard. */
  function SafeTargetUnguarded(workspaceRoot: string, relative: string): Result<string>
    requires IsAbsolute(workspaceRoot)
  {
    if !TargetAllowed(relative) then Err("workspace-install-target-invalid")
    else Ok(Resolve(workspaceRoot, relative))
  }

  // ------------------------------------------------------------ the meaning

  /** `path.relative` stays inside exactly when one name list starts the other. */
  lemma StaysInsideMeansPrefix(from: string, to: string)
    requires IsAbsolute(from) && IsAbsolute(to)
    ensures StaysInside(Relative(from, to)) <==> Segs(from) <= Segs(to)
    ensures Relative(from, to) == "" <==> Segs(from) == Segs(to)
    ensures Segs(from) <= Segs(to) ==> Relative(from, to) == Join(Segs(to)[|Segs(from)|..])
  {
    var f, t := Segs(from), Segs(to);
    SegsIsPath(from);
    SegsIsPath(to);
    if from != to {
      var n := CommonLength(f, t);
      if n == |f| {
        RelativeBelow(t[n..]);
        assert Ups(0) + t[n..] == t[n..];
      } else {
        RelativeAbove(|f| - n, t[n..]);
      }
    }
  }

  /** The first name of a joined list can be read off the string. */
  lemma JoinHead(parts: seq<string>, head: string)
    requires |parts| >= 1 && '/' !in head
    requires forall i :: 0 <= i < |parts| ==> '/' !in parts[i]
    ensures Join(parts) == head ==> parts == [head]
    ensures StartsWith(Join(parts), head + "/") ==> parts[0] == head
  {
    SplitJoin(parts);
    SplitOnName(head, false);
    var s := Join(parts);
    if StartsWith(s, head + "/") {
      assert s == head + "/" + s[|head| + 1..];
      SplitAppend(head, s[|head| + 1..]);
    }
  }

  lemma RelativeBelow(rest: Path)
    requires IsPath(rest)
    ensures StaysInside(Join(rest))
    ensures Join(rest) == "" <==> rest == []
    ensures StartsWith(Join(rest), "..") ==> rest != [] && StartsWith(rest[0], "..")
  {
    if rest != [] {
      assert IsName(rest[0]);
      JoinNonEmpty(rest);
      JoinHead(rest, "..");
      JoinHead(rest, ".");
      var s, name := Join(rest), rest[0];
      assert name == s[..|name|];
      assert |name| == 1 ==> name == [name[0]];
    }
  }

  lemma RelativeAbove(ups: nat, rest: Path)
    requires ups > 0
    ensures !StaysInside(Join(Ups(ups) + rest))
  {
    var parts := Ups(ups) + rest;
    assert parts[0] == "..";
  }

  /** `overlaps` holds exactly when one path lies in the other. */
  lemma OverlapsMeansPrefix(left: string, right: string)
    requires IsAbsolute(left) && IsAbsolute(right)
    ensures Overlaps(left, right) <==> Segs(left) <= Segs(right) || Segs(right) <= Segs(left)
    ensures Overlaps(left, right) == Overlaps(right, left)
  {
    StaysInsideMeansPrefix(left, right);
    StaysInsideMeansPrefix(right, left);
  }

  lemma ResolveSegs(base: string, p: string)
    requires IsAbsolute(base)
    ensures IsAbsolute(Resolve(base, p))
    ensures Segs(Resolve(base, p)) == Segs(if IsAbsolute(p) then p else base + "/" + p)
  {
    var q := if IsAbsolute(p) then p else base + "/" + p;
    SegsIsPath(q);
    RenderSegs(Segs(q));
  }

  /** A package path is accepted exactly when the file is strictly below the
      root, and then names it from there. */
  lemma PackageRelativePathMeans(cwd: string, sourceRoot: string, file: string)
    requires IsAbsolute(cwd)
    ensures var r, f := Segs(Resolve(cwd, sourceRoot)), Segs(Resolve(cwd, file));
            && (PackageRelativePath(cwd, sourceRoot, file).Ok? <==> r < f)
            && (r < f ==> PackageRelativePath(cwd, sourceRoot, file) == Ok(Join(f[|r|..])))
  {
    var from, to := Resolve(cwd, sourceRoot), Resolve(cwd, file);
    ResolveSegs(cwd, sourceRoot);
    ResolveSegs(cwd, file);
    StaysInsideMeansPrefix(from, to);
    JoinSplit(Relative(from, to));
  }

  lemma {:induction false} SplitFiner(s: string)
    ensures var a, b := SplitOn(s, false), SplitOn(s, true);
            && ('\\' !in a[0] ==> b[0] == a[0])
            && (forall x :: x in a[1..] && '\\' !in x ==> x in b[1..])
  {
    if s != "" {
      SplitFiner(s[1..]);
      var a, b := SplitOn(s[1..], false), SplitOn(s[1..], true);
      if s[0] == '/' {
        forall x | x in a && '\\' !in x ensures x in b {
          if x != a[0] {
            assert x in a[1..];
          }
        }
      } else if s[0] == '\\' {
        assert SplitOn(s, true)[1..] == b;
        assert '\\' in SplitOn(s, false)[0];
      }
    }
  }

  lemma AllowedHasNoDotDot(relative: string)
    requires TargetAllowed(relative)
    ensures ".." !in Split(relative)
  {
    SplitFiner(relative);
    var a := Split(relative);
    assert a == [a[0]] + a[1..];
  }

  /** An allowed target starts with one of the two owned directories. */
  lemma AllowedStartsOwned(relative: string)
    requires TargetAllowed(relative)
    ensures IsPath(Names(relative)) && Names(relative) != []
    ensures Names(relative)[0] == ".agents" || Names(relative)[0] == ".codex"
  {
    AllowedHasNoDotDot(relative);
    NamesIsPath(relative);
    var head := if StartsWith(relative, ".agents/") then ".agents" else ".codex";
    assert relative == head + "/" + relative[|head| + 1..];
    SplitAppend(head, relative[|head| + 1..]);
    SplitOnName(head, false);
  }

  lemma AllowedResolves(workspaceRoot: string, relative: string)
    requires IsAbsolute(workspaceRoot) && TargetAllowed(relative)
    ensures Resolve(workspaceRoot, relative) == Render(Segs(workspaceRoot) + Names(relative))
    ensures IsPath(Segs(workspaceRoot)) && IsPath(Segs(workspaceRoot) + Names(relative))
  {
    AllowedHasNoDotDot(relative);
    ResolveAppends(workspaceRoot, relative);
  }

  lemma BoundaryHolds(workspaceRoot: string, ws: Path, names: Path)
    requires IsAbsolute(workspaceRoot) && Segs(workspaceRoot) == ws
    requires IsPath(ws + names) && names != [] && !StartsWith(names[0], "..")
    ensures IsAbsolute(Render(ws + names))
    ensures var boundary := Relative(workspaceRoot, Render(ws + names));
            !StartsWith(boundary, "..") && !IsAbsolute(boundary)
  {
    hide Segs, Relative, Join;
    RenderSegs(ws + names);
    StaysInsideMeansPrefix(workspaceRoot, Render(ws + names));
    assert (ws + names)[|ws|..] == names;
    forall i | 0 <= i < |names| ensures IsName(names[i]) {
      assert names[i] == (ws + names)[|ws| + i];
    }
    RelativeBelow(names);
    JoinNonEmpty(names);
  }

  lemma OwnedNotDotDot(name: string)
    requires name == ".agents" || name == ".codex"
    ensures !StartsWith(name, "..")
  {
    assert ".agents"[1] == 'a' && ".codex"[1] == 'c' && ".."[1] == '.';
  }

  /** The boundary guard never fires: the two `safeTarget` functions agree on
      every string, and what they return lies strictly inside the workspace. */
  lemma SafeTargetsAgree(workspaceRoot: string, relative: string)
    requires IsAbsolute(workspaceRoot)
    ensures SafeTarget(workspaceRoot, relative) == SafeTargetUnguarded(workspaceRoot, relative)
    ensures TargetAllowed(relative) ==>
              && SafeTarget(workspaceRoot, relative) == Ok(Render(Segs(workspaceRoot) + Names(relative)))
              && Segs(workspaceRoot) < Segs(workspaceRoot) + Names(relative)
  {
    if TargetAllowed(relative) {
      hide TargetAllowed, Resolve, Segs, Names, Relative, Render, Join;
      var ws, names := Segs(workspaceRoot), Names(relative);
      AllowedStartsOwned(relative);
      AllowedResolves(workspaceRoot, relative);
      OwnedNotDotDot(names[0]);
      BoundaryHolds(workspaceRoot, ws, names);
    }
  }
}
