/** What `..` and `.` do: an absolute path string is read one part at a time, and
    `resolve`, `relative`, `normalize` and `join` agree with that reading. */
module PathSteps {
  import opened Paths
  import opened PathLemmas

  /** The first names of a path, without the last `n`; none if there are fewer. */
  function Climb(p: Path, n: nat): Path {
    if n <= |p| then p[..|p| - n] else []
  }

  // -------------------------------------------------------- one part at a time

  lemma SquashOneMore(parts: seq<string>, part: string, absolute: bool)
    ensures Squash(parts + [part], absolute) == SquashStep(Squash(parts, absolute), part, absolute)
  {
    hide SquashStep;
    assert (parts + [part])[..|parts|] == parts;
  }

  lemma SplitPart(p: string, part: string)
    requires '/' !in part
    ensures Split(p + "/" + part) == Split(p) + [part]
  {
    SplitAppend(p, part);
    SplitOnName(part, false);
  }

  /** These four rules read every absolute string: a name goes one down, `..` one up
      and never past the root, `.` and an empty part nowhere. */
  lemma SegsRules(p: string, name: string)
    ensures Segs("") == []
    ensures IsName(name) ==> Segs(p + "/" + name) == Segs(p) + [name]
    ensures Segs(p + "/..") == Climb(Segs(p), 1)
    ensures Segs(p + "/.") == Segs(p) && Segs(p + "/") == Segs(p)
  {
    assert Split("") == [""] && Squash([""], true) == [];
    SegsIsPath(p);
    assert p + "/.." == p + "/" + ".." && p + "/." == p + "/" + "." && p + "/" == p + "/" + "";
    SplitPart(p, "..");
    SplitPart(p, ".");
    SplitPart(p, "");
    SquashOneMore(Split(p), "..", true);
    SquashOneMore(Split(p), ".", true);
    SquashOneMore(Split(p), "", true);
    if IsName(name) {
      SplitPart(p, name);
      SquashOneMore(Split(p), name, true);
    }
    var s := Segs(p);
    assert s != [] ==> IsName(s[|s| - 1]);
    hide Squash, Split;
  }

  // ------------------------------------------------------------- resolve

  lemma ClimbMore(s: Path, n: nat)
    requires IsPath(s)
    ensures IsPath(Climb(s, n)) && SquashStep(Climb(s, n), "..", true) == Climb(s, n + 1)
  {
    var t := Climb(s, n);
    assert t != [] ==> t[|t| - 1] == s[|t| - 1] && IsName(s[|t| - 1]);
  }

  lemma {:induction false} SquashUps(a: seq<string>, n: nat)
    requires IsPath(Squash(a, true))
    ensures Squash(a + Ups(n), true) == Climb(Squash(a, true), n)
  {
    hide Squash, SquashStep, IsPath;
    if n == 0 {
      assert a + Ups(0) == a;
    } else {
      SquashUps(a, n - 1);
      assert a + Ups(n) == (a + Ups(n - 1)) + [".."];
      SquashOneMore(a + Ups(n - 1), "..", true);
      ClimbMore(Squash(a, true), n - 1);
    }
  }

  lemma SplitOfJoin(parts: seq<string>)
    requires forall i :: 0 <= i < |parts| ==> '/' !in parts[i]
    ensures Split(Join(parts)) == if parts == [] then [""] else parts
  {
    if parts != [] {
      SplitJoin(parts);
    }
  }

  lemma UpsHaveNoSlash(n: nat, rest: Path)
    requires IsPath(rest)
    ensures forall i :: 0 <= i < |Ups(n) + rest| ==> '/' !in (Ups(n) + rest)[i]
  {
    forall i | 0 <= i < |rest| ensures '/' !in rest[i] {
      assert IsName(rest[i]);
    }
  }

  /** A joined list whose first part is not empty is no absolute path. */
  lemma JoinIsRelative(parts: seq<string>)
    requires parts != [] ==> parts[0] != "" && '/' !in parts[0]
    ensures !IsAbsolute(Join(parts))
  {
    if parts != [] {
      assert parts[0][0] != '/';
    }
  }

  lemma SquashClimbs(a: seq<string>, n: nat, rest: Path)
    requires IsPath(Squash(a, true)) && IsPath(rest)
    ensures Squash(a + (Ups(n) + rest), true) == Climb(Squash(a, true), n) + rest
  {
    hide *;
    SquashUps(a, n);
    PlainNames(rest);
    SquashPlain(a + Ups(n), rest, true);
    assert (a + Ups(n)) + rest == a + (Ups(n) + rest);
  }

  lemma SquashNothing(a: seq<string>)
    ensures Squash(a + [""], true) == Squash(a, true)
  {
    SquashOneMore(a, "", true);
    hide Squash;
  }

  /** `path.resolve` climbs one name for each leading `..`, stops at the root, and goes
      down the names that follow. */
  lemma ResolveClimbs(base: string, n: nat, rest: Path)
    requires IsAbsolute(base) && IsPath(rest)
    ensures Segs(Resolve(base, Join(seq(n, _ => "..") + rest))) == Climb(Segs(base), n) + rest
  {
    assert seq(n, _ => "..") == Ups(n);
    var parts := Ups(n) + rest;
    UpsHaveNoSlash(n, rest);
    assert parts != [] ==> parts[0] == ".." || IsName(parts[0]);
    JoinIsRelative(parts);
    SegsIsPath(base);
    SplitAppend(base, Join(parts));
    SplitOfJoin(parts);
    SquashClimbs(Split(base), n, rest);
    SquashNothing(Split(base));
    hide Squash, Split, Join, IsPath;
    assert parts == [] ==> Split(base) + (Ups(n) + rest) == Split(base);
    assert Segs(base + "/" + Join(parts)) == Climb(Segs(base), n) + rest;
    hide Segs;
    SegsIsPath(base + "/" + Join(parts));
    RenderSegs(Segs(base + "/" + Join(parts)));
  }

  /** `path.relative` is undone by `path.resolve`, for all absolute paths. */
  lemma RelativeLeadsBack(from: string, to: string)
    requires IsAbsolute(from) && IsAbsolute(to)
    ensures Segs(Resolve(from, Relative(from, to))) == Segs(to)
  {
    SegsIsPath(to);
    var f, t := Segs(from), Segs(to);
    if from == to {
      ResolveClimbs(from, 0, []);
      assert seq(0, _ => "..") + [] == [];
      hide Segs, Resolve;
    } else {
      var n := CommonLength(f, t);
      ResolveClimbs(from, |f| - n, t[n..]);
      assert seq(|f| - n, _ => "..") == Ups(|f| - n);
      assert Climb(f, |f| - n) + t[n..] == t;
      hide Segs, Resolve, Join;
    }
  }

  // ----------------------------------------------------- normalize and join

  /** A normalised relative list: some `..`, then names. */
  lemma {:induction false} RelativeForm(parts: seq<string>) returns (n: nat, q: Path)
    requires forall i :: 0 <= i < |parts| ==> '/' !in parts[i]
    ensures IsPath(q) && Squash(parts, false) == Ups(n) + q
  {
    if parts == [] {
      n, q := 0, [];
    } else {
      var front, part := parts[..|parts| - 1], parts[|parts| - 1];
      n, q := RelativeForm(front);
      var s := Ups(n) + q;
      if part == "" || part == "." {
      } else if part == ".." {
        if q != [] {
          assert s[|s| - 1] == q[|q| - 1] && IsName(q[|q| - 1]);
          assert s[..|s| - 1] == Ups(n) + q[..|q| - 1];
          q := q[..|q| - 1];
        } else {
          assert s == Ups(n);
          assert Ups(n) + [".."] == Ups(n + 1) + [];
          n := n + 1;
        }
      } else {
        assert s + [part] == Ups(n) + (q + [part]);
        q := q + [part];
      }
    }
  }

  /** Reading the normalised list after a base is reading the list itself. */
  lemma {:induction false} SquashTwice(base: seq<string>, parts: seq<string>)
    requires forall i :: 0 <= i < |base| ==> '/' !in base[i]
    requires forall i :: 0 <= i < |parts| ==> '/' !in parts[i]
    ensures Squash(base + Squash(parts, false), true) == Squash(base + parts, true)
  {
    if parts != [] {
      var front, part := parts[..|parts| - 1], parts[|parts| - 1];
      assert parts == front + [part];
      hide Squash, SquashStep;
      SquashTwice(base, front);
      assert base + parts == (base + front) + [part];
      SquashOneMore(base + front, part, true);
      var n, q := RelativeForm(front);
      PlainStep(base, n, q, part);
      SquashOneMore(front, part, false);
    }
  }

  lemma PlainStep(base: seq<string>, n: nat, q: Path, part: string)
    requires IsPath(q)
    ensures Squash(base + SquashStep(Ups(n) + q, part, false), true) ==
              SquashStep(Squash(base + (Ups(n) + q), true), part, true)
  {
    hide Squash;
    var s := Ups(n) + q;
    if part == ".." && q != [] {
      DropLast(base, n, q);
    } else if part != "" && part != "." {
      assert part == ".." ==> s == Ups(n);
      assert SquashStep(s, part, false) == s + [part];
      hide SquashStep, IsPath;
      assert base + (s + [part]) == (base + s) + [part];
      SquashOneMore(base + s, part, true);
    }
  }

  lemma DropLast(base: seq<string>, n: nat, q: Path)
    requires IsPath(q) && q != []
    ensures Squash(base + SquashStep(Ups(n) + q, "..", false), true) ==
              SquashStep(Squash(base + (Ups(n) + q), true), "..", true)
  {
    var s, last := Ups(n) + q, q[|q| - 1];
    var front := s[..|s| - 1];
    hide Squash;
    assert IsName(last) && s[|s| - 1] == last;
    assert SquashStep(s, "..", false) == front;
    SquashOneMore(base + front, last, true);
    var t := Squash(base + front, true);
    assert SquashStep(t, last, true) == t + [last];
    assert SquashStep(t + [last], "..", true) == t by {
      assert (t + [last])[..|t|] == t;
    }
    hide SquashStep, IsPath;
    assert base + s == (base + front) + [last];
  }

  lemma JoinedIsEmpty(parts: seq<string>)
    requires forall i :: 0 <= i < |parts| ==> parts[i] != ""
    ensures Join(parts) == "" <==> parts == []
  {
  }

  lemma SplitSlashed(s: string)
    ensures Split(s + "/") == Split(s) + [""]
  {
    SplitPart(s, "");
    assert s + "/" + "" == s + "/";
  }

  lemma UpsAndNames(n: nat, q: Path)
    requires IsPath(q)
    ensures var s := Ups(n) + q;
            forall i :: 0 <= i < |s| ==> '/' !in s[i] && s[i] != ""
  {
    var s := Ups(n) + q;
    forall i | 0 <= i < |s| ensures '/' !in s[i] && s[i] != "" {
      if i >= n {
        assert s[i] == q[i - n] && IsName(q[i - n]);
      }
    }
  }

  lemma NormalIs(p: string, s: seq<string>)
    requires !IsAbsolute(p) && s == Squash(Split(p), false) && (Join(s) == "" <==> s == [])
    ensures Normalize(p) == (if s == [] then "." else Join(s)) + (if EndsWithSlash(p) then "/" else "")
  {
    assert Split("") == [""] && Squash([""], false) == [];
    hide Squash, Split, Join;
    assert "." + "/" == "./";
    assert Join(s) + "" == Join(s);
  }

  lemma SplitFront(s: seq<string>)
    requires forall i :: 0 <= i < |s| ==> '/' !in s[i]
    ensures Split(if s == [] then "." else Join(s)) == if s == [] then ["."] else s
  {
    SplitOnName(".", false);
    SplitOfJoin(s);
    hide Join;
  }

  /** The parts of a normalised relative string: its squashed parts, `.` if there are
      none, and the trailing separator of the original. */
  lemma NormalParts(p: string)
    requires !IsAbsolute(p)
    ensures var s := Squash(Split(p), false);
            && !IsAbsolute(Normalize(p))
            && Split(Normalize(p)) == (if s == [] then ["."] else s) + (if EndsWithSlash(p) then [""] else [])
  {
    hide *;
    SplitHasNoSlash(p);
    var n, q := RelativeForm(Split(p));
    var s := Ups(n) + q;
    UpsAndNames(n, q);
    JoinedIsEmpty(s);
    JoinIsRelative(s);
    NormalIs(p, s);
    SplitFront(s);
    var front := if s == [] then "." else Join(s);
    FrontIsRelative(front, if EndsWithSlash(p) then "/" else "");
    SplitSlashed(front);
    assert front + "" == front && Split(front) + [] == Split(front);
  }

  lemma FrontIsRelative(front: string, slash: string)
    requires front != ""
    ensures IsAbsolute(front + slash) <==> IsAbsolute(front)
    ensures !IsAbsolute(".")
  {
  }

  lemma SameAfter(base: seq<string>, s: seq<string>, slash: bool)
    ensures Squash(base + ((if s == [] then ["."] else s) + (if slash then [""] else [])), true)
         == Squash(base + s, true)
  {
    var t := if s == [] then ["."] else s;
    SquashOneMore(base, ".", true);
    SquashNothing(base + t);
    assert base + (t + [""]) == (base + t) + [""];
    assert t + [] == t && base + [] == base;
    hide Squash;
  }

  /** `path.normalize` keeps what a relative path denotes, from every directory. What
      it returns has only leading `..` parts, so it has one exactly when the path
      climbs out of some directory. */
  lemma NormalizeKeepsPlace(base: string, p: string)
    requires IsAbsolute(base) && !IsAbsolute(p)
    ensures !IsAbsolute(Normalize(p))
    ensures Segs(Resolve(base, Normalize(p))) == Segs(Resolve(base, p))
  {
    hide *;
    NormalParts(p);
    ResolvedParts(base, p);
    ResolvedParts(base, Normalize(p));
    SplitHasNoSlash(base);
    SplitHasNoSlash(p);
    SquashTwice(Split(base), Split(p));
    SameAfter(Split(base), Squash(Split(p), false), EndsWithSlash(p));
  }

  lemma ResolvedParts(base: string, p: string)
    requires !IsAbsolute(p)
    ensures Segs(Resolve(base, p)) == Squash(Split(base) + Split(p), true)
  {
    SegsIsPath(base + "/" + p);
    RenderSegs(Segs(base + "/" + p));
    SplitAppend(base, p);
    hide Squash, SplitOn;
  }

  /** What `path.join` makes of a relative directory target and the path of a file:
      some `..`, then names. From every directory it denotes that file below the
      target, so the `..` are those by which the target climbs out. */
  lemma JoinPathClimbs(target: string, r: Path) returns (n: nat, q: Path)
    requires !IsAbsolute(target) && IsPath(r) && r != []
    ensures IsPath(q) && JoinPath(target, Join(r)) == Join(seq(n, _ => "..") + q)
    ensures forall base :: IsAbsolute(base) ==>
              && Segs(Resolve(base, JoinPath(target, Join(r)))) == Segs(Resolve(base, target)) + r
              && Climb(Segs(base), n) + q == Segs(Resolve(base, target)) + r
  {
    n, q := JoinPathForm(target, r);
    hide *;
    forall base | IsAbsolute(base)
      ensures Segs(Resolve(base, JoinPath(target, Join(r)))) == Segs(Resolve(base, target)) + r
      ensures Climb(Segs(base), n) + q == Segs(Resolve(base, target)) + r
    {
      JoinedNormal(target, r);
      JoinedIsRelative(target, r);
      NormalizeKeepsPlace(base, JoinedText(target, r));
      JoinedTarget(base, target, r);
      ResolveClimbs(base, n, q);
    }
  }

  function JoinedText(target: string, r: Path): string {
    if target == "" then Join(r) else target + "/" + Join(r)
  }

  lemma JoinedNormal(target: string, r: Path)
    requires !IsAbsolute(target) && IsPath(r) && r != []
    ensures JoinPath(target, Join(r)) == Normalize(JoinedText(target, r)) && !EndsWithSlash(JoinedText(target, r))
  {
    NoTrailingSlash(r);
    var p := JoinedText(target, r);
    assert p[|p| - 1] == Join(r)[|Join(r)| - 1];
    hide Normalize;
  }

  lemma JoinPathForm(target: string, r: Path) returns (n: nat, q: Path)
    requires !IsAbsolute(target) && IsPath(r) && r != []
    ensures IsPath(q) && JoinPath(target, Join(r)) == Join(seq(n, _ => "..") + q)
  {
    var p := JoinedText(target, r);
    JoinedNormal(target, r);
    JoinedIsRelative(target, r);
    SplitHasNoSlash(p);
    n, q := RelativeForm(Split(p));
    NormalParts(p);
    LastStays(target, r);
    assert seq(n, _ => "..") == Ups(n);
    JoinSplit(Normalize(p));
    hide *;
    assert (Ups(n) + q) + [] == Ups(n) + q;
  }

  lemma JoinedTarget(base: string, target: string, r: Path)
    requires IsAbsolute(base) && !IsAbsolute(target) && IsPath(r) && r != []
    ensures Segs(Resolve(base, JoinedText(target, r))) == Segs(Resolve(base, target)) + r
  {
    hide *;
    var p := JoinedText(target, r);
    JoinedSplit(target, r);
    JoinedIsRelative(target, r);
    ResolvedParts(base, target);
    ResolvedParts(base, p);
    PlainNames(r);
    if target == "" {
      SplitNothing();
      SquashNothing(Split(base));
      SquashPlain(Split(base), r, true);
    } else {
      SquashPlain(Split(base) + Split(target), r, true);
      assert (Split(base) + Split(target)) + r == Split(base) + (Split(target) + r);
    }
  }

  lemma SplitNothing()
    ensures Split("") == [""]
  {
  }

  lemma JoinedSplit(target: string, r: Path)
    requires IsPath(r) && r != []
    ensures Split(JoinedText(target, r)) == if target == "" then r else Split(target) + r
  {
    SplitJoin(r);
    SplitAppend(target, Join(r));
  }

  lemma JoinedIsRelative(target: string, r: Path)
    requires !IsAbsolute(target) && IsPath(r) && r != []
    ensures !IsAbsolute(JoinedText(target, r))
  {
    JoinNonEmpty(r);
  }

  lemma LastStays(target: string, r: Path)
    requires IsPath(r) && r != []
    ensures Squash(Split(JoinedText(target, r)), false) != []
  {
    JoinedSplit(target, r);
    PlainNames(r);
    SquashPlain(Split(target), r, false);
    SquashPlain([], r, false);
    assert [] + r == r;
    hide SplitOn, Join;
  }

  // ------------------------------------------------------------- `..` parts

  predicate Separates(c: char, backslash: bool) {
    c == '/' || (backslash && c == '\\')
  }

  /** Two dots stand between separators, or the ends, at position `i`. */
  predicate DotsAt(s: string, i: nat, backslash: bool) {
    && i + 2 <= |s| && s[i] == '.' && s[i + 1] == '.'
    && (i == 0 || Separates(s[i - 1], backslash))
    && (i + 2 == |s| || Separates(s[i + 2], backslash))
  }

  lemma {:induction false} HeadPart(s: string, backslash: bool)
    ensures var head := SplitOn(s, backslash)[0];
            && head <= s && (|head| < |s| ==> Separates(s[|head|], backslash))
            && forall i :: 0 <= i < |head| ==> !Separates(head[i], backslash)
  {
    if s != "" && !Separates(s[0], backslash) {
      HeadPart(s[1..], backslash);
    }
  }

  lemma DotsShift(s: string, i: nat, backslash: bool)
    requires s != ""
    ensures DotsAt(s, i + 1, backslash) <==> DotsAt(s[1..], i, backslash) && (i == 0 ==> Separates(s[0], backslash))
  {
    var t := s[1..];
    if i + 2 <= |t| {
      assert t[i] == s[i + 1] && t[i + 1] == s[i + 2];
    }
  }

  ghost predicate HasDots(s: string, from: nat, backslash: bool) {
    exists i :: from <= i && DotsAt(s, i, backslash)
  }

  lemma DotsLater(s: string, backslash: bool)
    requires s != ""
    ensures HasDots(s, 1, backslash) <==>
              HasDots(s[1..], 1, backslash) || (Separates(s[0], backslash) && DotsAt(s[1..], 0, backslash))
  {
    hide DotsAt;
    if i :| 1 <= i && DotsAt(s, i, backslash) {
      DotsShift(s, i - 1, backslash);
    }
    if i :| 1 <= i && DotsAt(s[1..], i, backslash) {
      DotsShift(s, i, backslash);
    }
    DotsShift(s, 0, backslash);
    if DotsAt(s, 1, backslash) {
      assert HasDots(s, 1, backslash);
    }
  }

  /** Splitting at the separators finds a `..` part exactly when the string has one
      between separators. */
  lemma {:induction false} DotDotParts(s: string, backslash: bool)
    ensures SplitOn(s, backslash)[0] == ".." <==> DotsAt(s, 0, backslash)
    ensures ".." in SplitOn(s, backslash)[1..] <==> HasDots(s, 1, backslash)
  {
    HeadPart(s, backslash);
    if s != "" {
      var rest := SplitOn(s[1..], backslash);
      DotDotParts(s[1..], backslash);
      DotsLater(s, backslash);
      assert rest == [rest[0]] + rest[1..];
      hide HasDots;
    }
  }

  lemma UpPart(s: string, backslash: bool)
    ensures ".." in SplitOn(s, backslash) <==> exists i :: DotsAt(s, i, backslash)
  {
    var parts := SplitOn(s, backslash);
    DotDotParts(s, backslash);
    assert parts == [parts[0]] + parts[1..];
    hide SplitOn, DotsAt;
    if i :| DotsAt(s, i, backslash) {
      assert i >= 1 ==> HasDots(s, 1, backslash);
    }
  }
}
