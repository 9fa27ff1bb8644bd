/** Splitting, joining and normalising agree: absolute path strings and lists of
    names describe the same thing. */
module PathLemmas {
  import opened Paths

  lemma {:induction false} SplitOnName(s: string, backslash: bool)
    requires forall i :: 0 <= i < |s| ==> !IsSeparator(s[i], backslash)
    ensures SplitOn(s, backslash) == [s]
  {
    if s != "" {
      SplitOnName(s[1..], backslash);
      assert !IsSeparator(s[0], backslash);
      assert [s[0]] + s[1..] == s;
    }
  }

  lemma {:induction false} SplitAppend(a: string, b: string)
    ensures Split(a + "/" + b) == Split(a) + Split(b)
  {
    var s := a + "/" + b;
    if a == "" {
      assert s[1..] == b;
    } else {
      assert s[1..] == a[1..] + "/" + b;
      SplitAppend(a[1..], b);
    }
  }

  lemma {:induction false} SplitJoin(parts: seq<string>)
    requires |parts| >= 1
    requires forall i :: 0 <= i < |parts| ==> '/' !in parts[i]
    ensures Split(Join(parts)) == parts
  {
    SplitOnName(parts[0], false);
    if |parts| > 1 {
      SplitAppend(parts[0], Join(parts[1..]));
      SplitJoin(parts[1..]);
    }
  }

  lemma {:induction false} JoinSplit(s: string)
    ensures Join(Split(s)) == s
  {
    if s != "" {
      var rest := Split(s[1..]);
      JoinSplit(s[1..]);
      if s[0] == '/' {
        assert ([""] + rest)[1..] == rest;
      } else if |rest| > 1 {
        assert ([[s[0]] + rest[0]] + rest[1..])[1..] == rest[1..];
      }
    }
  }

  lemma {:induction false} SplitHasNoSlash(s: string)
    ensures forall i :: 0 <= i < |Split(s)| ==> '/' !in Split(s)[i]
  {
    if s != "" {
      var rest := Split(s[1..]);
      SplitHasNoSlash(s[1..]);
      assert '/' !in rest[0];
      if s[0] != '/' {
        assert Split(s) == [[s[0]] + rest[0]] + rest[1..];
        assert '/' !in [s[0]] + rest[0];
      }
    }
  }

  lemma {:induction false} SquashPlain(a: seq<string>, b: seq<string>, absolute: bool)
    requires ".." !in b
    ensures Squash(a + b, absolute) == Squash(a, absolute) + Plain(b)
    decreases |b|
  {
    if b == [] {
      assert a + b == a;
    } else {
      assert a + b == (a + [b[0]]) + b[1..];
      assert (a + [b[0]])[..|a|] == a;
      SquashPlain(a + [b[0]], b[1..], absolute);
    }
  }

  lemma {:induction false} PlainNames(p: Path)
    requires IsPath(p)
    ensures Plain(p) == p && ".." !in p
  {
    if p != [] {
      assert IsName(p[0]);
      PlainNames(p[1..]);
    }
  }

  lemma {:induction false} PlainIsPath(parts: seq<string>)
    requires forall i :: 0 <= i < |parts| ==> '/' !in parts[i]
    requires ".." !in parts
    ensures IsPath(Plain(parts))
  {
    if parts != [] {
      PlainIsPath(parts[1..]);
    }
  }

  lemma {:induction false} SquashIsPath(parts: seq<string>)
    requires forall i :: 0 <= i < |parts| ==> '/' !in parts[i]
    ensures IsPath(Squash(parts, true))
  {
    if parts != [] {
      SquashIsPath(parts[..|parts| - 1]);
    }
  }

  lemma SegsIsPath(s: string)
    ensures IsPath(Segs(s))
  {
    SplitHasNoSlash(s);
    SquashIsPath(Split(s));
  }

  /** Rendering loses nothing: the names come back. */
  lemma RenderSegs(p: Path)
    requires IsPath(p)
    ensures IsAbsolute(Render(p)) && Segs(Render(p)) == p
  {
    assert "" + "/" + Join(p) == Render(p);
    SplitAppend("", Join(p));
    if p == [] {
      assert Squash([""], true) == [];
      assert Split("/") == [""] + [""];
      SquashPlain([""], [""], true);
    } else {
      SplitJoin(p);
      PlainNames(p);
      SquashPlain([""], p, true);
    }
  }

  lemma RenderInjective(p: Path, q: Path)
    requires IsPath(p) && IsPath(q) && Render(p) == Render(q)
    ensures p == q
  {
    RenderSegs(p);
    RenderSegs(q);
  }

  lemma JoinInjective(p: Path, q: Path)
    requires IsPath(p) && IsPath(q) && Join(p) == Join(q)
    ensures p == q
  {
    RenderInjective(p, q);
  }

  /** A relative name list and its string. */
  lemma NamesOfJoin(p: Path)
    requires IsPath(p)
    ensures Names(Join(p)) == p
    ensures p != [] ==> Split(Join(p)) == p
  {
    if p == [] {
      assert Split("") == [""];
      assert Plain([""]) == [];
    } else {
      SplitJoin(p);
      PlainNames(p);
    }
  }

  lemma NamesIsPath(rel: string)
    requires ".." !in Split(rel)
    ensures IsPath(Names(rel))
  {
    SplitHasNoSlash(rel);
    PlainIsPath(Split(rel));
  }

  /** `path.resolve(base, rel)` appends the names of `rel` when it has no `..`. */
  lemma ResolveAppends(base: string, rel: string)
    requires IsAbsolute(base) && !IsAbsolute(rel) && ".." !in Split(rel)
    ensures Resolve(base, rel) == Render(Segs(base) + Names(rel))
    ensures IsPath(Segs(base)) && IsPath(Segs(base) + Names(rel))
  {
    SplitAppend(base, rel);
    SquashPlain(Split(base), Split(rel), true);
    SegsIsPath(base);
    NamesIsPath(rel);
  }

  /** `path.join(root, rel)` does the same, but keeps a trailing separator. */
  lemma JoinPathAppends(root: Path, rel: string)
    requires IsPath(root) && ".." !in Split(rel)
    ensures IsPath(root + Names(rel))
    ensures JoinPath(Render(root), rel) ==
              Render(root + Names(rel)) + (if EndsWithSlash(rel) && root + Names(rel) != [] then "/" else "")
  {
    RenderSegs(root);
    NamesIsPath(rel);
    if rel == "" {
      assert Split("") == [""] && Plain([""]) == [];
      assert root + Names(rel) == root;
      NormalizeRendered(root);
    } else {
      var s := Render(root) + "/" + rel;
      assert s[|s| - 1] == rel[|rel| - 1];
      SplitAppend(Render(root), rel);
      SquashPlain(Split(Render(root)), Split(rel), true);
      if root + Names(rel) != [] {
        JoinNonEmpty(root + Names(rel));
      }
    }
  }

  lemma NormalizeRendered(p: Path)
    requires IsPath(p)
    ensures Normalize(Render(p)) == Render(p)
  {
    RenderSegs(p);
    if p != [] {
      JoinNonEmpty(p);
      NoTrailingSlash(p);
    }
  }

  lemma NoTrailingSlash(p: Path)
    requires IsPath(p) && p != []
    ensures Join(p) != "" && !EndsWithSlash(Join(p))
  {
    JoinNonEmpty(p);
    var n := Last(p);
    assert IsName(n) && n[|n| - 1] != '/';
    if |p| > 1 {
      assert p == Parent(p) + [n];
      JoinLast(Parent(p), n);
      var s := Join(p);
      assert s[|s| - 1] == n[|n| - 1];
    }
  }

  lemma JoinNonEmpty(p: Path)
    requires IsPath(p) && p != []
    ensures Join(p) != "" && Join(p)[0] == p[0][0] && Join(p)[0] != '/'
  {
    assert IsName(p[0]);
  }

  lemma {:induction false} JoinLast(p: Path, name: string)
    requires p != []
    ensures Join(p + [name]) == Join(p) + "/" + name
  {
    assert (p + [name])[1..] == p[1..] + [name];
    if |p| > 1 {
      JoinLast(p[1..], name);
    }
  }

  lemma {:induction false} DirEndAtName(p: string, i: int, slash: int, trailing: bool)
    requires 0 <= slash <= i < |p| && p[slash] == '/'
    requires forall k :: slash < k <= i ==> p[k] != '/'
    requires trailing ==> slash < i
    ensures DirEnd(p, i, trailing) == if slash == 0 then -1 else slash
    decreases i
  {
    if i > slash {
      if i == slash + 1 {
        DirEndAtName(p, slash, slash, false);
      } else {
        DirEndAtName(p, i - 1, slash, false);
      }
    }
  }

  lemma DirnameOfName(head: string, name: string, slash: string)
    requires name != "" && '/' !in name && (slash == "" || slash == "/")
    requires head != "" ==> head[0] == '/' && |head| > 1
    ensures Dirname(head + "/" + name + slash) == if head == "" then "/" else head
  {
    var s := head + "/" + name + slash;
    var n := |head| + |name|;
    forall k | |head| < k <= n ensures s[k] != '/' {
      assert s[k] == name[k - |head| - 1];
    }
    DirEndAtName(s, n, |head|, true);
    assert DirEnd(s, |s| - 1, true) == DirEnd(s, n, true);
    assert s[..|head|] == head;
  }

  /** `path.dirname` of a rendered path drops the last name, with or without a
      trailing separator. */
  lemma DirnameTrailing(p: Path, slash: string)
    requires IsPath(p) && (slash == "" || (slash == "/" && p != []))
    ensures Dirname(Render(p) + slash) == Render(Parent(p))
  {
    if p == [] {
      assert Render(p) == "/" && Render(p) + slash == "/";
    } else {
      var name, q := Last(p), Parent(p);
      assert IsName(name);
      assert p == q + [name];
      if q != [] {
        JoinLast(q, name);
        JoinNonEmpty(q);
        assert Render(p) == Render(q) + "/" + name;
        DirnameOfName(Render(q), name, slash);
      } else {
        assert Render(p) == "" + "/" + name;
        DirnameOfName("", name, slash);
      }
      hide Dirname;
    }
  }

  lemma DirnameDropsLast(p: Path)
    requires IsPath(p)
    ensures Dirname(Render(p)) == Render(Parent(p))
  {
    DirnameTrailing(p, "");
    assert Render(p) + "" == Render(p);
    hide Dirname, Render;
  }

  /** The names of a path that was joined to a root, and of its directory. */
  lemma JoinedNames(root: Path, rel: string)
    requires IsPath(root) && ".." !in Split(rel)
    ensures var target := JoinPath(Render(root), rel);
            Segs(target) == root + Names(rel) && Segs(Dirname(target)) == Parent(root + Names(rel))
  {
    var p := root + Names(rel);
    var slash := if EndsWithSlash(rel) && p != [] then "/" else "";
    JoinPathAppends(root, rel);
    DirnameTrailing(p, slash);
    RenderSegs(p);
    RenderSegs(Parent(p));
    TrailingSlash(p, slash);
    hide Segs, Dirname, JoinPath, Render, Split, Names;
  }

  lemma TrailingSlash(p: Path, slash: string)
    requires IsPath(p) && (slash == "" || slash == "/")
    ensures Segs(Render(p) + slash) == p
  {
    RenderSegs(p);
    assert Split("") == [""];
    if slash == "/" {
      SplitAppend(Render(p), "");
      assert Render(p) + "/" + "" == Render(p) + slash;
      var parts := Split(Render(p));
      assert (parts + [""])[..|parts|] == parts;
    } else {
      assert Render(p) + slash == Render(p);
    }
    hide Split, Render;
  }
}
