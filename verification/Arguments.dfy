/** `parseArguments` and the grammar it accepts. */
module Arguments {
  import opened Outcome
  import opened Paths
  import opened Hosts

  /** The flags that name one path, and the two that collect paths. */
  datatype Key =
    | SourceRoot | InstallRoot | WorkspaceRoot | ProtectedRoot | ProbeCwd | RuntimeStateRoot | Cwd
    | Inherited

  /** What every JavaScript object inherits: looking one of these up among the
      flags finds something too. */
  const INHERITED: seq<string> := [
    "constructor", "__defineGetter__", "__defineSetter__", "hasOwnProperty", "__lookupGetter__", "__lookupSetter__",
    "isPrototypeOf", "propertyIsEnumerable", "toString", "valueOf", "__proto__", "toLocaleString"
  ]

  /** The lookup in the table of flags. */
  function KeyOf(argument: string): Option<Key> {
    if argument == "--source-root" then Some(SourceRoot)
    else if argument == "--install-root" then Some(InstallRoot)
    else if argument == "--workspace-root" then Some(WorkspaceRoot)
    else if argument == "--protected-root" then Some(ProtectedRoot)
    else if argument == "--probe-cwd" then Some(ProbeCwd)
    else if argument == "--runtime-state-root" then Some(RuntimeStateRoot)
    else if argument == "--cwd" then Some(Cwd)
    else if argument in INHERITED then Some(Inherited)
    else None
  }

  datatype Parsed = Parsed(
    sourceRoot: Option<string>,
    installRoot: Option<string>,
    workspaceRoot: Option<string>,
    protectedRoots: seq<string>,
    probeCwds: seq<string>,
    runtimeStateRoot: Option<string>,
    cwd: Option<string>,
    json: bool)

  const NO_ARGUMENTS := Parsed(None, None, None, [], [], None, None, false)

  /** Storing one value: pushed to a list, or replacing what was there. A value
      under an inherited name goes to a property that nobody reads. */
  function Store(p: Parsed, key: Key, value: string): Parsed {
    match key
    case SourceRoot => p.(sourceRoot := Some(value))
    case InstallRoot => p.(installRoot := Some(value))
    case WorkspaceRoot => p.(workspaceRoot := Some(value))
    case ProtectedRoot => p.(protectedRoots := p.protectedRoots + [value])
    case ProbeCwd => p.(probeCwds := p.probeCwds + [value])
    case RuntimeStateRoot => p.(runtimeStateRoot := Some(value))
    case Cwd => p.(cwd := Some(value))
    case Inherited => p
  }

  // ---------------------------------------------------------------- grammar

  /** An item of the command line: `--json`, or a flag and its value. */
  datatype Item = Json | Flag(name: string, value: string)

  predicate IsInherited(name: string) {
    || name == "constructor" || name == "__defineGetter__" || name == "__defineSetter__" || name == "hasOwnProperty"
    || name == "__lookupGetter__" || name == "__lookupSetter__" || name == "isPrototypeOf"
    || name == "propertyIsEnumerable" || name == "toString" || name == "valueOf" || name == "__proto__"
    || name == "toLocaleString"
  }

  predicate IsNamed(name: string) {
    || name == "--source-root" || name == "--install-root" || name == "--workspace-root"
    || name == "--protected-root" || name == "--probe-cwd" || name == "--runtime-state-root" || name == "--cwd"
  }

  /** The names that can stand in front of a value. */
  predicate IsFlag(name: string) {
    IsNamed(name) || IsInherited(name)
  }

  predicate IsItem(item: Item) {
    item.Flag? ==> IsFlag(item.name)
  }

  ghost predicate AreItems(items: seq<Item>) {
    forall i :: 0 <= i < |items| ==> IsItem(items[i])
  }

  function Tokens(item: Item): seq<string> {
    if item.Json? then ["--json"] else [item.name, item.value]
  }

  function Flatten(items: seq<Item>): seq<string> {
    if items == [] then [] else Flatten(items[..|items| - 1]) + Tokens(items[|items| - 1])
  }

  /** The values given under a name, in order. */
  function Values(h: Host, items: seq<Item>, name: string): seq<string> {
    if items == [] then []
    else
      var front, last := Values(h, items[..|items| - 1], name), items[|items| - 1];
      if last.Flag? && last.name == name then front + [Resolve(h.cwd, last.value)] else front
  }

  function LastOf(values: seq<string>): Option<string> {
    if values == [] then None else Some(values[|values| - 1])
  }

  /** What a list of items means: the last value of each single flag, all values of
      the two lists, and whether `--json` is there. */
  function Means(h: Host, items: seq<Item>): Parsed {
    Parsed(
      LastOf(Values(h, items, "--source-root")),
      LastOf(Values(h, items, "--install-root")),
      LastOf(Values(h, items, "--workspace-root")),
      Values(h, items, "--protected-root"),
      Values(h, items, "--probe-cwd"),
      LastOf(Values(h, items, "--runtime-state-root")),
      LastOf(Values(h, items, "--cwd")),
      Json in items)
  }

  /** The lookup finds a key under just these names, and none under `--json`. */
  lemma KeyOfFlag(name: string)
    ensures KeyOf(name).Some? <==> IsFlag(name)
    ensures IsFlag(name) ==> name != "--json"
    ensures KeyOf(name) == Some(Inherited) <==> IsInherited(name)
  {
    InheritedNames(name);
    NotJson(name);
    InheritedIsOther(name);
    hide INHERITED, IsInherited;
  }

  lemma InheritedIsOther(name: string)
    ensures IsInherited(name) ==> !IsNamed(name)
  {
    if IsInherited(name) && IsNamed(name) {
      InheritedStart(name);
      hide IsInherited;
      FlagStart(name);
    }
  }

  lemma NotJson(name: string)
    ensures IsFlag(name) ==> name != "--json"
  {
    assert "--json"[0] == '-' && "--json"[2] == 'j';
    if IsInherited(name) {
      InheritedStart(name);
    } else if IsNamed(name) {
      FlagStart(name);
    }
    hide IsInherited, IsNamed;
  }

  /** The names of flags start with a hyphen, and their third letter is not that of
      `--json`. */
  lemma FlagStart(name: string)
    requires IsNamed(name)
    ensures |name| > 2 && name[0] == '-' && name[2] != 'j'
  {
  }

  lemma InheritedNames(name: string)
    ensures IsInherited(name) <==> name in INHERITED
  {
    assert |INHERITED| == 12;
    assert INHERITED[0] == "constructor" && INHERITED[1] == "__defineGetter__" && INHERITED[2] == "__defineSetter__";
    assert INHERITED[3] == "hasOwnProperty" && INHERITED[4] == "__lookupGetter__";
    assert INHERITED[5] == "__lookupSetter__" && INHERITED[6] == "isPrototypeOf";
    assert INHERITED[7] == "propertyIsEnumerable" && INHERITED[8] == "toString" && INHERITED[9] == "valueOf";
    assert INHERITED[10] == "__proto__" && INHERITED[11] == "toLocaleString";
  }

  lemma InheritedStart(name: string)
    requires IsInherited(name)
    ensures name != "" && name[0] != '-'
  {
  }

  lemma FlattenMore(items: seq<Item>, item: Item)
    ensures Flatten(items + [item]) == Flatten(items) + Tokens(item)
  {
    hide Tokens;
    assert (items + [item])[..|items|] == items;
  }

  lemma FlattenNone()
    ensures Flatten([]) == []
  {
  }

  lemma {:induction false} FlattenAppend(xs: seq<Item>, ys: seq<Item>)
    ensures Flatten(xs + ys) == Flatten(xs) + Flatten(ys)
  {
    hide Flatten, Tokens;
    if ys == [] {
      FlattenNone();
      assert xs + ys == xs;
    } else {
      var n := |ys| - 1;
      assert ys == ys[..n] + [ys[n]] && xs + ys == (xs + ys[..n]) + [ys[n]];
      FlattenAppend(xs, ys[..n]);
      FlattenMore(ys[..n], ys[n]);
      FlattenMore(xs + ys[..n], ys[n]);
    }
  }

  lemma HeadTokens(xs: seq<Item>)
    requires xs != []
    ensures Flatten(xs) == Tokens(xs[0]) + Flatten(xs[1..])
  {
    hide Flatten, Tokens;
    FlattenNone();
    FlattenMore([], xs[0]);
    assert xs == [xs[0]] + xs[1..] && [] + [xs[0]] == [xs[0]];
    FlattenAppend([xs[0]], xs[1..]);
  }

  lemma SameTokens(x: Item, y: Item, xs: seq<string>, ys: seq<string>)
    requires IsItem(x) && IsItem(y) && Tokens(x) + xs <= Tokens(y) + ys
    ensures x == y && xs <= ys
  {
    hide IsFlag;
    if x.Flag? {
      KeyOfFlag(x.name);
    }
    if y.Flag? {
      KeyOfFlag(y.name);
    }
    hide KeyOf;
    var a, b := Tokens(x) + xs, Tokens(y) + ys;
    assert a[0] == b[0];
    assert x.Flag? ==> a[1] == b[1];
    assert a[|Tokens(x)|..] == xs && b[|Tokens(y)|..] == ys;
  }

  /** The first token of a command line decides its first item. */
  lemma SameHead(xs: seq<Item>, ys: seq<Item>)
    requires AreItems(xs) && AreItems(ys) && xs != [] && ys != [] && Flatten(xs) <= Flatten(ys)
    ensures xs[0] == ys[0] && Flatten(xs[1..]) <= Flatten(ys[1..])
  {
    HeadTokens(xs);
    HeadTokens(ys);
    hide Flatten, Tokens, IsItem;
    SameTokens(xs[0], ys[0], Flatten(xs[1..]), Flatten(ys[1..]));
  }

  /** The grammar is unambiguous: a command line that starts like another one
      starts with its items. */
  lemma {:induction false} ItemsAreDetermined(xs: seq<Item>, ys: seq<Item>)
    requires AreItems(xs) && AreItems(ys) && Flatten(xs) <= Flatten(ys)
    ensures xs <= ys
  {
    if xs != [] {
      HeadTokens(xs);
      hide IsItem;
      if ys != [] {
        SameHead(xs, ys);
        ItemsAreDetermined(xs[1..], ys[1..]);
        assert xs == [xs[0]] + xs[1..] && ys == [ys[0]] + ys[1..];
      }
    }
  }

  // ----------------------------------------------------------------- the loop

  lemma ValuesMore(h: Host, items: seq<Item>, item: Item, name: string)
    ensures Values(h, items + [item], name) ==
              if item.Flag? && item.name == name then Values(h, items, name) + [Resolve(h.cwd, item.value)]
              else Values(h, items, name)
  {
    hide Resolve;
    assert (items + [item])[..|items|] == items;
  }

  lemma AllValuesMore(h: Host, items: seq<Item>, item: Item)
    ensures forall k :: Values(h, items + [item], k) ==
              if item.Flag? && item.name == k then Values(h, items, k) + [Resolve(h.cwd, item.value)]
              else Values(h, items, k)
  {
    hide *;
    forall k
      ensures Values(h, items + [item], k) ==
              if item.Flag? && item.name == k then Values(h, items, k) + [Resolve(h.cwd, item.value)]
              else Values(h, items, k)
    {
      ValuesMore(h, items, item, k);
    }
  }

  /** Each key has one name. */
  lemma KeyIs(name: string)
    ensures KeyOf(name) == Some(SourceRoot) <==> name == "--source-root"
    ensures KeyOf(name) == Some(InstallRoot) <==> name == "--install-root"
    ensures KeyOf(name) == Some(WorkspaceRoot) <==> name == "--workspace-root"
    ensures KeyOf(name) == Some(ProtectedRoot) <==> name == "--protected-root"
    ensures KeyOf(name) == Some(ProbeCwd) <==> name == "--probe-cwd"
    ensures KeyOf(name) == Some(RuntimeStateRoot) <==> name == "--runtime-state-root"
    ensures KeyOf(name) == Some(Cwd) <==> name == "--cwd"
  {
    hide INHERITED;
    assert "--source-root"[2] == 's' && "--install-root"[2] == 'i' && "--workspace-root"[2] == 'w';
    assert "--protected-root"[2] == 'p' && "--probe-cwd"[2] == 'p' && |"--protected-root"| != |"--probe-cwd"|;
    assert "--runtime-state-root"[2] == 'r' && "--cwd"[2] == 'c';
  }

  /** The same meaning under any seven names. */
  function MeansUnder(h: Host, items: seq<Item>, n: FlagNames): Parsed {
    Parsed(
      LastOf(Values(h, items, n.source)),
      LastOf(Values(h, items, n.install)),
      LastOf(Values(h, items, n.workspace)),
      Values(h, items, n.guarded),
      Values(h, items, n.probe),
      LastOf(Values(h, items, n.state)),
      LastOf(Values(h, items, n.cwd)),
      Json in items)
  }

  datatype FlagNames = FlagNames(source: string, install: string, workspace: string, guarded: string, probe: string,
                                 state: string, cwd: string)

  lemma StoreUnder(h: Host, items: seq<Item>, name: string, value: string, n: FlagNames, key: Key)
    requires key == SourceRoot <==> name == n.source
    requires key == InstallRoot <==> name == n.install
    requires key == WorkspaceRoot <==> name == n.workspace
    requires key == ProtectedRoot <==> name == n.guarded
    requires key == ProbeCwd <==> name == n.probe
    requires key == RuntimeStateRoot <==> name == n.state
    requires key == Cwd <==> name == n.cwd
    ensures MeansUnder(h, items + [Flag(name, value)], n)
         == Store(MeansUnder(h, items, n), key, Resolve(h.cwd, value))
  {
    hide Resolve, Values, LastOf;
    AllValuesMore(h, items, Flag(name, value));
    LastMore(Values(h, items, name), Resolve(h.cwd, value));
    assert Json in items + [Flag(name, value)] <==> Json in items;
  }

  lemma StoreMeans(h: Host, items: seq<Item>, name: string, value: string)
    requires KeyOf(name).Some?
    ensures Means(h, items + [Flag(name, value)]) == Store(Means(h, items), KeyOf(name).value, Resolve(h.cwd, value))
  {
    KeyIs(name);
    hide KeyOf, Resolve, Values, LastOf, Store;
    var n := FlagNames("--source-root", "--install-root", "--workspace-root", "--protected-root", "--probe-cwd",
        "--runtime-state-root", "--cwd");
    StoreUnder(h, items, name, value, n, KeyOf(name).value);
  }

  lemma LastMore(values: seq<string>, value: string)
    ensures LastOf(values + [value]) == Some(value)
  {
  }

  lemma JsonMeans(h: Host, items: seq<Item>)
    ensures Means(h, items + [Json]) == Means(h, items).(json := true)
  {
    hide Resolve, Values;
    AllValuesMore(h, items, Json);
  }

  /** What follows some items of a command line starts another item. */
  lemma NextItem(argv: seq<string>, index: nat, items: seq<Item>, others: seq<Item>)
    requires index < |argv| && AreItems(items) && Flatten(items) == argv[..index]
    requires AreItems(others) && Flatten(others) == argv
    ensures argv[index] == "--json" || (KeyOf(argv[index]).Some? && index + 1 < |argv|)
  {
    hide IsFlag;
    KeyOfFlag(argv[index]);
    hide KeyOf;
    ItemsAreDetermined(items, others);
    var rest := others[|items|..];
    assert others == items + rest;
    FlattenAppend(items, rest);
    assert Flatten(rest) == argv[index..] && rest != [];
    assert IsItem(rest[0]) by {
      assert rest[0] == others[|items|];
    }
    HeadTokens(rest);
    assert argv[index..][0] == Tokens(rest[0])[0];
  }

  /** Where the loop stops with an error, no list of items spells the command line. */
  lemma NoItems(argv: seq<string>, index: nat, items: seq<Item>)
    requires index < |argv| && AreItems(items) && Flatten(items) == argv[..index]
    requires argv[index] != "--json" && (KeyOf(argv[index]).None? || index + 1 >= |argv|)
    ensures forall others :: AreItems(others) ==> Flatten(others) != argv
  {
    hide KeyOf, Flatten, AreItems;
    forall others | AreItems(others) ensures Flatten(others) != argv {
      if Flatten(others) == argv {
        NextItem(argv, index, items, others);
      }
    }
  }

  lemma MoreItems(items: seq<Item>, item: Item)
    requires AreItems(items) && IsItem(item)
    ensures AreItems(items + [item])
  {
    hide IsItem;
  }

  /** `parseArguments(argv)`: it accepts exactly the spelled-out lists of items, and
      returns what they mean. */
  method ParseArguments(h: Host, argv: seq<string>) returns (r: Result<Parsed>)
    ensures r.Ok? ==> exists items :: AreItems(items) && Flatten(items) == argv && r.value == Means(h, items)
    ensures r.Err? ==> forall items :: AreItems(items) ==> Flatten(items) != argv
  {
    var result := NO_ARGUMENTS;
    ghost var items: seq<Item> := [];
    var index := 0;
    hide KeyOf, IsFlag, Resolve, Flatten, AreItems, Means, Values;
    assert AreItems([]) && Flatten([]) == [] && Means(h, []) == NO_ARGUMENTS by {
      NoItemsYet(h);
    }
    while index < |argv|
      invariant index <= |argv| && AreItems(items) && Flatten(items) == argv[..index] && result == Means(h, items)
    {
      var argument := argv[index];
      if argument == "--json" {
        result := result.(json := true);
        FlattenMore(items, Json);
        MoreItems(items, Json);
        JsonMeans(h, items);
        items := items + [Json];
        assert argv[..index + 1] == argv[..index] + ["--json"];
        index := index + 1;
        continue;
      }
      var key := KeyOf(argument);
      if key.None? || index + 1 >= |argv| {
        NoItems(argv, index, items);
        return Err("invalid-arguments");
      }
      result := Store(result, key.value, Resolve(h.cwd, argv[index + 1]));
      FlattenMore(items, Flag(argument, argv[index + 1]));
      KeyOfFlag(argument);
      MoreItems(items, Flag(argument, argv[index + 1]));
      StoreMeans(h, items, argument, argv[index + 1]);
      items := items + [Flag(argument, argv[index + 1])];
      assert argv[..index + 2] == argv[..index] + [argument, argv[index + 1]];
      index := index + 2;
    }
    assert argv[..|argv|] == argv;
    return Ok(result);
  }

  lemma NoItemsYet(h: Host)
    ensures AreItems([]) && Flatten([]) == [] && Means(h, []) == NO_ARGUMENTS
  {
  }

  // ------------------------------------------------------- inherited names

  /** A value under an inherited name is accepted anywhere and means nothing. */
  lemma InheritedMeansNothing(h: Host, items: seq<Item>, name: string, value: string)
    requires AreItems(items) && IsInherited(name)
    ensures AreItems(items + [Flag(name, value)])
    ensures Means(h, items + [Flag(name, value)]) == Means(h, items)
  {
    hide KeyOf, Means, INHERITED, Resolve;
    KeyOfFlag(name);
    hide IsInherited;
    StoreMeans(h, items, name, value);
    MoreItems(items, Flag(name, value));
  }

  /** So the command line `constructor x`, with no flag in it, is accepted. */
  lemma ConstructorIsAccepted(h: Host)
    ensures var items := [Flag("constructor", "x")];
            AreItems(items) && Flatten(items) == ["constructor", "x"] && Means(h, items) == NO_ARGUMENTS
  {
    NoItemsYet(h);
    hide KeyOf, Means, NO_ARGUMENTS;
    InheritedMeansNothing(h, [], "constructor", "x");
    FlattenMore([], Flag("constructor", "x"));
    assert [] + [Flag("constructor", "x")] == [Flag("constructor", "x")];
  }
}
