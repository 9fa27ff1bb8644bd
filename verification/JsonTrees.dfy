/** The parser accepts exactly the texts that the grammar of RFC 8259 spells, and
    returns what they mean. */
module JsonTrees {
  import opened Outcome
  import opened Hosts
  import opened Json
  import opened JsonParser
  import opened JsonRoundTrip
  import opened JsonGrammar

  /** A text as a tree, with the white space between its tokens. */
  datatype Doc =
    | Word(v: JsValue)
    | Numeral(text: string)
    | Text(pieces: seq<Piece>, s: string)
    | List(items: seq<Spaced>, gap: string)
    | Object(members: seq<Labelled>, gap: string)

  datatype Spaced = Spaced(before: string, doc: Doc, after: string)

  datatype Labelled = Labelled(before: string, pieces: seq<Piece>, key: string, between: string, value: Spaced)

  function WordText(v: JsValue): string {
    match v
    case Bool(b) => if b then "true" else "false"
    case _ => "null"
  }

  function DocText(d: Doc): string
    decreases d, 0
  {
    match d
    case Word(v) => WordText(v)
    case Numeral(text) => text
    case Text(pieces, _) => "\"" + (PiecesText(pieces) + "\"")
    case List(items, gap) => "[" + (if items == [] then gap else ItemsText(items)) + "]"
    case Object(members, gap) => "{" + (if members == [] then gap else MembersText(members)) + "}"
  }

  function SpacedText(x: Spaced): string
    decreases x, 1
  {
    x.before + (DocText(x.doc) + x.after)
  }

  function ItemsText(items: seq<Spaced>): string
    decreases items, 2
  {
    if items == [] then ""
    else if |items| == 1 then SpacedText(items[0])
    else SpacedText(items[0]) + ("," + ItemsText(items[1..]))
  }

  function LabelledText(m: Labelled): string
    decreases m, 1
  {
    m.before + ("\"" + (PiecesText(m.pieces) + ("\"" + (m.between + (":" + SpacedText(m.value))))))
  }

  function MembersText(members: seq<Labelled>): string
    decreases members, 2
  {
    if members == [] then ""
    else if |members| == 1 then LabelledText(members[0])
    else LabelledText(members[0]) + ("," + MembersText(members[1..]))
  }

  /** The tree follows the grammar. */
  ghost predicate DocOk(d: Doc)
    decreases d, 0
  {
    match d
    case Word(v) => v.Null? || v.Bool?
    case Numeral(text) => IsNumeral(text)
    case Text(pieces, s) => PiecesMean(pieces, s)
    case List(items, gap) => AllSpace(gap) && forall i :: 0 <= i < |items| ==> SpacedOk(items[i])
    case Object(members, gap) => AllSpace(gap) && forall i :: 0 <= i < |members| ==> LabelledOk(members[i])
  }

  ghost predicate SpacedOk(x: Spaced)
    decreases x, 1
  {
    AllSpace(x.before) && AllSpace(x.after) && DocOk(x.doc)
  }

  ghost predicate LabelledOk(m: Labelled)
    decreases m, 1
  {
    AllSpace(m.before) && AllSpace(m.between) && PiecesMean(m.pieces, m.key) && SpacedOk(m.value)
  }

  /** What the tree means; a repeated key keeps its first place and its last value. */
  function DocValue(h: Host, d: Doc): JsValue
    decreases d, 0
  {
    match d
    case Word(v) => v
    case Numeral(text) => Number(h.numeral(text))
    case Text(_, s) => Str(s)
    case List(items, _) => Arr(ItemValues(h, items))
    case Object(members, _) => Obj(FromEntries(MemberValues(h, members)))
  }

  function ItemValues(h: Host, items: seq<Spaced>): seq<JsValue>
    decreases items, 1
  {
    if items == [] then [] else [DocValue(h, items[0].doc)] + ItemValues(h, items[1..])
  }

  function MemberValues(h: Host, members: seq<Labelled>): seq<Entry>
    decreases members, 1
  {
    if members == [] then []
    else [Entry(members[0].key, DocValue(h, members[0].value.doc))] + MemberValues(h, members[1..])
  }

  // -------------------------------------------------- one step of the parser

  lemma ItemsEnd(h: Host, text: string, v: JsValue, mid: string, rest: string)
    requires ParseValue(h, text) == Some(Parsed(v, mid)) && SkipSpace(mid) == "]" + rest
    ensures ParseItems(h, text) == Some(Parsed([v], rest))
  {
    hide ParseValue;
    assert ("]" + rest)[1..] == rest;
  }

  lemma ItemsMore(h: Host, text: string, v: JsValue, mid: string, tail: string, vs: seq<JsValue>, rest: string)
    requires ParseValue(h, text) == Some(Parsed(v, mid)) && SkipSpace(mid) == "," + tail
    requires ParseItems(h, tail) == Some(Parsed(vs, rest))
    ensures ParseItems(h, text) == Some(Parsed([v] + vs, rest))
  {
    hide ParseValue;
    assert ("," + tail)[1..] == tail;
  }

  lemma MembersEnd(h: Host, text: string, e: Entry, mid: string, rest: string)
    requires ParseMember(h, text) == Some(Parsed(e, mid)) && SkipSpace(mid) == "}" + rest
    ensures ParseMembers(h, text) == Some(Parsed([e], rest))
  {
    hide ParseMember;
    assert ("}" + rest)[1..] == rest;
  }

  lemma MembersMore(h: Host, text: string, e: Entry, mid: string, tail: string, es: seq<Entry>, rest: string)
    requires ParseMember(h, text) == Some(Parsed(e, mid)) && SkipSpace(mid) == "," + tail
    requires ParseMembers(h, tail) == Some(Parsed(es, rest))
    ensures ParseMembers(h, text) == Some(Parsed([e] + es, rest))
  {
    hide ParseMember;
    assert ("," + tail)[1..] == tail;
  }

  lemma MemberStep(h: Host, before: string, chars: string, key: string, between: string, after: string,
                   v: JsValue, rest: string)
    requires AllSpace(before) && AllSpace(between)
    requires ParseChars(chars) == Some(Parsed(key, between + (":" + after)))
    requires ParseValue(h, after) == Some(Parsed(v, rest))
    ensures ParseMember(h, before + ("\"" + chars)) == Some(Parsed(Entry(key, v), rest))
  {
    hide ParseValue, ParseChars;
    SkipSpaceOver(before, "\"" + chars);
    SkipNothing("\"" + chars);
    assert ("\"" + chars)[1..] == chars;
    SkipSpaceOver(between, ":" + after);
    SkipNothing(":" + after);
    assert (":" + after)[1..] == after;
  }

  lemma EmptyStep(h: Host, gap: string, rest: string)
    requires AllSpace(gap)
    ensures ParseValue(h, "[" + (gap + ("]" + rest))) == Some(Parsed(Arr([]), rest))
    ensures ParseValue(h, "{" + (gap + ("}" + rest))) == Some(Parsed(Obj([]), rest))
  {
    hide ParseMembers, ParseItems;
    var a, o := "[" + (gap + ("]" + rest)), "{" + (gap + ("}" + rest));
    SkipSpaceOver(gap, "]" + rest);
    SkipSpaceOver(gap, "}" + rest);
    SkipNothing("]" + rest);
    SkipNothing("}" + rest);
    SkipNothing(a);
    SkipNothing(o);
    assert a[1..] == gap + ("]" + rest) && o[1..] == gap + ("}" + rest);
    assert ("]" + rest)[1..] == rest && ("}" + rest)[1..] == rest;
  }

  lemma NumeralStep(h: Host, text: string, rest: string)
    requires IsNumeral(text) && Delimited(rest)
    ensures ParseValue(h, text + rest) == Some(Parsed(Number(h.numeral(text)), rest))
  {
    var s := text + rest;
    NumeralChars(text);
    NumeralLengthOf(text, rest);
    assert text != "";
    assert s[..|text|] == text && s[|text|..] == rest;
    assert NumeralChar(s[0]);
    hide IsNumeral, NumeralLength;
    SkipNothing(s);
  }

  lemma NumeralChars(text: string)
    requires IsNumeral(text)
    ensures forall i :: 0 <= i < |text| ==> NumeralChar(text[i])
  {
    var sign, whole, fraction, exponent := NumeralParts(text);
    assert forall i :: 0 <= i < |whole| ==> NumeralChar(whole[i]);
    if fraction != "" {
      DigitsFrom(fraction, 1);
    }
    ExponentChars(exponent);
    hide IsNumeral, SpellsExponent;
  }

  lemma DigitsFrom(s: string, n: nat)
    requires n <= |s| && AllDigits(s[n..])
    ensures forall i :: n <= i < |s| ==> IsDigit(s[i])
  {
    forall i | n <= i < |s| ensures IsDigit(s[i]) {
      assert s[i] == s[n..][i - n];
    }
  }

  lemma ExponentChars(s: string)
    requires s == "" || SpellsExponent(s)
    ensures forall i :: 0 <= i < |s| ==> NumeralChar(s[i])
  {
    if s != "" {
      if AllDigits(s[1..]) {
        DigitsFrom(s, 1);
      } else {
        DigitsFrom(s, 2);
      }
    }
  }

  // ------------------------------------------ what is spelled is parsed

  lemma DocStart(d: Doc, tail: string)
    requires DocOk(d)
    ensures var s := DocText(d) + tail;
            s != "" && !IsSpace(s[0]) && s[0] != ']' && s[0] != '}'
  {
    if d.Numeral? {
      NumeralChars(d.text);
      assert d.text != "";
      assert NumeralChar(d.text[0]);
    }
    hide IsNumeral, ItemsText, MembersText, PiecesText;
  }

  lemma StopDelimits(after: string, stop: string)
    requires AllSpace(after) && stop != "" && !NumeralChar(stop[0])
    ensures Delimited(after + stop)
  {
    SpaceDelimits(after, stop);
  }

  lemma {:induction false} DocParses(h: Host, d: Doc, rest: string)
    requires DocOk(d) && Delimited(rest)
    ensures ParseValue(h, DocText(d) + rest) == Some(Parsed(DocValue(h, d), rest))
    decreases d, 0
  {
    hide ParseValue, ParseItems, ParseMembers, IsNumeral, PiecesMean, ItemsText, MembersText, FromEntries;
    match d
    case Word(v) => ParseWordStep(h, WordText(v), v, rest);
    case Numeral(text) => NumeralStep(h, text, rest);
    case Text(pieces, s) => TextParses(h, pieces, s, rest);
    case List(items, gap) =>
      if items == [] {
        assert DocText(d) + rest == "[" + (gap + ("]" + rest));
        EmptyStep(h, gap, rest);
      } else {
        ItemsParse(h, items, rest);
        ItemsStart(items, "]" + rest);
        assert DocText(d) + rest == "[" + (ItemsText(items) + ("]" + rest));
        ParseArrayStep(h, ItemsText(items) + ("]" + rest), ItemValues(h, items), rest);
      }
    case Object(members, gap) =>
      if members == [] {
        assert DocText(d) + rest == "{" + (gap + ("}" + rest));
        NoMembers(h);
        EmptyStep(h, gap, rest);
      } else {
        MembersParse(h, members, rest);
        MembersStart(members, "}" + rest);
        assert DocText(d) + rest == "{" + (MembersText(members) + ("}" + rest));
        ParseObjectStep(h, MembersText(members) + ("}" + rest), MemberValues(h, members), rest);
      }
  }

  lemma NoMembers(h: Host)
    ensures FromEntries(MemberValues(h, [])) == []
  {
  }

  lemma OneItem(h: Host, items: seq<Spaced>)
    requires |items| == 1
    ensures ItemValues(h, items) == [DocValue(h, items[0].doc)]
  {
    assert ItemValues(h, items[1..]) == [];
    hide DocValue;
  }

  lemma OneMember(h: Host, members: seq<Labelled>)
    requires |members| == 1
    ensures MemberValues(h, members) == [Entry(members[0].key, DocValue(h, members[0].value.doc))]
  {
    assert MemberValues(h, members[1..]) == [];
    hide DocValue;
  }

  lemma TextParses(h: Host, pieces: seq<Piece>, s: string, rest: string)
    requires PiecesMean(pieces, s)
    ensures ParseValue(h, "\"" + (PiecesText(pieces) + "\"") + rest) == Some(Parsed(Str(s), rest))
  {
    hide ParseMembers, ParseItems, ParseChars, PiecesText, PiecesMean;
    var t := "\"" + (PiecesText(pieces) + "\"") + rest;
    PiecesParse(pieces, s, rest);
    assert t[0] == '"' && t[1..] == PiecesText(pieces) + ("\"" + rest);
  }

  lemma ItemsStart(items: seq<Spaced>, tail: string)
    requires items != [] && SpacedOk(items[0])
    ensures var s := SkipSpace(ItemsText(items) + tail);
            s != "" && s[0] != ']'
  {
    var x := items[0];
    var more := x.after + (if |items| == 1 then "" else "," + ItemsText(items[1..])) + tail;
    DocStart(x.doc, more);
    hide DocText;
    assert ItemsText(items) + tail == x.before + (DocText(x.doc) + more);
    SkipSpaceOver(x.before, DocText(x.doc) + more);
  }

  lemma MembersStart(members: seq<Labelled>, tail: string)
    requires members != [] && LabelledOk(members[0])
    ensures var s := SkipSpace(MembersText(members) + tail);
            s != "" && s[0] != '}'
  {
    hide *;
    var m := members[0];
    LabelledIs(m);
    var inner := PiecesText(m.pieces) + ("\"" + (m.between + (":" + SpacedText(m.value))));
    var after := if |members| == 1 then tail else "," + MembersText(members[1..]) + tail;
    MembersHeadText(members, tail, after);
    Opened(m.before, inner, after);
    SkipSpaceOver(m.before, "\"" + (inner + after));
    QuoteStops(inner + after);
  }

  lemma MembersHeadText(members: seq<Labelled>, tail: string, after: string)
    requires members != [] && after == if |members| == 1 then tail else "," + MembersText(members[1..]) + tail
    ensures MembersText(members) + tail == LabelledText(members[0]) + after
  {
    hide LabelledText;
    if |members| > 1 {
      assert LabelledText(members[0]) + ("," + MembersText(members[1..])) + tail
          == LabelledText(members[0]) + ("," + MembersText(members[1..]) + tail);
    }
  }

  lemma Opened(a: string, b: string, c: string)
    ensures a + ("\"" + b) + c == a + ("\"" + (b + c))
  {
  }

  lemma QuoteStops(s: string)
    ensures SkipSpace("\"" + s) == "\"" + s && ("\"" + s)[0] == '"'
  {
  }

  lemma {:induction false} SpacedParses(h: Host, x: Spaced, stop: string)
    requires SpacedOk(x) && stop != "" && !NumeralChar(stop[0])
    ensures ParseValue(h, SpacedText(x) + stop) == Some(Parsed(DocValue(h, x.doc), x.after + stop))
    decreases x, 1
  {
    hide ParseValue, DocText, DocOk;
    StopDelimits(x.after, stop);
    DocParses(h, x.doc, x.after + stop);
    ParseValueOver(h, x.before, DocText(x.doc) + (x.after + stop));
    assert SpacedText(x) + stop == x.before + (DocText(x.doc) + (x.after + stop));
  }

  lemma {:induction false} ItemsParse(h: Host, items: seq<Spaced>, rest: string)
    requires items != [] && forall i :: 0 <= i < |items| ==> SpacedOk(items[i])
    ensures ParseItems(h, ItemsText(items) + ("]" + rest)) == Some(Parsed(ItemValues(h, items), rest))
    decreases items, 2
  {
    hide ParseValue, ParseItems, SpacedText, DocValue;
    var x := items[0];
    AfterSpace(x);
    if |items| == 1 {
      SpacedParses(h, x, "]" + rest);
      SkipSpaceOver(x.after, "]" + rest);
      SkipNothing("]" + rest);
      ItemsEnd(h, SpacedText(x) + ("]" + rest), DocValue(h, x.doc), x.after + ("]" + rest), rest);
      OneItem(h, items);
    } else {
      var tail := ItemsText(items[1..]) + ("]" + rest);
      SpacedParses(h, x, "," + tail);
      SkipSpaceOver(x.after, "," + tail);
      SkipNothing("," + tail);
      ItemsParse(h, items[1..], rest);
      ItemsMore(h, SpacedText(x) + ("," + tail), DocValue(h, x.doc), x.after + ("," + tail), tail,
          ItemValues(h, items[1..]), rest);
      assert ItemsText(items) + ("]" + rest) == SpacedText(x) + ("," + tail);
    }
  }

  lemma AfterSpace(x: Spaced)
    requires SpacedOk(x)
    ensures AllSpace(x.before) && AllSpace(x.after) && DocOk(x.doc)
  {
  }

  lemma {:induction false} LabelledParses(h: Host, m: Labelled, stop: string)
    requires LabelledOk(m) && stop != "" && !NumeralChar(stop[0])
    ensures ParseMember(h, LabelledText(m) + stop)
         == Some(Parsed(Entry(m.key, DocValue(h, m.value.doc)), m.value.after + stop))
    decreases m, 1
  {
    hide ParseValue, ParseMember, ParseChars, SpacedText, PiecesText, PiecesMean, DocValue;
    var after := SpacedText(m.value) + stop;
    var chars := PiecesText(m.pieces) + ("\"" + (m.between + (":" + after)));
    SpacedParses(h, m.value, stop);
    PiecesParse(m.pieces, m.key, m.between + (":" + after));
    MemberStep(h, m.before, chars, m.key, m.between, after, DocValue(h, m.value.doc), m.value.after + stop);
    assert LabelledText(m) + stop == m.before + ("\"" + chars);
  }

  lemma {:induction false} MembersParse(h: Host, members: seq<Labelled>, rest: string)
    requires members != [] && forall i :: 0 <= i < |members| ==> LabelledOk(members[i])
    ensures ParseMembers(h, MembersText(members) + ("}" + rest)) == Some(Parsed(MemberValues(h, members), rest))
    decreases members, 2
  {
    hide ParseMember, ParseMembers, LabelledText, DocValue;
    var m := members[0];
    assert SpacedOk(m.value);
    AfterSpace(m.value);
    hide LabelledOk, SpacedOk;
    var e := Entry(m.key, DocValue(h, m.value.doc));
    if |members| == 1 {
      LabelledParses(h, m, "}" + rest);
      SkipSpaceOver(m.value.after, "}" + rest);
      SkipNothing("}" + rest);
      MembersEnd(h, LabelledText(m) + ("}" + rest), e, m.value.after + ("}" + rest), rest);
      OneMember(h, members);
    } else {
      var tail := MembersText(members[1..]) + ("}" + rest);
      LabelledParses(h, m, "," + tail);
      SkipSpaceOver(m.value.after, "," + tail);
      SkipNothing("," + tail);
      MembersParse(h, members[1..], rest);
      MembersMore(h, LabelledText(m) + ("," + tail), e, m.value.after + ("," + tail), tail,
          MemberValues(h, members[1..]), rest);
      assert MembersText(members) + ("}" + rest) == LabelledText(m) + ("," + tail);
    }
  }

  // ------------------------------------------- what is parsed was spelled

  lemma {:induction false} Skipped(s: string) returns (w: string)
    ensures AllSpace(w) && s == w + SkipSpace(s)
  {
    if s != "" && IsSpace(s[0]) {
      var v := Skipped(s[1..]);
      w := [s[0]] + v;
    } else {
      w := "";
    }
  }

  lemma WordTree(h: Host, s: string, word: string, v: JsValue) returns (d: Doc)
    requires word != "" && ParseWord(s, word, v).Some? && (v.Null? || v.Bool?) && word == WordText(v)
    ensures DocOk(d) && DocValue(h, d) == v && s == DocText(d) + ParseWord(s, word, v).value.rest
  {
    d := Word(v);
    assert s == s[..|word|] + s[|word|..];
  }

  lemma NumberTree(h: Host, s: string) returns (d: Doc)
    requires ParseNumber(h, s).Some?
    ensures DocOk(d) && DocValue(h, d) == ParseNumber(h, s).value.value
    ensures s == DocText(d) + ParseNumber(h, s).value.rest
  {
    var n := NumeralLength(s);
    d := Numeral(s[..n]);
    assert s == s[..n] + s[n..];
    hide IsNumeral;
  }

  lemma StringTree(h: Host, s: string) returns (d: Doc)
    requires s != "" && s[0] == '"' && ParseChars(s[1..]).Some?
    ensures DocOk(d) && DocValue(h, d) == Str(ParseChars(s[1..]).value.value)
    ensures s == DocText(d) + ParseChars(s[1..]).value.rest
  {
    var r := ParseChars(s[1..]).value;
    var ps := CharsPieces(s[1..]);
    hide PiecesMean, PiecesText, ParseChars;
    d := Text(ps, r.value);
    assert s == "\"" + s[1..];
  }

  lemma {:induction false} ValueTree(h: Host, text: string) returns (w: string, d: Doc)
    requires ParseValue(h, text).Some?
    ensures AllSpace(w) && DocOk(d) && DocValue(h, d) == ParseValue(h, text).value.value
    ensures text == w + (DocText(d) + ParseValue(h, text).value.rest)
    decreases |text|, 1
  {
    w := Skipped(text);
    var s := SkipSpace(text);
    if s[0] == '{' {
      d := ObjectTree(h, text);
    } else if s[0] == '[' {
      d := ListTree(h, text);
    } else {
      hide ParseMembers, ParseItems, ParseChars, ParseWord, ParseNumber, DocText, DocOk, DocValue;
      if s[0] == '"' {
        d := StringTree(h, s);
      } else if s[0] == 't' {
        WordsAre();
        d := WordTree(h, s, "true", Bool(true));
      } else if s[0] == 'f' {
        WordsAre();
        d := WordTree(h, s, "false", Bool(false));
      } else if s[0] == 'n' {
        WordsAre();
        d := WordTree(h, s, "null", Null);
      } else {
        d := NumberTree(h, s);
      }
    }
  }

  lemma WordsAre()
    ensures WordText(Bool(true)) == "true" && WordText(Bool(false)) == "false" && WordText(Null) == "null"
  {
  }

  lemma {:induction false} ListTree(h: Host, text: string) returns (d: Doc)
    requires ParseValue(h, text).Some? && SkipSpace(text) != "" && SkipSpace(text)[0] == '['
    ensures DocOk(d) && DocValue(h, d) == ParseValue(h, text).value.value
    ensures SkipSpace(text) == DocText(d) + ParseValue(h, text).value.rest
    decreases |text|, 0
  {
    ListUnfolded(h, text);
    hide *;
    var s := SkipSpace(text);
    var w := Skipped(s[1..]);
    var body := SkipSpace(s[1..]);
    assert s == "[" + s[1..];
    if body != "" && body[0] == ']' {
      d := List([], w);
      ListIs(h, [], w);
      NoItems(h);
      assert body == "]" + body[1..];
      Closed(w, body[1..], "[", "]");
    } else {
      var items := ItemsTree(h, s[1..]);
      d := List(items, "");
      NoSpace();
      ListIs(h, items, "");
      Closed(ItemsText(items), ParseItems(h, s[1..]).value.rest, "[", "]");
    }
  }

  lemma NoItems(h: Host)
    ensures ItemValues(h, []) == []
  {
  }

  lemma Closed(inner: string, rest: string, left: string, right: string)
    ensures left + (inner + (right + rest)) == left + inner + right + rest
  {
  }

  lemma ListUnfolded(h: Host, text: string)
    requires ParseValue(h, text).Some? && SkipSpace(text) != "" && SkipSpace(text)[0] == '['
    ensures var s := SkipSpace(text);
            var body := SkipSpace(s[1..]);
            if body != "" && body[0] == ']' then ParseValue(h, text) == Some(Parsed(Arr([]), body[1..]))
            else
              && ParseItems(h, s[1..]).Some?
              && var r := ParseItems(h, s[1..]).value;
                 ParseValue(h, text) == Some(Parsed(Arr(r.value), r.rest))
  {
    hide ParseItems, ParseMembers;
  }

  lemma ObjectUnfolded(h: Host, text: string)
    requires ParseValue(h, text).Some? && SkipSpace(text) != "" && SkipSpace(text)[0] == '{'
    ensures var s := SkipSpace(text);
            var body := SkipSpace(s[1..]);
            if body != "" && body[0] == '}' then ParseValue(h, text) == Some(Parsed(Obj([]), body[1..]))
            else
              && ParseMembers(h, s[1..]).Some?
              && var r := ParseMembers(h, s[1..]).value;
                 ParseValue(h, text) == Some(Parsed(Obj(FromEntries(r.value)), r.rest))
  {
    hide ParseItems, ParseMembers, FromEntries;
  }

  lemma {:induction false} ObjectTree(h: Host, text: string) returns (d: Doc)
    requires ParseValue(h, text).Some? && SkipSpace(text) != "" && SkipSpace(text)[0] == '{'
    ensures DocOk(d) && DocValue(h, d) == ParseValue(h, text).value.value
    ensures SkipSpace(text) == DocText(d) + ParseValue(h, text).value.rest
    decreases |text|, 0
  {
    ObjectUnfolded(h, text);
    hide *;
    var s := SkipSpace(text);
    var w := Skipped(s[1..]);
    var body := SkipSpace(s[1..]);
    assert s == "{" + s[1..];
    if body != "" && body[0] == '}' {
      d := Object([], w);
      ObjectIs(h, [], w);
      NoMembers(h);
      assert body == "}" + body[1..];
      Closed(w, body[1..], "{", "}");
    } else {
      var members := MembersTree(h, s[1..]);
      d := Object(members, "");
      NoSpace();
      ObjectIs(h, members, "");
      Closed(MembersText(members), ParseMembers(h, s[1..]).value.rest, "{", "}");
    }
  }

  lemma ObjectIs(h: Host, members: seq<Labelled>, gap: string)
    ensures DocText(Object(members, gap)) == "{" + (if members == [] then gap else MembersText(members)) + "}"
    ensures DocOk(Object(members, gap)) <==> AllSpace(gap) && forall i :: 0 <= i < |members| ==> LabelledOk(members[i])
    ensures DocValue(h, Object(members, gap)) == Obj(FromEntries(MemberValues(h, members)))
  {
    hide MembersText, LabelledOk, AllSpace, FromEntries, MemberValues;
  }

  lemma ListIs(h: Host, items: seq<Spaced>, gap: string)
    ensures DocText(List(items, gap)) == "[" + (if items == [] then gap else ItemsText(items)) + "]"
    ensures DocOk(List(items, gap)) <==> AllSpace(gap) && forall i :: 0 <= i < |items| ==> SpacedOk(items[i])
    ensures DocValue(h, List(items, gap)) == Arr(ItemValues(h, items))
  {
    hide ItemsText, SpacedOk, AllSpace, ItemValues;
  }

  lemma {:induction false} ItemsTree(h: Host, text: string) returns (items: seq<Spaced>)
    requires ParseItems(h, text).Some?
    ensures items != [] && forall i :: 0 <= i < |items| ==> SpacedOk(items[i])
    ensures ItemValues(h, items) == ParseItems(h, text).value.value
    ensures text == ItemsText(items) + ("]" + ParseItems(h, text).value.rest)
    decreases |text|, 2
  {
    ItemsUnfolded(h, text);
    hide *;
    var v := ParseValue(h, text).value;
    var w, d := ValueTree(h, text);
    var after := Skipped(v.rest);
    var s := SkipSpace(v.rest);
    var x := Spaced(w, d, after);
    SpacedIs(x);
    Concat(w, DocText(d), after, s);
    if s[0] == ']' {
      items := [x];
      OneItem(h, items);
      OneSpaced(x);
      assert s == "]" + s[1..];
    } else {
      var more := ItemsTree(h, s[1..]);
      items := [x] + more;
      assert items[1..] == more;
      assert s == "," + s[1..];
      ItemValuesAre(h, items);
      MoreSpaced(items);
      Comma(SpacedText(x), ItemsText(more), "]" + ParseItems(h, text).value.rest);
    }
  }

  lemma Concat(a: string, b: string, c: string, d: string)
    ensures a + (b + (c + d)) == a + (b + c) + d
  {
  }

  lemma Comma(a: string, b: string, c: string)
    ensures a + ("," + (b + c)) == a + ("," + b) + c
  {
  }

  lemma ItemsUnfolded(h: Host, text: string)
    requires ParseItems(h, text).Some?
    ensures ParseValue(h, text).Some?
    ensures var v := ParseValue(h, text).value;
            var s := SkipSpace(v.rest);
            && s != "" && |s| < |text| && (s[0] == ']' || s[0] == ',')
            && (s[0] == ']' ==> ParseItems(h, text) == Some(Parsed([v.value], s[1..])))
            && (s[0] == ',' ==>
                  && ParseItems(h, s[1..]).Some?
                  && ParseItems(h, text) == Some(Parsed([v.value] + ParseItems(h, s[1..]).value.value,
                                                        ParseItems(h, s[1..]).value.rest)))
  {
    hide ParseValue;
  }

  lemma SpacedIs(x: Spaced)
    ensures SpacedText(x) == x.before + (DocText(x.doc) + x.after)
    ensures SpacedOk(x) <==> AllSpace(x.before) && AllSpace(x.after) && DocOk(x.doc)
  {
    hide DocText, DocOk, AllSpace;
  }

  lemma OneSpaced(x: Spaced)
    ensures ItemsText([x]) == SpacedText(x)
  {
    hide SpacedText;
  }

  lemma MoreSpaced(items: seq<Spaced>)
    requires |items| > 1
    ensures ItemsText(items) == SpacedText(items[0]) + ("," + ItemsText(items[1..]))
  {
    hide SpacedText;
  }

  lemma ItemValuesAre(h: Host, items: seq<Spaced>)
    requires items != []
    ensures ItemValues(h, items) == [DocValue(h, items[0].doc)] + ItemValues(h, items[1..])
  {
    hide DocValue;
  }

  lemma {:induction false} MemberTree(h: Host, text: string) returns (m: Labelled)
    requires ParseMember(h, text).Some?
    ensures LabelledOk(m) && m.value.after == ""
    ensures Entry(m.key, DocValue(h, m.value.doc)) == ParseMember(h, text).value.value
    ensures text == LabelledText(m) + ParseMember(h, text).value.rest
    decreases |text|, 0
  {
    MemberUnfolded(h, text);
    hide *;
    var before := Skipped(text);
    var s := SkipSpace(text);
    var k := ParseChars(s[1..]).value;
    var pieces := CharsPieces(s[1..]);
    var between := Skipped(k.rest);
    var t := SkipSpace(k.rest);
    var w, d := ValueTree(h, t[1..]);
    m := Labelled(before, pieces, k.value, between, Spaced(w, d, ""));
    NoSpace();
    SpacedIs(m.value);
    LabelledIs(m);
    assert s == "\"" + s[1..] && t == ":" + t[1..];
    var rest := ParseValue(h, t[1..]).value.rest;
    Concat(w, DocText(d), "", rest);
    assert "" + rest == rest;
    Pair(before, PiecesText(pieces), between, SpacedText(m.value), rest);
  }

  lemma Pair(a: string, b: string, c: string, d: string, e: string)
    ensures a + ("\"" + (b + ("\"" + (c + (":" + (d + e)))))) == a + ("\"" + (b + ("\"" + (c + (":" + d))))) + e
  {
  }

  lemma NoSpace()
    ensures AllSpace("") && AllSpace(" ")
  {
  }

  lemma LabelledIs(m: Labelled)
    ensures LabelledText(m)
         == m.before + ("\"" + (PiecesText(m.pieces) + ("\"" + (m.between + (":" + SpacedText(m.value))))))
    ensures LabelledOk(m) <==>
              AllSpace(m.before) && AllSpace(m.between) && PiecesMean(m.pieces, m.key) && SpacedOk(m.value)
  {
    hide SpacedText, SpacedOk, PiecesText, PiecesMean, AllSpace;
  }

  lemma MemberUnfolded(h: Host, text: string)
    requires ParseMember(h, text).Some?
    ensures var s := SkipSpace(text);
            && s != "" && s[0] == '"' && |s| <= |text| && ParseChars(s[1..]).Some?
            && var k := ParseChars(s[1..]).value;
               var t := SkipSpace(k.rest);
               && t != "" && t[0] == ':' && |t| < |s| && ParseValue(h, t[1..]).Some?
               && var v := ParseValue(h, t[1..]).value;
                  ParseMember(h, text) == Some(Parsed(Entry(k.value, v.value), v.rest))
  {
    hide ParseValue, ParseChars;
  }

  lemma LongerAfter(m: Labelled, after: string) returns (x: Labelled)
    requires LabelledOk(m) && m.value.after == "" && AllSpace(after)
    ensures LabelledOk(x) && x.key == m.key && x.value.doc == m.value.doc && LabelledText(x) == LabelledText(m) + after
  {
    x := m.(value := m.value.(after := after));
    hide PiecesText, DocText, DocOk;
    assert SpacedOk(x.value);
    assert SpacedText(x.value) == SpacedText(m.value) + after;
    hide SpacedText;
  }

  lemma {:induction false} MembersTree(h: Host, text: string) returns (members: seq<Labelled>)
    requires ParseMembers(h, text).Some?
    ensures members != [] && forall i :: 0 <= i < |members| ==> LabelledOk(members[i])
    ensures MemberValues(h, members) == ParseMembers(h, text).value.value
    ensures text == MembersText(members) + ("}" + ParseMembers(h, text).value.rest)
    decreases |text|, 2
  {
    hide ParseMember, LabelledText, LabelledOk, DocValue;
    var e := ParseMember(h, text).value;
    var m := MemberTree(h, text);
    var after := Skipped(e.rest);
    var s := SkipSpace(e.rest);
    var x := LongerAfter(m, after);
    assert text == LabelledText(x) + s;
    if s[0] == '}' {
      members := [x];
      OneMember(h, members);
      assert s == "}" + s[1..];
    } else {
      var more := MembersTree(h, s[1..]);
      members := [x] + more;
      assert members[1..] == more;
      assert s == "," + s[1..];
      hide ParseMembers;
      assert MembersText(members) == LabelledText(x) + ("," + MembersText(more));
    }
  }

  // --------------------------------------------------------------- theorem

  /** `JSON.parse` succeeds on exactly the texts that the grammar spells, and returns
      what their tree means. */
  lemma ParseIsGrammar(h: Host, text: string, v: JsValue)
    ensures Parse(h, text) == Some(v) <==>
              exists w, d, after :: AllSpace(w) && AllSpace(after) && DocOk(d) && text == w + (DocText(d) + after)
                                    && DocValue(h, d) == v
  {
    hide ParseValue, DocText, DocOk, DocValue;
    if Parse(h, text) == Some(v) {
      var w, d := ValueTree(h, text);
      var after := Skipped(ParseValue(h, text).value.rest);
      assert after + "" == after;
    }
    if w, d, after :| AllSpace(w) && AllSpace(after) && DocOk(d) && text == w + (DocText(d) + after)
                      && DocValue(h, d) == v {
      assert after != "" ==> IsSpace(after[0]);
      DocParses(h, d, after);
      ParseValueOver(h, w, DocText(d) + after);
      SkipSpaceOver(after, "");
      assert after + "" == after;
    }
  }
}
