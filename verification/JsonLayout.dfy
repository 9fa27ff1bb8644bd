/** `JSON.stringify`, character by character: the only spelling of a value with the
    given layout and the shortest escapes. */
module JsonLayout {
  import opened Outcome
  import opened Hosts
  import opened Json
  import opened JsonParser
  import opened JsonRoundTrip
  import opened JsonGrammar
  import opened JsonTrees

  /** The character is written as short as can be: itself, else a short escape, else a
      code unit in lower case. */
  ghost predicate Shortest(p: Piece, c: char) {
    match p
    case Plain(_) => true
    case Short(letter) => letter != '/'
    case Unit(hex) =>
      c as int < 32 && (forall letter :: !StandsFor(letter, c)) && forall x :: x in hex ==> x < 'A' || 'F' < x
    case Pair(_, _) => false
  }

  ghost predicate AllShortest(ps: seq<Piece>, s: string) {
    PiecesMean(ps, s) && forall i :: 0 <= i < |ps| ==> Shortest(ps[i], s[i])
  }

  function Line(gap: string, indent: string): string {
    if gap == "" then "" else "\n" + indent
  }

  /** The tree is laid out: without a gap there is no white space at all; with one, each
      element starts a line of its own, one step further in, and a value follows its key
      after one space. Numbers are written as they print, keys in their order. */
  ghost predicate Laid(h: Host, d: Doc, gap: string, indent: string)
    decreases d
  {
    match d
    case Word(_) => true
    case Numeral(text) => h.numeral(text) == Finite(text)
    case Text(ps, s) => AllShortest(ps, s)
    case List(items, space) =>
      space == "" && forall i :: 0 <= i < |items| ==>
        && items[i].before == Line(gap, indent + gap)
        && items[i].after == (if i == |items| - 1 then Line(gap, indent) else "")
        && Laid(h, items[i].doc, gap, indent + gap)
    case Object(members, space) =>
      space == "" && Ordered(MemberValues(h, members)) && forall i :: 0 <= i < |members| ==>
        && members[i].before == Line(gap, indent + gap) && AllShortest(members[i].pieces, members[i].key)
        && members[i].between == "" && members[i].value.before == (if gap == "" then "" else " ")
        && members[i].value.after == (if i == |members| - 1 then Line(gap, indent) else "")
        && Laid(h, members[i].value.doc, gap, indent + gap)
  }

  // --------------------------------------------------------------- strings

  lemma ShortestIsEscape(p: Piece, c: char)
    requires PieceMeans(p, c) && Shortest(p, c)
    ensures PieceText(p) == Escape(c)
  {
    match p
    case Plain(x) =>
    case Short(letter) =>
    case Unit(hex) => UnitIsEscape(hex, c);
  }

  lemma UnitIsEscape(hex: string, c: char)
    requires PieceMeans(Unit(hex), c) && Shortest(Unit(hex), c)
    ensures PieceText(Unit(hex)) == Escape(c)
  {
    assert !StandsFor('b', c) && !StandsFor('f', c) && !StandsFor('n', c) && !StandsFor('r', c) && !StandsFor('t', c);
    var n := c as int;
    assert hex[0] in hex && hex[1] in hex && hex[2] in hex && hex[3] in hex;
    LowerHex(hex[0]);
    LowerHex(hex[1]);
    LowerHex(hex[2]);
    LowerHex(hex[3]);
    var a, b, x, y := HexValue(hex[0]), HexValue(hex[1]), HexValue(hex[2]), HexValue(hex[3]);
    assert 4096 * a + 256 * b + 16 * x + y == n < 32;
    assert a == 0 && b == 0 && x == n / 16 && y == n % 16;
    hide HexValue;
    assert hex == ['0', '0', HexDigit(n / 16), HexDigit(n % 16)];
    assert "\\u" + hex == "\\u00" + [HexDigit(n / 16), HexDigit(n % 16)];
  }

  lemma LowerHex(c: char)
    requires ('0' <= c <= '9' || 'a' <= c <= 'f' || 'A' <= c <= 'F') && (c < 'A' || 'F' < c)
    ensures 0 <= HexValue(c) < 16 && c == HexDigit(HexValue(c))
  {
  }

  lemma {:induction false} ShortestText(ps: seq<Piece>, s: string)
    requires AllShortest(ps, s)
    ensures PiecesText(ps) == Escaped(s)
  {
    if ps != [] {
      hide PieceMeans, Shortest, PieceText, Escape;
      ShortestIsEscape(ps[0], s[0]);
      ShortestText(ps[1..], s[1..]);
    }
  }

  lemma EscapeIsShortest(c: char) returns (p: Piece)
    ensures PieceMeans(p, c) && Shortest(p, c)
  {
    var n := c as int;
    if c == '"' || c == '\\' {
      p := Short(c);
    } else if n == 8 {
      p := Short('b');
    } else if n == 9 {
      p := Short('t');
    } else if n == 10 {
      p := Short('n');
    } else if n == 12 {
      p := Short('f');
    } else if n == 13 {
      p := Short('r');
    } else if n < 32 {
      p := Unit(['0', '0', HexDigit(n / 16), HexDigit(n % 16)]);
      HexDigitValue(n / 16);
      HexDigitValue(n % 16);
      assert HexValue('0') == 0;
    } else {
      p := Plain(c);
    }
  }

  lemma {:induction false} ShortestPieces(s: string) returns (ps: seq<Piece>)
    ensures AllShortest(ps, s)
  {
    hide PieceMeans, Shortest;
    if s == "" {
      ps := [];
    } else {
      var p := EscapeIsShortest(s[0]);
      var qs := ShortestPieces(s[1..]);
      ps := [p] + qs;
    }
  }

  // ---------------------------------------------------------------- layout

  /** The elements of a list, each on its line, the last one followed by `close`. */
  ghost predicate LaidItems(h: Host, items: seq<Spaced>, gap: string, inner: string, close: string) {
    forall i :: 0 <= i < |items| ==>
      && items[i].before == Line(gap, inner) && items[i].after == (if i == |items| - 1 then close else "")
      && Laid(h, items[i].doc, gap, inner)
  }

  ghost predicate LaidMembers(h: Host, members: seq<Labelled>, gap: string, inner: string, close: string) {
    forall i :: 0 <= i < |members| ==>
      && members[i].before == Line(gap, inner) && AllShortest(members[i].pieces, members[i].key)
      && members[i].between == "" && members[i].value.before == (if gap == "" then "" else " ")
      && members[i].value.after == (if i == |members| - 1 then close else "")
      && Laid(h, members[i].value.doc, gap, inner)
  }

  lemma ItemsTail(h: Host, items: seq<Spaced>, gap: string, inner: string, close: string)
    requires |items| > 1 && LaidItems(h, items, gap, inner, close)
    ensures LaidItems(h, items[1..], gap, inner, close)
  {
    hide Laid;
  }

  lemma MembersTail(h: Host, members: seq<Labelled>, gap: string, inner: string, close: string)
    requires |members| > 1 && LaidMembers(h, members, gap, inner, close)
    ensures LaidMembers(h, members[1..], gap, inner, close)
  {
    hide Laid, AllShortest;
  }

  lemma {:induction false} LaidText(h: Host, d: Doc, gap: string, indent: string)
    requires DocOk(d) && Laid(h, d, gap, indent)
    ensures DocText(d) == Serialize(DocValue(h, d), gap, indent)
    decreases d, 0
  {
    hide ItemsText, MembersText, Items, Members, AllShortest, PiecesText, Escaped, IsNumeral, PiecesMean, FromEntries;
    match d
    case Word(v) =>
    case Numeral(text) =>
    case Text(ps, s) => ShortestText(ps, s);
    case List(items, space) => ListLaid(h, items, gap, indent);
    case Object(members, space) => ObjectLaid(h, members, gap, indent);
  }

  lemma {:induction false} ListLaid(h: Host, items: seq<Spaced>, gap: string, indent: string)
    requires DocOk(List(items, "")) && Laid(h, List(items, ""), gap, indent)
    ensures DocText(List(items, "")) == Serialize(DocValue(h, List(items, "")), gap, indent)
    decreases items, 2
  {
    hide ItemsText, Items;
    if items != [] {
      assert LaidItems(h, items, gap, indent + gap, Line(gap, indent));
      hide SpacedOk, Laid;
      ItemsLaid(h, items, gap, indent + gap, Line(gap, indent));
      ItemValuesMore(h, items);
    }
  }

  lemma {:induction false} ObjectLaid(h: Host, members: seq<Labelled>, gap: string, indent: string)
    requires DocOk(Object(members, "")) && Laid(h, Object(members, ""), gap, indent)
    ensures DocText(Object(members, "")) == Serialize(DocValue(h, Object(members, "")), gap, indent)
    decreases members, 2
  {
    var es := MemberValues(h, members);
    hide MembersText, Members, FromEntries, AllShortest, LabelledOk, IsIndex, IndexLess;
    FromEntriesOrdered(es);
    if members == [] {
      NoMembersText(gap, indent + gap);
    } else {
      assert LaidMembers(h, members, gap, indent + gap, Line(gap, indent));
      hide Laid;
      MembersLaid(h, members, gap, indent + gap, Line(gap, indent));
      ValuesDefined(h, members);
      MembersNonEmpty(es, gap, indent + gap);
    }
  }

  lemma NoMembersText(gap: string, inner: string)
    ensures Members([], gap, inner, true) == ""
  {
  }

  lemma FirstItem(h: Host, items: seq<Spaced>, gap: string, inner: string, close: string)
    requires items != [] && SpacedOk(items[0]) && LaidItems(h, items, gap, inner, close)
    ensures DocOk(items[0].doc) && Laid(h, items[0].doc, gap, inner)
    ensures ItemsText(items) == Break(gap, inner) + (DocText(items[0].doc)
                                + (if |items| == 1 then close else "," + ItemsText(items[1..])))
  {
    hide DocText, Laid, DocOk;
    var x := items[0];
    if |items| > 1 {
      hide ItemsText;
      MoreSpaced(items);
      assert SpacedText(x) + ("," + ItemsText(items[1..]))
          == Break(gap, inner) + (DocText(x.doc) + ("," + ItemsText(items[1..])));
    }
  }

  lemma ItemValuesMore(h: Host, items: seq<Spaced>)
    requires items != []
    ensures ItemValues(h, items) == [DocValue(h, items[0].doc)] + ItemValues(h, items[1..])
    ensures |ItemValues(h, items)| == |items|
  {
    hide DocValue;
    if |items| > 1 {
      ItemValuesMore(h, items[1..]);
    }
  }

  lemma {:induction false} ItemsLaid(h: Host, items: seq<Spaced>, gap: string, inner: string, close: string)
    requires items != [] && (forall i :: 0 <= i < |items| ==> SpacedOk(items[i]))
    requires LaidItems(h, items, gap, inner, close)
    ensures ItemsText(items) == Items(ItemValues(h, items), gap, inner) + close
    decreases items, 1
  {
    hide *;
    var vs := ItemValues(h, items);
    ItemValuesMore(h, items);
    FirstItem(h, items, gap, inner, close);
    LaidText(h, items[0].doc, gap, inner);
    ItemsUnfold(vs, gap, inner, close);
    assert vs[1..] == ItemValues(h, items[1..]);
    if |items| > 1 {
      ItemsTail(h, items, gap, inner, close);
      ItemsLaid(h, items[1..], gap, inner, close);
    }
  }

  lemma {:induction false} ValuesDefined(h: Host, members: seq<Labelled>)
    requires forall i :: 0 <= i < |members| ==> LabelledOk(members[i])
    ensures var es := MemberValues(h, members);
            |es| == |members| && forall i :: 0 <= i < |es| ==> es[i].value != Undefined
  {
    if members != [] {
      ValuesDefined(h, members[1..]);
      assert SpacedOk(members[0].value);
      AfterSpace(members[0].value);
      ValueDefined(h, members[0].value.doc);
      hide LabelledOk, DocValue;
    }
  }

  lemma ValueDefined(h: Host, d: Doc)
    ensures DocOk(d) ==> DocValue(h, d) != Undefined
  {
  }

  lemma FirstMember(h: Host, members: seq<Labelled>, gap: string, inner: string, close: string)
    requires members != [] && LabelledOk(members[0]) && LaidMembers(h, members, gap, inner, close)
    ensures var m := members[0];
            && DocOk(m.value.doc) && Laid(h, m.value.doc, gap, inner) && AllShortest(m.pieces, m.key)
            && MembersText(members) == Break(gap, inner) + (KeyText(m, gap) + (DocText(m.value.doc)
                                       + (if |members| == 1 then close else "," + MembersText(members[1..]))))
  {
    hide *;
    var m := members[0];
    LaidFirst(h, members, gap, inner, close);
    LabelledIs(m);
    AfterSpace(m.value);
    LabelIs(m, gap);
    if |members| > 1 {
      MoreMembers(members);
      Joined(m.before, KeyText(m, gap), DocText(m.value.doc), "," + MembersText(members[1..]));
    } else {
      LastMember(members);
    }
  }

  lemma LaidFirst(h: Host, members: seq<Labelled>, gap: string, inner: string, close: string)
    requires members != [] && LaidMembers(h, members, gap, inner, close)
    ensures var m := members[0];
            && m.before == Break(gap, inner) && m.between == "" && m.value.before == (if gap == "" then "" else " ")
            && m.value.after == (if |members| == 1 then close else "")
            && Laid(h, m.value.doc, gap, inner) && AllShortest(m.pieces, m.key)
  {
    hide Laid, AllShortest;
  }

  lemma Joined(a: string, b: string, c: string, d: string)
    ensures a + (b + (c + "")) + d == a + (b + (c + d))
  {
  }

  lemma LastMember(members: seq<Labelled>)
    requires |members| == 1
    ensures MembersText(members) == LabelledText(members[0])
  {
    hide LabelledText;
  }

  function KeyText(m: Labelled, gap: string): string {
    "\"" + PiecesText(m.pieces) + "\"" + ":" + (if gap == "" then "" else " ")
  }

  lemma LabelIs(m: Labelled, gap: string)
    requires m.between == "" && m.value.before == if gap == "" then "" else " "
    ensures LabelledText(m) == m.before + (KeyText(m, gap) + (DocText(m.value.doc) + m.value.after))
  {
    hide PiecesText, DocText;
  }

  lemma MoreMembers(members: seq<Labelled>)
    requires |members| > 1
    ensures MembersText(members) == LabelledText(members[0]) + ("," + MembersText(members[1..]))
  {
    hide LabelledText;
  }

  lemma MemberIs(e: Entry, m: Labelled, gap: string, inner: string)
    requires e.key == m.key && PiecesText(m.pieces) == Escaped(m.key)
    ensures Member(e, gap, inner) == KeyText(m, gap) + Serialize(e.value, gap, inner)
  {
    hide PiecesText, Escaped, Serialize;
  }

  lemma MemberValuesMore(h: Host, members: seq<Labelled>)
    requires members != []
    ensures MemberValues(h, members)
         == [Entry(members[0].key, DocValue(h, members[0].value.doc))] + MemberValues(h, members[1..])
    ensures |MemberValues(h, members)| == |members|
  {
    hide DocValue;
    if |members| > 1 {
      MemberValuesMore(h, members[1..]);
    }
  }

  lemma {:induction false} MembersLaid(h: Host, members: seq<Labelled>, gap: string, inner: string, close: string)
    requires members != [] && (forall i :: 0 <= i < |members| ==> LabelledOk(members[i]))
    requires LaidMembers(h, members, gap, inner, close)
    ensures MembersText(members) == Members(MemberValues(h, members), gap, inner, true) + close
    decreases members, 1
  {
    hide *;
    var m, es := members[0], MemberValues(h, members);
    ValuesDefined(h, members);
    MemberValuesMore(h, members);
    FirstMember(h, members, gap, inner, close);
    LaidText(h, m.value.doc, gap, inner);
    ShortestText(m.pieces, m.key);
    MemberIs(es[0], m, gap, inner);
    MembersUnfold(es, gap, inner, close);
    assert es[1..] == MemberValues(h, members[1..]);
    if |members| > 1 {
      MembersTail(h, members, gap, inner, close);
      MembersLaid(h, members[1..], gap, inner, close);
    }
  }

  // -------------------------------------------------- every value has one

  lemma LineIsSpace(gap: string, indent: string)
    requires AllSpace(indent)
    ensures AllSpace(Line(gap, indent))
  {
  }

  lemma {:induction false} LayOut(h: Host, v: JsValue, gap: string, indent: string) returns (d: Doc)
    requires Printable(h, v) && AllSpace(gap) && AllSpace(indent)
    ensures DocOk(d) && Laid(h, d, gap, indent) && DocValue(h, d) == v
    decreases v, 0
  {
    match v
    case Number(n) =>
      d := Numeral(n.text);
    case Str(s) =>
      var ps := ShortestPieces(s);
      d := Text(ps, s);
      hide PieceMeans, Shortest;
    case Arr(items) =>
      ConcatIsSpace(indent, gap);
      LineIsSpace(gap, indent);
      var xs := LayOutItems(h, items, gap, indent + gap, Line(gap, indent));
      d := List(xs, "");
      hide DocText, SpacedOk;
    case Obj(es) =>
      ConcatIsSpace(indent, gap);
      LineIsSpace(gap, indent);
      var ms := LayOutMembers(h, es, gap, indent + gap, Line(gap, indent));
      d := Object(ms, "");
      FromEntriesOrdered(es);
      hide LabelledOk, FromEntries, Ordered;
    case _ =>
      d := Word(v);
  }

  lemma {:induction false} LayOutItems(h: Host, items: seq<JsValue>, gap: string, inner: string, close: string)
    returns (xs: seq<Spaced>)
    requires (forall i :: 0 <= i < |items| ==> Printable(h, items[i]))
    requires AllSpace(gap) && AllSpace(inner) && AllSpace(close)
    ensures |xs| == |items| && forall i :: 0 <= i < |xs| ==> SpacedOk(xs[i])
    ensures LaidItems(h, xs, gap, inner, close) && ItemValues(h, xs) == items
    decreases items, 1
  {
    if items == [] {
      xs := [];
    } else {
      var d := LayOut(h, items[0], gap, inner);
      var ys := LayOutItems(h, items[1..], gap, inner, close);
      LineIsSpace(gap, inner);
      hide DocText, DocOk, Laid, Printable, DocValue;
      var x := Spaced(Line(gap, inner), d, if |items| == 1 then close else "");
      hide Line, AllSpace;
      xs := [x] + ys;
      assert xs[1..] == ys && [items[0]] + items[1..] == items;
      assert AllSpace("") by {
        NoSpace();
      }
      assert SpacedOk(x);
      ItemValuesMore(h, xs);
    }
  }

  lemma {:induction false} LayOutMembers(h: Host, es: seq<Entry>, gap: string, inner: string, close: string)
    returns (ms: seq<Labelled>)
    requires (forall i :: 0 <= i < |es| ==> Printable(h, es[i].value))
    requires AllSpace(gap) && AllSpace(inner) && AllSpace(close)
    ensures |ms| == |es| && forall i :: 0 <= i < |ms| ==> LabelledOk(ms[i])
    ensures LaidMembers(h, ms, gap, inner, close) && MemberValues(h, ms) == es
    decreases es, 1
  {
    if es == [] {
      ms := [];
    } else {
      var d := LayOut(h, es[0].value, gap, inner);
      var ps := ShortestPieces(es[0].key);
      var ys := LayOutMembers(h, es[1..], gap, inner, close);
      LineIsSpace(gap, inner);
      NoSpace();
      assert PiecesMean(ps, es[0].key);
      hide DocText, DocOk, Laid, Printable, DocValue, Line, AllSpace, AllShortest, PiecesMean;
      var x := Spaced(if gap == "" then "" else " ", d, if |es| == 1 then close else "");
      assert SpacedOk(x);
      var m := Labelled(Line(gap, inner), ps, es[0].key, "", x);
      ms := [m] + ys;
      assert ms[1..] == ys && [es[0]] + es[1..] == es;
      assert LabelledOk(m);
      MemberValuesMore(h, ms);
    }
  }

  /** `JSON.stringify` of a value that prints in full is the one text that spells the
      value with this layout. In particular compact text has no white space outside
      strings. */
  lemma SerializeIsLaidOut(h: Host, v: JsValue, gap: string, text: string)
    requires Printable(h, v) && AllSpace(gap)
    ensures Serialize(v, gap, "") == text <==>
              exists d :: DocOk(d) && Laid(h, d, gap, "") && DocValue(h, d) == v && DocText(d) == text
  {
    hide *;
    NoSpace();
    var d := LayOut(h, v, gap, "");
    LaidText(h, d, gap, "");
    forall e | DocOk(e) && Laid(h, e, gap, "") && DocValue(h, e) == v ensures DocText(e) == Serialize(v, gap, "") {
      LaidText(h, e, gap, "");
    }
  }
}
