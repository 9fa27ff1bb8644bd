/** Printing then parsing gives the value back: the printed text of a value is
    unambiguous, compact or indented. */
module JsonRoundTrip {
  import opened Outcome
  import opened Hosts
  import opened Json
  import opened JsonParser

  /** A value that prints in full. */
  ghost predicate Printable(h: Host, v: JsValue)
    decreases v
  {
    match v
    case Undefined => false
    case Number(n) => n.Finite? && Stable(h, n)
    case Arr(items) => forall i :: 0 <= i < |items| ==> Printable(h, items[i])
    case Obj(es) => Ordered(es) && forall i :: 0 <= i < |es| ==> Printable(h, es[i].value)
    case _ => true
  }

  /** White space between tokens, section 2 of RFC 8259. */
  predicate AllSpace(s: string) {
    forall i :: 0 <= i < |s| ==> s[i] == ' ' || s[i] == '\t' || s[i] == '\n' || s[i] == '\r'
  }

  /** What may follow a number. */
  predicate Delimited(rest: string) {
    rest == "" || !NumeralChar(rest[0])
  }

  lemma {:induction false} SkipSpaceOver(w: string, s: string)
    requires AllSpace(w)
    ensures SkipSpace(w + s) == SkipSpace(s)
  {
    if w == "" {
      assert w + s == s;
    } else {
      assert IsSpace(w[0]);
      assert (w + s)[1..] == w[1..] + s;
      SkipSpaceOver(w[1..], s);
    }
  }

  // --------------------------------------------------------------- strings

  lemma HexDigitValue(n: int)
    requires 0 <= n < 16
    ensures HexValue(HexDigit(n)) == n
  {
  }

  /** Every printed escape is read back as its character. */
  lemma ParseEscapeOf(c: char, tail: string)
    requires Escape(c) != [c]
    ensures Escape(c)[0] == '\\' && ParseEscape(Escape(c)[1..] + tail) == Some(Parsed(c, tail))
  {
    var s := Escape(c)[1..] + tail;
    if |Escape(c)| == 6 {
      HexDigitValue(c as int / 16);
      HexDigitValue(c as int % 16);
      assert s[1..5] == ['0', '0', HexDigit(c as int / 16), HexDigit(c as int % 16)];
      assert s[5..] == tail;
    } else {
      assert s[1..] == tail;
    }
  }

  lemma ParseEscaped(c: char, tail: string)
    ensures var r := ParseChars(tail);
            ParseChars(Escape(c) + tail) ==
            if r.None? then None else Some(Parsed([c] + r.value.value, r.value.rest))
  {
    var s := Escape(c) + tail;
    if Escape(c) == [c] {
      PlainChar(c);
      assert s[1..] == tail;
    } else {
      ParseEscapeOf(c, tail);
      assert s[1..] == Escape(c)[1..] + tail;
      hide Escape, ParseEscape;
    }
  }

  lemma PlainChar(c: char)
    requires Escape(c) == [c]
    ensures c as int >= 32 && c != '"' && c != '\\'
  {
  }

  lemma {:induction false} CharsRoundTrip(t: string, rest: string)
    ensures ParseChars(Escaped(t) + "\"" + rest) == Some(Parsed(t, rest))
  {
    if t == "" {
      assert (Escaped(t) + "\"" + rest)[1..] == rest;
    } else {
      var tail := Escaped(t[1..]) + "\"" + rest;
      CharsRoundTrip(t[1..], rest);
      ParseEscaped(t[0], tail);
      assert Escaped(t) + "\"" + rest == Escape(t[0]) + tail;
      assert [t[0]] + t[1..] == t;
    }
  }

  // --------------------------------------------------------------- numbers

  lemma {:induction false} NumeralLengthOf(t: string, rest: string)
    requires forall i :: 0 <= i < |t| ==> NumeralChar(t[i])
    requires Delimited(rest)
    ensures NumeralLength(t + rest) == |t|
  {
    if t == "" {
      assert t + rest == rest;
    } else {
      assert (t + rest)[1..] == t[1..] + rest;
      NumeralLengthOf(t[1..], rest);
    }
  }

  lemma NumberRoundTrip(h: Host, n: JsNumber, rest: string)
    requires n.Finite? && Stable(h, n) && Delimited(rest)
    ensures ParseValue(h, n.text + rest) == Some(Parsed(Number(n), rest))
  {
    var s := n.text + rest;
    NumeralLengthOf(n.text, rest);
    assert n.text != "";
    assert s[..|n.text|] == n.text && s[|n.text|..] == rest;
    assert NumeralChar(s[0]);
    assert SkipSpace(s) == s;
  }

  // --------------------------------------------------------------- objects

  lemma {:induction false} PutLast(es: seq<Entry>, e: Entry)
    requires Ordered(es + [e])
    ensures Put(es, e.key, e.value) == es + [e]
  {
    if es == [] {
    } else {
      var all := es + [e];
      assert all[0] == es[0] && all[|es|] == e;
      assert all[1..] == es[1..] + [e];
      OrderedTail(all);
      PutLast(es[1..], e);
      IndexLessAsymmetric(e.key, es[0].key);
      assert [es[0]] + (es[1..] + [e]) == es + [e];
    }
  }

  lemma OrderedTail(es: seq<Entry>)
    requires es != [] && Ordered(es)
    ensures Ordered(es[1..])
  {
    var t := es[1..];
    forall i, j | 0 <= i < j < |t|
      ensures t[i].key != t[j].key
      ensures IsIndex(t[j].key) ==> IsIndex(t[i].key) && IndexLess(t[i].key, t[j].key)
    {
      assert t[i] == es[i + 1] && t[j] == es[j + 1];
    }
  }

  lemma OrderedPrefix(es: seq<Entry>, n: nat)
    requires n <= |es| && Ordered(es)
    ensures Ordered(es[..n])
  {
    var t := es[..n];
    forall i, j | 0 <= i < j < |t|
      ensures t[i].key != t[j].key
      ensures IsIndex(t[j].key) ==> IsIndex(t[i].key) && IndexLess(t[i].key, t[j].key)
    {
      assert t[i] == es[i] && t[j] == es[j];
    }
  }

  lemma {:induction false} LessAsymmetric(a: string, b: string)
    ensures !(Less(a, b) && Less(b, a))
    ensures !Less(a, a)
  {
    if a != "" {
      LessAsymmetric(a[1..], a[1..]);
      if b != "" {
        LessAsymmetric(a[1..], b[1..]);
      }
    }
  }

  lemma IndexLessAsymmetric(a: string, b: string)
    ensures !(IndexLess(a, b) && IndexLess(b, a))
  {
    LessAsymmetric(a, b);
  }

  /** Rebuilding an object from its own listing changes nothing. */
  lemma {:induction false} FromEntriesOrdered(es: seq<Entry>)
    requires Ordered(es)
    ensures FromEntries(es) == es
  {
    if es != [] {
      var n := |es| - 1;
      OrderedPrefix(es, n);
      FromEntriesOrdered(es[..n]);
      assert es[..n] + [es[n]] == es;
      PutLast(es[..n], es[n]);
    }
  }

  // ---------------------------------------------------------------- values

  lemma SerializeHead(h: Host, v: JsValue, gap: string, indent: string)
    requires Printable(h, v)
    ensures var s := Serialize(v, gap, indent);
            s != "" && !IsSpace(s[0]) && s[0] != ']' && s[0] != '}'
  {
    if v.Number? {
      assert v.n.text != "";
      assert NumeralChar(v.n.text[0]);
    }
  }

  lemma BreakIsSpace(gap: string, indent: string)
    requires AllSpace(indent)
    ensures AllSpace(Break(gap, indent))
  {
  }

  lemma ConcatIsSpace(a: string, b: string)
    requires AllSpace(a) && AllSpace(b)
    ensures AllSpace(a + b)
  {
  }

  /** The parser does not see space in front of a value. */
  lemma ParseValueOver(h: Host, w: string, s: string)
    requires AllSpace(w)
    ensures ParseValue(h, w + s) == ParseValue(h, s)
  {
    SkipSpaceOver(w, s);
  }

  // One unfolding of the parser each.

  lemma ParseArrayStep(h: Host, body: string, vs: seq<JsValue>, rest: string)
    requires SkipSpace(body) != "" && SkipSpace(body)[0] != ']'
    requires ParseItems(h, body) == Some(Parsed(vs, rest))
    ensures ParseValue(h, "[" + body) == Some(Parsed(Arr(vs), rest))
  {
    hide ParseItems;
    assert SkipSpace("[" + body) == "[" + body && ("[" + body)[1..] == body;
  }

  lemma ParseObjectStep(h: Host, body: string, es: seq<Entry>, rest: string)
    requires SkipSpace(body) != "" && SkipSpace(body)[0] != '}'
    requires ParseMembers(h, body) == Some(Parsed(es, rest))
    ensures ParseValue(h, "{" + body) == Some(Parsed(Obj(FromEntries(es)), rest))
  {
    hide ParseMembers, FromEntries;
    assert SkipSpace("{" + body) == "{" + body && ("{" + body)[1..] == body;
  }

  lemma ParseEmptyStep(h: Host, rest: string)
    ensures ParseValue(h, "[]" + rest) == Some(Parsed(Arr([]), rest))
    ensures ParseValue(h, "{}" + rest) == Some(Parsed(Obj([]), rest))
  {
    hide ParseMembers, ParseItems;
    var a, o := "[]" + rest, "{}" + rest;
    assert a[1..] == "]" + rest && o[1..] == "}" + rest;
    assert SkipSpace(a) == a && SkipSpace(o) == o;
    assert SkipSpace(a[1..]) == a[1..] && SkipSpace(o[1..]) == o[1..];
    assert a[1..][1..] == rest && o[1..][1..] == rest;
  }

  lemma ParseItemsEnd(h: Host, text: string, v: JsValue, mid: string, rest: string)
    requires ParseValue(h, text) == Some(Parsed(v, mid)) && SkipSpace(mid) == "]" + rest
    ensures ParseItems(h, text) == Some(Parsed([v], rest))
  {
    hide ParseValue;
    assert ("]" + rest)[1..] == rest;
  }

  lemma ParseItemsMore(h: Host, text: string, v: JsValue, tail: string, vs: seq<JsValue>, rest: string)
    requires ParseValue(h, text) == Some(Parsed(v, "," + tail))
    requires ParseItems(h, tail) == Some(Parsed(vs, rest))
    ensures ParseItems(h, text) == Some(Parsed([v] + vs, rest))
  {
    hide ParseValue;
    assert SkipSpace("," + tail) == "," + tail && ("," + tail)[1..] == tail;
  }

  lemma ParseMembersEnd(h: Host, text: string, e: Entry, mid: string, rest: string)
    requires ParseMember(h, text) == Some(Parsed(e, mid)) && SkipSpace(mid) == "}" + rest
    ensures ParseMembers(h, text) == Some(Parsed([e], rest))
  {
    hide ParseMember;
    assert ("}" + rest)[1..] == rest;
  }

  lemma ParseMembersMore(h: Host, text: string, e: Entry, tail: string, es: seq<Entry>, rest: string)
    requires ParseMember(h, text) == Some(Parsed(e, "," + tail))
    requires ParseMembers(h, tail) == Some(Parsed(es, rest))
    ensures ParseMembers(h, text) == Some(Parsed([e] + es, rest))
  {
    hide ParseMember;
    assert SkipSpace("," + tail) == "," + tail && ("," + tail)[1..] == tail;
  }

  lemma ParseMemberStep(h: Host, space: string, chars: string, key: string, after: string,
                        v: JsValue, rest: string)
    requires AllSpace(space)
    requires ParseChars(chars) == Some(Parsed(key, ":" + after))
    requires ParseValue(h, after) == Some(Parsed(v, rest))
    ensures ParseMember(h, space + ("\"" + chars)) == Some(Parsed(Entry(key, v), rest))
  {
    hide ParseValue, ParseChars;
    SkipSpaceOver(space, "\"" + chars);
    assert SkipSpace("\"" + chars) == "\"" + chars && ("\"" + chars)[1..] == chars;
    assert SkipSpace(":" + after) == ":" + after && (":" + after)[1..] == after;
  }

  lemma ParseString(h: Host, t: string, rest: string)
    ensures ParseValue(h, Quote(t) + rest) == Some(Parsed(Str(t), rest))
  {
    hide ParseMembers, ParseItems, ParseChars, Escaped;
    var s := Quote(t) + rest;
    CharsRoundTrip(t, rest);
    assert s[0] == '"' && s[1..] == Escaped(t) + "\"" + rest;
  }

  lemma ParseWordStep(h: Host, word: string, v: JsValue, rest: string)
    requires (word == "true" && v == Bool(true)) || (word == "false" && v == Bool(false))
          || (word == "null" && v == Null)
    ensures ParseValue(h, word + rest) == Some(Parsed(v, rest))
  {
    hide ParseMembers, ParseItems, ParseChars;
    var s := word + rest;
    assert s[|word|..] == rest && word <= s;
    assert s[0] == word[0];
  }

  lemma ParseAtom(h: Host, v: JsValue, gap: string, indent: string, rest: string)
    requires v.Null? || v.Bool? || v.Str?
    ensures ParseValue(h, Serialize(v, gap, indent) + rest) == Some(Parsed(v, rest))
  {
    hide ParseValue;
    match v
    case Str(t) => ParseString(h, t, rest);
    case Bool(b) => ParseWordStep(h, if b then "true" else "false", v, rest);
    case _ => ParseWordStep(h, "null", v, rest);
  }

  // One unfolding of the printer each.

  lemma ItemsUnfold(items: seq<JsValue>, gap: string, inner: string, tail: string)
    requires items != []
    ensures Items(items, gap, inner) + tail ==
            Break(gap, inner)
            + (Serialize(items[0], gap, inner)
               + (if |items| == 1 then tail else "," + (Items(items[1..], gap, inner) + tail)))
  {
    hide Serialize;
  }

  lemma MembersUnfold(es: seq<Entry>, gap: string, inner: string, tail: string)
    requires es != [] && forall i :: 0 <= i < |es| ==> es[i].value != Undefined
    ensures Members(es, gap, inner, true) + tail ==
            Break(gap, inner)
            + (Member(es[0], gap, inner)
               + (if |es| == 1 then tail else "," + (Members(es[1..], gap, inner, true) + tail)))
  {
    MembersSplit(es, gap, inner);
    hide *;
    if |es| > 1 {
      Regroup(Break(gap, inner), Member(es[0], gap, inner), Members(es[1..], gap, inner, true), tail);
    }
  }

  lemma MembersSplit(es: seq<Entry>, gap: string, inner: string)
    requires es != [] && forall i :: 0 <= i < |es| ==> es[i].value != Undefined
    ensures Members(es, gap, inner, true)
         == Break(gap, inner) + Member(es[0], gap, inner)
            + (if |es| == 1 then "" else "," + Members(es[1..], gap, inner, true))
  {
    MembersOnce(es, gap, inner);
    if |es| > 1 {
      MembersComma(es[1..], gap, inner);
    } else {
      assert Members(es[1..], gap, inner, false) == "";
    }
    hide *;
  }

  lemma Regroup(a: string, b: string, c: string, d: string)
    ensures a + b + ("," + c) + d == a + (b + ("," + (c + d)))
  {
  }

  lemma MembersOnce(es: seq<Entry>, gap: string, inner: string)
    requires es != [] && es[0].value != Undefined
    ensures Members(es, gap, inner, true)
         == Break(gap, inner) + Member(es[0], gap, inner) + Members(es[1..], gap, inner, false)
  {
    hide Member;
  }

  lemma MembersComma(es: seq<Entry>, gap: string, inner: string)
    requires es != [] && es[0].value != Undefined
    ensures Members(es, gap, inner, false) == "," + Members(es, gap, inner, true)
  {
    hide Member;
  }

  lemma MemberUnfold(e: Entry, gap: string, inner: string, rest: string)
    ensures Member(e, gap, inner) + rest ==
            "\"" + (Escaped(e.key) + "\""
                    + (":" + ((if gap == "" then "" else " ") + (Serialize(e.value, gap, inner) + rest))))
  {
    hide Serialize, Escaped;
  }

  lemma ArrUnfold(items: seq<JsValue>, gap: string, indent: string, rest: string)
    requires items != []
    ensures Serialize(Arr(items), gap, indent) + rest
         == "[" + (Items(items, gap, indent + gap) + (Break(gap, indent) + ("]" + rest)))
  {
    hide Items;
  }

  lemma ObjUnfold(es: seq<Entry>, gap: string, indent: string, rest: string)
    requires es != [] && es[0].value != Undefined
    ensures Serialize(Obj(es), gap, indent) + rest
         == "{" + (Members(es, gap, indent + gap, true) + (Break(gap, indent) + ("}" + rest)))
  {
    MembersNonEmpty(es, gap, indent + gap);
    hide Members;
  }

  lemma MembersNonEmpty(es: seq<Entry>, gap: string, inner: string)
    requires es != [] && es[0].value != Undefined
    ensures Members(es, gap, inner, true) != ""
  {
  }

  /** Parsing inverts printing, whatever follows. */
  lemma {:induction false} RoundTrip(h: Host, v: JsValue, gap: string, indent: string, rest: string)
    requires Printable(h, v) && AllSpace(gap) && AllSpace(indent) && Delimited(rest)
    ensures ParseValue(h, Serialize(v, gap, indent) + rest) == Some(Parsed(v, rest))
    decreases v, 1
  {
    hide ParseValue;
    match v
    case Number(n) => NumberRoundTrip(h, n, rest);
    case Arr(items) => ArrRoundTrip(h, items, gap, indent, rest);
    case Obj(es) => ObjRoundTrip(h, es, gap, indent, rest);
    case _ => ParseAtom(h, v, gap, indent, rest);
  }

  lemma {:induction false} ArrRoundTrip(h: Host, items: seq<JsValue>, gap: string, indent: string, rest: string)
    requires forall i :: 0 <= i < |items| ==> Printable(h, items[i])
    requires AllSpace(gap) && AllSpace(indent)
    ensures ParseValue(h, Serialize(Arr(items), gap, indent) + rest) == Some(Parsed(Arr(items), rest))
    decreases items, 2
  {
    if items == [] {
      ParseEmptyStep(h, rest);
    } else {
      hide ParseValue, ParseItems, Serialize, Items, Printable, SkipSpace;
      var inner, close := indent + gap, Break(gap, indent);
      ConcatIsSpace(indent, gap);
      BreakIsSpace(gap, indent);
      ItemsRoundTrip(h, items, gap, inner, close, rest);
      ItemsHead(h, items, gap, inner, close + ("]" + rest));
      ArrUnfold(items, gap, indent, rest);
      ParseArrayStep(h, Items(items, gap, inner) + (close + ("]" + rest)), items, rest);
    }
  }

  lemma ItemsHead(h: Host, items: seq<JsValue>, gap: string, inner: string, tail: string)
    requires items != [] && Printable(h, items[0]) && AllSpace(inner)
    ensures var s := SkipSpace(Items(items, gap, inner) + tail);
            s != "" && s[0] != ']'
  {
    SerializeHead(h, items[0], gap, inner);
    hide Serialize, Items;
    var more := if |items| == 1 then tail else "," + (Items(items[1..], gap, inner) + tail);
    var s := Serialize(items[0], gap, inner) + more;
    ItemsUnfold(items, gap, inner, tail);
    BreakIsSpace(gap, inner);
    SkipSpaceOver(Break(gap, inner), s);
    assert s[0] == Serialize(items[0], gap, inner)[0];
  }

  lemma {:induction false} ItemsRoundTrip(h: Host, items: seq<JsValue>, gap: string, inner: string,
                                          close: string, rest: string)
    requires items != [] && forall i :: 0 <= i < |items| ==> Printable(h, items[i])
    requires AllSpace(gap) && AllSpace(inner) && AllSpace(close)
    ensures ParseItems(h, Items(items, gap, inner) + (close + ("]" + rest))) == Some(Parsed(items, rest))
    decreases items, 1
  {
    hide ParseValue, ParseItems, Serialize, Items, Printable, SkipSpace;
    var end := close + ("]" + rest);
    var first := Serialize(items[0], gap, inner);
    ItemsUnfold(items, gap, inner, end);
    BreakIsSpace(gap, inner);
    if |items| == 1 {
      SpaceDelimits(close, "]" + rest);
      RoundTrip(h, items[0], gap, inner, end);
      ParseValueOver(h, Break(gap, inner), first + end);
      SkipSpaceOver(close, "]" + rest);
      SkipNothing("]" + rest);
      ParseItemsEnd(h, Break(gap, inner) + (first + end), items[0], end, rest);
      assert [items[0]] == items;
    } else {
      var tail := Items(items[1..], gap, inner) + end;
      RoundTrip(h, items[0], gap, inner, "," + tail);
      ParseValueOver(h, Break(gap, inner), first + ("," + tail));
      ItemsRoundTrip(h, items[1..], gap, inner, close, rest);
      ParseItemsMore(h, Break(gap, inner) + (first + ("," + tail)), items[0], tail, items[1..], rest);
      assert [items[0]] + items[1..] == items;
    }
  }

  lemma SkipNothing(s: string)
    requires s != "" && !IsSpace(s[0])
    ensures SkipSpace(s) == s
  {
  }

  lemma SpaceDelimits(close: string, after: string)
    requires AllSpace(close) && Delimited(after)
    ensures Delimited(close + after)
  {
    if close != "" {
      assert IsSpace(close[0]);
    }
  }

  lemma {:induction false} ObjRoundTrip(h: Host, es: seq<Entry>, gap: string, indent: string, rest: string)
    requires Ordered(es) && forall i :: 0 <= i < |es| ==> Printable(h, es[i].value)
    requires AllSpace(gap) && AllSpace(indent)
    ensures ParseValue(h, Serialize(Obj(es), gap, indent) + rest) == Some(Parsed(Obj(es), rest))
    decreases es, 3
  {
    if es == [] {
      ParseEmptyStep(h, rest);
    } else {
      var inner, close := indent + gap, Break(gap, indent);
      AllDefined(h, es);
      hide ParseValue, ParseMembers, Serialize, Members, Printable, SkipSpace, FromEntries;
      ConcatIsSpace(indent, gap);
      BreakIsSpace(gap, indent);
      MembersRoundTrip(h, es, gap, inner, close, rest);
      MembersHead(es, gap, inner, close + ("}" + rest));
      ObjUnfold(es, gap, indent, rest);
      ParseObjectStep(h, Members(es, gap, inner, true) + (close + ("}" + rest)), es, rest);
      FromEntriesOrdered(es);
    }
  }

  lemma AllDefined(h: Host, es: seq<Entry>)
    requires forall i :: 0 <= i < |es| ==> Printable(h, es[i].value)
    ensures forall i :: 0 <= i < |es| ==> es[i].value != Undefined
  {
  }

  lemma MembersHead(es: seq<Entry>, gap: string, inner: string, tail: string)
    requires es != [] && AllSpace(inner)
    requires forall i :: 0 <= i < |es| ==> es[i].value != Undefined
    ensures var s := SkipSpace(Members(es, gap, inner, true) + tail);
            s != "" && s[0] == '"'
  {
    var more := if |es| == 1 then tail else "," + (Members(es[1..], gap, inner, true) + tail);
    MembersUnfold(es, gap, inner, tail);
    MemberUnfold(es[0], gap, inner, more);
    BreakIsSpace(gap, inner);
    SkipSpaceOver(Break(gap, inner), Member(es[0], gap, inner) + more);
    hide Members, Member;
  }

  lemma {:induction false} MemberRoundTrip(h: Host, e: Entry, gap: string, inner: string, rest: string)
    requires Printable(h, e.value) && AllSpace(gap) && AllSpace(inner) && Delimited(rest)
    ensures ParseMember(h, Break(gap, inner) + (Member(e, gap, inner) + rest)) == Some(Parsed(e, rest))
    decreases e, 2
  {
    hide ParseMember, ParseValue, ParseChars, Serialize, Member, Printable, SkipSpace;
    var space := if gap == "" then "" else " ";
    var text := Serialize(e.value, gap, inner) + rest;
    var after := space + text;
    BreakIsSpace(gap, inner);
    MemberUnfold(e, gap, inner, rest);
    CharsRoundTrip(e.key, ":" + after);
    ParseValueOver(h, space, text);
    RoundTrip(h, e.value, gap, inner, rest);
    ParseMemberStep(h, Break(gap, inner), Escaped(e.key) + "\"" + (":" + after), e.key, after, e.value, rest);
  }

  lemma {:induction false} MembersRoundTrip(h: Host, es: seq<Entry>, gap: string, inner: string,
                                            close: string, rest: string)
    requires es != [] && forall i :: 0 <= i < |es| ==> Printable(h, es[i].value)
    requires AllSpace(gap) && AllSpace(inner) && AllSpace(close)
    ensures ParseMembers(h, Members(es, gap, inner, true) + (close + ("}" + rest))) == Some(Parsed(es, rest))
    decreases es, 2
  {
    hide *;
    AllDefined(h, es);
    var end := close + ("}" + rest);
    var first := Member(es[0], gap, inner);
    MembersUnfold(es, gap, inner, end);
    if |es| == 1 {
      StopsAre("}", rest);
      SpaceDelimits(close, "}" + rest);
      MemberRoundTrip(h, es[0], gap, inner, end);
      SkipSpaceOver(close, "}" + rest);
      ParseMembersEnd(h, Break(gap, inner) + (first + end), es[0], end, rest);
      assert [es[0]] == es;
    } else {
      var tail := Members(es[1..], gap, inner, true) + end;
      StopsAre(",", tail);
      MemberRoundTrip(h, es[0], gap, inner, "," + tail);
      MembersRoundTrip(h, es[1..], gap, inner, close, rest);
      ParseMembersMore(h, Break(gap, inner) + (first + ("," + tail)), es[0], tail, es[1..], rest);
      assert [es[0]] + es[1..] == es;
    }
  }

  lemma StopsAre(stop: string, rest: string)
    requires stop == "}" || stop == ","
    ensures Delimited(stop + rest) && SkipSpace(stop + rest) == stop + rest
  {
  }

  /** `JSON.parse(JSON.stringify(v, null, gap))` with a trailing line break. */
  lemma ParseInvertsPrint(h: Host, v: JsValue, gap: string, end: string)
    requires Printable(h, v) && AllSpace(gap) && AllSpace(end)
    ensures Parse(h, Serialize(v, gap, "") + end) == Some(v)
  {
    if end != "" {
      assert IsSpace(end[0]);
    }
    RoundTrip(h, v, gap, "", end);
    assert end + "" == end;
    SkipSpaceOver(end, "");
  }
}
