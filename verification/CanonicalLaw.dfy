/** Canonical text is a complete invariant: two values have the same text exactly
    when they mean the same up to key order. */
module CanonicalLaw {
  import opened Outcome
  import opened Hosts
  import opened Json
  import opened JsonParser
  import opened JsonRoundTrip
  import opened CanonicalJson
  import opened KeyOrder

  /** Every object lists its keys in canonical order. */
  ghost predicate IsCanonical(v: JsValue)
    decreases v
  {
    match v
    case Arr(items) => forall i :: 0 <= i < |items| ==> IsCanonical(items[i])
    case Obj(es) => Ascending(es) && forall i :: 0 <= i < |es| ==> IsCanonical(es[i].value)
    case _ => true
  }

  // ------------------------------------------------- contents of an object

  lemma {:induction false} MeaningOf(es: seq<Entry>, i: int)
    requires Distinct(es) && 0 <= i < |es|
    ensures es[i].key in MeaningEntries(es)
    ensures MeaningEntries(es)[es[i].key] == Meaning(es[i].value)
  {
    if i > 0 {
      assert es[1..][i - 1] == es[i];
      MeaningOf(es[1..], i - 1);
    }
  }

  lemma SameContent(xs: seq<Entry>, ys: seq<Entry>)
    requires Distinct(xs) && Distinct(ys) && multiset(xs) == multiset(ys)
    ensures MeaningEntries(xs) == MeaningEntries(ys)
  {
    var m, n := MeaningEntries(xs), MeaningEntries(ys);
    forall k | k in m ensures k in n && m[k] == n[k] {
      var i :| 0 <= i < |xs| && xs[i].key == k;
      assert xs[i] in multiset(ys);
      var j :| 0 <= j < |ys| && ys[j] == xs[i];
      MeaningOf(xs, i);
      MeaningOf(ys, j);
    }
    forall k | k in n ensures k in m {
      var j :| 0 <= j < |ys| && ys[j].key == k;
      assert ys[j] in multiset(xs);
      var i :| 0 <= i < |xs| && xs[i] == ys[j];
    }
  }

  lemma AscendingDistinct(es: seq<Entry>)
    requires Ascending(es)
    ensures Distinct(es)
  {
    AscendingOrdered(es);
  }

  // --------------------------------------------------- canonical keeps values

  /** `canonical` orders every object and changes no value. */
  lemma {:induction false} CanonicalKeeps(h: Host, v: JsValue)
    requires Proper(h, v)
    ensures IsCanonical(Canonical(v)) && Proper(h, Canonical(v))
    ensures Meaning(Canonical(v)) == Meaning(v)
    decreases v
  {
    match v
    case Arr(items) =>
      forall i | 0 <= i < |items|
        ensures IsCanonical(Canonical(items[i])) && Proper(h, Canonical(items[i]))
        ensures Meaning(Canonical(items[i])) == Meaning(items[i])
      {
        CanonicalKeeps(h, items[i]);
      }
      assert MeaningItems(CanonicalItems(items)) == MeaningItems(items);
    case Obj(es) =>
      forall i | 0 <= i < |es|
        ensures IsCanonical(Canonical(es[i].value)) && Proper(h, Canonical(es[i].value))
        ensures Meaning(Canonical(es[i].value)) == Meaning(es[i].value)
      {
        CanonicalKeeps(h, es[i].value);
      }
      CanonicalObject(h, es, CanonicalEntries(es));
    case _ =>
  }

  lemma CanonicalObject(h: Host, es: seq<Entry>, cs: seq<Entry>)
    requires Distinct(es) && |cs| == |es|
    requires forall i :: 0 <= i < |es| ==>
               && cs[i].key == es[i].key && Meaning(cs[i].value) == Meaning(es[i].value)
               && IsCanonical(cs[i].value) && Proper(h, cs[i].value)
    ensures var r := FromEntries(SortByKey(cs));
            && IsCanonical(Obj(r)) && Proper(h, Obj(r))
            && MeaningEntries(r) == MeaningEntries(es)
  {
    var r := FromEntries(SortByKey(cs));
    SameMeanings(es, cs);
    SortSorts(cs);
    SortHolds(cs);
    FromSorted(SortByKey(cs));
    AscendingOrdered(r);
    SameContent(r, cs);
    hide Meaning, MeaningEntries, Ascending, Ordered, FromEntries, SortByKey;
    forall i | 0 <= i < |r| ensures IsCanonical(r[i].value) && Proper(h, r[i].value) {
      assert r[i] in multiset(cs);
    }
  }

  lemma {:induction false} SameMeanings(es: seq<Entry>, cs: seq<Entry>)
    requires |cs| == |es|
    requires forall i :: 0 <= i < |es| ==>
               cs[i].key == es[i].key && Meaning(cs[i].value) == Meaning(es[i].value)
    ensures MeaningEntries(cs) == MeaningEntries(es)
  {
    if es != [] {
      SameMeanings(es[1..], cs[1..]);
    }
  }

  // ------------------------------------------- one canonical form per meaning

  /** Two canonical values that mean the same are the same. */
  lemma {:induction false} CanonicalUnique(a: JsValue, b: JsValue)
    requires IsCanonical(a) && IsCanonical(b) && Meaning(a) == Meaning(b)
    ensures a == b
    decreases a, 1
  {
    match a
    case Arr(items) =>
      assert b.Arr? && MeaningItems(items) == MeaningItems(b.items);
      forall i | 0 <= i < |items| ensures items[i] == b.items[i] {
        assert MeaningItems(items)[i] == MeaningItems(b.items)[i];
        CanonicalUnique(items[i], b.items[i]);
      }
    case Obj(es) =>
      assert b.Obj?;
      EntriesUnique(es, b.entries);
    case _ =>
  }

  lemma {:induction false} EntriesUnique(xs: seq<Entry>, ys: seq<Entry>)
    requires Ascending(xs) && Ascending(ys)
    requires forall i :: 0 <= i < |xs| ==> IsCanonical(xs[i].value)
    requires forall i :: 0 <= i < |ys| ==> IsCanonical(ys[i].value)
    requires MeaningEntries(xs) == MeaningEntries(ys)
    ensures xs == ys
    decreases xs, 2
  {
    if xs == [] {
      NoFields(ys);
    } else {
      assert xs[0].key in MeaningEntries(ys);
      SameHead(xs, ys);
      AscendingDistinct(xs);
      AscendingDistinct(ys);
      MeaningOf(xs, 0);
      MeaningOf(ys, 0);
      CanonicalUnique(xs[0].value, ys[0].value);
      TailMeaning(xs);
      TailMeaning(ys);
      EntriesUnique(xs[1..], ys[1..]);
      assert xs == [xs[0]] + xs[1..] && ys == [ys[0]] + ys[1..];
    }
  }

  lemma SameHead(xs: seq<Entry>, ys: seq<Entry>)
    requires Ascending(xs) && Ascending(ys) && xs != [] && ys != []
    requires MeaningEntries(xs) == MeaningEntries(ys)
    ensures xs[0].key == ys[0].key
  {
    assert xs[0].key in MeaningEntries(ys) && ys[0].key in MeaningEntries(xs);
    var i :| 0 <= i < |ys| && ys[i].key == xs[0].key;
    var j :| 0 <= j < |xs| && xs[j].key == ys[0].key;
    hide KeyBefore, MeaningEntries;
    KeyBeforeAsymmetric(xs[0].key, ys[0].key);
  }

  lemma NoFields(es: seq<Entry>)
    ensures MeaningEntries(es) == map[] ==> es == []
  {
    if es != [] {
      var k := es[0].key;
      assert k in MeaningEntries(es);
    }
  }

  lemma TailMeaning(es: seq<Entry>)
    requires es != [] && Distinct(es)
    ensures MeaningEntries(es) == MeaningEntries(es[1..])[es[0].key := Meaning(es[0].value)]
    ensures MeaningEntries(es[1..]) == MeaningEntries(es) - {es[0].key}
    ensures es[0].key !in MeaningEntries(es[1..])
  {
    var k, t := es[0].key, MeaningEntries(es[1..]);
    assert forall i :: 0 <= i < |es[1..]| ==> es[1..][i] == es[i + 1];
    var x := Meaning(es[0].value);
    assert MeaningEntries(es) == t[k := x];
    hide *;
    MapRemoves(t, k, x);
  }

  lemma MapRemoves(t: map<string, Value>, k: string, x: Value)
    requires k !in t
    ensures t[k := x] - {k} == t
  {
  }

  // ------------------------------------------------------------------ printing

  /** Printing sees no more of a value than its clean part. */
  lemma {:induction false} SerializeClean(v: JsValue, gap: string, indent: string)
    ensures Serialize(Clean(v), gap, indent) == Serialize(v, gap, indent)
    decreases v, 0
  {
    match v
    case Arr(items) => ItemsClean(items, gap, indent + gap);
    case Obj(es) => MembersClean(es, gap, indent + gap, true);
    case _ =>
  }

  lemma {:induction false} ItemsClean(items: seq<JsValue>, gap: string, inner: string)
    ensures Items(CleanItems(items), gap, inner) == Items(items, gap, inner)
    decreases items, 1
  {
    if items != [] {
      SerializeClean(items[0], gap, inner);
      ItemsClean(items[1..], gap, inner);
      assert CleanItems(items)[1..] == CleanItems(items[1..]);
    }
  }

  lemma {:induction false} MembersClean(es: seq<Entry>, gap: string, inner: string, first: bool)
    ensures Members(CleanEntries(es), gap, inner, first) == Members(es, gap, inner, first)
    decreases es, 1
  {
    if es != [] {
      MembersClean(es[1..], gap, inner, first);
      if es[0].value != Undefined {
        SerializeClean(es[0].value, gap, inner);
        MembersClean(es[1..], gap, inner, false);
        assert CleanEntries(es)[1..] == CleanEntries(es[1..]);
        assert Clean(es[0].value) != Undefined;
      }
    }
  }

  lemma {:induction false} CleanKeys(es: seq<Entry>, i: int) returns (j: int)
    requires 0 <= i < |CleanEntries(es)|
    ensures 0 <= j < |es| && es[j].value != Undefined
    ensures CleanEntries(es)[i] == Entry(es[j].key, Clean(es[j].value))
  {
    if es[0].value == Undefined {
      j := CleanKeys(es[1..], i);
      j := j + 1;
    } else if i == 0 {
      j := 0;
    } else {
      j := CleanKeys(es[1..], i - 1);
      j := j + 1;
    }
  }

  lemma {:induction false} CleanAscending(es: seq<Entry>)
    requires Ascending(es)
    ensures Ascending(CleanEntries(es))
  {
    if es != [] {
      CleanAscending(es[1..]);
      var r := CleanEntries(es[1..]);
      forall i | 0 <= i < |r| ensures KeyBefore(es[0].key, r[i].key) {
        var j := CleanKeys(es[1..], i);
        assert es[1..][j] == es[j + 1];
      }
      hide KeyBefore;
    }
  }

  /** The clean part keeps the key order and prints in full. */
  lemma {:induction false} CleanOrdered(es: seq<Entry>)
    requires Ordered(es)
    ensures Ordered(CleanEntries(es))
  {
    if es != [] {
      OrderedTail(es);
      CleanOrdered(es[1..]);
      var r := CleanEntries(es[1..]);
      hide IsIndex, IndexLess;
      forall i | 0 <= i < |r|
        ensures r[i].key != es[0].key
        ensures IsIndex(r[i].key) ==> IsIndex(es[0].key) && IndexLess(es[0].key, r[i].key)
      {
        var j := CleanKeys(es[1..], i);
        assert es[1..][j] == es[j + 1];
      }
    }
  }

  lemma {:induction false} CleanPrints(h: Host, v: JsValue)
    requires Proper(h, v)
    ensures Printable(h, Clean(v))
    ensures IsCanonical(v) ==> IsCanonical(Clean(v))
    decreases v
  {
    match v
    case Arr(items) =>
      forall i | 0 <= i < |items|
        ensures Printable(h, Clean(items[i])) && (IsCanonical(items[i]) ==> IsCanonical(Clean(items[i])))
      {
        CleanPrints(h, items[i]);
      }
    case Obj(es) =>
      CleanOrdered(es);
      if IsCanonical(v) {
        CleanAscending(es);
      }
      var r := CleanEntries(es);
      forall i | 0 <= i < |r|
        ensures Printable(h, r[i].value) && (IsCanonical(v) ==> IsCanonical(r[i].value))
      {
        var j := CleanKeys(es, i);
        CleanPrints(h, es[j].value);
      }
    case _ =>
  }

  /** What the clean part means is what printing leaves of the meaning. */
  lemma {:induction false} CleanMeaning(h: Host, v: JsValue)
    requires Proper(h, v)
    ensures Meaning(Clean(v)) == Printed(Meaning(v))
    decreases v, 0
  {
    match v
    case Arr(items) =>
      forall i | 0 <= i < |items| ensures Meaning(Clean(items[i])) == Printed(Meaning(items[i])) {
        CleanMeaning(h, items[i]);
      }
      assert MeaningItems(CleanItems(items)) == Printed(VArr(MeaningItems(items))).items;
    case Obj(es) => CleanFields(h, es);
    case _ =>
  }

  lemma {:induction false} CleanFields(h: Host, es: seq<Entry>)
    requires Distinct(es) && forall i :: 0 <= i < |es| ==> Proper(h, es[i].value)
    ensures MeaningEntries(CleanEntries(es)) == Printed(VObj(MeaningEntries(es))).fields
    decreases es, 1
  {
    if es != [] {
      CleanFields(h, es[1..]);
      TailMeaning(es);
      CleanMeaning(h, es[0].value);
      PrintedField(MeaningEntries(es[1..]), es[0].key, Meaning(es[0].value));
    }
  }

  lemma PrintedField(t: map<string, Value>, k: string, x: Value)
    requires k !in t
    ensures Printed(VObj(t[k := x])).fields ==
            if x == VUndefined then Printed(VObj(t)).fields else Printed(VObj(t)).fields[k := Printed(x)]
  {
  }

  // ------------------------------------------------------------------ the law

  /** The canonical text of a value is the text of a printable canonical value
      that means what printing leaves of it. */
  lemma CanonicalTextForm(h: Host, v: JsValue)
    requires Proper(h, v)
    ensures var c := Clean(Canonical(v));
            && CanonicalText(v) == Serialize(c, "", "")
            && Printable(h, c) && IsCanonical(c) && Meaning(c) == Printed(Meaning(v))
  {
    CanonicalKeeps(h, v);
    CleanPrints(h, Canonical(v));
    CleanMeaning(h, Canonical(v));
    SerializeClean(Canonical(v), "", "");
  }

  /** Printing is unambiguous. */
  lemma PrintInjective(h: Host, a: JsValue, b: JsValue)
    requires Printable(h, a) && Printable(h, b) && Serialize(a, "", "") == Serialize(b, "", "")
    ensures a == b
  {
    ParseInvertsPrint(h, a, "", "");
    ParseInvertsPrint(h, b, "", "");
  }

  /** Two values have one canonical text exactly when printing leaves the same of
      both, whatever the order of their keys. */
  lemma CanonicalTextComplete(h: Host, a: JsValue, b: JsValue)
    requires Proper(h, a) && Proper(h, b)
    ensures CanonicalText(a) == CanonicalText(b) <==> Printed(Meaning(a)) == Printed(Meaning(b))
  {
    CanonicalTextForm(h, a);
    CanonicalTextForm(h, b);
    var c, d := Clean(Canonical(a)), Clean(Canonical(b));
    hide CanonicalText, Canonical, Clean, Serialize, Meaning, Printed, Printable, IsCanonical;
    if Serialize(c, "", "") == Serialize(d, "", "") {
      PrintInjective(h, c, d);
    }
    if Meaning(c) == Meaning(d) {
      CanonicalUnique(c, d);
    }
  }

  /** Equal digests mean equal values, or name a collision of the hash. */
  lemma DigestComplete(h: Host, a: JsValue, b: JsValue)
    requires Proper(h, a) && Proper(h, b)
    ensures Printed(Meaning(a)) == Printed(Meaning(b)) ==> Digest(h, a) == Digest(h, b)
    ensures Sound(h) && Digest(h, a) == Digest(h, b) ==>
              || Printed(Meaning(a)) == Printed(Meaning(b))
              || Collide(h, h.encode(CanonicalText(a)), h.encode(CanonicalText(b)))
  {
    CanonicalTextComplete(h, a, b);
    if Sound(h) && h.encode(CanonicalText(a)) == h.encode(CanonicalText(b)) {
      assert h.decode(h.encode(CanonicalText(a))) == CanonicalText(a);
    }
  }

  /** A value that prints in full keeps its whole meaning. */
  lemma {:induction false} PrintableMeaning(h: Host, v: JsValue)
    requires Printable(h, v)
    ensures Proper(h, v) && Clean(v) == v
    decreases v, 0
  {
    match v
    case Arr(items) =>
      forall i | 0 <= i < |items| ensures Proper(h, items[i]) && Clean(items[i]) == items[i] {
        PrintableMeaning(h, items[i]);
      }
      assert CleanItems(items) == items;
    case Obj(es) => PrintableFields(h, es);
    case _ =>
  }

  lemma {:induction false} PrintableFields(h: Host, es: seq<Entry>)
    requires forall i :: 0 <= i < |es| ==> Printable(h, es[i].value)
    ensures CleanEntries(es) == es
    ensures forall i :: 0 <= i < |es| ==> Proper(h, es[i].value)
    decreases es, 1
  {
    if es != [] {
      PrintableMeaning(h, es[0].value);
      PrintableFields(h, es[1..]);
      assert es == [es[0]] + es[1..];
    }
  }

  /** On values without infinities the law is the plain one: same text exactly
      when equal up to key order. */
  lemma FiniteTextComplete(h: Host, a: JsValue, b: JsValue)
    requires Printable(h, a) && Printable(h, b)
    ensures CanonicalText(a) == CanonicalText(b) <==> Meaning(a) == Meaning(b)
  {
    PrintableMeaning(h, a);
    PrintableMeaning(h, b);
    CleanMeaning(h, a);
    CleanMeaning(h, b);
    CanonicalTextComplete(h, a, b);
  }

  /** The plain law fails on an infinity: text such as [1e999] and the text [null]
      parse to different values with one canonical text. */
  lemma InfinityPrintsAsNull(h: Host)
    requires h.numeral("1e999") == Infinite(false)
    ensures Parse(h, "1e999") == Some(Number(Infinite(false))) && Parse(h, "null") == Some(Null)
    ensures CanonicalText(Number(Infinite(false))) == CanonicalText(Null)
    ensures Meaning(Number(Infinite(false))) != Meaning(Null)
  {
    assert "1e999"[..5] == "1e999" && "1e999"[5..] == "";
    NumeralLengthOf("1e999", "");
    assert "1e999" + "" == "1e999";
    DigitsOf1e999();
    assert SkipSpace("1e999") == "1e999";
    ParseWordStep(h, "null", Null, "");
    assert "null" + "" == "null";
  }

  lemma DigitsOf1e999()
    ensures IsNumeral("1e999")
  {
    var s := "1e999";
    assert s[1..] == "e999" && s[0] == '1';
    assert DigitsLength(s) == 1 by {
      assert DigitsLength(s[1..]) == 0;
    }
    assert "e999"[1..] == "999";
    assert AllDigits("999");
  }
}
