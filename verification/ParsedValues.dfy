/** What `JSON.parse` returns is a proper JavaScript value with nothing undefined
    in it. */
module ParsedValues {
  import opened Outcome
  import opened Hosts
  import opened Json
  import opened JsonParser
  import opened JsonRoundTrip
  import opened KeyOrder

  /** Nothing undefined at any depth. */
  ghost predicate Defined(v: JsValue)
    decreases v
  {
    match v
    case Undefined => false
    case Arr(items) => forall i :: 0 <= i < |items| ==> Defined(items[i])
    case Obj(es) => forall i :: 0 <= i < |es| ==> Defined(es[i].value)
    case _ => true
  }

  lemma IndexLessTotal(a: string, b: string)
    ensures IndexLess(a, b) || a == b || IndexLess(b, a)
  {
    LessTotal(a, b);
  }

  lemma IndexLessTransitive(a: string, b: string, c: string)
    requires IndexLess(a, b) && IndexLess(b, c)
    ensures IndexLess(a, c)
  {
    if Less(a, b) && Less(b, c) {
      LessTransitive(a, b, c);
    }
  }

  lemma {:induction false} PutMembers(es: seq<Entry>, k: string, v: JsValue, e: Entry)
    requires e in Put(es, k, v)
    ensures e == Entry(k, v) || e in es
  {
    if es != [] && e in Put(es[1..], k, v) {
      PutMembers(es[1..], k, v, e);
    }
  }

  /** Assigning a property keeps the order of the object. */
  lemma {:induction false} PutOrdered(es: seq<Entry>, k: string, v: JsValue)
    requires Ordered(es)
    ensures Ordered(Put(es, k, v))
  {
    hide IsIndex, IndexLess;
    if es == [] {
    } else if es[0].key == k {
    } else if IsIndex(k) && (!IsIndex(es[0].key) || IndexLess(k, es[0].key)) {
      forall j | 0 < j < |es|
        ensures es[j].key != k && (IsIndex(es[j].key) ==> IndexLess(k, es[j].key))
      {
        if IsIndex(es[j].key) {
          IndexLessTransitive(k, es[0].key, es[j].key);
          IndexLessAsymmetric(k, k);
        }
      }
      if IsIndex(es[0].key) {
        IndexLessAsymmetric(k, k);
      }
    } else {
      OrderedTail(es);
      PutOrdered(es[1..], k, v);
      IndexLessTotal(k, es[0].key);
      var r := Put(es[1..], k, v);
      hide Put;
      forall j | 0 <= j < |r|
        ensures r[j].key != es[0].key
        ensures IsIndex(r[j].key) ==> IsIndex(es[0].key) && IndexLess(es[0].key, r[j].key)
      {
        PutMembers(es[1..], k, v, r[j]);
      }
    }
  }

  lemma {:induction false} FromEntriesProper(h: Host, es: seq<Entry>)
    requires forall i :: 0 <= i < |es| ==> Proper(h, es[i].value) && Defined(es[i].value)
    ensures Proper(h, Obj(FromEntries(es))) && Defined(Obj(FromEntries(es)))
  {
    if es != [] {
      var n := |es| - 1;
      FromEntriesProper(h, es[..n]);
      var front := FromEntries(es[..n]);
      PutOrdered(front, es[n].key, es[n].value);
      var r := Put(front, es[n].key, es[n].value);
      forall i | 0 <= i < |r| ensures Proper(h, r[i].value) && Defined(r[i].value) {
        PutMembers(front, es[n].key, es[n].value, r[i]);
      }
    }
  }

  lemma ArrProper(h: Host, items: seq<JsValue>)
    requires forall i :: 0 <= i < |items| ==> Proper(h, items[i]) && Defined(items[i])
    ensures Proper(h, Arr(items)) && Defined(Arr(items))
  {
  }

  lemma {:induction false} ParseValueProper(h: Host, text: string)
    requires Sound(h)
    ensures var r := ParseValue(h, text);
            r.Some? ==> Proper(h, r.value.value) && Defined(r.value.value)
    decreases |text|, 0
  {
    hide ParseMembers, ParseItems, ParseChars, FromEntries, Stable, IsNumeral;
    var s := SkipSpace(text);
    if s == "" {
    } else if s[0] == '{' {
      ParseMembersProper(h, s[1..]);
      var body, r := SkipSpace(s[1..]), ParseMembers(h, s[1..]);
      if body != "" && body[0] == '}' {
        assert ParseValue(h, text).value.value == Obj([]);
      } else if r.Some? {
        FromEntriesProper(h, r.value.value);
        assert ParseValue(h, text).value.value == Obj(FromEntries(r.value.value));
      }
    } else if s[0] == '[' {
      ParseItemsProper(h, s[1..]);
      var body, r := SkipSpace(s[1..]), ParseItems(h, s[1..]);
      if body != "" && body[0] == ']' {
        assert ParseValue(h, text).value.value == Arr([]);
      } else if r.Some? {
        ArrProper(h, r.value.value);
        assert ParseValue(h, text).value.value == Arr(r.value.value);
      }
    } else if s[0] == '"' {
    } else if s[0] == 't' || s[0] == 'f' || s[0] == 'n' {
    } else {
      var n := NumeralLength(s);
      assert Stable(h, h.numeral(s[..n]));
    }
  }

  lemma {:induction false} ParseItemsProper(h: Host, text: string)
    requires Sound(h)
    ensures var r := ParseItems(h, text);
            r.Some? ==> forall i :: 0 <= i < |r.value.value| ==>
              Proper(h, r.value.value[i]) && Defined(r.value.value[i])
    decreases |text|, 1
  {
    hide Proper, Defined, ParseValue;
    var v := ParseValue(h, text);
    ParseValueProper(h, text);
    if v.Some? {
      var s := SkipSpace(v.value.rest);
      if s != "" && s[0] == ',' {
        ParseItemsProper(h, s[1..]);
      }
    }
  }

  lemma {:induction false} ParseMembersProper(h: Host, text: string)
    requires Sound(h)
    ensures var r := ParseMembers(h, text);
            r.Some? ==> forall i :: 0 <= i < |r.value.value| ==>
              Proper(h, r.value.value[i].value) && Defined(r.value.value[i].value)
    decreases |text|, 1
  {
    hide Proper, Defined, ParseMember;
    var e := ParseMember(h, text);
    ParseMemberProper(h, text);
    if e.Some? {
      var s := SkipSpace(e.value.rest);
      if s != "" && s[0] == ',' {
        ParseMembersProper(h, s[1..]);
      }
    }
  }

  lemma {:induction false} ParseMemberProper(h: Host, text: string)
    requires Sound(h)
    ensures var r := ParseMember(h, text);
            r.Some? ==> Proper(h, r.value.value.value) && Defined(r.value.value.value)
    decreases |text|, 0
  {
    hide Proper, Defined, ParseValue, ParseChars;
    var s := SkipSpace(text);
    if s != "" && s[0] == '"' {
      var k := ParseChars(s[1..]);
      if k.Some? {
        var t := SkipSpace(k.value.rest);
        if t != "" && t[0] == ':' {
          ParseValueProper(h, t[1..]);
        }
      }
    }
  }

  /** `JSON.parse` returns proper, fully defined values. */
  lemma ParseProper(h: Host, text: string)
    requires Sound(h)
    ensures Parse(h, text).Some? ==> Proper(h, Parse(h, text).value) && Defined(Parse(h, text).value)
  {
    hide ParseValue, Proper, Defined;
    ParseValueProper(h, text);
  }
}
