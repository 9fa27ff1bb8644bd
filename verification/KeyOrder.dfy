/** The order in which a canonical object lists its keys is a strict total order,
    and building an object from sorted entries follows it. */
module KeyOrder {
  import opened Json
  import opened CanonicalJson
  import opened JsonRoundTrip

  /** Indices by number, then the other keys by code units. */
  predicate KeyBefore(a: string, b: string) {
    if IsIndex(a) then !IsIndex(b) || IndexLess(a, b) else !IsIndex(b) && Less(a, b)
  }

  /** Strictly ascending in `KeyBefore`. */
  predicate Ascending(es: seq<Entry>) {
    forall i, j :: 0 <= i < j < |es| ==> KeyBefore(es[i].key, es[j].key)
  }

  /** Strictly ascending by code units, the order of `sort()`. */
  predicate SortedUnits(es: seq<Entry>) {
    forall i, j :: 0 <= i < j < |es| ==> Less(es[i].key, es[j].key)
  }

  lemma {:induction false} LessTransitive(a: string, b: string, c: string)
    requires Less(a, b) && Less(b, c)
    ensures Less(a, c)
  {
    if a != "" && a[0] == b[0] && b[0] == c[0] {
      LessTransitive(a[1..], b[1..], c[1..]);
    }
  }

  lemma RankInjective(c: char, d: char)
    ensures Rank(c) == Rank(d) ==> c == d
  {
  }

  lemma {:induction false} LessTotal(a: string, b: string)
    ensures Less(a, b) || a == b || Less(b, a)
  {
    if a != "" && b != "" {
      RankInjective(a[0], b[0]);
      if a[0] == b[0] {
        LessTotal(a[1..], b[1..]);
        assert a == [a[0]] + a[1..] && b == [b[0]] + b[1..];
      }
    }
  }

  lemma KeyBeforeTransitive(a: string, b: string, c: string)
    requires KeyBefore(a, b) && KeyBefore(b, c)
    ensures KeyBefore(a, c)
  {
    hide IsIndex, Less;
    if Less(a, b) && Less(b, c) {
      LessTransitive(a, b, c);
    }
  }

  lemma KeyBeforeIrreflexive(a: string)
    ensures !KeyBefore(a, a)
  {
    LessAsymmetric(a, a);
  }

  lemma KeyBeforeAsymmetric(a: string, b: string)
    ensures !(KeyBefore(a, b) && KeyBefore(b, a))
  {
    hide KeyBefore;
    KeyBeforeIrreflexive(a);
    if KeyBefore(a, b) && KeyBefore(b, a) {
      KeyBeforeTransitive(a, b, a);
    }
  }

  // ---------------------------------------------------------------- sorting

  lemma {:induction false} InsertHolds(e: Entry, es: seq<Entry>)
    ensures multiset(Insert(e, es)) == multiset{e} + multiset(es)
  {
    if es == [] || Less(e.key, es[0].key) {
    } else {
      InsertHolds(e, es[1..]);
      assert es == [es[0]] + es[1..];
    }
  }

  lemma {:induction false} SortHolds(es: seq<Entry>)
    ensures multiset(SortByKey(es)) == multiset(es)
  {
    if es != [] {
      SortHolds(es[1..]);
      InsertHolds(es[0], SortByKey(es[1..]));
      assert es == [es[0]] + es[1..];
    }
  }

  lemma {:induction false} InsertSorted(e: Entry, es: seq<Entry>)
    requires SortedUnits(es)
    requires forall i :: 0 <= i < |es| ==> es[i].key != e.key
    ensures SortedUnits(Insert(e, es))
  {
    if es == [] {
    } else if Less(e.key, es[0].key) {
      forall j | 0 < j < |es| ensures Less(e.key, es[j].key) {
        LessTransitive(e.key, es[0].key, es[j].key);
      }
    } else {
      LessTotal(e.key, es[0].key);
      InsertSorted(e, es[1..]);
      InsertHolds(e, es[1..]);
      var r := Insert(e, es[1..]);
      forall j | 0 <= j < |r| ensures Less(es[0].key, r[j].key) {
        assert r[j] in multiset(r);
        assert r[j] in multiset{e} + multiset(es[1..]);
        assert r[j] == e || r[j] in es[1..];
      }
    }
  }

  lemma {:induction false} SortSorts(es: seq<Entry>)
    requires Distinct(es)
    ensures SortedUnits(SortByKey(es))
  {
    if es != [] {
      SortSorts(es[1..]);
      SortHolds(es[1..]);
      var r := SortByKey(es[1..]);
      forall i | 0 <= i < |r| ensures r[i].key != es[0].key {
        assert r[i] in multiset(r);
        assert r[i] in multiset(es[1..]);
        assert r[i] in es[1..];
      }
      InsertSorted(es[0], r);
    }
  }

  // ------------------------------------------------------ building an object

  lemma {:induction false} PutHolds(es: seq<Entry>, k: string, v: JsValue)
    requires forall i :: 0 <= i < |es| ==> es[i].key != k
    ensures multiset(Put(es, k, v)) == multiset(es) + multiset{Entry(k, v)}
  {
    if es != [] && !(IsIndex(k) && (!IsIndex(es[0].key) || IndexLess(k, es[0].key))) {
      PutHolds(es[1..], k, v);
      assert es == [es[0]] + es[1..];
    }
  }

  lemma {:induction false} PutAscending(es: seq<Entry>, k: string, v: JsValue)
    requires Ascending(es)
    requires forall i :: 0 <= i < |es| ==> Less(es[i].key, k)
    ensures Ascending(Put(es, k, v))
    ensures multiset(Put(es, k, v)) == multiset(es) + multiset{Entry(k, v)}
  {
    forall i | 0 <= i < |es| ensures es[i].key != k {
      LessAsymmetric(k, k);
    }
    PutHolds(es, k, v);
    if es == [] {
    } else if IsIndex(k) && (!IsIndex(es[0].key) || IndexLess(k, es[0].key)) {
      forall j | 0 < j < |es| ensures KeyBefore(k, es[j].key) {
        KeyBeforeTransitive(k, es[0].key, es[j].key);
      }
    } else {
      LessTotal(k, es[0].key);
      assert KeyBefore(es[0].key, k);
      PutAscending(es[1..], k, v);
      var r := Put(es[1..], k, v);
      hide Put, KeyBefore, IsIndex, Less, IndexLess;
      forall j | 0 <= j < |r| ensures KeyBefore(es[0].key, r[j].key) {
        assert r[j] in multiset(r);
        assert r[j] == Entry(k, v) || r[j] in es[1..];
      }
    }
  }

  lemma {:induction false} FromSorted(es: seq<Entry>)
    requires SortedUnits(es)
    ensures Ascending(FromEntries(es)) && multiset(FromEntries(es)) == multiset(es)
  {
    if es != [] {
      var n := |es| - 1;
      var front := es[..n];
      FromSorted(front);
      var r := FromEntries(front);
      assert FromEntries(es) == Put(r, es[n].key, es[n].value);
      hide Put, Less, KeyBefore, FromEntries;
      AllBefore(r, front, es[n].key);
      PutAscending(r, es[n].key, es[n].value);
      assert es == front + [es[n]];
    }
  }

  lemma AllBefore(r: seq<Entry>, front: seq<Entry>, k: string)
    requires multiset(r) == multiset(front)
    requires forall i :: 0 <= i < |front| ==> Less(front[i].key, k)
    ensures forall i :: 0 <= i < |r| ==> Less(r[i].key, k)
  {
    forall i | 0 <= i < |r| ensures Less(r[i].key, k) {
      assert r[i] in multiset(front);
    }
  }

  /** An ascending list is what JavaScript calls ordered. */
  lemma AscendingOrdered(es: seq<Entry>)
    requires Ascending(es)
    ensures Ordered(es)
  {
    forall i, j | 0 <= i < j < |es|
      ensures es[i].key != es[j].key
      ensures IsIndex(es[j].key) ==> IsIndex(es[i].key) && IndexLess(es[i].key, es[j].key)
    {
      KeyBeforeIrreflexive(es[i].key);
    }
  }
}
