/** What canonical equality of two records says about their single fields. */
module RecordedFields {
  import opened Hosts
  import opened Json
  import opened CanonicalJson
  import opened CanonicalLaw
  import opened ParsedValues
  import opened Artifacts

  lemma {:induction false} LookupMeaning(es: seq<Entry>, k: string)
    requires Distinct(es)
    ensures Lookup(es, k) == Undefined ==> k !in MeaningEntries(es) || MeaningEntries(es)[k] == VUndefined
    ensures Lookup(es, k) != Undefined ==> k in MeaningEntries(es) && MeaningEntries(es)[k] == Meaning(Lookup(es, k))
  {
    if es != [] {
      TailMeaning(es);
      LookupMeaning(es[1..], k);
    }
  }

  lemma MeaningUndefined(v: JsValue)
    ensures Meaning(v) == VUndefined <==> v == Undefined
  {
  }

  /** The printed meaning of an object has the printed meaning of each field. */
  lemma PrintedGet(v: JsValue, k: string)
    requires v.Obj? && Distinct(v.entries)
    ensures Printed(Meaning(v)).VObj?
    ensures k in Printed(Meaning(v)).fields <==> Get(v, k) != Undefined
    ensures Get(v, k) != Undefined ==> Printed(Meaning(v)).fields[k] == Printed(Meaning(Get(v, k)))
  {
    LookupMeaning(v.entries, k);
    MeaningUndefined(Lookup(v.entries, k));
    hide Lookup, MeaningEntries;
  }

  lemma PrintedString(v: JsValue, s: string)
    ensures Printed(Meaning(v)) == VStr(s) <==> v == Str(s)
  {
  }

  lemma PrintedObject(v: JsValue)
    ensures Printed(Meaning(v)).VObj? <==> v.Obj?
  {
  }

  /** Records with one canonical text agree on every field, up to what printing
      shows of it. */
  lemma FieldAgrees(h: Host, v: JsValue, o: JsValue, k: string)
    requires Proper(h, v) && Proper(h, o) && o.Obj? && Printed(Meaning(v)) == Printed(Meaning(o))
    ensures v.Obj? && (Get(v, k) == Undefined <==> Get(o, k) == Undefined)
    ensures Get(v, k) != Undefined ==> Printed(Meaning(Get(v, k))) == Printed(Meaning(Get(o, k)))
  {
    PrintedObject(v);
    PrintedObject(o);
    PrintedGet(v, k);
    PrintedGet(o, k);
    hide Get, Meaning, Printed;
  }

  /** In particular on every field that is a string. */
  lemma StringAgrees(h: Host, v: JsValue, o: JsValue, k: string, s: string)
    requires Proper(h, v) && Proper(h, o) && o.Obj? && Printed(Meaning(v)) == Printed(Meaning(o))
    ensures Get(v, k) == Str(s) <==> Get(o, k) == Str(s)
  {
    FieldAgrees(h, v, o, k);
    PrintedString(Get(v, k), s);
    PrintedString(Get(o, k), s);
    hide Get, Meaning, Printed;
  }

  ghost predicate OnlyStrings(es: seq<Entry>) {
    forall i :: 0 <= i < |es| ==> es[i].value.Str?
  }

  lemma {:induction false} LookupEntry(es: seq<Entry>, e: Entry)
    requires Distinct(es) && e.value != Undefined
    ensures Lookup(es, e.key) == e.value <==> e in es
  {
    if es != [] {
      LookupEntry(es[1..], e);
      assert forall i :: 0 <= i < |es| - 1 ==> es[1..][i] == es[i + 1];
      assert es == [es[0]] + es[1..];
      if es[0].key == e.key {
        assert e !in es[1..];
      }
    }
  }

  lemma EntryAgrees(h: Host, v: JsValue, o: JsValue, e: Entry)
    requires Proper(h, v) && Proper(h, o) && v.Obj? && o.Obj? && Printed(Meaning(v)) == Printed(Meaning(o))
    requires e.value.Str?
    ensures e in v.entries <==> e in o.entries
  {
    StringAgrees(h, v, o, e.key, e.value.s);
    LookupEntry(v.entries, e);
    LookupEntry(o.entries, e);
    hide Lookup, Meaning, Printed;
  }

  /** When one of them holds only strings, both have the same entries. */
  lemma EntriesAgree(h: Host, v: JsValue, o: JsValue)
    requires Proper(h, v) && Defined(v) && Proper(h, o) && o.Obj? && OnlyStrings(o.entries)
    requires Printed(Meaning(v)) == Printed(Meaning(o))
    ensures v.Obj? && forall e :: e in v.entries <==> e in o.entries
  {
    PrintedObject(v);
    PrintedObject(o);
    hide Meaning, Printed;
    forall e | e in v.entries ensures e.value.Str? {
      ValueIsString(h, v, o, e);
    }
    forall e | e in o.entries ensures e.value.Str? {
      var i :| 0 <= i < |o.entries| && o.entries[i] == e;
    }
    forall e ensures e in v.entries <==> e in o.entries {
      if e.value.Str? {
        EntryAgrees(h, v, o, e);
      }
    }
  }

  lemma ValueIsString(h: Host, v: JsValue, o: JsValue, e: Entry)
    requires Proper(h, v) && Defined(v) && v.Obj? && Proper(h, o) && o.Obj? && OnlyStrings(o.entries)
    requires Printed(Meaning(v)) == Printed(Meaning(o)) && e in v.entries
    ensures e.value.Str?
  {
    var i :| 0 <= i < |v.entries| && v.entries[i] == e;
    assert e.value != Undefined;
    LookupEntry(v.entries, e);
    FieldAgrees(h, v, o, e.key);
    if Get(o, e.key) != Undefined {
      LookupFound(o.entries, e.key);
    }
    var x := Get(o, e.key);
    assert x.Str?;
    PrintedString(e.value, x.s);
    PrintedString(x, x.s);
  }
}
