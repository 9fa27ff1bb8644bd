/** `canonical`, the text it is compared and hashed by, and `digest`. */
module CanonicalJson {
  import opened Hosts
  import opened Json

  function Insert(e: Entry, es: seq<Entry>): seq<Entry> {
    if es == [] || Less(e.key, es[0].key) then [e] + es else [es[0]] + Insert(e, es[1..])
  }

  /** The entries in the order of `Object.keys(value).sort()`. */
  function SortByKey(es: seq<Entry>): seq<Entry> {
    if es == [] then [] else Insert(es[0], SortByKey(es[1..]))
  }

  function Canonical(v: JsValue): JsValue
    decreases v, 0
  {
    match v
    case Arr(items) => Arr(CanonicalItems(items))
    case Obj(es) => Obj(FromEntries(SortByKey(CanonicalEntries(es))))
    case _ => v
  }

  function CanonicalItems(items: seq<JsValue>): (r: seq<JsValue>)
    ensures |r| == |items|
    ensures forall i :: 0 <= i < |items| ==> r[i] == Canonical(items[i])
    decreases items, 1
  {
    if items == [] then [] else [Canonical(items[0])] + CanonicalItems(items[1..])
  }

  function CanonicalEntries(es: seq<Entry>): (r: seq<Entry>)
    ensures |r| == |es|
    ensures forall i :: 0 <= i < |es| ==> r[i] == Entry(es[i].key, Canonical(es[i].value))
    decreases es, 1
  {
    if es == [] then [] else [Entry(es[0].key, Canonical(es[0].value))] + CanonicalEntries(es[1..])
  }

  /** `JSON.stringify(canonical(v))`. */
  function CanonicalText(v: JsValue): string {
    Serialize(Canonical(v), "", "")
  }

  /** `digest(v)` of a value, and `fileDigest` of raw content. */
  function Digest(h: Host, v: JsValue): string {
    h.sha256(h.encode(CanonicalText(v)))
  }

  function UnsignedDigest(h: Host, v: JsValue, field: string): string
    requires v.Obj?
  {
    Digest(h, Obj(Without(v.entries, field)))
  }

  // --------------------------------------------------------------- meaning

  /** A value without any order on its keys. */
  datatype Value =
    | VUndefined
    | VNull
    | VBool(b: bool)
    | VNumber(n: JsNumber)
    | VStr(s: string)
    | VArr(items: seq<Value>)
    | VObj(fields: map<string, Value>)

  function Meaning(v: JsValue): Value
    decreases v, 0
  {
    match v
    case Undefined => VUndefined
    case Null => VNull
    case Bool(b) => VBool(b)
    case Number(n) => VNumber(n)
    case Str(s) => VStr(s)
    case Arr(items) => VArr(MeaningItems(items))
    case Obj(es) => VObj(MeaningEntries(es))
  }

  function MeaningItems(items: seq<JsValue>): (r: seq<Value>)
    ensures |r| == |items|
    ensures forall i :: 0 <= i < |items| ==> r[i] == Meaning(items[i])
    decreases items, 1
  {
    if items == [] then [] else [Meaning(items[0])] + MeaningItems(items[1..])
  }

  function MeaningEntries(es: seq<Entry>): (r: map<string, Value>)
    ensures forall k :: k in r <==> exists i :: 0 <= i < |es| && es[i].key == k
    decreases es, 1
  {
    if es == [] then map[]
    else
      var r := MeaningEntries(es[1..])[es[0].key := Meaning(es[0].value)];
      assert forall i :: 0 < i < |es| ==> es[i] == es[1..][i - 1];
      r
  }

  /** What is left of a meaning once the value has been printed: an undefined
      field is gone, and an undefined element or an infinity is null. */
  function Printed(v: Value): Value
    decreases v
  {
    match v
    case VUndefined => VNull
    case VNumber(n) => if n.Finite? then v else VNull
    case VArr(items) => VArr(seq(|items|, i requires 0 <= i < |items| => Printed(items[i])))
    case VObj(m) => VObj(map k | k in m && m[k] != VUndefined :: Printed(m[k]))
    case _ => v
  }
}
