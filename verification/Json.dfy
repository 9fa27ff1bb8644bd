/** JavaScript values as the scripts use them, their property order, and
    `JSON.stringify`. */
module Json {
  import opened Hosts

  datatype JsValue =
    | Undefined
    | Null
    | Bool(b: bool)
    | Number(n: JsNumber)
    | Str(s: string)
    | Arr(items: seq<JsValue>)
    | Obj(entries: seq<Entry>)

  datatype Entry = Entry(key: string, value: JsValue)

  // ------------------------------------------------------------- key order

  /** The place of a character when strings are compared by UTF-16 code units:
      characters above U+FFFF start with a surrogate. */
  function Rank(c: char): int {
    var n := c as int;
    if n < 0xD800 then n
    else if n >= 0x10000 then n - 0x10000 + 0xD800
    else n + 0x200000
  }

  /** `a < b` on strings, as `sort()` uses it. */
  predicate Less(a: string, b: string) {
    b != "" && (a == "" || Rank(a[0]) < Rank(b[0]) || (a[0] == b[0] && Less(a[1..], b[1..])))
  }

  /** An array index: the keys that objects list first, in numeric order. */
  predicate IsIndex(k: string) {
    && 1 <= |k| <= 10
    && AllDigits(k)
    && (|k| > 1 ==> k[0] != '0')
    && (|k| == 10 ==> !Less("4294967294", k))
  }

  predicate IndexLess(a: string, b: string) {
    |a| < |b| || (|a| == |b| && Less(a, b))
  }

  // --------------------------------------------------------------- objects

  function KeyAt(es: seq<Entry>, k: string): (i: int)
    ensures -1 <= i < |es|
    ensures i >= 0 ==> es[i].key == k
    ensures i == -1 ==> forall j :: 0 <= j < |es| ==> es[j].key != k
  {
    if es == [] then -1
    else if es[0].key == k then 0
    else
      var i := KeyAt(es[1..], k);
      if i == -1 then -1 else i + 1
  }

  /** Assigning a property: an existing one keeps its place, a new index goes to
      its numeric place, any other new key goes last. */
  function Put(es: seq<Entry>, k: string, v: JsValue): seq<Entry> {
    if es == [] then [Entry(k, v)]
    else if es[0].key == k then [Entry(k, v)] + es[1..]
    else if IsIndex(k) && (!IsIndex(es[0].key) || IndexLess(k, es[0].key)) then [Entry(k, v)] + es
    else [es[0]] + Put(es[1..], k, v)
  }

  /** `Object.fromEntries`, and what an object literal or `JSON.parse` builds. */
  function FromEntries(es: seq<Entry>): seq<Entry> {
    if es == [] then []
    else Put(FromEntries(es[..|es| - 1]), es[|es| - 1].key, es[|es| - 1].value)
  }

  function Lookup(es: seq<Entry>, k: string): JsValue {
    if es == [] then Undefined
    else if es[0].key == k then es[0].value
    else Lookup(es[1..], k)
  }

  /** `value[key]`, own properties only. */
  function Get(v: JsValue, k: string): JsValue {
    if v.Obj? then Lookup(v.entries, k) else Undefined
  }

  function Without(es: seq<Entry>, k: string): seq<Entry> {
    if es == [] then []
    else if es[0].key == k then Without(es[1..], k)
    else [es[0]] + Without(es[1..], k)
  }

  predicate Distinct(es: seq<Entry>) {
    forall i, j :: 0 <= i < j < |es| ==> es[i].key != es[j].key
  }

  /** The order in which JavaScript lists own keys: indices ascending, then the
      others in any order; every key once. */
  predicate Ordered(es: seq<Entry>) {
    && Distinct(es)
    && forall i, j :: 0 <= i < j < |es| && IsIndex(es[j].key) ==>
         IsIndex(es[i].key) && IndexLess(es[i].key, es[j].key)
  }

  /** The values a running script can hold. */
  ghost predicate Proper(h: Host, v: JsValue)
    decreases v
  {
    match v
    case Number(n) => Stable(h, n)
    case Arr(items) => forall i :: 0 <= i < |items| ==> Proper(h, items[i])
    case Obj(es) => Ordered(es) && forall i :: 0 <= i < |es| ==> Proper(h, es[i].value)
    case _ => true
  }

  // -------------------------------------------------------- JSON.stringify

  function HexDigit(n: int): char
    requires 0 <= n < 16
  {
    if n < 10 then ('0' as int + n) as char else ('a' as int + n - 10) as char
  }

  /** One character of a string, section 7 of RFC 8259 as ECMAScript prints it. */
  function Escape(c: char): string {
    if c == '"' then "\\\""
    else if c == '\\' then "\\\\"
    else if c as int == 8 then "\\b"
    else if c == '\t' then "\\t"
    else if c == '\n' then "\\n"
    else if c as int == 12 then "\\f"
    else if c == '\r' then "\\r"
    else if c as int < 32 then "\\u00" + [HexDigit(c as int / 16), HexDigit(c as int % 16)]
    else [c]
  }

  function Escaped(s: string): string {
    if s == "" then "" else Escape(s[0]) + Escaped(s[1..])
  }

  function Quote(s: string): string {
    "\"" + Escaped(s) + "\""
  }

  /** The line break and indentation in front of each element. */
  function Break(gap: string, indent: string): string {
    if gap == "" then "" else "\n" + indent
  }

  /** `JSON.stringify(v, null, gap)` at indentation `indent`. An undefined value
      prints as null in an array and is skipped in an object. */
  function Serialize(v: JsValue, gap: string, indent: string): string
    decreases v, 0
  {
    match v
    case Undefined => "null"
    case Null => "null"
    case Bool(b) => if b then "true" else "false"
    case Number(n) => if n.Finite? then n.text else "null"
    case Str(s) => Quote(s)
    case Arr(items) =>
      if items == [] then "[]"
      else "[" + Items(items, gap, indent + gap) + Break(gap, indent) + "]"
    case Obj(es) =>
      var body := Members(es, gap, indent + gap, true);
      if body == "" then "{}" else "{" + body + Break(gap, indent) + "}"
  }

  function Items(items: seq<JsValue>, gap: string, inner: string): string
    decreases items, 1
  {
    if items == [] then ""
    else
      Break(gap, inner) + Serialize(items[0], gap, inner)
      + (if |items| == 1 then "" else "," + Items(items[1..], gap, inner))
  }

  function Members(es: seq<Entry>, gap: string, inner: string, first: bool): string
    decreases es, 1
  {
    if es == [] then ""
    else if es[0].value == Undefined then Members(es[1..], gap, inner, first)
    else
      (if first then "" else ",") + Break(gap, inner) + Member(es[0], gap, inner)
      + Members(es[1..], gap, inner, false)
  }

  function Member(e: Entry, gap: string, inner: string): string
    decreases e, 0
  {
    Quote(e.key) + ":" + (if gap == "" then "" else " ") + Serialize(e.value, gap, inner)
  }

  /** The value that `JSON.stringify` can show: no undefined, no infinity. */
  function Clean(v: JsValue): JsValue
    decreases v, 0
  {
    match v
    case Undefined => Null
    case Number(n) => if n.Finite? then v else Null
    case Arr(items) => Arr(CleanItems(items))
    case Obj(es) => Obj(CleanEntries(es))
    case _ => v
  }

  function CleanItems(items: seq<JsValue>): (r: seq<JsValue>)
    ensures |r| == |items|
    ensures forall i :: 0 <= i < |items| ==> r[i] == Clean(items[i])
    decreases items, 1
  {
    if items == [] then [] else [Clean(items[0])] + CleanItems(items[1..])
  }

  function CleanEntries(es: seq<Entry>): (r: seq<Entry>)
    decreases es, 1
  {
    if es == [] then []
    else if es[0].value == Undefined then CleanEntries(es[1..])
    else [Entry(es[0].key, Clean(es[0].value))] + CleanEntries(es[1..])
  }
}
