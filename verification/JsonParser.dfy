/** `JSON.parse`: the grammar of RFC 8259, building JavaScript objects. */
module JsonParser {
  import opened Outcome
  import opened Hosts
  import opened Json

  datatype Parsed<+T> = Parsed(value: T, rest: string)

  predicate IsSpace(c: char) {
    c == ' ' || c == '\t' || c == '\n' || c == '\r'
  }

  function SkipSpace(s: string): (r: string)
    ensures |r| <= |s|
    ensures r != "" ==> !IsSpace(r[0])
  {
    if s != "" && IsSpace(s[0]) then SkipSpace(s[1..]) else s
  }

  // --------------------------------------------------------------- strings

  function HexValue(c: char): (n: int)
    ensures -1 <= n < 16
  {
    if IsDigit(c) then c as int - '0' as int
    else if 'a' <= c <= 'f' then c as int - 'a' as int + 10
    else if 'A' <= c <= 'F' then c as int - 'A' as int + 10
    else -1
  }

  /** The code unit written as four hexadecimal digits. */
  function Hex4(s: string): (n: int)
    requires |s| >= 4
    ensures -1 <= n < 0x10000
  {
    var a, b, c, d := HexValue(s[0]), HexValue(s[1]), HexValue(s[2]), HexValue(s[3]);
    if a < 0 || b < 0 || c < 0 || d < 0 then -1
    else 4096 * a + 256 * b + 16 * c + d
  }

  function ShortEscape(c: char): Option<char> {
    if c == '"' || c == '\\' || c == '/' then Some(c)
    else if c == 'b' then Some(8 as char)
    else if c == 't' then Some('\t')
    else if c == 'n' then Some('\n')
    else if c == 'f' then Some(12 as char)
    else if c == 'r' then Some('\r')
    else None
  }

  /** `s` starts after a backslash. An escaped surrogate pair is one character. */
  function ParseEscape(s: string): (r: Option<Parsed<char>>)
    ensures r.Some? ==> |r.value.rest| < |s|
  {
    if s == "" then None
    else if s[0] != 'u' then
      var c := ShortEscape(s[0]);
      if c.None? then None else Some(Parsed(c.value, s[1..]))
    else if |s| < 5 then None
    else
      var n := Hex4(s[1..5]);
      if n < 0 then None
      else if n < 0xD800 || n >= 0xE000 then Some(Parsed(n as char, s[5..]))
      else if n >= 0xDC00 || |s| < 11 || s[5] != '\\' || s[6] != 'u' then None
      else
        var m := Hex4(s[7..11]);
        if 0xDC00 <= m < 0xE000 then
          Some(Parsed((0x10000 + (n - 0xD800) * 0x400 + (m - 0xDC00)) as char, s[11..]))
        else None
  }

  /** The characters up to the closing quote. */
  function ParseChars(s: string): (r: Option<Parsed<string>>)
    ensures r.Some? ==> |r.value.rest| < |s|
    decreases |s|
  {
    if s == "" || s[0] as int < 32 then None
    else if s[0] == '"' then Some(Parsed("", s[1..]))
    else if s[0] == '\\' then
      var e := ParseEscape(s[1..]);
      if e.None? then None
      else
        var r := ParseChars(e.value.rest);
        if r.None? then None else Some(Parsed([e.value.value] + r.value.value, r.value.rest))
    else
      var r := ParseChars(s[1..]);
      if r.None? then None else Some(Parsed([s[0]] + r.value.value, r.value.rest))
  }

  // --------------------------------------------------------------- numbers

  function NumeralLength(s: string): (n: nat)
    ensures n <= |s|
    ensures s != "" && NumeralChar(s[0]) ==> n > 0
  {
    if s != "" && NumeralChar(s[0]) then 1 + NumeralLength(s[1..]) else 0
  }

  function ParseNumber(h: Host, s: string): (r: Option<Parsed<JsValue>>)
    ensures r.Some? ==> |r.value.rest| < |s|
  {
    var n := NumeralLength(s);
    if IsNumeral(s[..n]) then
      assert s[..n] != "";
      Some(Parsed(Number(h.numeral(s[..n])), s[n..]))
    else None
  }

  // ---------------------------------------------------------------- values

  function ParseWord(s: string, word: string, v: JsValue): (r: Option<Parsed<JsValue>>)
    requires word != ""
    ensures r.Some? ==> |r.value.rest| < |s|
  {
    if word <= s then Some(Parsed(v, s[|word|..])) else None
  }

  function ParseValue(h: Host, text: string): (r: Option<Parsed<JsValue>>)
    ensures r.Some? ==> |r.value.rest| < |text|
    decreases |text|, 0
  {
    var s := SkipSpace(text);
    if s == "" then None
    else if s[0] == '{' then
      var body := SkipSpace(s[1..]);
      if body != "" && body[0] == '}' then Some(Parsed(Obj([]), body[1..]))
      else
        var r := ParseMembers(h, s[1..]);
        if r.None? then None else Some(Parsed(Obj(FromEntries(r.value.value)), r.value.rest))
    else if s[0] == '[' then
      var body := SkipSpace(s[1..]);
      if body != "" && body[0] == ']' then Some(Parsed(Arr([]), body[1..]))
      else
        var r := ParseItems(h, s[1..]);
        if r.None? then None else Some(Parsed(Arr(r.value.value), r.value.rest))
    else if s[0] == '"' then
      var r := ParseChars(s[1..]);
      if r.None? then None else Some(Parsed(Str(r.value.value), r.value.rest))
    else if s[0] == 't' then ParseWord(s, "true", Bool(true))
    else if s[0] == 'f' then ParseWord(s, "false", Bool(false))
    else if s[0] == 'n' then ParseWord(s, "null", Null)
    else ParseNumber(h, s)
  }

  /** One or more elements and the closing bracket. */
  function ParseItems(h: Host, text: string): (r: Option<Parsed<seq<JsValue>>>)
    ensures r.Some? ==> |r.value.rest| < |text|
    decreases |text|, 1
  {
    var v := ParseValue(h, text);
    if v.None? then None
    else
      var s := SkipSpace(v.value.rest);
      if s == "" then None
      else if s[0] == ']' then Some(Parsed([v.value.value], s[1..]))
      else if s[0] == ',' then
        var r := ParseItems(h, s[1..]);
        if r.None? then None else Some(Parsed([v.value.value] + r.value.value, r.value.rest))
      else None
  }

  /** One or more members and the closing brace. */
  function ParseMembers(h: Host, text: string): (r: Option<Parsed<seq<Entry>>>)
    ensures r.Some? ==> |r.value.rest| < |text|
    decreases |text|, 1
  {
    var e := ParseMember(h, text);
    if e.None? then None
    else
      var s := SkipSpace(e.value.rest);
      if s == "" then None
      else if s[0] == '}' then Some(Parsed([e.value.value], s[1..]))
      else if s[0] == ',' then
        var r := ParseMembers(h, s[1..]);
        if r.None? then None else Some(Parsed([e.value.value] + r.value.value, r.value.rest))
      else None
  }

  function ParseMember(h: Host, text: string): (r: Option<Parsed<Entry>>)
    ensures r.Some? ==> |r.value.rest| < |text|
    decreases |text|, 0
  {
    var s := SkipSpace(text);
    if s == "" || s[0] != '"' then None
    else
      var k := ParseChars(s[1..]);
      if k.None? then None
      else
        var t := SkipSpace(k.value.rest);
        if t == "" || t[0] != ':' then None
        else
          var v := ParseValue(h, t[1..]);
          if v.None? then None else Some(Parsed(Entry(k.value.value, v.value.value), v.value.rest))
  }

  /** `JSON.parse(text)`; None is a syntax error. */
  function Parse(h: Host, text: string): Option<JsValue> {
    var r := ParseValue(h, text);
    if r.None? || SkipSpace(r.value.rest) != "" then None else Some(r.value.value)
  }
}
