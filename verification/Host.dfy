/** What the scripts take from their host: the operating system, the runtime and
    the hash. Each is a parameter; `Sound` says what is assumed of it. */
module Hosts {
  import opened Paths

  type Bytes = seq<bv8>

  /** A JavaScript number. A finite one is known by the text it prints as, so -0
      and 0 are one number; text such as 1e999 reads as an infinite one. */
  datatype JsNumber = Finite(text: string) | Infinite(negative: bool)

  datatype Host = Host(
    /** the absolute working directory */
    cwd: string,
    /** how many symbolic links one lookup may follow */
    linkLimit: nat,
    /** the order in which `readdir` lists the names of a directory */
    listing: (Path, set<string>) -> seq<string>,
    /** `left.localeCompare(right) <= 0` */
    before: (string, string) -> bool,
    /** the number a numeral denotes */
    numeral: string -> JsNumber,
    /** UTF-8 */
    encode: string -> Bytes,
    decode: Bytes -> string,
    /** SHA-256 in lower-case hexadecimal */
    sha256: Bytes -> string)

  predicate IsDigit(c: char) {
    '0' <= c <= '9'
  }

  predicate AllDigits(s: string) {
    forall i :: 0 <= i < |s| ==> IsDigit(s[i])
  }

  /** The characters a numeral is made of. */
  predicate NumeralChar(c: char) {
    IsDigit(c) || c == '-' || c == '+' || c == '.' || c == 'e' || c == 'E'
  }

  function DigitsLength(s: string): (n: nat)
    ensures n <= |s|
  {
    if s != "" && IsDigit(s[0]) then 1 + DigitsLength(s[1..]) else 0
  }

  predicate IsExponent(s: string) {
    s == "" ||
    (|s| >= 2 && (s[0] == 'e' || s[0] == 'E')
     && var digits := if s[1] == '+' || s[1] == '-' then s[2..] else s[1..];
        digits != "" && AllDigits(digits))
  }

  predicate IsFraction(s: string) {
    if s != "" && s[0] == '.' then
      var n := DigitsLength(s[1..]);
      n > 0 && IsExponent(s[1 + n..])
    else IsExponent(s)
  }

  /** The number grammar of section 6 of RFC 8259. */
  predicate IsNumeral(s: string) {
    var body := if s != "" && s[0] == '-' then s[1..] else s;
    var n := DigitsLength(body);
    n > 0 && (n > 1 ==> body[0] != '0') && IsFraction(body[n..])
  }

  /** A finite number prints as a numeral that reads back as the same number. */
  ghost predicate Stable(h: Host, n: JsNumber) {
    n.Finite? ==>
      && IsNumeral(n.text)
      && (forall i :: 0 <= i < |n.text| ==> NumeralChar(n.text[i]))
      && h.numeral(n.text) == n
  }

  predicate IsHexDigit(c: char) {
    IsDigit(c) || 'a' <= c <= 'f'
  }

  /** `/^[a-f0-9]{64}$/` */
  predicate IsDigest(s: string) {
    |s| == 64 && forall i :: 0 <= i < |s| ==> IsHexDigit(s[i])
  }

  /** `names` lists the set without repetition. */
  ghost predicate Lists(names: seq<string>, s: set<string>) {
    && (forall i :: 0 <= i < |names| ==> names[i] in s)
    && (forall n :: n in s ==> n in names)
    && (forall i, j :: 0 <= i < j < |names| ==> names[i] != names[j])
  }

  ghost predicate Sound(h: Host) {
    && IsAbsolute(h.cwd)
    && (forall p, s :: Lists(h.listing(p, s), s))
    && (forall t :: Stable(h, h.numeral(t)))
    && (forall s :: h.decode(h.encode(s)) == s)
    && (forall b :: IsDigest(h.sha256(b)))
  }

  /** Two different contents with one digest. Nothing is assumed about whether
      such a pair can be found: the results below name the pair they need. */
  ghost predicate Collide(h: Host, a: Bytes, b: Bytes) {
    a != b && h.sha256(a) == h.sha256(b)
  }
}
