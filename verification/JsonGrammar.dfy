/** The grammar of RFC 8259 as trees that keep every character of a text, and what
    each tree means. */
module JsonGrammar {
  import opened Outcome
  import opened Hosts
  import opened Json
  import opened JsonParser
  import opened JsonRoundTrip

  // --------------------------------------------------------------- numbers

  /** `-`, digits without a leading zero, a fraction, an exponent. */
  ghost predicate SpellsNumber(s: string, sign: string, whole: string, fraction: string, exponent: string) {
    && s == sign + whole + fraction + exponent
    && (sign == "" || sign == "-")
    && whole != "" && AllDigits(whole) && (whole[0] == '0' ==> whole == "0")
    && (fraction == "" || (|fraction| > 1 && fraction[0] == '.' && AllDigits(fraction[1..])))
    && (exponent == "" || SpellsExponent(exponent))
  }

  ghost predicate SpellsExponent(s: string) {
    && |s| > 1 && (s[0] == 'e' || s[0] == 'E')
    && (AllDigits(s[1..]) || (|s| > 2 && (s[1] == '+' || s[1] == '-') && AllDigits(s[2..])))
  }

  lemma {:induction false} DigitsLengthIs(s: string, n: nat)
    requires n <= |s| && AllDigits(s[..n]) && (n < |s| ==> !IsDigit(s[n]))
    ensures DigitsLength(s) == n
  {
    if n > 0 {
      assert IsDigit(s[..n][0]);
      assert s[1..][..n - 1] == s[..n][1..];
      DigitsLengthIs(s[1..], n - 1);
    }
  }

  lemma {:induction false} DigitsLengthSplits(s: string)
    ensures var n := DigitsLength(s); AllDigits(s[..n]) && (n < |s| ==> !IsDigit(s[n]))
  {
    if s != "" && IsDigit(s[0]) {
      DigitsLengthSplits(s[1..]);
      var n := DigitsLength(s[1..]);
      assert s[..n + 1] == [s[0]] + s[1..][..n];
    }
  }

  lemma ExponentIs(s: string)
    ensures IsExponent(s) <==> s == "" || SpellsExponent(s)
  {
    assert |s| > 1 && AllDigits(s[1..]) ==> IsDigit(s[1..][0]);
  }

  lemma ExponentStart(s: string)
    requires SpellsExponent(s)
    ensures !IsDigit(s[0]) && s[0] != '.'
  {
  }

  lemma FractionIs(s: string, fraction: string, exponent: string)
    requires s == fraction + exponent && (exponent == "" || SpellsExponent(exponent))
    requires fraction == "" || (|fraction| > 1 && fraction[0] == '.' && AllDigits(fraction[1..]))
    ensures IsFraction(s)
  {
    ExponentIs(exponent);
    if exponent != "" {
      ExponentStart(exponent);
    }
    hide IsExponent, SpellsExponent;
    if fraction == "" {
      assert s == exponent;
    } else {
      var n := |fraction| - 1;
      assert s[1..][..n] == fraction[1..];
      assert exponent != "" ==> s[1..][n] == exponent[0];
      DigitsLengthIs(s[1..], n);
      assert s[1 + n..] == exponent;
    }
  }

  lemma FractionParts(s: string) returns (fraction: string, exponent: string)
    requires IsFraction(s)
    ensures s == fraction + exponent && (exponent == "" || SpellsExponent(exponent))
    ensures fraction == "" || (|fraction| > 1 && fraction[0] == '.' && AllDigits(fraction[1..]))
  {
    if s != "" && s[0] == '.' {
      var n := DigitsLength(s[1..]);
      DigitsLengthSplits(s[1..]);
      fraction, exponent := s[..1 + n], s[1 + n..];
      assert fraction[1..] == s[1..][..n];
      ExponentIs(exponent);
    } else {
      fraction, exponent := "", s;
      ExponentIs(s);
      assert "" + s == s;
    }
  }

  lemma NumeralIs(s: string, sign: string, whole: string, fraction: string, exponent: string)
    requires SpellsNumber(s, sign, whole, fraction, exponent)
    ensures IsNumeral(s)
  {
    hide IsFraction, SpellsExponent, DigitsLength, AllDigits;
    var tail := fraction + exponent;
    FractionIs(tail, fraction, exponent);
    TailStart(fraction, exponent);
    WholeIs(whole, tail);
    assert s == sign + whole + tail;
    BodyIs(s, sign, whole, tail);
  }

  lemma BodyIs(s: string, sign: string, whole: string, tail: string)
    requires s == sign + whole + tail && (sign == "" || sign == "-") && whole != "" && AllDigits(whole)
    ensures s != "" && whole + tail == if s[0] == '-' then s[1..] else s
  {
    assert IsDigit(whole[0]);
  }

  lemma TailStart(fraction: string, exponent: string)
    requires exponent == "" || SpellsExponent(exponent)
    requires fraction == "" || fraction[0] == '.'
    ensures var tail := fraction + exponent; tail != "" ==> !IsDigit(tail[0])
  {
    assert fraction == "" ==> fraction + exponent == exponent;
  }

  lemma WholeIs(whole: string, tail: string)
    requires AllDigits(whole) && (tail != "" ==> !IsDigit(tail[0]))
    ensures DigitsLength(whole + tail) == |whole| && (whole + tail)[|whole|..] == tail
  {
    var body := whole + tail;
    assert body[..|whole|] == whole && body[|whole|..] == tail;
    assert tail != "" ==> body[|whole|] == tail[0];
    DigitsLengthIs(body, |whole|);
  }

  lemma NumeralParts(s: string) returns (sign: string, whole: string, fraction: string, exponent: string)
    requires IsNumeral(s)
    ensures SpellsNumber(s, sign, whole, fraction, exponent)
  {
    sign := if s != "" && s[0] == '-' then "-" else "";
    var body := if s != "" && s[0] == '-' then s[1..] else s;
    assert s == sign + body;
    var n := DigitsLength(body);
    DigitsLengthSplits(body);
    whole := body[..n];
    assert n > 0 && (n > 1 ==> body[0] != '0') && IsFraction(body[n..]);
    hide IsFraction, IsNumeral, SpellsExponent, DigitsLength;
    fraction, exponent := FractionParts(body[n..]);
    assert whole[0] == '0' ==> whole == "0";
    Assemble(s, sign, body, whole, fraction, exponent, n);
    hide AllDigits;
  }

  lemma Assemble(s: string, sign: string, body: string, whole: string, fraction: string, exponent: string, n: nat)
    requires s == sign + body && n <= |body| && whole == body[..n] && body[n..] == fraction + exponent
    ensures s == sign + whole + fraction + exponent
  {
    assert body == body[..n] + body[n..];
  }

  /** A numeral is what the number grammar spells, section 6 of RFC 8259. */
  lemma NumeralIsSpelled(s: string)
    ensures IsNumeral(s) <==>
              exists sign, whole, fraction, exponent :: SpellsNumber(s, sign, whole, fraction, exponent)
  {
    hide IsNumeral, SpellsNumber;
    if IsNumeral(s) {
      var sign, whole, fraction, exponent := NumeralParts(s);
    }
    if sign, whole, fraction, exponent :| SpellsNumber(s, sign, whole, fraction, exponent) {
      NumeralIs(s, sign, whole, fraction, exponent);
    }
  }

  // --------------------------------------------------------------- strings

  /** One character of a string as it is written: itself, a short escape, a code unit, or
      two code units of a surrogate pair. */
  datatype Piece = Plain(c: char) | Short(letter: char) | Unit(hex: string) | Pair(high: string, low: string)

  function HexNumber(s: string): int
    requires |s| == 4
  {
    4096 * HexValue(s[0]) + 256 * HexValue(s[1]) + 16 * HexValue(s[2]) + HexValue(s[3])
  }

  predicate IsHex4(s: string) {
    |s| == 4 && forall i :: 0 <= i < 4 ==> '0' <= s[i] <= '9' || 'a' <= s[i] <= 'f' || 'A' <= s[i] <= 'F'
  }

  /** The character that a short escape stands for, section 7 of RFC 8259. */
  ghost predicate StandsFor(letter: char, c: char) {
    || (letter == '"' && c == '"') || (letter == '\\' && c == '\\') || (letter == '/' && c == '/')
    || (letter == 'b' && c as int == 8) || (letter == 'f' && c as int == 12) || (letter == 'n' && c as int == 10)
    || (letter == 'r' && c as int == 13) || (letter == 't' && c as int == 9)
  }

  /** The piece is well formed and stands for the character. */
  ghost predicate PieceMeans(p: Piece, c: char) {
    match p
    case Plain(x) => x == c && c as int >= 32 && c != '"' && c != '\\'
    case Short(letter) => StandsFor(letter, c)
    case Unit(hex) => IsHex4(hex) && HexNumber(hex) == c as int
    case Pair(high, low) =>
      && IsHex4(high) && IsHex4(low)
      && 0xD800 <= HexNumber(high) < 0xDC00 && 0xDC00 <= HexNumber(low) < 0xE000
      && c as int == 0x10000 + (HexNumber(high) - 0xD800) * 0x400 + (HexNumber(low) - 0xDC00)
  }

  function PieceText(p: Piece): string {
    match p
    case Plain(c) => [c]
    case Short(letter) => "\\" + [letter]
    case Unit(hex) => "\\u" + hex
    case Pair(high, low) => "\\u" + high + "\\u" + low
  }

  function PiecesText(ps: seq<Piece>): string {
    if ps == [] then "" else PieceText(ps[0]) + PiecesText(ps[1..])
  }

  ghost predicate PiecesMean(ps: seq<Piece>, s: string) {
    |ps| == |s| && forall i :: 0 <= i < |s| ==> PieceMeans(ps[i], s[i])
  }

  lemma HexIs(s: string)
    requires |s| >= 4
    ensures Hex4(s) >= 0 <==> IsHex4(s[..4])
    ensures Hex4(s) >= 0 ==> Hex4(s) == HexNumber(s[..4])
  {
    assert forall i :: 0 <= i < 4 ==> s[..4][i] == s[i];
  }

  lemma ShortIs(letter: char, c: char)
    ensures ShortEscape(letter) == Some(c) <==> StandsFor(letter, c)
  {
  }

  lemma PieceParses(p: Piece, c: char, tail: string)
    requires PieceMeans(p, c)
    ensures var r := ParseChars(tail);
            ParseChars(PieceText(p) + tail) ==
              if r.None? then None else Some(Parsed([c] + r.value.value, r.value.rest))
  {
    if p.Plain? {
      PlainParses(c, tail);
    } else {
      hide PieceMeans;
      EscapeParses(p, c, tail);
      hide PieceText;
      EscapedParses(PieceText(p), c, tail);
    }
  }

  lemma PlainParses(c: char, tail: string)
    requires c as int >= 32 && c != '"' && c != '\\'
    ensures var r := ParseChars(tail);
            ParseChars([c] + tail) == if r.None? then None else Some(Parsed([c] + r.value.value, r.value.rest))
  {
    assert ([c] + tail)[1..] == tail;
    hide ParseEscape;
  }

  lemma EscapedParses(t: string, c: char, tail: string)
    requires t != "" && t[0] == '\\' && ParseEscape(t[1..] + tail) == Some(Parsed(c, tail))
    ensures var r := ParseChars(tail);
            ParseChars(t + tail) == if r.None? then None else Some(Parsed([c] + r.value.value, r.value.rest))
  {
    assert (t + tail)[1..] == t[1..] + tail && (t + tail)[0] == '\\';
    hide ParseEscape;
  }

  lemma EscapeParses(p: Piece, c: char, tail: string)
    requires PieceMeans(p, c) && !p.Plain?
    ensures PieceText(p) != "" && PieceText(p)[0] == '\\'
    ensures ParseEscape(PieceText(p)[1..] + tail) == Some(Parsed(c, tail))
  {
    match p
    case Short(letter) => ShortParses(letter, c, tail);
    case Unit(hex) => UnitParses(hex, c, tail);
    case Pair(high, low) => PairParses(high, low, c, tail);
  }

  lemma ShortParses(letter: char, c: char, tail: string)
    requires StandsFor(letter, c)
    ensures ParseEscape(PieceText(Short(letter))[1..] + tail) == Some(Parsed(c, tail))
  {
    var s := PieceText(Short(letter))[1..] + tail;
    ShortIs(letter, c);
    assert s[0] == letter && s[1..] == tail;
    hide Hex4;
  }

  lemma UnitParses(hex: string, c: char, tail: string)
    requires PieceMeans(Unit(hex), c)
    ensures ParseEscape(PieceText(Unit(hex))[1..] + tail) == Some(Parsed(c, tail))
  {
    var s := PieceText(Unit(hex))[1..] + tail;
    hide Hex4, HexNumber, ShortEscape;
    assert s == "u" + hex + tail;
    assert s[0] == 'u' && s[1..5] == hex && s[5..] == tail && hex[..4] == hex;
    HexIs(hex);
    assert (c as int) as char == c;
  }

  lemma PairParses(high: string, low: string, c: char, tail: string)
    requires PieceMeans(Pair(high, low), c)
    ensures ParseEscape(PieceText(Pair(high, low))[1..] + tail) == Some(Parsed(c, tail))
  {
    var s := PieceText(Pair(high, low))[1..] + tail;
    hide Hex4, HexNumber, ShortEscape;
    assert s == "u" + high + "\\u" + low + tail;
    assert s[0] == 'u' && s[1..5] == high && s[5] == '\\' && s[6] == 'u';
    assert s[7..11] == low && s[11..] == tail;
    assert high[..4] == high && low[..4] == low;
    HexIs(high);
    HexIs(low);
    assert (c as int) as char == c;
  }

  lemma {:induction false} PiecesParse(ps: seq<Piece>, s: string, rest: string)
    requires PiecesMean(ps, s)
    ensures ParseChars(PiecesText(ps) + ("\"" + rest)) == Some(Parsed(s, rest))
  {
    hide PieceMeans, PieceText;
    if ps == [] {
      assert (PiecesText(ps) + ("\"" + rest))[1..] == rest;
    } else {
      var tail := PiecesText(ps[1..]) + ("\"" + rest);
      PiecesParse(ps[1..], s[1..], rest);
      PieceParses(ps[0], s[0], tail);
      assert PiecesText(ps) + ("\"" + rest) == PieceText(ps[0]) + tail;
      assert [s[0]] + s[1..] == s;
    }
  }

  lemma EscapePiece(s: string) returns (p: Piece)
    requires ParseEscape(s).Some?
    ensures PieceMeans(p, ParseEscape(s).value.value) && !p.Plain?
    ensures "\\" + s == PieceText(p) + ParseEscape(s).value.rest
  {
    var r := ParseEscape(s).value;
    hide Hex4, HexNumber, HexValue;
    if s[0] != 'u' {
      p := Short(s[0]);
      ShortIs(s[0], r.value);
      assert s == [s[0]] + s[1..];
    } else {
      var n := Hex4(s[1..5]);
      HexIs(s[1..5]);
      assert s[1..5][..4] == s[1..5];
      if n < 0xD800 || n >= 0xE000 {
        p := Unit(s[1..5]);
        assert s == "u" + s[1..5] + s[5..];
      } else {
        HexIs(s[7..11]);
        assert s[7..11][..4] == s[7..11];
        p := Pair(s[1..5], s[7..11]);
        assert s == "u" + s[1..5] + "\\u" + s[7..11] + s[11..];
      }
    }
  }

  lemma {:induction false} CharsPieces(s: string) returns (ps: seq<Piece>)
    requires ParseChars(s).Some?
    ensures PiecesMean(ps, ParseChars(s).value.value)
    ensures s == PiecesText(ps) + ("\"" + ParseChars(s).value.rest)
    decreases |s|
  {
    hide ParseEscape, PieceMeans, PieceText;
    if s[0] == '"' {
      ps := [];
      assert s == "" + ("\"" + s[1..]);
    } else if s[0] == '\\' {
      var e := ParseEscape(s[1..]).value;
      var p := EscapePiece(s[1..]);
      var qs := CharsPieces(e.rest);
      ps := [p] + qs;
      assert s == "\\" + s[1..];
      OneMorePiece(p, qs);
    } else {
      var qs := CharsPieces(s[1..]);
      ps := [Plain(s[0])] + qs;
      PlainPiece(s[0]);
      OneMorePiece(Plain(s[0]), qs);
      assert s == [s[0]] + s[1..];
    }
  }

  lemma PlainPiece(c: char)
    requires c as int >= 32 && c != '"' && c != '\\'
    ensures PieceMeans(Plain(c), c) && PieceText(Plain(c)) == [c]
  {
  }

  lemma OneMorePiece(p: Piece, qs: seq<Piece>)
    ensures PiecesText([p] + qs) == PieceText(p) + PiecesText(qs)
  {
    assert ([p] + qs)[1..] == qs;
  }
}
