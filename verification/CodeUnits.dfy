/** The order of keys, told from what it stands for: `sort()` compares UTF-16 code
    units, and array indices are the numbers below 2^32 - 1, by value. */
module CodeUnits {
  import opened Hosts
  import opened Json
  import opened KeyOrder

  // ------------------------------------------------------------ code units

  /** The UTF-16 encoding of a character, section 2 of RFC 2781. */
  function Units(c: char): (us: seq<int>)
    ensures |us| >= 1
  {
    var n := c as int;
    if n < 0x10000 then [n] else [0xD800 + (n - 0x10000) / 0x400, 0xDC00 + (n - 0x10000) % 0x400]
  }

  function Utf16(s: string): seq<int> {
    if s == "" then [] else Units(s[0]) + Utf16(s[1..])
  }

  /** The first difference decides, and a proper start comes first. */
  ghost predicate Precedes(a: seq<int>, b: seq<int>) {
    exists n :: 0 <= n <= |a| && n < |b| && a[..n] == b[..n] && (n == |a| || a[n] < b[n])
  }

  predicate LexLess(a: seq<int>, b: seq<int>) {
    b != [] && (a == [] || a[0] < b[0] || (a[0] == b[0] && LexLess(a[1..], b[1..])))
  }

  lemma {:induction false} LexIsPrecedes(a: seq<int>, b: seq<int>)
    ensures LexLess(a, b) <==> Precedes(a, b)
  {
    if a != [] && b != [] {
      LexIsPrecedes(a[1..], b[1..]);
      if LexLess(a, b) {
        if a[0] < b[0] {
          assert a[..0] == b[..0];
        } else {
          var n :| 0 <= n <= |a[1..]| && n < |b[1..]| && a[1..][..n] == b[1..][..n]
                   && (n == |a[1..]| || a[1..][n] < b[1..][n]);
          assert a[..n + 1] == [a[0]] + a[1..][..n] && b[..n + 1] == [b[0]] + b[1..][..n];
          assert n < |a| - 1 ==> a[n + 1] == a[1..][n] && b[n + 1] == b[1..][n];
        }
      }
      if n :| 0 <= n <= |a| && n < |b| && a[..n] == b[..n] && (n == |a| || a[n] < b[n]) {
        if n > 0 {
          assert a[0] == a[..n][0] == b[..n][0] == b[0];
          assert a[1..][..n - 1] == a[..n][1..] && b[1..][..n - 1] == b[..n][1..];
          assert n < |a| ==> a[n] == a[1..][n - 1] && b[n] == b[1..][n - 1];
        }
      }
    } else if b != [] {
      assert a[..0] == b[..0];
    }
  }

  lemma HeadDecides(c: char, d: char, x: seq<int>, y: seq<int>)
    requires c != d
    ensures LexLess(Units(c) + x, Units(d) + y) <==> Rank(c) < Rank(d)
  {
    var a, b := Units(c) + x, Units(d) + y;
    RankInjective(c, d);
    assert a[0] == Units(c)[0] && b[0] == Units(d)[0];
    assert |Units(c)| == 2 ==> a[1] == Units(c)[1] && a[1..][0] == a[1];
    assert |Units(d)| == 2 ==> b[1] == Units(d)[1] && b[1..][0] == b[1];
  }

  lemma SameHead(c: char, x: seq<int>, y: seq<int>)
    ensures LexLess(Units(c) + x, Units(c) + y) <==> LexLess(x, y)
  {
    var a, b := Units(c) + x, Units(c) + y;
    if |Units(c)| == 1 {
      assert a[1..] == x && b[1..] == y;
    } else {
      assert a[1..][1..] == x && b[1..][1..] == y;
    }
  }

  lemma {:induction false} LessIsLex(a: string, b: string)
    ensures Less(a, b) <==> LexLess(Utf16(a), Utf16(b))
  {
    if a != "" && b != "" {
      LessIsLex(a[1..], b[1..]);
      if a[0] == b[0] {
        SameHead(a[0], Utf16(a[1..]), Utf16(b[1..]));
      } else {
        HeadDecides(a[0], b[0], Utf16(a[1..]), Utf16(b[1..]));
        RankInjective(a[0], b[0]);
      }
    }
  }

  /** The order of keys is the order of their UTF-16 code units. */
  lemma LessIsUnitOrder(a: string, b: string)
    ensures Less(a, b) <==> Precedes(Utf16(a), Utf16(b))
  {
    LessIsLex(a, b);
    LexIsPrecedes(Utf16(a), Utf16(b));
  }

  // --------------------------------------------------------------- indices

  function DigitChar(n: nat): char
    requires n < 10
  {
    ('0' as int + n) as char
  }

  function Decimal(n: nat): (s: string)
    ensures s != ""
  {
    if n < 10 then [DigitChar(n)] else Decimal(n / 10) + [DigitChar(n % 10)]
  }

  function DigitOf(c: char): nat
    requires IsDigit(c)
  {
    c as int - '0' as int
  }

  function Power(n: nat): (p: nat)
    ensures p > 0
  {
    if n == 0 then 1 else 10 * Power(n - 1)
  }

  /** The number that digits denote. */
  function Value(s: string): nat
    requires AllDigits(s)
  {
    if s == "" then 0 else DigitOf(s[0]) * Power(|s| - 1) + Value(s[1..])
  }

  lemma {:induction false} ValueBound(s: string)
    requires AllDigits(s)
    ensures Value(s) < Power(|s|)
  {
    if s != "" {
      ValueBound(s[1..]);
      HigherDigit(DigitOf(s[0]), 10, Power(|s| - 1));
    }
  }

  lemma {:induction false} ValueSnoc(s: string, c: char)
    requires AllDigits(s) && IsDigit(c)
    ensures AllDigits(s + [c]) && Value(s + [c]) == 10 * Value(s) + DigitOf(c)
  {
    if s == "" {
      assert s + [c] == [c] && [c][1..] == "";
      assert Power(0) == 1;
    } else {
      assert (s + [c])[1..] == s[1..] + [c];
      ValueSnoc(s[1..], c);
      assert DigitOf(s[0]) * Power(|s|) == 10 * (DigitOf(s[0]) * Power(|s| - 1));
    }
  }

  lemma {:induction false} DecimalValue(n: nat)
    ensures AllDigits(Decimal(n)) && Value(Decimal(n)) == n
    ensures |Decimal(n)| > 1 ==> Decimal(n)[0] != '0'
  {
    if n < 10 {
      assert Decimal(n)[1..] == "" && Power(0) == 1;
    } else {
      DecimalValue(n / 10);
      ValueSnoc(Decimal(n / 10), DigitChar(n % 10));
      var s := Decimal(n / 10);
      if |s| == 1 {
        assert s[1..] == "" && Power(0) == 1;
      }
    }
  }

  lemma {:induction false} DigitsByValue(a: string, b: string)
    requires AllDigits(a) && AllDigits(b) && |a| == |b|
    ensures Less(a, b) <==> Value(a) < Value(b)
    ensures Value(a) == Value(b) ==> a == b
  {
    if a != "" {
      DigitsByValue(a[1..], b[1..]);
      ValueBound(a[1..]);
      ValueBound(b[1..]);
      var p := Power(|a| - 1);
      var c, d := DigitOf(a[0]), DigitOf(b[0]);
      HigherDigit(c, d, p);
      HigherDigit(d, c, p);
      assert a == [a[0]] + a[1..] && b == [b[0]] + b[1..];
    }
  }

  lemma {:induction false} HigherDigit(c: nat, d: nat, p: nat)
    ensures c < d ==> c * p + p <= d * p
  {
    if c + 1 < d {
      HigherDigit(c, d - 1, p);
      assert d * p == (d - 1) * p + p;
    } else if c < d {
      assert (c + 1) * p == c * p + p;
    }
  }

  lemma {:induction false} LeadingDigit(s: string)
    requires AllDigits(s) && s != "" && s[0] != '0'
    ensures Value(s) >= Power(|s| - 1)
  {
    HigherDigit(0, DigitOf(s[0]), Power(|s| - 1));
  }

  lemma {:induction false} PowerGrows(m: nat, n: nat)
    requires m <= n
    ensures Power(m) <= Power(n)
  {
    if m < n {
      PowerGrows(m, n - 1);
    }
  }

  predicate IsPlain(s: string) {
    s != "" && AllDigits(s) && (|s| > 1 ==> s[0] != '0')
  }

  /** Digits without leading zeros: fewer digits, or the smaller ones, are less. */
  lemma PlainByValue(a: string, b: string)
    requires IsPlain(a) && IsPlain(b)
    ensures IndexLess(a, b) <==> Value(a) < Value(b)
    ensures Value(a) == Value(b) ==> a == b
  {
    if |a| == |b| {
      DigitsByValue(a, b);
    } else if |a| < |b| {
      ShorterIsLess(a, b);
    } else {
      ShorterIsLess(b, a);
    }
  }

  lemma ShorterIsLess(a: string, b: string)
    requires IsPlain(a) && IsPlain(b) && |a| < |b|
    ensures Value(a) < Value(b)
  {
    ValueBound(a);
    LeadingDigit(b);
    PowerGrows(|a|, |b| - 1);
  }

  lemma OneMoreDigit(n: nat)
    requires n >= 10
    ensures Decimal(n) == Decimal(n / 10) + [DigitChar(n % 10)]
  {
  }

  lemma HalfIndex()
    ensures Decimal(42949) == "42949"
  {
    OneMoreDigit(42949);
    OneMoreDigit(4294);
    OneMoreDigit(429);
    OneMoreDigit(42);
  }

  lemma DecimalOfLargest()
    ensures Decimal(4294967294) == "42949" + "67294"
  {
    HalfIndex();
    OneMoreDigit(4294967294);
    OneMoreDigit(429496729);
    OneMoreDigit(42949672);
    OneMoreDigit(4294967);
    OneMoreDigit(429496);
    hide Decimal;
  }

  lemma LargestIndex()
    ensures IsPlain("4294967294") && Value("4294967294") == 4294967294
  {
    DecimalOfLargest();
    DecimalValue(4294967294);
    hide Decimal, Value, AllDigits;
    assert "42949" + "67294" == "4294967294";
  }

  /** A key is an array index exactly when it is the decimal text of a number below
      2^32 - 1. */
  lemma IndexIsNumber(k: string)
    ensures IsIndex(k) <==> exists n: nat :: n < 0xFFFF_FFFF && k == Decimal(n)
  {
    LargestIndex();
    hide Value;
    if IsPlain(k) {
      PlainByValue("4294967294", k);
      DecimalValue(Value(k));
      PlainByValue(k, Decimal(Value(k)));
    }
    if IsIndex(k) {
      assert k == Decimal(Value(k));
    }
    if n: nat :| n < 0xFFFF_FFFF && k == Decimal(n) {
      DecimalValue(n);
    }
  }

  /** Indices are listed by number. */
  lemma IndexLessIsNumber(m: nat, n: nat)
    ensures IndexLess(Decimal(m), Decimal(n)) <==> m < n
  {
    DecimalValue(m);
    DecimalValue(n);
    PlainByValue(Decimal(m), Decimal(n));
  }
}
