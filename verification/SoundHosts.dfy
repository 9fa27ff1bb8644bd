/** What is assumed of a host can be met. */
module SoundHosts {
  import opened Paths
  import opened Hosts

  ghost function Enumerate(s: set<string>): (r: seq<string>)
    ensures Lists(r, s)
    decreases |s|
  {
    if s == {} then []
    else
      var x :| x in s;
      var rest := Enumerate(s - {x});
      assert forall n :: n in s ==> n == x || n in rest;
      [x] + rest
  }

  /** Each character as that many ones, then a zero. */
  ghost function Unary(s: string): Bytes {
    if s == "" then [] else seq(s[0] as int, _ => 1 as bv8) + [0] + Unary(s[1..])
  }

  lemma {:induction false} UnaryInjective(s: string, t: string)
    requires Unary(s) == Unary(t)
    ensures s == t
  {
    if s != "" && t != "" {
      var a, b := s[0] as int, t[0] as int;
      assert Unary(s)[a] == 0 && Unary(t)[b] == 0;
      assert forall i :: 0 <= i < a ==> Unary(s)[i] == 1;
      assert forall i :: 0 <= i < b ==> Unary(t)[i] == 1;
      assert a == b;
      assert Unary(s)[a + 1..] == Unary(s[1..]) && Unary(t)[b + 1..] == Unary(t[1..]);
      UnaryInjective(s[1..], t[1..]);
      assert s == [s[0]] + s[1..] && t == [t[0]] + t[1..];
    }
  }

  ghost function Decoded(b: Bytes): string {
    if exists s :: Unary(s) == b then
      var s :| Unary(s) == b;
      s
    else ""
  }

  /** A host whose hash is constant, whose directory listings come in some order and
      which takes all names for equal. */
  ghost function SimpleHost(): Host {
    var zero := Finite("0");
    var hex := seq(64, _ => '0');
    Host("/", 40, (p: Path, s: set<string>) => Enumerate(s), (a: string, b: string) => true,
         (t: string) => zero, (s: string) => Unary(s), (b: Bytes) => Decoded(b), (b: Bytes) => hex)
  }

  /** The assumptions on hosts are consistent: one host meets them. */
  lemma SimpleHostIsSound()
    ensures Sound(SimpleHost())
  {
    var h := SimpleHost();
    forall s ensures h.decode(h.encode(s)) == s {
      assert Unary(s) == Unary(s);
      UnaryInjective(Decoded(Unary(s)), s);
    }
    assert "0"[1..] == "" && IsNumeral("0");
  }
}
