/** The dotted-quad text of an address: what nft reads as an IPv4 operand, and what Go prints for one. */
module AddressText {
  import opened Ipv4
  import opened ContentKeys

  const DOT := '.'

  function Digit(n: nat): char
    requires n < 10
  {
    ('0' as int + n) as char
  }

  predicate IsDigit(c: char) {
    '0' <= c <= '9'
  }

  /** Decimal, without leading zeros. */
  function Decimal(n: nat): string {
    if n < 10 then [Digit(n)] else Decimal(n / 10) + [Digit(n % 10)]
  }

  function Octets(ip: Ip): (nat, nat, nat, nat) {
    var high := ip / 256;
    (high / 256 / 256, high / 256 % 256, high % 256, ip % 256)
  }

  function Fields(ip: Ip): seq<string> {
    var (a, b, c, d) := Octets(ip);
    [Decimal(a), Decimal(b), Decimal(c), Decimal(d)]
  }

  function Dotted(ip: Ip): string {
    Join(Fields(ip), DOT)
  }

  ghost predicate IsQuad(text: string) {
    exists ip: Ip :: text == Dotted(ip)
  }

  lemma {:induction false} DecimalHasDigits(n: nat)
    ensures |Decimal(n)| >= 1 && (|Decimal(n)| == 1 <==> n < 10)
    ensures forall i :: 0 <= i < |Decimal(n)| ==> IsDigit(Decimal(n)[i])
  {
    if n >= 10 {
      DecimalHasDigits(n / 10);
    }
  }

  lemma {:induction false} DecimalInjective(m: nat, n: nat)
    requires Decimal(m) == Decimal(n)
    ensures m == n
  {
    DecimalHasDigits(m);
    DecimalHasDigits(n);
    if m >= 10 {
      var last := |Decimal(m)| - 1;
      assert Decimal(m)[..last] == Decimal(m / 10) && Decimal(m)[last] == Digit(m % 10);
      assert Decimal(n)[..last] == Decimal(n / 10) && Decimal(n)[last] == Digit(n % 10);
      DecimalInjective(m / 10, n / 10);
    }
  }

  /** What a string of digits reads as. */
  function Reading(digits: string): nat
    requires forall i :: 0 <= i < |digits| ==> IsDigit(digits[i])
  {
    if digits == "" then 0
    else
      var last := |digits| - 1;
      assert IsDigit(digits[last]);
      10 * Reading(digits[..last]) + (digits[last] as int - '0' as int)
  }

  /** A number reads back from its digits, which start with a zero only when they are "0". */
  lemma {:induction false} DecimalReadsBack(n: nat)
    ensures forall i :: 0 <= i < |Decimal(n)| ==> IsDigit(Decimal(n)[i])
    ensures Reading(Decimal(n)) == n
    ensures |Decimal(n)| >= 1 && (Decimal(n)[0] == '0' <==> n == 0)
  {
    DecimalHasDigits(n);
    if n >= 10 {
      DecimalReadsBack(n / 10);
      assert Decimal(n)[..|Decimal(n)| - 1] == Decimal(n / 10);
    } else {
      assert Decimal(n)[..0] == "";
    }
  }

  lemma SplitByte(high: nat, low: nat)
    requires low < 256
    ensures (high * 256 + low) / 256 == high && (high * 256 + low) % 256 == low
  {
  }

  /** The four octets in network order, with dots between. */
  lemma DottedIsQuad(a: nat, b: nat, c: nat, d: nat, ip: Ip)
    requires a < 256 && b < 256 && c < 256 && d < 256 && ip == ((a * 256 + b) * 256 + c) * 256 + d
    ensures Dotted(ip) == Decimal(a) + "." + (Decimal(b) + "." + (Decimal(c) + "." + Decimal(d)))
  {
    assert Octets(ip) == (a, b, c, d) by {
      SplitByte((a * 256 + b) * 256 + c, d);
      SplitByte(a * 256 + b, c);
      SplitByte(a, b);
    }
    JoinFour(Decimal(a), Decimal(b), Decimal(c), Decimal(d));
  }

  ghost predicate QuadOf(text: string, a: nat, b: nat, c: nat, d: nat) {
    a < 256 && b < 256 && c < 256 && d < 256 && text == Decimal(a) + "." + (Decimal(b) + "." + (Decimal(c) + "." + Decimal(d)))
  }

  /** A dotted quad is four numbers below 256 with dots between. */
  lemma QuadExactly(text: string)
    ensures IsQuad(text) <==> exists a: nat, b: nat, c: nat, d: nat :: QuadOf(text, a, b, c, d)
  {
    if IsQuad(text) {
      var ip: Ip :| text == Dotted(ip);
      var (a, b, c, d) := Octets(ip);
      OctetsAddUp(ip);
      DottedIsQuad(a, b, c, d, ip);
      assert QuadOf(text, a, b, c, d);
    }
    if a: nat, b: nat, c: nat, d: nat :| QuadOf(text, a, b, c, d) {
      assert a * 256 + b < 65536 && (a * 256 + b) * 256 + c < 16777216;
      var ip: Ip := ((a * 256 + b) * 256 + c) * 256 + d;
      DottedIsQuad(a, b, c, d, ip);
    }
  }

  lemma OctetsAddUp(ip: Ip)
    ensures var (a, b, c, d) := Octets(ip);
            a < 256 && b < 256 && c < 256 && d < 256 && ip == ((a * 256 + b) * 256 + c) * 256 + d
  {
    var high := ip / 256;
    assert ip == high * 256 + ip % 256 && high == high / 256 * 256 + high % 256;
    assert high / 256 == high / 256 / 256 * 256 + high / 256 % 256;
  }

  lemma JoinFour(a: string, b: string, c: string, d: string)
    ensures Join([a, b, c, d], DOT) == a + "." + (b + "." + (c + "." + d))
  {
    assert [a, b, c, d][1..] == [b, c, d] && [b, c, d][1..] == [c, d] && [c, d][1..] == [d];
    assert Join([d], DOT) == d;
    assert Join([c, d], DOT) == c + "." + d;
    assert Join([b, c, d], DOT) == b + "." + (c + "." + d);
  }

  lemma FieldsAreFree(ip: Ip)
    ensures AllFree(Fields(ip), DOT) && AllFree(Fields(ip), ':') && AllFree(Fields(ip), '/')
  {
    var (a, b, c, d) := Octets(ip);
    DecimalHasDigits(a);
    DecimalHasDigits(b);
    DecimalHasDigits(c);
    DecimalHasDigits(d);
  }

  lemma OctetsDetermine(x: Ip, y: Ip)
    requires Octets(x) == Octets(y)
    ensures x == y
  {
    assert x / 256 / 256 == y / 256 / 256;
    assert x / 256 == y / 256;
  }

  /** Different addresses have different texts. */
  lemma DottedInjective(x: Ip, y: Ip)
    requires Dotted(x) == Dotted(y)
    ensures x == y
  {
    FieldsAreFree(x);
    FieldsAreFree(y);
    JoinInjective(Fields(x), Fields(y), DOT);
    assert Fields(x)[0] == Fields(y)[0] && Fields(x)[1] == Fields(y)[1] && Fields(x)[2] == Fields(y)[2] && Fields(x)[3] == Fields(y)[3];
    DecimalInjective(Octets(x).0, Octets(y).0);
    DecimalInjective(Octets(x).1, Octets(y).1);
    DecimalInjective(Octets(x).2, Octets(y).2);
    DecimalInjective(Octets(x).3, Octets(y).3);
    OctetsDetermine(x, y);
  }

  lemma DottedNotEmpty(ip: Ip)
    ensures Dotted(ip) != ""
  {
    DecimalHasDigits(Octets(ip).0);
  }

  /** A text with a colon, such as an IPv4-mapped one, is no dotted quad. */
  lemma ColonIsNoQuad(text: string)
    requires ':' in text
    ensures !IsQuad(text)
  {
    forall ip: Ip ensures text != Dotted(ip) {
      FieldsAreFree(ip);
      JoinFree(Fields(ip), DOT, ':');
    }
  }
}
