/// Random addresses inside a prefix (`randIp`), with JavaScript's decimal
/// rendering of the last octet written out.
module Address {
  import opened Records

  /** One draw of `Math.floor(Math.random() * 254)`: an integer in [0, 254). */
  type Draw = k: int | 0 <= k < 254

  predicate IsDigit(c: char) {
    '0' <= c <= '9'
  }

  predicate AllDigits(s: string) {
    forall i :: 0 <= i < |s| ==> IsDigit(s[i])
  }

  function DigitChar(d: nat): (c: char)
    requires d < 10
    ensures IsDigit(c) && c as int - '0' as int == d
  {
    ('0' as int + d) as char
  }

  /** The decimal digits of `n`, as a template literal prints an integer. */
  function Decimal(n: nat): (s: string)
    ensures 1 <= |s| && AllDigits(s)
    ensures s[0] == '0' ==> n == 0
  {
    if n < 10 then [DigitChar(n)] else Decimal(n / 10) + [DigitChar(n % 10)]
  }

  /** The number a string of decimal digits denotes. */
  function DecimalValue(s: string): nat
    requires AllDigits(s)
  {
    if s == [] then 0
    else 10 * DecimalValue(s[..|s| - 1]) + (s[|s| - 1] as int - '0' as int)
  }

  /** Reading back the rendered digits gives the number. */
  lemma {:induction false} DecimalRoundTrip(n: nat)
    ensures DecimalValue(Decimal(n)) == n
  {
    if n >= 10 {
      var s := Decimal(n);
      assert s[..|s| - 1] == Decimal(n / 10);
      DecimalRoundTrip(n / 10);
    }
  }

  /** A number below 1000 takes at most three digits. */
  lemma {:induction false} DecimalLength(n: nat)
    requires n < 1000
    ensures |Decimal(n)| <= 3
  {
    if n >= 10 {
      DecimalWidth(n / 10);
    }
  }

  lemma {:induction false} DecimalWidth(n: nat)
    requires n < 100
    ensures |Decimal(n)| <= 2
  {
  }

  lemma {:induction false} DigitsHaveNoDots(s: string)
    requires AllDigits(s)
    ensures DotCount(s) == 0
    decreases |s|
  {
    if s != [] {
      DigitsHaveNoDots(s[..|s| - 1]);
    }
  }

  /** The octet that follows `prefix` and its dot. */
  function LastOctet(ip: string, prefix: string): string
    requires |prefix| < |ip|
  {
    ip[|prefix| + 1..]
  }

  /** `randIp(prefix)` for the draw `k`. */
  function RandIp(prefix: string, k: Draw): (ip: string)
    ensures InGroup(ip, prefix) && |prefix| < |ip|
  {
    var ip := prefix + "." + Decimal(k + 1);
    assert ip[..|prefix| + 1] == prefix + ".";
    ip
  }

  /** The last octet of a generated address is the decimal rendering, without
      leading zero, of `k + 1`, hence a number in [1, 254]. */
  lemma RandIpOctet(prefix: string, k: Draw)
    ensures var octet := LastOctet(RandIp(prefix, k), prefix);
      AllDigits(octet) && 1 <= |octet| <= 3 && octet[0] != '0' &&
      DecimalValue(octet) == k + 1 && 1 <= DecimalValue(octet) <= 254
  {
    DecimalRoundTrip(k + 1);
    DecimalLength(k + 1);
    assert LastOctet(RandIp(prefix, k), prefix) == Decimal(k + 1);
  }

  /** A generated address has the four parts of an IPv4 address and lies in
      no other prefix's group. */
  lemma RandIpStaysInGroup(prefix: string, other: string, k: Draw)
    requires ThreeOctets(prefix) && ThreeOctets(other)
    ensures DotCount(RandIp(prefix, k)) == 3
    ensures InGroup(RandIp(prefix, k), other) <==> other == prefix
  {
    var ip := RandIp(prefix, k);
    DigitsHaveNoDots(Decimal(k + 1));
    DotCountAppend(prefix, ".");
    DotCountAppend(prefix + ".", Decimal(k + 1));
    assert DotCount(".") == 1 by {
      assert "."[..0] == [];
    }
    if InGroup(ip, other) {
      GroupUnique(ip, prefix, other);
    }
  }
}
