/**
 * The address types the guarded entry points take: Rust's `Ipv4Addr`
 * with its `is_private` test and its dotted-decimal `to_string`, and
 * `Ipv6Addr` as eight 16-bit segments.
 */
module Net {
  import opened Wrappers

  type Octet = x: int | 0 <= x < 0x100

  datatype Ipv4Addr = Ipv4Addr(a: Octet, b: Octet, c: Octet, d: Octet)

  /** `Ipv4Addr::is_private`, as Rust's standard library tests the octets. */
  predicate IsPrivate(addr: Ipv4Addr)
  {
    || addr.a == 10
    || (addr.a == 172 && 16 <= addr.b <= 31)
    || (addr.a == 192 && addr.b == 168)
  }

  // ---------------------------------------------------------------- RFC 1918

  /** The address as the 32-bit number `u32::from(addr)`. */
  function Bits(addr: Ipv4Addr): (n: nat)
    ensures n < 0x1_0000_0000
  {
    ((addr.a * 0x100 + addr.b) * 0x100 + addr.c) * 0x100 + addr.d
  }

  function Pow2(k: nat): (p: nat)
    ensures p >= 1
  {
    if k == 0 then 1 else 2 * Pow2(k - 1)
  }

  lemma Pow2Blocks()
    ensures Pow2(16) == 0x1_0000 && Pow2(20) == 0x10_0000 && Pow2(24) == 0x100_0000
  {
    assert Pow2(8) == 0x100;
    assert Pow2(16) == 0x1_0000;
    assert Pow2(20) == 0x10_0000;
    assert Pow2(24) == 0x100_0000;
  }

  /** `addr` lies in the CIDR block `network/prefixLen`: its 32-bit value
      falls in the `2^(32 - prefixLen)` addresses from the network's. */
  predicate InBlock(addr: Ipv4Addr, network: Ipv4Addr, prefixLen: nat)
    requires prefixLen <= 32
  {
    Bits(network) <= Bits(addr) < Bits(network) + Pow2(32 - prefixLen)
  }

  /** The three private address blocks of section 3 of RFC 1918. */
  predicate InRfc1918(addr: Ipv4Addr)
  {
    || InBlock(addr, Ipv4Addr(10, 0, 0, 0), 8)
    || InBlock(addr, Ipv4Addr(172, 16, 0, 0), 12)
    || InBlock(addr, Ipv4Addr(192, 168, 0, 0), 16)
  }

  /** The octet test of `is_private` is exactly membership in the RFC 1918
      blocks 10/8, 172.16/12 and 192.168/16. */
  lemma PrivateIsRfc1918(addr: Ipv4Addr)
    ensures IsPrivate(addr) <==> InRfc1918(addr)
  {
    Pow2Blocks();
    assert Bits(addr) == addr.a * 0x100_0000 + addr.b * 0x1_0000 + addr.c * 0x100 + addr.d;
  }

  // ---------------------------------------------------------------- dotted decimal

  predicate IsDigit(c: char)
  {
    '0' <= c <= '9'
  }

  predicate AllDigits(s: string)
  {
    forall i :: 0 <= i < |s| ==> IsDigit(s[i])
  }

  function DigitChar(d: int): (c: char)
    requires 0 <= d < 10
    ensures IsDigit(c) && c as int - '0' as int == d
  {
    ('0' as int + d) as char
  }

  /** The decimal numeral for `n`, without leading zeros. */
  function DecimalText(n: nat): (s: string)
    ensures 1 <= |s| && AllDigits(s)
  {
    if n < 10 then [DigitChar(n)] else DecimalText(n / 10) + [DigitChar(n % 10)]
  }

  /** The number a string of digits denotes. */
  function DecimalValue(s: string): nat
    requires AllDigits(s)
  {
    if s == [] then 0 else DecimalValue(s[..|s| - 1]) * 10 + (s[|s| - 1] as int - '0' as int)
  }

  lemma {:induction false} DecimalRoundTrip(n: nat)
    ensures DecimalValue(DecimalText(n)) == n
  {
    if n >= 10 {
      var s := DecimalText(n);
      assert s[..|s| - 1] == DecimalText(n / 10);
      DecimalRoundTrip(n / 10);
    }
  }

  /** `Ipv4Addr`'s `to_string`: the four octets in decimal, joined by dots. */
  function Dotted(addr: Ipv4Addr): string
  {
    DecimalText(addr.a) + "." + DecimalText(addr.b) + "." + DecimalText(addr.c) + "." + DecimalText(addr.d)
  }

  /** The pieces of `s` between occurrences of `sep`. */
  function SplitOn(s: string, sep: char): (parts: seq<string>)
    ensures |parts| >= 1
  {
    if s == [] then [""]
    else
      var rest := SplitOn(s[1..], sep);
      if s[0] == sep then [""] + rest else [[s[0]] + rest[0]] + rest[1..]
  }

  lemma {:induction false} SplitPiece(x: string, sep: char, rest: string)
    requires sep !in x
    ensures SplitOn(x + [sep] + rest, sep) == [x] + SplitOn(rest, sep)
  {
    if x == [] {
      assert x + [sep] + rest == [sep] + rest;
      assert ([sep] + rest)[1..] == rest;
    } else {
      assert (x + [sep] + rest)[1..] == x[1..] + [sep] + rest;
      SplitPiece(x[1..], sep, rest);
      assert [x[0]] + x[1..] == x;
    }
  }

  lemma {:induction false} SplitLast(x: string, sep: char)
    requires sep !in x
    ensures SplitOn(x, sep) == [x]
  {
    if x != [] {
      SplitLast(x[1..], sep);
      assert [x[0]] + x[1..] == x;
    }
  }

  /** A piece of dotted text that can stand for an octet. */
  predicate IsOctetText(t: string)
  {
    1 <= |t| && AllDigits(t) && DecimalValue(t) < 0x100
  }

  /** Reads dotted-decimal text back into an address. */
  function ParseDotted(s: string): Option<Ipv4Addr>
  {
    var parts := SplitOn(s, '.');
    if |parts| == 4 && IsOctetText(parts[0]) && IsOctetText(parts[1])
       && IsOctetText(parts[2]) && IsOctetText(parts[3])
    then Some(Ipv4Addr(DecimalValue(parts[0]), DecimalValue(parts[1]),
                       DecimalValue(parts[2]), DecimalValue(parts[3])))
    else None
  }

  lemma DigitsHaveNoDot(s: string)
    requires AllDigits(s)
    ensures '.' !in s
  {
  }

  lemma SplitFour(ta: string, tb: string, tc: string, td: string)
    requires '.' !in ta && '.' !in tb && '.' !in tc && '.' !in td
    ensures SplitOn(ta + "." + tb + "." + tc + "." + td, '.') == [ta, tb, tc, td]
  {
    var cd := tc + ['.'] + td;
    var bcd := tb + ['.'] + cd;
    var abcd := ta + ['.'] + bcd;
    SplitLast(td, '.');
    SplitPiece(tc, '.', td);
    SplitPiece(tb, '.', cd);
    SplitPiece(ta, '.', bcd);
    assert ta + "." + tb + "." + tc + "." + td == abcd;
  }

  /** The text `to_string` gives an address reads back as that address. */
  lemma DottedRoundTrip(addr: Ipv4Addr)
    ensures ParseDotted(Dotted(addr)) == Some(addr)
  {
    var ta, tb, tc, td := DecimalText(addr.a), DecimalText(addr.b), DecimalText(addr.c), DecimalText(addr.d);
    DigitsHaveNoDot(ta); DigitsHaveNoDot(tb); DigitsHaveNoDot(tc); DigitsHaveNoDot(td);
    DecimalRoundTrip(addr.a); DecimalRoundTrip(addr.b); DecimalRoundTrip(addr.c); DecimalRoundTrip(addr.d);
    SplitFour(ta, tb, tc, td);
  }

  /** Different addresses give different texts, hence different URLs. */
  lemma DottedInjective(x: Ipv4Addr, y: Ipv4Addr)
    requires Dotted(x) == Dotted(y)
    ensures x == y
  {
    DottedRoundTrip(x);
    DottedRoundTrip(y);
  }

  // ---------------------------------------------------------------- IPv6

  type Segment = x: int | 0 <= x < 0x1_0000

  /** An IPv6 address: eight 16-bit segments. Its `is_global` test and its
      `to_string` rendering are left to the callers as parameters. */
  type Ipv6Addr = s: seq<Segment> | |s| == 8 witness [0, 0, 0, 0, 0, 0, 0, 0]
}
