// UTF-8 as section 3 of RFC 3629 defines it, with the replacing decoder of the
// WHATWG Encoding Standard (section 8.1.1) that turns any bytes into text.
module Utf8 {
  import opened Prelude

  const REPLACEMENT: char := '\U{FFFD}'

  function EncodeScalar(c: char): (b: seq<byte>)
    ensures 1 <= |b| <= 4
  {
    var n := c as int;
    if n < 0x80 then [n]
    else if n < 0x800 then [0xC0 + n / 64, 0x80 + n % 64]
    else if n < 0x10000 then [0xE0 + n / 4096, 0x80 + n / 64 % 64, 0x80 + n % 64]
    else [0xF0 + n / 262144, 0x80 + n / 4096 % 64, 0x80 + n / 64 % 64, 0x80 + n % 64]
  }

  function Encode(s: string): seq<byte> {
    if s == [] then [] else EncodeScalar(s[0]) + Encode(s[1..])
  }

  predicate Within(b: seq<byte>, i: nat, lo: int, hi: int) {
    i < |b| && lo <= b[i] <= hi
  }

  /** The payload of an octet above a base. */
  function Bits(b: byte, base: int): int {
    var v: int := b;
    v - base
  }

  /** The first character of b and the number of bytes it takes. */
  function DecodeScalar(b: seq<byte>): (r: (char, nat))
    requires b != []
    ensures 1 <= r.1 <= |b|
  {
    var lead := b[0];
    if lead < 0x80 then (lead as char, 1)
    else if 0xC2 <= lead <= 0xDF then
      if !Within(b, 1, 0x80, 0xBF) then (REPLACEMENT, 1)
      else ((Bits(lead, 0xC0) * 64 + Bits(b[1], 0x80)) as char, 2)
    else if 0xE0 <= lead <= 0xEF then
      if !Within(b, 1, if lead == 0xE0 then 0xA0 else 0x80, if lead == 0xED then 0x9F else 0xBF) then (REPLACEMENT, 1)
      else if !Within(b, 2, 0x80, 0xBF) then (REPLACEMENT, 2)
      else ((Bits(lead, 0xE0) * 4096 + Bits(b[1], 0x80) * 64 + Bits(b[2], 0x80)) as char, 3)
    else if 0xF0 <= lead <= 0xF4 then
      if !Within(b, 1, if lead == 0xF0 then 0x90 else 0x80, if lead == 0xF4 then 0x8F else 0xBF) then (REPLACEMENT, 1)
      else if !Within(b, 2, 0x80, 0xBF) then (REPLACEMENT, 2)
      else if !Within(b, 3, 0x80, 0xBF) then (REPLACEMENT, 3)
      else ((Bits(lead, 0xF0) * 262144 + Bits(b[1], 0x80) * 4096 + Bits(b[2], 0x80) * 64 + Bits(b[3], 0x80)) as char, 4)
    else (REPLACEMENT, 1)
  }

  function Decode(b: seq<byte>): string {
    if b == [] then []
    else
      var (c, n) := DecodeScalar(b);
      [c] + Decode(b[n..])
  }

  lemma TwoOctets(n: int)
    requires 0x80 <= n < 0x800
    ensures 0xC2 <= 0xC0 + n / 64 <= 0xDF && n / 64 * 64 + n % 64 == n
  {}

  lemma ThreeOctets(n: int)
    requires 0x800 <= n < 0x10000 && !(0xD800 <= n < 0xE000)
    ensures n / 4096 * 4096 + n / 64 % 64 * 64 + n % 64 == n
    ensures n / 4096 == 0 ==> n / 64 % 64 >= 0x20
    ensures n / 4096 == 13 ==> n / 64 % 64 <= 0x1F
  {
    assert n / 64 == n / 4096 * 64 + n / 64 % 64;
  }

  lemma FourOctets(n: int)
    requires 0x10000 <= n < 0x110000
    ensures n / 262144 * 262144 + n / 4096 % 64 * 4096 + n / 64 % 64 * 64 + n % 64 == n
    ensures n / 262144 == 0 ==> n / 4096 % 64 >= 0x10
    ensures n / 262144 <= 4 && (n / 262144 == 4 ==> n / 4096 % 64 <= 0x0F)
  {
    assert n / 64 == n / 4096 * 64 + n / 64 % 64;
    assert n / 4096 == n / 262144 * 64 + n / 4096 % 64;
  }

  lemma ScalarRoundTrip(c: char, rest: seq<byte>)
    ensures DecodeScalar(EncodeScalar(c) + rest) == (c, |EncodeScalar(c)|)
  {
    var n := c as int;
    if 0x80 <= n < 0x800 {
      TwoOctets(n);
    } else if 0x800 <= n < 0x10000 {
      ThreeOctets(n);
    } else if 0x10000 <= n {
      FourOctets(n);
    }
  }

  /** Decoding inverts encoding on every text. */
  lemma {:induction false} RoundTrip(s: string)
    ensures Decode(Encode(s)) == s
  {
    if s != [] {
      var first, rest := EncodeScalar(s[0]), Encode(s[1..]);
      ScalarRoundTrip(s[0], rest);
      assert (first + rest)[|first|..] == rest;
      RoundTrip(s[1..]);
    }
  }

  /** The octets C0, C1 and F5 to FF never appear (section 1 of RFC 3629). */
  lemma {:induction false} ForbiddenOctets(s: string)
    ensures forall k :: 0 <= k < |Encode(s)| ==> Encode(s)[k] != 0xC0 && Encode(s)[k] != 0xC1 && Encode(s)[k] < 0xF5
  {
    if s != [] {
      ForbiddenOctets(s[1..]);
    }
  }

  /** A byte that begins no character is replaced by U+FFFD, and reading goes on behind it. */
  lemma ReplacedExactly(b: seq<byte>)
    requires b != [] && (0x80 <= b[0] <= 0xC1 || 0xF5 <= b[0])
    ensures Decode(b) == ['\U{FFFD}'] + Decode(b[1..])
  {}

  /** One character of each length, as section 7 of RFC 3629 and the code charts give them. */
  lemma Examples()
    ensures Encode("A") == [0x41] && Encode("\U{E9}") == [0xC3, 0xA9]
    ensures Encode("\U{65E5}") == [0xE6, 0x97, 0xA5] && Encode("\U{233B4}") == [0xF0, 0xA3, 0x8E, 0xB4]
  {}
}
