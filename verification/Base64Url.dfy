// Base64 with the URL-safe alphabet and no padding (section 5 of RFC 4648), and the
// forgiving decoder that reads it back.
module Base64Url {
  import opened Prelude

  type sextet = s: int | 0 <= s < 64

  function Digit(s: sextet): char {
    if s < 26 then ('A' as int + s) as char
    else if s < 52 then ('a' as int + s - 26) as char
    else if s < 62 then ('0' as int + s - 52) as char
    else if s == 62 then '-'
    else '_'
  }

  /** The value of a character in the URL-safe or the ordinary alphabet. */
  function Value(c: char): Option<sextet> {
    if 'A' <= c <= 'Z' then Some(c as int - 'A' as int)
    else if 'a' <= c <= 'z' then Some(c as int - 'a' as int + 26)
    else if '0' <= c <= '9' then Some(c as int - '0' as int + 52)
    else if c == '-' || c == '+' then Some(62)
    else if c == '_' || c == '/' then Some(63)
    else None
  }

  // The four groups of six bits in three bytes x, y, z, and the three bytes in four groups.
  function Six0(x: byte): sextet { var a: int := x; a / 4 }
  function Six1(x: byte, y: byte): sextet { var a: int, b: int := x, y; a % 4 * 16 + b / 16 }
  function Six2(y: byte, z: byte): sextet { var b: int, c: int := y, z; b % 16 * 4 + c / 64 }
  function Six3(z: byte): sextet { var c: int := z; c % 64 }
  function Byte0(s: sextet, t: sextet): byte { var a: int, b: int := s, t; a * 4 + b / 16 }
  function Byte1(t: sextet, u: sextet): byte { var b: int, c: int := t, u; b % 16 * 16 + c / 4 }
  function Byte2(u: sextet, v: sextet): byte { var c: int, d: int := u, v; c % 4 * 64 + d }

  lemma Regroup(x: byte, y: byte, z: byte)
    ensures Byte0(Six0(x), Six1(x, y)) == x
    ensures Byte1(Six1(x, y), Six2(y, z)) == y
    ensures Byte2(Six2(y, z), Six3(z)) == z
  {}

  function Encode(b: seq<byte>): string {
    if |b| == 0 then []
    else if |b| == 1 then [Digit(Six0(b[0])), Digit(Six1(b[0], 0))]
    else if |b| == 2 then [Digit(Six0(b[0])), Digit(Six1(b[0], b[1])), Digit(Six2(b[1], 0))]
    else
      [Digit(Six0(b[0])), Digit(Six1(b[0], b[1])), Digit(Six2(b[1], b[2])), Digit(Six3(b[2]))] + Encode(b[3..])
  }

  /** The values of the characters that belong to an alphabet; all others are skipped. */
  function Values(s: string): seq<sextet> {
    if s == [] then []
    else
      var rest := Values(s[1..]);
      match Value(s[0])
      case Some(v) => [v] + rest
      case None => rest
  }

  function Join(v: seq<sextet>): seq<byte> {
    if |v| < 2 then []
    else if |v| == 2 then [Byte0(v[0], v[1])]
    else if |v| == 3 then [Byte0(v[0], v[1]), Byte1(v[1], v[2])]
    else [Byte0(v[0], v[1]), Byte1(v[1], v[2]), Byte2(v[2], v[3])] + Join(v[4..])
  }

  function Decode(s: string): seq<byte> {
    Join(Values(s))
  }

  lemma ValueOfDigit(s: sextet)
    ensures Value(Digit(s)) == Some(s)
  {}

  lemma {:induction false} ValuesAppend(s: string, t: string)
    ensures Values(s + t) == Values(s) + Values(t)
  {
    if s == [] {
      assert s + t == t;
    } else {
      assert (s + t)[1..] == s[1..] + t;
      ValuesAppend(s[1..], t);
    }
  }

  lemma {:induction false} ValuesOfDigits(v: seq<sextet>, s: string)
    requires |s| == |v| && forall k :: 0 <= k < |v| ==> s[k] == Digit(v[k])
    ensures Values(s) == v
  {
    if v != [] {
      ValueOfDigit(v[0]);
      ValuesOfDigits(v[1..], s[1..]);
    }
  }

  /** What was encoded is decoded, for every byte string. */
  lemma {:induction false} RoundTrip(b: seq<byte>)
    ensures Decode(Encode(b)) == b
  {
    if |b| == 0 {
    } else if |b| == 1 {
      Regroup(b[0], 0, 0);
      ValuesOfDigits([Six0(b[0]), Six1(b[0], 0)], Encode(b));
    } else if |b| == 2 {
      Regroup(b[0], b[1], 0);
      ValuesOfDigits([Six0(b[0]), Six1(b[0], b[1]), Six2(b[1], 0)], Encode(b));
    } else {
      Regroup(b[0], b[1], b[2]);
      var v := [Six0(b[0]), Six1(b[0], b[1]), Six2(b[1], b[2]), Six3(b[2])];
      var head, rest := Encode(b)[..4], Encode(b[3..]);
      ValuesOfDigits(v, head);
      assert Encode(b) == head + rest;
      ValuesAppend(head, rest);
      RoundTrip(b[3..]);
      assert (v + Values(rest))[4..] == Values(rest);
    }
  }

  /** Three underscores start at position i of s. */
  predicate TripleAt(s: string, i: int) {
    0 <= i && i + 3 <= |s| && s[i] == '_' && s[i + 1] == '_' && s[i + 2] == '_'
  }

  lemma OnlySixtyThree(s: sextet)
    ensures Digit(s) == '_' <==> s == 63
  {}

  /** Three digits `_` in a row spell eighteen one bits, which always cover a whole byte. */
  lemma {:induction false} TripleNeedsFF(b: seq<byte>, i: int)
    requires TripleAt(Encode(b), i)
    ensures 255 in b
  {
    forall s: sextet ensures Digit(s) == '_' <==> s == 63 { OnlySixtyThree(s); }
    if |b| >= 3 {
      Regroup(b[0], b[1], b[2]);
      var rest := b[3..];
      if i >= 4 {
        TripleNeedsFF(rest, i - 4);
      } else if i == 3 {
        var second := if |rest| == 1 then 0 else rest[1];
        assert Encode(rest)[0] == Digit(Six0(rest[0])) && Encode(rest)[1] == Digit(Six1(rest[0], second));
        Regroup(rest[0], second, 0);
        assert rest[0] == 255;
      } else {
        assert b[i] == 255;
      }
    }
  }

  // --------------------------------------------------------------- against the standard

  /** Table 2 of RFC 4648, by the codes of the characters. */
  lemma AlphabetExactly(s: sextet)
    ensures var code := Digit(s) as int;
      && (0 <= s <= 25 ==> code == 65 + s) && (26 <= s <= 51 ==> code == 97 + (s - 26))
      && (52 <= s <= 61 ==> code == 48 + (s - 52)) && (s == 62 ==> code == 45) && (s == 63 ==> code == 95)
  {}

  /** Read are the digits of this alphabet, and `+` and `/` of the ordinary one for the same values. */
  lemma ReadExactly(c: char)
    ensures forall s: sextet :: Value(c) == Some(s) <==> c == Digit(s) || (c == '+' && s == 62) || (c == '/' && s == 63)
  {}

  /** The digits of a number of 24 bits, six bits each, highest first. */
  lemma SixBitDigits(x: int, y: int, z: int)
    requires 0 <= x < 256 && 0 <= y < 256 && 0 <= z < 256
    ensures var v := x * 65536 + y * 256 + z;
      v / 262144 == x / 4 && v / 4096 % 64 == x % 4 * 16 + y / 16 && v / 64 % 64 == y % 16 * 4 + z / 64
      && v % 64 == z % 64
  {
    var v, h, a, b, d := x * 65536 + y * 256 + z, x / 4, x % 4 * 16 + y / 16, y % 16 * 4 + z / 64, z % 64;
    assert v == 262144 * h + 4096 * a + 64 * b + d;
    FourDigits(h, a, b, d);
  }

  lemma FourDigits(h: int, a: int, b: int, d: int)
    requires 0 <= h < 64 && 0 <= a < 64 && 0 <= b < 64 && 0 <= d < 64
    ensures var v := 262144 * h + 4096 * a + 64 * b + d;
      v / 262144 == h && v / 4096 % 64 == a && v / 64 % 64 == b && v % 64 == d
  {
    LastDigit(4096 * h + 64 * a + b, d);
    LastDigit(64 * h + a, b);
    LastDigit(h, a);
    var v := 262144 * h + 4096 * a + 64 * b + d;
    assert v / 64 == 4096 * h + 64 * a + b;
    assert v / 4096 == 64 * h + a;
  }

  lemma LastDigit(q: int, r: int)
    requires 0 <= r < 64
    ensures (64 * q + r) / 64 == q && (64 * q + r) % 64 == r
  {}

  /** Three bytes are one number of 24 bits, written as four such digits; a rest of one or two
      bytes is filled up with zero bits, and nothing is padded. */
  lemma GroupsExactly(x: byte, y: byte, z: byte)
    ensures var v: int := x * 65536 + y * 256 + z;
      Encode([x, y, z]) == [Digit(v / 262144), Digit(v / 4096 % 64), Digit(v / 64 % 64), Digit(v % 64)]
    ensures var v: int := x * 65536 + y * 256;
      Encode([x, y]) == [Digit(v / 262144), Digit(v / 4096 % 64), Digit(v / 64 % 64)]
    ensures var v: int := x * 65536; Encode([x]) == [Digit(v / 262144), Digit(v / 4096 % 64)]
  {
    SixBitDigits(x, y, z);
    SixBitDigits(x, y, 0);
    SixBitDigits(x, 0, 0);
    assert [x, y, z][3..] == [];
  }

  lemma GroupByGroup(b: seq<byte>)
    requires |b| >= 3
    ensures Encode(b) == Encode(b[..3]) + Encode(b[3..])
  {
    var g := b[..3];
    assert g[3..] == [] && Encode(g[3..]) == [];
    assert Encode(g) == [Digit(Six0(b[0])), Digit(Six1(b[0], b[1])), Digit(Six2(b[1], b[2])), Digit(Six3(b[2]))];
  }
}
