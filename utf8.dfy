/**
 * UTF-8 (RFC 3629) as Node's `Buffer.from(string)` writes it and
 * `toString('utf-8')` reads it back. The decoder is exact on well-formed
 * input; an ill-formed sequence yields U+FFFD for its first byte.
 */
module Utf8 {
  import opened Bytes

  const Replacement: char := 0xFFFD as char

  predicate IsContinuation(b: int) {
    0x80 <= b < 0xC0
  }

  /** The one to four bytes of a scalar value. */
  function EncodeChar(c: char): (b: seq<Byte>)
    ensures 1 <= |b| <= 4
    ensures c as int < 0x80 <==> |b| == 1
    ensures |b| == 1 ==> b[0] == c as int
  {
    var n := c as int;
    if n < 0x80 then [n]
    else if n < 0x800 then [0xC0 + n / 64, 0x80 + n % 64]
    else if n < 0x10000 then [0xE0 + n / 4096, 0x80 + (n / 64) % 64, 0x80 + n % 64]
    else [0xF0 + n / 262144, 0x80 + (n / 4096) % 64, 0x80 + (n / 64) % 64, 0x80 + n % 64]
  }

  function Encode(s: string): seq<Byte> {
    if s == [] then [] else EncodeChar(s[0]) + Encode(s[1..])
  }

  predicate IsScalar(n: int) {
    (0 <= n < 0xD800) || (0xE000 <= n < 0x110000)
  }

  /** The first character of a byte sequence and the number of bytes it takes. */
  function DecodeOne(b: seq<Byte>): (r: (char, nat))
    requires |b| > 0
    ensures 1 <= r.1 <= |b|
  {
    var b0: int := b[0];
    var b1: int := if |b| > 1 then b[1] else 0;
    var b2: int := if |b| > 2 then b[2] else 0;
    var b3: int := if |b| > 3 then b[3] else 0;
    var n2 := (b0 - 0xC0) * 64 + (b1 - 0x80);
    var n3 := (b0 - 0xE0) * 4096 + (b1 - 0x80) * 64 + (b2 - 0x80);
    var n4 := (b0 - 0xF0) * 262144 + (b1 - 0x80) * 4096 + (b2 - 0x80) * 64 + (b3 - 0x80);
    if b0 < 0x80 then (b0 as char, 1)
    else if 0xC2 <= b0 < 0xE0 && |b| >= 2 && IsContinuation(b1) then (n2 as char, 2)
    else if 0xE0 <= b0 < 0xF0 && |b| >= 3 && IsContinuation(b1) && IsContinuation(b2) && 0x800 <= n3 && IsScalar(n3) then
      (n3 as char, 3)
    else if 0xF0 <= b0 < 0xF5 && |b| >= 4 && IsContinuation(b1) && IsContinuation(b2) && IsContinuation(b3) &&
            0x10000 <= n4 < 0x110000 then
      (n4 as char, 4)
    else (Replacement, 1)
  }

  function Decode(b: seq<Byte>): string
    decreases |b|
  {
    if b == [] then [] else
      var r := DecodeOne(b);
      [r.0] + Decode(b[r.1..])
  }

  lemma TwoByteArithmetic(n: int)
    requires 0x80 <= n < 0x800
    ensures 0xC2 <= 0xC0 + n / 64 < 0xE0
    ensures (n / 64) * 64 + n % 64 == n
  {
  }

  lemma ThreeByteArithmetic(n: int)
    requires 0x800 <= n < 0x10000
    ensures 0 <= n / 4096 < 16
    ensures (n / 4096) * 4096 + ((n / 64) % 64) * 64 + n % 64 == n
  {
    var q := n / 64;
    assert q / 64 == n / 4096;
    assert q == (q / 64) * 64 + q % 64;
  }

  lemma FourByteArithmetic(n: int)
    requires 0x10000 <= n < 0x110000
    ensures 0 <= n / 262144 < 5
    ensures (n / 262144) * 262144 + ((n / 4096) % 64) * 4096 + ((n / 64) % 64) * 64 + n % 64 == n
  {
    var q := n / 64;
    var p := q / 64;
    assert p == n / 4096;
    assert p / 64 == n / 262144;
    assert q == p * 64 + q % 64;
    assert p == (p / 64) * 64 + p % 64;
  }

  /** Decoding the encoding of one character gives it back and consumes exactly its bytes. */
  lemma DecodeOneEncodeChar(c: char, rest: seq<Byte>)
    ensures DecodeOne(EncodeChar(c) + rest) == (c, |EncodeChar(c)|)
  {
    var n := c as int;
    var b := EncodeChar(c) + rest;
    if n < 0x80 {
    } else if n < 0x800 {
      TwoByteArithmetic(n);
    } else if n < 0x10000 {
      ThreeByteArithmetic(n);
      assert b[0] == 0xE0 + n / 4096;
    } else {
      FourByteArithmetic(n);
    }
  }

  /** Decoding undoes encoding, for every string. */
  lemma {:induction false} DecodeEncode(s: string)
    ensures Decode(Encode(s)) == s
  {
    if s != [] {
      var e := EncodeChar(s[0]);
      DecodeOneEncodeChar(s[0], Encode(s[1..]));
      assert (e + Encode(s[1..]))[|e|..] == Encode(s[1..]);
      DecodeEncode(s[1..]);
    }
  }

  /** An ASCII character is one byte, its own code. */
  lemma EncodeAsciiChar(c: char)
    requires c as int < 0x80
    ensures EncodeChar(c) == [c as int]
  {
  }
}
