/**
 * The base64 encoding of section 4 of RFC 4648 (alphabet A-Z a-z 0-9 + /,
 * `=` padding), as Node's `Buffer.toString('base64')` produces it, and a
 * strict decoder that accepts exactly the canonical encodings.
 */
module Base64 {
  import opened Wrappers
  import opened Bytes

  type Sextet = i: int | 0 <= i < 64

  /** The symbol for a 6-bit value (Table 1 of RFC 4648). */
  function Symbol(i: Sextet): char {
    if i < 26 then ('A' as int + i) as char
    else if i < 52 then ('a' as int + (i - 26)) as char
    else if i < 62 then ('0' as int + (i - 52)) as char
    else if i == 62 then '+'
    else '/'
  }

  predicate IsSymbol(c: char) {
    ('A' <= c <= 'Z') || ('a' <= c <= 'z') || ('0' <= c <= '9') || c == '+' || c == '/'
  }

  /** The 6-bit value of an alphabet symbol: the inverse of Symbol. */
  function SymbolValue(c: char): (i: Sextet)
    requires IsSymbol(c)
    ensures Symbol(i) == c
  {
    if 'A' <= c <= 'Z' then c as int - 'A' as int
    else if 'a' <= c <= 'z' then c as int - 'a' as int + 26
    else if '0' <= c <= '9' then c as int - '0' as int + 52
    else if c == '+' then 62
    else 63
  }

  lemma SymbolRoundTrip(i: Sextet)
    ensures IsSymbol(Symbol(i)) && SymbolValue(Symbol(i)) == i
  {
  }

  /** Three bytes as four symbols. */
  function EncodeBlock(b0: Byte, b1: Byte, b2: Byte): (s: string)
    ensures |s| == 4
  {
    [Symbol(b0 / 4), Symbol((b0 % 4) * 16 + b1 / 16), Symbol((b1 % 16) * 4 + b2 / 64), Symbol(b2 % 64)]
  }

  /** The RFC 4648 section 4 encoding, padded with `=` to a multiple of four symbols. */
  function Encode(b: seq<Byte>): (s: string)
    ensures s == [] <==> b == []
  {
    if |b| >= 3 then EncodeBlock(b[0], b[1], b[2]) + Encode(b[3..])
    else if |b| == 2 then [Symbol(b[0] / 4), Symbol((b[0] % 4) * 16 + b[1] / 16), Symbol((b[1] % 16) * 4), '=']
    else if |b| == 1 then [Symbol(b[0] / 4), Symbol((b[0] % 4) * 16), '=', '=']
    else []
  }

  /** Four symbols without padding as three bytes. */
  function DecodeBlock(q: string): Option<seq<Byte>>
    requires |q| == 4
  {
    if IsSymbol(q[0]) && IsSymbol(q[1]) && IsSymbol(q[2]) && IsSymbol(q[3]) then
      var i0: int, i1: int, i2: int, i3: int := SymbolValue(q[0]), SymbolValue(q[1]), SymbolValue(q[2]), SymbolValue(q[3]);
      Some([i0 * 4 + i1 / 16, (i1 % 16) * 16 + i2 / 4, (i2 % 4) * 64 + i3])
    else None
  }

  /** The last four symbols: a full block, or one or two bytes followed by padding whose unused bits are zero. */
  function DecodeFinal(q: string): Option<seq<Byte>>
    requires |q| == 4
  {
    if q[2] == '=' && q[3] == '=' then
      if IsSymbol(q[0]) && IsSymbol(q[1]) && SymbolValue(q[1]) % 16 == 0 then
        Some([SymbolValue(q[0]) * 4 + SymbolValue(q[1]) / 16])
      else None
    else if q[3] == '=' then
      if IsSymbol(q[0]) && IsSymbol(q[1]) && IsSymbol(q[2]) && SymbolValue(q[2]) % 4 == 0 then
        var i0: int, i1: int, i2: int := SymbolValue(q[0]), SymbolValue(q[1]), SymbolValue(q[2]);
        Some([i0 * 4 + i1 / 16, (i1 % 16) * 16 + i2 / 4])
      else None
    else DecodeBlock(q)
  }

  /** Strict decoding: `Some` exactly for the strings that Encode produces. */
  function Decode(s: string): Option<seq<Byte>>
    decreases |s|
  {
    if s == [] then Some([])
    else if |s| < 4 then None
    else if |s| == 4 then DecodeFinal(s)
    else match DecodeBlock(s[..4])
      case None => None
      case Some(head) =>
        match Decode(s[4..])
        case None => None
        case Some(tail) => Some(head + tail)
  }

  lemma DivModSplit16(x: int, y: int)
    requires 0 <= y < 16
    ensures (x * 16 + y) / 16 == x && (x * 16 + y) % 16 == y
  {
  }

  lemma DivModSplit64(x: int, y: int)
    requires 0 <= y < 64
    ensures (x * 64 + y) / 64 == x && (x * 64 + y) % 64 == y
  {
  }

  lemma DivModSplit4(x: int, y: int)
    requires 0 <= y < 4
    ensures (x * 4 + y) / 4 == x && (x * 4 + y) % 4 == y
  {
  }

  /** The sextets of a block, read back, give the bytes of the block. */
  lemma BlockArithmetic(b0: Byte, b1: Byte, b2: Byte)
    ensures var i0: int, i1: int, i2: int, i3: int := b0 / 4, (b0 % 4) * 16 + b1 / 16, (b1 % 16) * 4 + b2 / 64, b2 % 64;
      i0 * 4 + i1 / 16 == b0 && (i1 % 16) * 16 + i2 / 4 == b1 && (i2 % 4) * 64 + i3 == b2
  {
    DivModSplit16(b0 % 4, b1 / 16);
    DivModSplit4(b1 % 16, b2 / 64);
  }

  lemma BlockRoundTrip(b0: Byte, b1: Byte, b2: Byte)
    ensures DecodeBlock(EncodeBlock(b0, b1, b2)) == Some([b0, b1, b2])
    ensures DecodeFinal(EncodeBlock(b0, b1, b2)) == Some([b0, b1, b2])
  {
    SymbolRoundTrip(b0 / 4);
    SymbolRoundTrip((b0 % 4) * 16 + b1 / 16);
    SymbolRoundTrip((b1 % 16) * 4 + b2 / 64);
    SymbolRoundTrip(b2 % 64);
    BlockArithmetic(b0, b1, b2);
  }

  lemma BlockFromDecode(q: string, b: seq<Byte>)
    requires |q| == 4 && DecodeBlock(q) == Some(b)
    ensures |b| == 3 && EncodeBlock(b[0], b[1], b[2]) == q
  {
    var i0: int, i1: int, i2: int, i3: int := SymbolValue(q[0]), SymbolValue(q[1]), SymbolValue(q[2]), SymbolValue(q[3]);
    DivModSplit4(i0, i1 / 16);
    DivModSplit16(i1 % 16, i2 / 4);
    DivModSplit64(i2 % 4, i3);
    assert i1 == (i1 / 16) * 16 + i1 % 16 && i2 == (i2 / 4) * 4 + i2 % 4;
  }

  lemma PairRoundTrip(b0: Byte, b1: Byte)
    ensures Decode(Encode([b0, b1])) == Some([b0, b1])
  {
    SymbolRoundTrip(b0 / 4);
    SymbolRoundTrip((b0 % 4) * 16 + b1 / 16);
    SymbolRoundTrip((b1 % 16) * 4);
    DivModSplit16(b0 % 4, b1 / 16);
    DivModSplit4(b1 % 16, 0);
  }

  lemma SingleRoundTrip(b0: Byte)
    ensures Decode(Encode([b0])) == Some([b0])
  {
    SymbolRoundTrip(b0 / 4);
    SymbolRoundTrip((b0 % 4) * 16);
    DivModSplit16(b0 % 4, 0);
  }

  /** A full block followed by more text decodes block by block. */
  lemma DecodeAppend(q: string, rest: string, t: seq<Byte>)
    requires |q| == 4 && DecodeBlock(q).Some? && rest != [] && Decode(rest) == Some(t)
    ensures Decode(q + rest) == Some(DecodeBlock(q).value + t)
  {
    var s := q + rest;
    assert s[..4] == q;
    assert s[4..] == rest;
  }

  /** Decoding undoes encoding. */
  lemma {:induction false} DecodeEncode(b: seq<Byte>)
    ensures Decode(Encode(b)) == Some(b)
    decreases |b|
  {
    if |b| > 3 {
      var t := b[3..];
      var q := EncodeBlock(b[0], b[1], b[2]);
      DecodeEncode(t);
      BlockRoundTrip(b[0], b[1], b[2]);
      EncodeCons(b);
      EncodeNonEmpty(t);
      DecodeAppend(q, Encode(t), t);
      assert b == [b[0], b[1], b[2]] + t;
    } else if |b| == 3 {
      TripleRoundTrip(b);
    } else if |b| == 2 {
      PairRoundTrip(b[0], b[1]);
      assert b == [b[0], b[1]];
    } else if |b| == 1 {
      SingleRoundTrip(b[0]);
      assert b == [b[0]];
    }
  }

  /** Every non-empty input has a non-empty encoding. */
  lemma EncodeNonEmpty(b: seq<Byte>)
    requires b != []
    ensures Encode(b) != []
  {
  }

  /** Four symbols for every started group of three bytes. */
  lemma {:induction false} EncodeLength(b: seq<Byte>)
    ensures |Encode(b)| == 4 * ((|b| + 2) / 3)
    decreases |b|
  {
    if |b| >= 3 {
      EncodeLength(b[3..]);
      assert (|b| + 2) / 3 == (|b[3..]| + 2) / 3 + 1;
    }
  }

  /** Encoding proceeds block by block. */
  lemma EncodeCons(b: seq<Byte>)
    requires |b| > 3
    ensures Encode(b) == EncodeBlock(b[0], b[1], b[2]) + Encode(b[3..])
  {
  }

  lemma TripleRoundTrip(b: seq<Byte>)
    requires |b| == 3
    ensures Decode(Encode(b)) == Some(b)
  {
    var q := EncodeBlock(b[0], b[1], b[2]);
    assert Encode(b) == q by {
      assert b[3..] == [];
    }
    DecodeFour(q);
    BlockRoundTrip(b[0], b[1], b[2]);
    assert b == [b[0], b[1], b[2]];
  }

  /** Four symbols are decoded as the final group. */
  lemma DecodeFour(q: string)
    requires |q| == 4
    ensures Decode(q) == DecodeFinal(q)
  {
  }

  /** Two symbols and `==` are the encoding of the one byte they decode to. */
  lemma FinalOne(q: string, b: seq<Byte>)
    requires |q| == 4 && q[2] == '=' && q[3] == '=' && DecodeFinal(q) == Some(b)
    ensures |b| == 1 && Encode(b) == q
  {
    var i0: int, i1: int := SymbolValue(q[0]), SymbolValue(q[1]);
    assert b == [i0 * 4 + i1 / 16];
    DivModSplit4(i0, i1 / 16);
    assert ((i0 * 4 + i1 / 16) % 4) * 16 == i1;
  }

  /** Three symbols and `=` are the encoding of the two bytes they decode to. */
  lemma FinalTwo(q: string, b: seq<Byte>)
    requires |q| == 4 && q[2] != '=' && q[3] == '=' && DecodeFinal(q) == Some(b)
    ensures |b| == 2 && Encode(b) == q
  {
    var i0: int, i1: int, i2: int := SymbolValue(q[0]), SymbolValue(q[1]), SymbolValue(q[2]);
    assert b == [i0 * 4 + i1 / 16, (i1 % 16) * 16 + i2 / 4];
    DivModSplit4(i0, i1 / 16);
    DivModSplit16(i1 % 16, i2 / 4);
    assert ((i1 % 16) * 16 + i2 / 4) % 16 * 4 == i2;
  }

  lemma FinalFromDecode(q: string, b: seq<Byte>)
    requires |q| == 4 && DecodeFinal(q) == Some(b)
    ensures 1 <= |b| <= 3 && Encode(b) == q
  {
    if q[2] == '=' && q[3] == '=' {
      FinalOne(q, b);
    } else if q[3] == '=' {
      FinalTwo(q, b);
    } else {
      BlockFromDecode(q, b);
      assert Encode(b) == EncodeBlock(b[0], b[1], b[2]) + Encode([]);
    }
  }

  /** Whatever decodes is the encoding of what it decodes to: the decoder accepts only canonical text. */
  lemma {:induction false} EncodeDecode(s: string, b: seq<Byte>)
    requires Decode(s) == Some(b)
    ensures Encode(b) == s
    decreases |s|
  {
    if |s| == 4 {
      FinalFromDecode(s, b);
    } else if |s| > 4 {
      var head := DecodeBlock(s[..4]).value;
      var tail := Decode(s[4..]).value;
      BlockFromDecode(s[..4], head);
      EncodeDecode(s[4..], tail);
      assert b == head + tail;
      assert tail != [] by {
        assert Encode(tail) == s[4..] != [];
      }
      assert b[3..] == tail;
      assert s == s[..4] + s[4..];
    }
  }
}
