/**
 * The JavaScript string operations the model relies on: `trim`, `split` on a
 * one-character separator, `startsWith`, `includes`, ASCII `toLowerCase`,
 * the `\s` character class, and the decimal rendering of an integer that
 * template literals and `+` concatenation perform.
 */
module Text {
  import opened Wrappers

  /** ECMAScript WhiteSpace and LineTerminator code points: what `trim` strips and `\s` matches. */
  predicate IsJsWhitespace(c: char) {
    var n := c as int;
    n == 0x09 || n == 0x0A || n == 0x0B || n == 0x0C || n == 0x0D || n == 0x20 ||
    n == 0xA0 || n == 0x1680 || (0x2000 <= n <= 0x200A) || n == 0x2028 || n == 0x2029 ||
    n == 0x202F || n == 0x205F || n == 0x3000 || n == 0xFEFF
  }

  /** Leading whitespace removed. */
  function TrimStart(s: string): (r: string)
    ensures |r| <= |s| && r == s[|s| - |r|..]
    ensures forall k :: 0 <= k < |s| - |r| ==> IsJsWhitespace(s[k])
    ensures r != [] ==> !IsJsWhitespace(r[0])
  {
    if s != [] && IsJsWhitespace(s[0]) then TrimStart(s[1..]) else s
  }

  /** Trailing whitespace removed. */
  function TrimEnd(s: string): (r: string)
    ensures |r| <= |s| && r == s[..|r|]
    ensures forall k :: |r| <= k < |s| ==> IsJsWhitespace(s[k])
    ensures r != [] ==> !IsJsWhitespace(r[|r| - 1])
  {
    if s != [] && IsJsWhitespace(s[|s| - 1]) then TrimEnd(s[..|s| - 1]) else s
  }

  /**
   * `String.prototype.trim`: the input with its leading whitespace (the first
   * `|s| - |TrimStart(s)|` characters) and its trailing whitespace cut off.
   */
  function Trim(s: string): (r: string)
    ensures |r| <= |s|
    ensures TrimmedFrom(s, r, |s| - |TrimStart(s)|)
    ensures r != [] ==> !IsJsWhitespace(r[0]) && !IsJsWhitespace(r[|r| - 1])
    ensures (forall k :: 0 <= k < |s| ==> !IsJsWhitespace(s[k])) ==> r == s
  {
    TrimParts(s);
    TrimEnd(TrimStart(s))
  }

  /** What the two cuts of `Trim` remove is whitespace, at the start and at the end of `s`. */
  lemma TrimParts(s: string)
    ensures TrimmedFrom(s, TrimEnd(TrimStart(s)), |s| - |TrimStart(s)|)
  {
    var t := TrimStart(s);
    var i := |s| - |t|;
    var r := TrimEnd(t);
    assert t == s[i..];
    forall k | i + |r| <= k < |s|
      ensures IsJsWhitespace(s[k])
    {
      assert s[k] == t[k - i];
    }
  }

  /** `r` is `s` with `s[..i]` and what follows `r` cut off, all of it whitespace. */
  predicate TrimmedFrom(s: string, r: string, i: int) {
    0 <= i <= |s| && r <= s[i..] &&
    (forall k :: 0 <= k < i ==> IsJsWhitespace(s[k])) &&
    (forall k :: i + |r| <= k < |s| ==> IsJsWhitespace(s[k]))
  }

  /** Position of the first occurrence of `c`, as `indexOf` (with `None` for -1). */
  function IndexOf(s: string, c: char): (r: Option<nat>)
    ensures r.None? <==> c !in s
    ensures r.Some? ==> r.value < |s| && s[r.value] == c && c !in s[..r.value]
  {
    if s == [] then None
    else if s[0] == c then Some(0)
    else match IndexOf(s[1..], c)
      case None => None
      case Some(i) => assert s[1..][..i] == s[1..i + 1]; Some(i + 1)
  }

  /** `s.split(c)` for a one-character separator: the pieces between the separators. */
  function Split(s: string, c: char): (r: seq<string>)
    ensures |r| >= 1
    ensures forall i :: 0 <= i < |r| ==> c !in r[i]
    decreases |s|
  {
    match IndexOf(s, c)
    case None => [s]
    case Some(i) => [s[..i]] + Split(s[i + 1..], c)
  }

  /** The inverse of Split: the pieces joined with the separator. */
  function Join(pieces: seq<string>, c: char): string
    requires |pieces| >= 1
  {
    if |pieces| == 1 then pieces[0] else pieces[0] + [c] + Join(pieces[1..], c)
  }

  lemma {:induction false} JoinSplit(s: string, c: char)
    ensures Join(Split(s, c), c) == s
    decreases |s|
  {
    match IndexOf(s, c)
    case None =>
    case Some(i) =>
      JoinSplit(s[i + 1..], c);
      assert Split(s, c)[1..] == Split(s[i + 1..], c);
      assert s == s[..i] + [c] + s[i + 1..];
  }

  /** The first piece of a split is everything before the first separator. */
  lemma SplitHead(a: string, c: char, rest: string)
    requires c !in a
    ensures Split(a + [c] + rest, c)[0] == a
    ensures Split(a + [c] + rest, c)[1..] == Split(rest, c)
  {
    var s := a + [c] + rest;
    assert s[|a|] == c;
    assert s[..|a|] == a;
    assert s[|a| + 1..] == rest;
  }

  /** A separator-free string splits into itself alone. */
  lemma SplitNoSeparator(a: string, c: char)
    requires c !in a
    ensures Split(a, c) == [a]
  {
  }

  /** `s.startsWith(p)`. */
  predicate StartsWith(s: string, p: string) {
    p <= s
  }

  /** `s.includes(t)`: `t` occurs in `s` at some position. */
  predicate Includes(s: string, t: string)
    decreases |s|
  {
    t <= s || (s != [] && Includes(s[1..], t))
  }

  /** `toLowerCase` restricted to the ASCII letters. */
  function AsciiLower(s: string): (r: string)
    ensures |r| == |s|
    ensures forall i :: 0 <= i < |s| ==> r[i] == (if 'A' <= s[i] <= 'Z' then (s[i] as int + 32) as char else s[i])
  {
    if s == [] then []
    else [if 'A' <= s[0] <= 'Z' then (s[0] as int + 32) as char else s[0]] + AsciiLower(s[1..])
  }

  /** A string lacking one of `t`'s characters does not include `t`. */
  lemma {:induction false} MissingCharNotIncluded(s: string, t: string, c: char)
    requires c in t && c !in s
    ensures !Includes(s, t)
    decreases |s|
  {
    var j :| 0 <= j < |t| && t[j] == c;
    if j < |s| {
      assert s[j] != t[j];
    }
    if s != [] {
      MissingCharNotIncluded(s[1..], t, c);
    }
  }

  /** A small letter is in the lower case of a string only if it or its capital is in the string. */
  lemma LowerMissing(s: string, c: char)
    requires 'a' <= c <= 'z' && c !in s && (c as int - 32) as char !in s
    ensures c !in AsciiLower(s)
  {
    forall j | 0 <= j < |s|
      ensures AsciiLower(s)[j] != c
    {
      assert s[j] != c && s[j] != (c as int - 32) as char;
    }
  }

  /** `t` found at position `i` of `s`. */
  lemma {:induction false} IncludesAt(s: string, t: string, i: nat)
    requires i <= |s| && t <= s[i..]
    ensures Includes(s, t)
    decreases i
  {
    if i > 0 {
      assert s[1..][i - 1..] == s[i..];
      IncludesAt(s[1..], t, i - 1);
    }
  }

  /** Lower-casing works character by character. */
  lemma {:induction false} LowerOfConcat(a: string, b: string)
    ensures AsciiLower(a + b) == AsciiLower(a) + AsciiLower(b)
    decreases |a|
  {
    if a != [] {
      assert (a + b)[1..] == a[1..] + b;
      LowerOfConcat(a[1..], b);
    } else {
      assert a + b == b;
    }
  }

  /** A string without capitals is its own lower case. */
  lemma LowerKeepsLowercase(s: string)
    requires forall i :: 0 <= i < |s| ==> !('A' <= s[i] <= 'Z')
    ensures AsciiLower(s) == s
  {
  }

  /** A capital-free tail is found in the lower case of any string it ends. */
  lemma FoundAfter(head: string, tail: string)
    requires forall i :: 0 <= i < |tail| ==> !('A' <= tail[i] <= 'Z')
    ensures Includes(AsciiLower(head + tail), tail)
  {
    LowerKeepsLowercase(tail);
    LowerOfConcat(head, tail);
    var l := AsciiLower(head + tail);
    assert l[|head|..] == tail;
    IncludesAt(l, tail, |head|);
  }

  function DigitChar(d: nat): (c: char)
    requires d < 10
    ensures '0' <= c <= '9'
  {
    ('0' as int + d) as char
  }

  /** Decimal rendering of a natural number, as `String(n)` gives it. */
  function NatToDecimal(n: nat): (r: string)
    ensures |r| >= 1
    ensures forall i :: 0 <= i < |r| ==> '0' <= r[i] <= '9'
    ensures (|r| == 1) <==> n < 10
    ensures n < 10 ==> r == [DigitChar(n)]
  {
    if n < 10 then [DigitChar(n)] else NatToDecimal(n / 10) + [DigitChar(n % 10)]
  }

  /** Decimal rendering of an integer, with a leading minus sign when negative. */
  function IntToDecimal(n: int): (r: string)
    ensures |r| >= 1
    ensures r[0] == '-' <==> n < 0
    ensures 0 <= n < 10 ==> r == [DigitChar(n)]
    ensures n >= 10 ==> |r| >= 2 && '0' <= r[1] <= '9'
    ensures n < 0 ==> |r| >= 2
  {
    if n < 0 then "-" + NatToDecimal(-n) else NatToDecimal(n)
  }

  /** Distinct numbers render differently (the rendering can be read back). */
  function DecimalValue(s: string): nat
    requires forall i :: 0 <= i < |s| ==> '0' <= s[i] <= '9'
  {
    if s == [] then 0 else DecimalValue(s[..|s| - 1]) * 10 + (s[|s| - 1] as int - '0' as int)
  }

  lemma {:induction false} DecimalRoundTrip(n: nat)
    ensures DecimalValue(NatToDecimal(n)) == n
  {
    if n >= 10 {
      DecimalRoundTrip(n / 10);
      var s := NatToDecimal(n);
      assert s[..|s| - 1] == NatToDecimal(n / 10);
    }
  }
}
