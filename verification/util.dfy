/**
 * The numeric helpers of the `LiteGraph` facade: hex colour triplets
 * (`hex2num`, `num2hex`) and `clamp`.
 */
module Util {
  import opened Base

  const HexAlphabet: string := "0123456789ABCDEF"

  /** `s.charAt(i)`: the one-character string at `i`, or "" outside the string. */
  function CharAt(s: string, i: int): (r: string)
    ensures 0 <= i < |s| ==> r == [s[i]]
    ensures !(0 <= i < |s|) ==> r == ""
  {
    if 0 <= i < |s| then [s[i]] else ""
  }

  /** The characters of the alphabet. */
  predicate IsHexDigit(c: char)
  {
    '0' <= c <= '9' || 'A' <= c <= 'F'
  }

  /** The position of a digit in the alphabet, or -1. */
  function DigitValue(c: char): (r: int)
    ensures -1 <= r < 16
    ensures r == -1 <==> !IsHexDigit(c)
  {
    if '0' <= c <= '9' then c as int - '0' as int
    else if 'A' <= c <= 'F' then c as int - 'A' as int + 10
    else -1
  }

  /** The alphabet lists the digits in increasing value, each once. */
  lemma AlphabetAt(d: int)
    requires 0 <= d < 16
    ensures IsHexDigit(HexAlphabet[d]) && DigitValue(HexAlphabet[d]) == d
  {
  }

  /** Every digit sits in the alphabet at its value. */
  lemma DigitAtValue(c: char)
    requires IsHexDigit(c)
    ensures HexAlphabet[DigitValue(c)] == c
  {
  }

  lemma NonDigitAbsent(c: char)
    requires !IsHexDigit(c)
    ensures c !in HexAlphabet
  {
  }

  /** `DigitValue` is exactly `HexAlphabet.indexOf` of one character. */
  lemma DigitValueIsIndexOf(c: char)
    ensures DigitValue(c) == IndexOf(HexAlphabet, c)
  {
    if IsHexDigit(c) {
      var r := IndexOf(HexAlphabet, c);
      DigitAtValue(c);
      AlphabetAt(r);
    } else {
      NonDigitAbsent(c);
    }
  }

  /**
   * `HexAlphabet.indexOf(piece)` for a piece of at most one character: the
   * empty string is found at 0, a missing character gives -1.
   */
  function DigitIndex(piece: string): (r: int)
    requires |piece| <= 1
    ensures -1 <= r < 16
    ensures |piece| == 0 ==> r == 0
    ensures |piece| == 1 ==> (r == -1 <==> !IsHexDigit(piece[0]))
    ensures |piece| == 1 && r >= 0 ==> HexAlphabet[r] == piece[0]
  {
    if |piece| == 0 then 0
    else
      DigitValueIsIndexOf(piece[0]);
      IndexOf(HexAlphabet, piece[0])
  }

  /**
   * The integer part of `a / b` for a positive divisor, rounded toward zero:
   * what `charAt` makes of JavaScript's floating-point quotient.
   */
  function TruncDiv(a: int, b: int): (q: int)
    requires b > 0
    ensures a >= 0 ==> q == a / b
    ensures a < 0 ==> q <= 0 && a <= q * b < a + b
  {
    if a >= 0 then a / b else
      var p := (-a) / b;
      assert p * b <= -a < p * b + b;
      -p
  }

  /** JavaScript `a % b` for a positive divisor: the remainder takes the sign of `a`. */
  function TruncRem(a: int, b: int): (r: int)
    requires b > 0
    ensures a == TruncDiv(a, b) * b + r
    ensures a >= 0 ==> r == a % b
    ensures a >= 0 ==> 0 <= r < b
    ensures a < 0 ==> -b < r <= 0
  {
    a - TruncDiv(a, b) * b
  }

  /**
   * The sign rule pins `%` down: a quotient and remainder that recombine to
   * `a`, with the remainder of `a`'s sign and smaller than `b`, are the
   * truncated ones.
   */
  lemma TruncDivRemUnique(a: int, b: int, q: int, r: int)
    requires b > 0 && a == q * b + r
    requires a >= 0 ==> 0 <= r < b
    requires a < 0 ==> -b < r <= 0
    ensures q == TruncDiv(a, b) && r == TruncRem(a, b)
  {
    var q0 := TruncDiv(a, b);
    var r0 := TruncRem(a, b);
    var d := q - q0;
    assert d * b == q * b - q0 * b;
    assert -b < d * b < b;
    SmallMultipleIsZero(d, b);
  }

  /** The only multiple of `b` strictly between `-b` and `b` is zero. */
  lemma SmallMultipleIsZero(d: int, b: int)
    requires b > 0 && -b < d * b < b
    ensures d == 0
  {
    if d >= 1 {
      assert d * b == (d - 1) * b + b;
      NonNegProduct(d - 1, b);
    } else if d <= -1 {
      assert d * b == -((-d - 1) * b) - b;
      NonNegProduct(-d - 1, b);
    }
  }

  lemma NonNegProduct(x: int, y: int)
    requires x >= 0 && y >= 0
    ensures x * y >= 0
  {
  }

  /** The two hex digits `num2hex` writes for one component. */
  function HexPair(v: int): string
  {
    CharAt(HexAlphabet, TruncDiv(v, 16)) + CharAt(HexAlphabet, TruncRem(v, 16))
  }

  /** `LiteGraph.num2hex([r, g, b])`. */
  function Num2Hex(t: (int, int, int)): string
  {
    "#" + HexPair(t.0) + HexPair(t.1) + HexPair(t.2)
  }

  /** The value `hex2num` computes from the digits at positions `i` and `i + 1`. */
  function PairValue(h: string, i: int): (v: int)
    ensures -17 <= v <= 255
  {
    DigitIndex(CharAt(h, i)) * 16 + DigitIndex(CharAt(h, i + 1))
  }

  /** The string `hex2num` reads digits from: one leading "#" removed, then upper-cased. */
  function HexDigits(hex: string): string
  {
    Upper(if CharAt(hex, 0) == "#" then hex[1..] else hex)
  }

  /** `LiteGraph.hex2num(hex)`. */
  function Hex2Num(hex: string): (t: (int, int, int))
    ensures -17 <= t.0 <= 255 && -17 <= t.1 <= 255 && -17 <= t.2 <= 255
  {
    var h := HexDigits(hex);
    (PairValue(h, 0), PairValue(h, 2), PairValue(h, 4))
  }

  /** A component in 0..255 is written as two upper-case hex digits. */
  lemma HexPairDigits(v: int)
    requires 0 <= v <= 255
    ensures |HexPair(v)| == 2
    ensures HexPair(v) == [HexAlphabet[v / 16], HexAlphabet[v % 16]]
  {
  }

  /** `num2hex` of a valid triplet is "#" followed by six upper-case hex digits. */
  lemma Num2HexShape(t: (int, int, int))
    requires 0 <= t.0 <= 255 && 0 <= t.1 <= 255 && 0 <= t.2 <= 255
    ensures |Num2Hex(t)| == 7 && Num2Hex(t)[0] == '#'
    ensures forall i :: 1 <= i < 7 ==> IsHexDigit(Num2Hex(t)[i])
  {
    HexPairDigits(t.0);
    HexPairDigits(t.1);
    HexPairDigits(t.2);
  }

  lemma DigitIndexOfAlphabet(d: int)
    requires 0 <= d < 16
    ensures DigitIndex([HexAlphabet[d]]) == d
  {
    AlphabetAt(d);
    DigitValueIsIndexOf(HexAlphabet[d]);
  }

  /** Reading back the two digits of a component gives the component. */
  lemma PairRoundTrip(h: string, i: int, v: int)
    requires 0 <= v <= 255 && 0 <= i && i + 1 < |h|
    requires h[i] == HexAlphabet[v / 16] && h[i + 1] == HexAlphabet[v % 16]
    ensures PairValue(h, i) == v
  {
    DigitIndexOfAlphabet(v / 16);
    DigitIndexOfAlphabet(v % 16);
  }

  lemma UpperHexDigits(s: string)
    requires forall i :: 0 <= i < |s| ==> IsHexDigit(s[i])
    ensures Upper(s) == s
  {
  }

  /** The digits `hex2num` reads from a `num2hex` result are the three pairs. */
  lemma DigitsOfNum2Hex(t: (int, int, int))
    requires 0 <= t.0 <= 255 && 0 <= t.1 <= 255 && 0 <= t.2 <= 255
    ensures HexDigits(Num2Hex(t)) == HexPair(t.0) + HexPair(t.1) + HexPair(t.2)
  {
    var hex := Num2Hex(t);
    var h := HexPair(t.0) + HexPair(t.1) + HexPair(t.2);
    Num2HexShape(t);
    assert hex == "#" + h;
    assert hex[1..] == h;
    assert CharAt(hex, 0) == "#";
    UpperHexDigits(h);
  }

  /** `hex2num` undoes `num2hex` on every triplet of bytes. */
  lemma Hex2NumNum2Hex(t: (int, int, int))
    requires 0 <= t.0 <= 255 && 0 <= t.1 <= 255 && 0 <= t.2 <= 255
    ensures Hex2Num(Num2Hex(t)) == t
  {
    DigitsOfNum2Hex(t);
    HexPairDigits(t.0);
    HexPairDigits(t.1);
    HexPairDigits(t.2);
    var h := HexPair(t.0) + HexPair(t.1) + HexPair(t.2);
    assert h[0] == HexAlphabet[t.0 / 16] && h[1] == HexAlphabet[t.0 % 16];
    assert h[2] == HexAlphabet[t.1 / 16] && h[3] == HexAlphabet[t.1 % 16];
    assert h[4] == HexAlphabet[t.2 / 16] && h[5] == HexAlphabet[t.2 % 16];
    PairRoundTrip(h, 0, t.0);
    PairRoundTrip(h, 2, t.1);
    PairRoundTrip(h, 4, t.2);
  }

  /** A "#" and six upper-case hex digits survive `hex2num` followed by `num2hex`. */
  lemma Num2HexHex2Num(s: string)
    requires |s| == 6 && forall i :: 0 <= i < 6 ==> IsHexDigit(s[i])
    ensures Num2Hex(Hex2Num("#" + s)) == "#" + s
  {
    ReadDigits(s);
    PrintPairs(s);
  }

  lemma ReadDigits(s: string)
    requires |s| == 6 && forall i :: 0 <= i < 6 ==> IsHexDigit(s[i])
    ensures Hex2Num("#" + s) == (PairValue(s, 0), PairValue(s, 2), PairValue(s, 4))
  {
    var hex := "#" + s;
    assert CharAt(hex, 0) == "#";
    assert hex[1..] == s;
    UpperHexDigits(s);
    assert HexDigits(hex) == s;
  }

  lemma PrintPairs(s: string)
    requires |s| == 6 && forall i :: 0 <= i < 6 ==> IsHexDigit(s[i])
    ensures Num2Hex((PairValue(s, 0), PairValue(s, 2), PairValue(s, 4))) == "#" + s
  {
    var x := PairPrintsBack(s, 0, s[0], s[1]);
    var y := PairPrintsBack(s, 2, s[2], s[3]);
    var z := PairPrintsBack(s, 4, s[4], s[5]);
    SixDigits(s, "#", x, y, z);
  }

  lemma SixDigits(s: string, h: string, x: string, y: string, z: string)
    requires |s| == 6 && x == [s[0], s[1]] && y == [s[2], s[3]] && z == [s[4], s[5]]
    ensures h + x + y + z == h + s
  {
    assert x + y + z == s;
  }

  /** The pair of digits `a b` at `i` reads as a byte that prints back as `a b`. */
  lemma PairPrintsBack(s: string, i: int, a: char, b: char) returns (x: string)
    requires 0 <= i && i + 1 < |s| && s[i] == a && s[i + 1] == b && IsHexDigit(a) && IsHexDigit(b)
    ensures x == HexPair(PairValue(s, i)) && x == [a, b]
  {
    x := HexPair(PairValue(s, i));
    PairFromDigits(s, i, a, b);
    DigitsBack(PairValue(s, i), a, b);
  }

  lemma DigitsBack(v: int, a: char, b: char)
    requires 0 <= v <= 255 && HexAlphabet[v / 16] == a && HexAlphabet[v % 16] == b
    ensures HexPair(v) == [a, b]
  {
    HexPairDigits(v);
  }

  lemma DigitIndexIsValue(c: char)
    ensures DigitIndex([c]) == DigitValue(c)
  {
    DigitValueIsIndexOf(c);
  }

  lemma SplitByte(hi: int, lo: int)
    requires 0 <= hi < 16 && 0 <= lo < 16
    ensures 0 <= hi * 16 + lo <= 255
    ensures (hi * 16 + lo) / 16 == hi && (hi * 16 + lo) % 16 == lo
  {
  }

  lemma PairFromDigits(s: string, i: int, a: char, b: char)
    requires 0 <= i && i + 1 < |s| && s[i] == a && s[i + 1] == b && IsHexDigit(a) && IsHexDigit(b)
    ensures 0 <= PairValue(s, i) <= 255
    ensures HexAlphabet[PairValue(s, i) / 16] == a && HexAlphabet[PairValue(s, i) % 16] == b
  {
    var hi := DigitValue(a);
    var lo := DigitValue(b);
    DigitIndexIsValue(a);
    DigitIndexIsValue(b);
    assert CharAt(s, i) == [a] && CharAt(s, i + 1) == [b];
    assert PairValue(s, i) == hi * 16 + lo;
    SplitByte(hi, lo);
    DigitAtValue(a);
    DigitAtValue(b);
  }

  lemma UpperOfLower(s: string)
    ensures Upper(Lower(s)) == Upper(s)
  {
    forall i | 0 <= i < |s|
      ensures UpperChar(LowerChar(s[i])) == UpperChar(s[i])
    {
    }
  }

  /** `hex2num` does not care about the leading "#". */
  lemma Hex2NumIgnoresHash(s: string)
    requires |s| == 0 || s[0] != '#'
    ensures Hex2Num("#" + s) == Hex2Num(s)
  {
    assert ("#" + s)[1..] == s;
    assert CharAt("#" + s, 0) == "#";
    assert HexDigits("#" + s) == HexDigits(s);
  }

  /** `hex2num` does not care about letter case. */
  lemma Hex2NumIgnoresCase(s: string)
    ensures Hex2Num(Lower(s)) == Hex2Num(s)
  {
    UpperOfLower(s);
    if |s| > 0 {
      assert Lower(s)[0] == '#' <==> s[0] == '#';
      assert CharAt(Lower(s), 0) == "#" <==> CharAt(s, 0) == "#";
      if s[0] == '#' {
        assert Lower(s)[1..] == Lower(s[1..]);
        UpperOfLower(s[1..]);
      }
    }
    assert HexDigits(Lower(s)) == HexDigits(s);
  }

  /** `LiteGraph.clamp(v, a, b)`. */
  function Clamp(v: int, a: int, b: int): (r: int)
    ensures r == a || r == b || r == v
    ensures a <= b ==> a <= r <= b
    ensures a <= v <= b ==> r == v
    ensures v < a ==> r == a
    ensures a <= v && b < v ==> r == b
  {
    if a > v then a else if b < v then b else v
  }

  /** Clamping twice is clamping once, whenever the bounds are ordered. */
  lemma ClampIdempotent(v: int, a: int, b: int)
    requires a <= b
    ensures Clamp(Clamp(v, a, b), a, b) == Clamp(v, a, b)
  {
  }
}
