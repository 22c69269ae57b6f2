/**
 * The few renderings of numbers the reports use (`%0Nx`, Java's decimal
 * `"" + n`, `%-Ns` padding, the 2-digit binary of the ECN field) and the
 * report shape: lines, each ended by "\n".  The three number renderings
 * (hex, decimal, binary) come with the reading that undoes them; the
 * padding and the line joiner are specified by what they keep.
 */
module Text {
  import opened Bytes

  const HexChars: string := "0123456789abcdef"

  /** The lowercase hex digit of n. */
  function HexDigit(n: int): (c: char)
    requires 0 <= n < 16
    ensures '0' <= c <= '9' || 'a' <= c <= 'f'
  {
    HexChars[n]
  }

  /** The value of a hex digit; 0 for any other character. */
  function HexDigitValue(c: char): (n: nat)
    ensures n < 16
  {
    if '0' <= c <= '9' then (c - '0') as nat
    else if 'a' <= c <= 'f' then (c - 'a') as nat + 10
    else 0
  }

  lemma {:induction false} HexDigitRoundTrip(n: int)
    requires 0 <= n < 16
    ensures HexDigitValue(HexDigit(n)) == n
  {
  }

  /** 16 to the power k. */
  function Pow16(k: nat): (p: nat)
    ensures p >= 1
  {
    if k == 0 then 1 else 16 * Pow16(k - 1)
  }

  /** The shortest lowercase hex rendering of v (Java's `%x`). */
  function HexDigits(v: nat): (s: string)
    ensures |s| >= 1
  {
    if v < 16 then [HexDigit(v)] else HexDigits(v / 16) + [HexDigit(v % 16)]
  }

  /** The value of a string of hex digits, most significant first. */
  function HexValue(s: string): nat
  {
    if s == [] then 0 else 16 * HexValue(s[..|s| - 1]) + HexDigitValue(s[|s| - 1])
  }

  /** s preceded by enough copies of c to make it `width` long. */
  function PadLeft(s: string, width: nat, c: char): (r: string)
    ensures |r| == if |s| >= width then |s| else width
    ensures r[|r| - |s|..] == s
  {
    if |s| >= width then s else seq(width - |s|, _ => c) + s
  }

  /** s followed by spaces up to `width` characters: Java's `%-<width>s`. */
  function PadRight(s: string, width: nat): (r: string)
    ensures |r| == if |s| >= width then |s| else width
    ensures r[..|s|] == s
  {
    if |s| >= width then s else s + seq(width - |s|, _ => ' ')
  }

  /** `s.replace(a, b)` for single characters. */
  function Replace(s: string, a: char, b: char): (r: string)
    ensures |r| == |s|
    ensures forall i :: 0 <= i < |s| ==> r[i] == if s[i] == a then b else s[i]
  {
    seq(|s|, i requires 0 <= i < |s| => if s[i] == a then b else s[i])
  }

  /** `String.format("%0<width>x", v)`: at least `width` lowercase hex digits. */
  function Hex(v: nat, width: nat): string
  {
    PadLeft(HexDigits(v), width, '0')
  }

  /**
   * `String.format("%0<width>x", v)` for a Java `int` v: a negative value is
   * printed as its 32-bit two's complement.
   */
  function IntHex(v: int, width: nat): string
  {
    Hex(v % 0x1_0000_0000, width)
  }

  /** A non-negative `int` below 2^16 prints in exactly four hex digits, which read back as it. */
  lemma {:induction false} IntHex4(v: int)
    requires 0 <= v < 0x1_0000
    ensures |IntHex(v, 4)| == 4 && HexValue(IntHex(v, 4)) == v
  {
    assert v % 0x1_0000_0000 == v;
    HexRoundTrip(v, 4);
    assert Pow16(4) == 0x1_0000;
    HexLength(v, 4);
  }

  lemma {:induction false} HexDigitsValue(v: nat)
    ensures HexValue(HexDigits(v)) == v
  {
    if v >= 16 {
      var s := HexDigits(v);
      assert s[..|s| - 1] == HexDigits(v / 16);
      HexDigitsValue(v / 16);
      HexDigitRoundTrip(v % 16);
    }
  }

  lemma {:induction false} HexValueZeros(z: string, s: string)
    requires forall i :: 0 <= i < |z| ==> z[i] == '0'
    ensures HexValue(z + s) == HexValue(s)
    decreases |s|
  {
    if s == [] {
      assert z + s == z;
      ZerosValue(z);
    } else {
      assert (z + s)[..|z + s| - 1] == z + s[..|s| - 1];
      HexValueZeros(z, s[..|s| - 1]);
    }
  }

  lemma {:induction false} ZerosValue(z: string)
    requires forall i :: 0 <= i < |z| ==> z[i] == '0'
    ensures HexValue(z) == 0
  {
    if z != [] {
      ZerosValue(z[..|z| - 1]);
    }
  }

  /** Reading the hex digits back gives the number: the rendering loses nothing. */
  lemma {:induction false} HexRoundTrip(v: nat, width: nat)
    ensures HexValue(Hex(v, width)) == v
  {
    var s := HexDigits(v);
    HexDigitsValue(v);
    if |s| < width {
      var z := seq(width - |s|, _ => '0');
      assert Hex(v, width) == z + s;
      HexValueZeros(z, s);
    } else {
      assert Hex(v, width) == s;
    }
  }

  lemma {:induction false} HexDigitsLength(v: nat, k: nat)
    requires k >= 1 && v < Pow16(k)
    ensures |HexDigits(v)| <= k
  {
    if v >= 16 {
      HexDigitsLength(v / 16, k - 1);
    }
  }

  /** A value below 16^width is rendered in exactly `width` digits. */
  lemma {:induction false} HexLength(v: nat, width: nat)
    requires width >= 1 && v < Pow16(width)
    ensures |Hex(v, width)| == width
  {
    HexDigitsLength(v, width);
  }

  /** The two hex digits of a byte, high nibble first. */
  function HexPair(b: Byte): (s: string)
    ensures |s| == 2
  {
    [HexDigit(b / 16), HexDigit(b % 16)]
  }

  /** `%02x` of a byte is its two hex digits. */
  lemma {:induction false} HexByte(b: Byte)
    ensures Hex(b, 2) == HexPair(b)
  {
    if b < 16 {
      assert HexDigits(b) == [HexDigit(b % 16)];
      assert HexDigit(b / 16) == '0';
    } else {
      assert HexDigits(b / 16) == [HexDigit(b / 16)];
    }
  }

  /** The decimal digit n. */
  function DigitChar(n: int): (c: char)
    requires 0 <= n < 10
    ensures '0' <= c <= '9'
  {
    "0123456789"[n]
  }

  /** Java's `"" + n` for a non-negative n. */
  function Decimal(n: nat): (s: string)
    ensures |s| >= 1
    ensures forall i :: 0 <= i < |s| ==> '0' <= s[i] <= '9'
  {
    if n < 10 then [DigitChar(n)] else Decimal(n / 10) + [DigitChar(n % 10)]
  }

  /** The value of the decimal digit c. */
  function DigitValue(c: char): int
  {
    c as int - '0' as int
  }

  /** The value of a string of decimal digits, most significant first. */
  function DecimalValue(s: string): int
  {
    if s == [] then 0 else 10 * DecimalValue(s[..|s| - 1]) + DigitValue(s[|s| - 1])
  }

  /** Reading the decimal digits back gives the number. */
  lemma {:induction false} DecimalRoundTrip(n: nat)
    ensures DecimalValue(Decimal(n)) == n
  {
    if n >= 10 {
      var s := Decimal(n);
      assert s[..|s| - 1] == Decimal(n / 10);
      DecimalRoundTrip(n / 10);
    }
  }

  /** `Integer.toBinaryString(n)` for a non-negative n. */
  function Binary(n: nat): (s: string)
    ensures |s| >= 1
  {
    if n < 2 then [DigitChar(n)] else Binary(n / 2) + [DigitChar(n % 2)]
  }

  /** The value of a string of binary digits, most significant first. */
  function BinaryValue(s: string): int
  {
    if s == [] then 0 else 2 * BinaryValue(s[..|s| - 1]) + DigitValue(s[|s| - 1])
  }

  /** Reading the binary digits back gives the number. */
  lemma {:induction false} BinaryRoundTrip(n: nat)
    ensures BinaryValue(Binary(n)) == n
  {
    if n >= 2 {
      var s := Binary(n);
      assert s[..|s| - 1] == Binary(n / 2);
      BinaryRoundTrip(n / 2);
    }
  }

  /** The text a `StringBuilder` holds after appending each line and "\n". */
  function Lines(ls: seq<string>): string
  {
    if ls == [] then "" else ls[0] + "\n" + Lines(ls[1..])
  }

  /** Appending lines one after another is appending their texts. */
  lemma {:induction false} LinesAppend(a: seq<string>, b: seq<string>)
    ensures Lines(a + b) == Lines(a) + Lines(b)
  {
    if a != [] {
      assert (a + b)[1..] == a[1..] + b;
      LinesAppend(a[1..], b);
    } else {
      assert a + b == b;
    }
  }

  /** s begins with p. */
  predicate StartsWith(s: string, p: string)
  {
    p <= s
  }

  /** Every line of ls begins with p: the layer's tag that marks each report line. */
  predicate AllStartWith(ls: seq<string>, p: string)
  {
    forall i :: 0 <= i < |ls| ==> StartsWith(ls[i], p)
  }

  /** Lines that all carry the tag still do once put one after another. */
  lemma {:induction false} AllStartWithAppend(a: seq<string>, b: seq<string>, p: string)
    requires AllStartWith(a, p) && AllStartWith(b, p)
    ensures AllStartWith(a + b, p)
  {
    forall i | 0 <= i < |a + b|
      ensures StartsWith((a + b)[i], p)
    {
      if i < |a| {
        assert (a + b)[i] == a[i];
      } else {
        assert (a + b)[i] == b[i - |a|];
      }
    }
  }

  /** Text appended after p keeps p as a prefix. */
  lemma {:induction false} StartsWithAppend(p: string, q: string, r: string)
    ensures StartsWith(p + q + r, p)
  {
    assert (p + q + r)[..|p|] == p;
  }

  /** In a line built as p + q + r, q sits between p and r. */
  lemma {:induction false} Enclosed(p: string, q: string, r: string)
    ensures var s := p + q + r;
      && |s| == |p| + |q| + |r|
      && s[..|p|] == p
      && s[|p|..|s| - |r|] == q
  {
    var s := p + q + r;
    assert s[..|p|] == p;
    assert s[|p|..|s| - |r|] == q;
  }

  /** In a line built as p + q + more, q follows p. */
  lemma {:induction false} Infix(p: string, q: string, r1: string, r2: string, r3: string)
    ensures var s := p + q + r1 + r2 + r3;
      && |s| >= |p| + |q|
      && s[..|p|] == p
      && s[|p|..|p| + |q|] == q
  {
    var s := p + q + r1 + r2 + r3;
    assert s == (p + q) + (r1 + r2 + r3);
    assert (p + q)[..|p|] == p && (p + q)[|p|..] == q;
  }

  /** In a line built as p + q + more, what follows q is the rest of the parts. */
  lemma {:induction false} InfixRest(p: string, q: string, r1: string, r2: string, r3: string)
    ensures var s := p + q + r1 + r2 + r3;
      && |s| >= |p| + |q|
      && s[|p| + |q|..] == r1 + r2 + r3
  {
    var s := p + q + r1 + r2 + r3;
    assert s == (p + q) + (r1 + r2 + r3);
  }
}
