/**
 * Byte buffers as the decoders see them, the single failure outcome of a
 * decoder, and the two library helpers the decoders lean on: big-endian
 * field reads and `java.util.Arrays.copyOfRange`.
 */
module Bytes {
  import opened Bits

  /**
   * A buffer element after Java's `data[i] & 0xff`: the unsigned value of
   * the byte.  The decoders only ever read bytes through that mask (or
   * through tests that agree with it, see Signed), so a buffer is a
   * `seq<Byte>`.
   */
  type Byte = b: int | 0 <= b < 256

  /**
   * The outcome of one decoder.  Every exception the source can throw while
   * decoding (an index past the end of the buffer, a bad `copyOfRange`
   * range) is the one case `Failure`.
   */
  datatype Result<T> = Success(value: T) | Failure

  /** A field the source leaves `null`. */
  datatype Option<T> = None | Some(value: T)

  /** The value Java's signed `byte` holds for the unsigned byte b. */
  function Signed(b: Byte): (s: int)
    ensures -128 <= s < 128
    ensures (s - b) % 256 == 0
  {
    if b < 128 then b else b - 256
  }

  /** n zero bytes: what `copyOfRange` fills in past the end of its source. */
  function Zeros(n: nat): (z: seq<Byte>)
    ensures |z| == n
    ensures forall i :: 0 <= i < n ==> z[i] == 0
  {
    seq(n, _ => 0)
  }

  /**
   * `Arrays.copyOfRange(data, from, to)`: fails when `from` is outside
   * `[0, |data|]` or `from > to`; otherwise a buffer of length `to - from`
   * holding `data[from..]` and zero-filled past the end of `data`.
   */
  function CopyOfRange(data: seq<Byte>, from: int, to: int): (r: Result<seq<Byte>>)
    ensures r.Success? <==> 0 <= from <= |data| && from <= to
    ensures r.Success? ==> |r.value| == to - from
    ensures r.Success? ==> forall i :: 0 <= i < to - from ==>
              r.value[i] == if from + i < |data| then data[from + i] else 0
  {
    if from < 0 || from > |data| || from > to then Failure
    else if to <= |data| then Success(data[from..to])
    else Success(data[from..] + Zeros(to - |data|))
  }

  /** A copy that stays inside the buffer is just the slice. */
  lemma {:induction false} CopyWithin(data: seq<Byte>, from: int, to: int)
    requires 0 <= from <= to <= |data|
    ensures CopyOfRange(data, from, to) == Success(data[from..to])
  {
  }

  /** `(b & 0xff) >> 4`: the high nibble of a byte. */
  function HighNibble(b: Byte): (n: nat)
    ensures n == b / 16 && n < 16
  {
    assert Pow2(4) == 16;
    Shr(b, 4)
  }

  /**
   * `Arrays.copyOfRange(p, 0, p.length)`, the copy the accessors return: it
   * cannot fail and equals p.
   */
  function Copy(p: seq<Byte>): (c: seq<Byte>)
    ensures c == p
  {
    assert p[0..|p|] == p;
    CopyOfRange(p, 0, |p|).value
  }

  /**
   * The big-endian 16-bit value `(hi & 0xff) << 8 | lo & 0xff`; the two
   * bytes come back out of it, so the read loses nothing.
   */
  function U16(hi: Byte, lo: Byte): (v: nat)
    ensures v < 0x1_0000
    ensures v / 256 == hi && v % 256 == lo
  {
    OrShifted(hi, lo, 8);
    Or(Shl(hi, 8), lo)
  }

  /**
   * The big-endian 32-bit value
   * `(long) (b0 & 0xff) << 24 | (b1 & 0xff) << 16 | (b2 & 0xff) << 8 | (b3 & 0xff) << 0`.
   * The first operand is widened to a 64-bit `long` before the shift, so the
   * result is the unsigned value, never a negative number.
   */
  function U32(b0: Byte, b1: Byte, b2: Byte, b3: Byte): (v: nat)
    ensures v < 0x1_0000_0000
    ensures v / 0x100_0000 == b0 && (v / 0x1_0000) % 256 == b1
    ensures (v / 256) % 256 == b2 && v % 256 == b3
  {
    U32Sum(b0, b1, b2, b3);
    U32Bytes(b0, b1, b2, b3);
    Or(Or(Or(Shl(b0, 24), Shl(b1, 16)), Shl(b2, 8)), Shl(b3, 0))
  }

  lemma {:induction false} U32Sum(b0: Byte, b1: Byte, b2: Byte, b3: Byte)
    ensures Or(Or(Or(Shl(b0, 24), Shl(b1, 16)), Shl(b2, 8)), Shl(b3, 0))
         == b0 * 0x100_0000 + b1 * 0x1_0000 + b2 * 256 + b3
  {
    assert Pow2(8) == 256 && Pow2(16) == 0x1_0000 && Pow2(24) == 0x100_0000;
    var s1 := b0 * 0x100_0000 + b1 * 0x1_0000;
    var s2 := s1 + b2 * 256;
    assert Or(Shl(b0, 24), Shl(b1, 16)) == s1 by {
      OrShifted(b0, b1 * 0x1_0000, 24);
    }
    assert Or(s1, Shl(b2, 8)) == s2 by {
      assert s1 == (b0 * 256 + b1) * Pow2(16);
      OrShifted(b0 * 256 + b1, b2 * 256, 16);
    }
    assert Or(s2, Shl(b3, 0)) == s2 + b3 by {
      assert Pow2(0) == 1;
      assert s2 == (b0 * 0x1_0000 + b1 * 256 + b2) * Pow2(8);
      OrShifted(b0 * 0x1_0000 + b1 * 256 + b2, b3, 8);
    }
  }

  lemma {:induction false} U32Bytes(b0: Byte, b1: Byte, b2: Byte, b3: Byte)
    ensures var v := b0 * 0x100_0000 + b1 * 0x1_0000 + b2 * 256 + b3;
      && v < 0x1_0000_0000
      && v / 0x100_0000 == b0 && (v / 0x1_0000) % 256 == b1
      && (v / 256) % 256 == b2 && v % 256 == b3
  {
    var v := b0 * 0x100_0000 + b1 * 0x1_0000 + b2 * 256 + b3;
    DivModUnique(v, 0x100_0000, b0, b1 * 0x1_0000 + b2 * 256 + b3);
    DivModUnique(v, 0x1_0000, b0 * 256 + b1, b2 * 256 + b3);
    DivModUnique(b0 * 256 + b1, 256, b0, b1);
    DivModUnique(v, 256, b0 * 0x1_0000 + b1 * 256 + b2, b3);
    DivModUnique(b0 * 0x1_0000 + b1 * 256 + b2, 256, b0 * 256 + b1, b2);
  }

  /** The two bytes of a 16-bit value read back as the value. */
  lemma {:induction false} U16Split(v: nat)
    requires v < 0x1_0000
    ensures U16(v / 256, v % 256) == v
  {
    var w := U16(v / 256, v % 256);
    DivModUnique(w, 256, v / 256, v % 256);
  }
}
