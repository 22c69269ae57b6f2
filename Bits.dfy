/**
 * Java's integer bit operators on the non-negative values the decoders use.
 *
 * Every header field of the decoders is written in the source as a mix of
 * `&`, `|`, `<<` and `>>` on values that are never negative (bytes are first
 * widened with `& 0xff`).  The model writes those expressions literally with
 * the functions below, and the lemmas here give them their arithmetic meaning
 * (a low mask is a remainder, `|` of disjoint bit ranges is a sum, ...).
 */
module Bits {

  /** 2 to the power k. */
  function Pow2(k: nat): (p: nat)
    ensures p >= 1
  {
    if k == 0 then 1 else 2 * Pow2(k - 1)
  }

  /**
   * `a << k` without overflow: the shifts of the decoders stay below 2^31,
   * except the 24-bit shift of the 32-bit reads, which the source applies
   * after widening to `long`.
   */
  function Shl(a: nat, k: nat): nat
  {
    a * Pow2(k)
  }

  /** `a >> k` on a non-negative value. */
  function Shr(a: nat, k: nat): nat
  {
    DivNonNegative(a, Pow2(k));
    a / Pow2(k)
  }

  /** The quotient of a non-negative value by a positive one is not negative. */
  lemma {:induction false} DivNonNegative(a: nat, d: nat)
    requires d > 0
    ensures a / d >= 0
  {
  }

  /** Bitwise `a & b`, defined bit by bit from the least significant bit. */
  function And(a: nat, b: nat): nat
  {
    if a == 0 || b == 0 then 0
    else 2 * And(a / 2, b / 2) + (if a % 2 == 1 && b % 2 == 1 then 1 else 0)
  }

  /** Bitwise `a | b`, defined bit by bit from the least significant bit. */
  function Or(a: nat, b: nat): nat
    decreases a + b
  {
    if a == 0 then b
    else if b == 0 then a
    else 2 * Or(a / 2, b / 2) + (if a % 2 == 1 || b % 2 == 1 then 1 else 0)
  }

  /** Bit k of a, as the source tests it: `(a & (1 << k)) > 0`. */
  predicate BitSet(a: nat, k: nat)
  {
    And(a, Pow2(k)) > 0
  }

  lemma {:induction false} Pow2Add(j: nat, k: nat)
    ensures Pow2(j + k) == Pow2(j) * Pow2(k)
  {
    if j > 0 {
      Pow2Add(j - 1, k);
    }
  }

  /** Masking with 2^n - 1 keeps the n low bits. */
  lemma {:induction false} AndLowMask(a: nat, n: nat)
    ensures And(a, Pow2(n) - 1) == a % Pow2(n)
  {
    if n == 0 {
    } else if a == 0 {
    } else {
      var m := Pow2(n) - 1;
      assert m == 2 * (Pow2(n - 1) - 1) + 1;
      assert m / 2 == Pow2(n - 1) - 1 && m % 2 == 1;
      AndLowMask(a / 2, n - 1);
      DivModPow2(a, n);
    }
  }

  /** a mod 2^n splits into the low bit and (a / 2) mod 2^(n-1). */
  lemma {:induction false} DivModPow2(a: nat, n: nat)
    requires n > 0
    ensures a % Pow2(n) == 2 * ((a / 2) % Pow2(n - 1)) + a % 2
  {
    var p := Pow2(n - 1);
    var q := (a / 2) / p;
    var r := (a / 2) % p;
    assert a / 2 == q * p + r;
    assert a == q * (2 * p) + (2 * r + a % 2);
    assert 0 <= 2 * r + a % 2 < 2 * p;
    DivModUnique(a, 2 * p, q, 2 * r + a % 2);
  }

  lemma {:induction false} DivModUnique(a: int, d: int, q: int, r: int)
    requires d > 0 && 0 <= r < d && a == q * d + r
    ensures a % d == r && a / d == q
  {
    var q0, r0 := a / d, a % d;
    assert (q0 - q) * d == r - r0;
    if q0 > q {
      MulAtLeast(q0 - q, d);
    } else if q0 < q {
      MulAtLeast(q - q0, d);
    }
  }

  lemma {:induction false} MulAtLeast(x: int, d: int)
    requires x >= 1 && d > 0
    ensures x * d >= d
  {
    assert x * d == (x - 1) * d + d;
  }

  /** Masking with an even mask: the low bit drops out and the rest shifts down. */
  lemma {:induction false} AndEvenMask(a: nat, m: nat)
    ensures And(a, 2 * m) == 2 * And(a / 2, m)
  {
  }

  lemma {:induction false} DivDiv(a: nat, b: nat, c: nat)
    requires b > 0 && c > 0
    ensures (a / b) / c == a / (b * c)
  {
    var q := (a / b) / c;
    var r1 := a % b;
    var r2 := (a / b) % c;
    assert a / b == q * c + r2;
    assert a == q * (b * c) + (r2 * b + r1);
    assert r2 * b + r1 < b * c by {
      assert r2 <= c - 1;
      assert r2 * b <= (c - 1) * b;
    }
    DivModUnique(a, b * c, q, r2 * b + r1);
  }

  /** Values whose bits do not meet are combined by `|` as by `+`. */
  lemma {:induction false} OrDisjoint(x: nat, y: nat)
    requires And(x, y) == 0
    ensures Or(x, y) == x + y
    decreases x + y
  {
    if x != 0 && y != 0 {
      assert !(x % 2 == 1 && y % 2 == 1);
      assert And(x / 2, y / 2) == 0;
      OrDisjoint(x / 2, y / 2);
    }
  }

  /** A multiple of 2^k and a value below 2^k share no bit. */
  lemma {:induction false} AndDisjoint(a: nat, b: nat, k: nat)
    requires b < Pow2(k)
    ensures And(a * Pow2(k), b) == 0
  {
    if k > 0 && a != 0 && b != 0 {
      var p := Pow2(k - 1);
      assert a * Pow2(k) == 2 * (a * p);
      assert (a * Pow2(k)) / 2 == a * p && (a * Pow2(k)) % 2 == 0;
      AndDisjoint(a, b / 2, k - 1);
    }
  }

  /** `(hi << k) | lo` with lo below 2^k is hi * 2^k + lo. */
  lemma {:induction false} OrShifted(hi: nat, lo: nat, k: nat)
    requires lo < Pow2(k)
    ensures Or(Shl(hi, k), lo) == hi * Pow2(k) + lo
  {
    AndDisjoint(hi, lo, k);
    OrDisjoint(hi * Pow2(k), lo);
  }

  /** `|` of two values below 2^n stays below 2^n. */
  lemma {:induction false} OrBound(a: nat, b: nat, n: nat)
    requires a < Pow2(n) && b < Pow2(n)
    ensures Or(a, b) < Pow2(n)
    decreases n
  {
    if a != 0 && b != 0 {
      OrBound(a / 2, b / 2, n - 1);
    }
  }

  /** `(a & (1 << k)) > 0` holds exactly when binary digit k of a is 1. */
  lemma {:induction false} BitSetDigit(a: nat, k: nat)
    ensures BitSet(a, k) <==> (a / Pow2(k)) % 2 == 1
  {
    if a == 0 {
      DivZero(Pow2(k));
    } else if k == 0 {
      assert And(a, 1) == 2 * And(a / 2, 0) + a % 2;
    } else {
      BitSetShift(a, k);
      BitSetDigit(a / 2, k - 1);
    }
  }

  lemma {:induction false} DivZero(d: nat)
    requires d > 0
    ensures 0 / d == 0
  {
  }

  /** Bit k of a is bit k - 1 of a / 2. */
  lemma {:induction false} BitSetShift(a: nat, k: nat)
    requires k > 0
    ensures BitSet(a, k) <==> BitSet(a / 2, k - 1)
    ensures a / Pow2(k) == (a / 2) / Pow2(k - 1)
  {
    var p := Pow2(k - 1);
    assert Pow2(k) == 2 * p;
    AndEvenMask(a, p);
    DivDiv(a, 2, p);
  }

}
