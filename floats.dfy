/**
  IEEE 754 single-precision patterns as far as the converters need them:
  Rust's `n as f32` for a byte `n`, which both SS+m parsers apply to the
  coordinates of integer notes, and what such a pattern denotes.
*/
module F32Bits {
  import opened Bytes

  function Pow2(k: nat): (p: nat)
    ensures p >= 1
  {
    if k == 0 then 1 else 2 * Pow2(k - 1)
  }

  lemma {:induction false} Pow2Add(a: nat, b: nat)
    ensures Pow2(a + b) == Pow2(a) * Pow2(b)
    decreases a
  {
    if a > 0 {
      Pow2Add(a - 1, b);
      assert Pow2(a + b) == 2 * Pow2(a - 1 + b);
    }
  }

  /** The position of the highest set bit of `n`. */
  function HighBit(n: nat): (e: nat)
    requires n >= 1
    ensures Pow2(e) <= n < 2 * Pow2(e)
  {
    if n == 1 then 0 else 1 + HighBit(n / 2)
  }

  lemma {:induction false} HighBitBelow(n: nat, k: nat)
    requires 1 <= n < Pow2(k)
    ensures HighBit(n) < k
    decreases k
  {
    if n > 1 {
      HighBitBelow(n / 2, k - 1);
    }
  }

  lemma HighBitOfByte(n: byte)
    requires n >= 1
    ensures HighBit(n) < 8
  {
    assert Pow2(8) == 256;
    HighBitBelow(n, 8);
  }

  lemma MulCancel(v: nat, w: nat, q: nat)
    requires q >= 1 && v * q == w * q
    ensures v == w
  {
  }

  /** The exponent bias and the width of the fraction field of binary32. */
  const BIAS: nat := 127
  const FRACTION: nat := 23

  /**
    The binary32 pattern `bits` denotes the whole number `v`: zero, or a
    positive normal number (1 + frac / 2^23) * 2^(biased - 127) equal to `v`.
  */
  predicate Denotes(bits: nat, v: nat) {
    if bits == 0 then v == 0
    else
      var biased, frac := bits / Pow2(FRACTION), bits % Pow2(FRACTION);
      && BIAS <= biased < 255
      && if biased >= BIAS + FRACTION
         then (Pow2(FRACTION) + frac) * Pow2(biased - BIAS - FRACTION) == v
         else Pow2(FRACTION) + frac == v * Pow2(BIAS + FRACTION - biased)
  }

  lemma Pow2Fraction()
    ensures Pow2(FRACTION) == 0x80_0000
  {
    assert Pow2(8) == 0x100;
    assert Pow2(16) == 0x1_0000;
    assert Pow2(23) == 0x80_0000;
  }

  /** For `p <= n < 2p` and `p * q` a power of two, `(n - p) * q` fits below `p * q`. */
  lemma FractionFacts(n: nat, p: nat, q: nat)
    requires 1 <= p <= n < 2 * p && q >= 1
    ensures 0 <= (n - p) * q < p * q
    ensures p * q + (n - p) * q == n * q
  {
    MulStrict(n - p, p, q);
  }

  lemma MulStrict(a: nat, b: nat, q: nat)
    requires a < b && q >= 1
    ensures a * q < b * q
  {
  }

  /** The fraction field of `n as f32`: the bits of `n` below its highest one, shifted to the top of 23 bits. */
  function FractionOf(n: byte): (frac: nat)
    requires n >= 1
    ensures HighBit(n) < 8
    ensures frac < Pow2(FRACTION)
    ensures Pow2(FRACTION) + frac == n * Pow2(FRACTION - HighBit(n))
  {
    var e := HighBit(n);
    HighBitOfByte(n);
    var p, q := Pow2(e), Pow2(FRACTION - e);
    Pow2Add(e, FRACTION - e);
    FractionFacts(n, p, q);
    (n - p) * q
  }

  /** `n as f32` for a byte: the exponent of its highest bit and the bits below it as the fraction. */
  function U8AsF32(n: byte): (bits: u32)
  {
    if n == 0 then 0
    else
      Pow2Fraction();
      var frac := FractionOf(n);
      (BIAS + HighBit(n)) * 0x80_0000 + frac
  }

  /** Widening a byte to `f32` is exact: the pattern denotes the byte's value. */
  lemma U8AsF32Exact(n: byte)
    ensures Denotes(U8AsF32(n), n)
  {
    if n != 0 {
      Pow2Fraction();
      var e, frac := HighBit(n), FractionOf(n);
      var bits := U8AsF32(n);
      DivModUnique(bits, Pow2(FRACTION), BIAS + e, frac);
    }
  }

  /** A pattern denotes at most one number. */
  lemma DenotesUnique(bits: nat, v: nat, w: nat)
    requires Denotes(bits, v) && Denotes(bits, w)
    ensures v == w
  {
    if bits != 0 {
      var biased := bits / Pow2(FRACTION);
      if biased < BIAS + FRACTION {
        MulCancel(v, w, Pow2(BIAS + FRACTION - biased));
      }
    }
  }

  /** Distinct bytes widen to distinct patterns. */
  lemma U8AsF32Injective(m: byte, n: byte)
    requires U8AsF32(m) == U8AsF32(n)
    ensures m == n
  {
    U8AsF32Exact(m);
    U8AsF32Exact(n);
    DenotesUnique(U8AsF32(m), m, n);
  }
}
