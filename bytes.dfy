/**
  Fixed-width integers and the byte layouts shared by every map format:
  big-endian (the FLUX container, the legacy single-file format, the C reader)
  and little-endian (the SS+m foreign format).
  A Rust `as uN` cast followed by `to_be_bytes` is `BE(x, n)`, which keeps
  `x` modulo 256^n.
*/
module Bytes {

  type byte = b: int | 0 <= b < 0x100
  type u16 = x: int | 0 <= x < 0x1_0000
  type u32 = x: int | 0 <= x < 0x1_0000_0000
  type u64 = x: int | 0 <= x < 0x1_0000_0000_0000_0000

  const TWO16: nat := 0x1_0000
  const TWO32: nat := 0x1_0000_0000
  const TWO63: nat := 0x8000_0000_0000_0000
  const TWO64: nat := 0x1_0000_0000_0000_0000

  function Pow256(n: nat): (p: nat)
    ensures p > 0
  {
    if n == 0 then 1 else 256 * Pow256(n - 1)
  }

  /** The `n`-byte big-endian encoding of `x` modulo 256^n. */
  function BE(x: nat, n: nat): (s: seq<byte>)
    ensures |s| == n
  {
    if n == 0 then [] else BE(x / 256, n - 1) + [x % 256]
  }

  /** The unsigned value of `s` read most significant byte first. */
  function FromBE(s: seq<byte>): (x: nat)
    ensures x < Pow256(|s|)
  {
    if s == [] then 0
    else
      var hi := FromBE(s[..|s| - 1]);
      assert hi <= Pow256(|s| - 1) - 1;
      hi * 256 + s[|s| - 1]
  }

  /** The `n`-byte little-endian encoding of `x` modulo 256^n. */
  function LE(x: nat, n: nat): (s: seq<byte>)
    ensures |s| == n
  {
    if n == 0 then [] else [x % 256] + LE(x / 256, n - 1)
  }

  /** The unsigned value of `s` read least significant byte first. */
  function FromLE(s: seq<byte>): (x: nat)
    ensures x < Pow256(|s|)
  {
    if s == [] then 0
    else
      var hi := FromLE(s[1..]);
      assert hi <= Pow256(|s| - 1) - 1;
      s[0] + 256 * hi
  }

  lemma Pow256Values()
    ensures Pow256(1) == 0x100 && Pow256(2) == TWO16 && Pow256(4) == TWO32 && Pow256(8) == TWO64
  {
    assert Pow256(2) == 0x1_0000;
    assert Pow256(4) == 0x1_0000_0000;
    assert Pow256(8) == 0x1_0000_0000_0000_0000;
  }

  /** Division by 256 and the modulus 256 * p split a number the way BE and LE do. */
  lemma SplitMod(x: nat, p: nat)
    requires p > 0
    ensures (x / 256) % p * 256 + x % 256 == x % (256 * p)
    ensures (x / 256) % p * 256 + x % 256 < 256 * p
  {
    var q, r := x / 256, x % 256;
    var a, b := q / p, q % p;
    assert x == 256 * q + r;
    assert q == p * a + b;
    assert x == (256 * p) * a + (256 * b + r) by {
      calc {
        x;
        256 * q + r;
        256 * (p * a + b) + r;
        (256 * p) * a + (256 * b + r);
      }
    }
    assert 256 * b + r < 256 * p by {
      assert b <= p - 1;
      assert 256 * b <= 256 * p - 256;
    }
    DivModUnique(x, 256 * p, a, 256 * b + r);
  }

  lemma DivModUnique(x: int, d: int, q: int, r: int)
    requires d > 0 && 0 <= r < d && x == q * d + r
    ensures x % d == r && x / d == q
  {
    var q', r' := x / d, x % d;
    assert x == q' * d + r';
    assert (q - q') * d == r' - r;
    if q > q' {
      assert (q - q') * d >= d by { MulAtLeast(q - q', d); }
    } else if q < q' {
      assert (q' - q) * d >= d by { MulAtLeast(q' - q, d); }
    }
  }

  lemma MulAtLeast(a: int, d: int)
    requires a >= 1 && d > 0
    ensures a * d >= d
  {
  }

  /** Reading back an `n`-byte big-endian field yields the value modulo 256^n. */
  lemma {:induction false} FromBEOfBE(x: nat, n: nat)
    ensures FromBE(BE(x, n)) == x % Pow256(n)
  {
    if n > 0 {
      var s := BE(x, n);
      assert s[..n - 1] == BE(x / 256, n - 1);
      FromBEOfBE(x / 256, n - 1);
      SplitMod(x, Pow256(n - 1));
    }
  }

  /** Reading back an `n`-byte little-endian field yields the value modulo 256^n. */
  lemma {:induction false} FromLEOfLE(x: nat, n: nat)
    ensures FromLE(LE(x, n)) == x % Pow256(n)
  {
    if n > 0 {
      var s := LE(x, n);
      assert s[1..] == LE(x / 256, n - 1);
      FromLEOfLE(x / 256, n - 1);
      SplitMod(x, Pow256(n - 1));
    }
  }

  /** A value that fits its field survives the round trip unchanged. */
  lemma FromBEOfBEFits(x: nat, n: nat)
    requires x < Pow256(n)
    ensures FromBE(BE(x, n)) == x
  {
    FromBEOfBE(x, n);
  }

  lemma FromLEOfLEFits(x: nat, n: nat)
    requires x < Pow256(n)
    ensures FromLE(LE(x, n)) == x
  {
    FromLEOfLE(x, n);
  }

  /** Every byte string is the big-endian encoding of its own value. */
  lemma {:induction false} BEOfFromBE(s: seq<byte>)
    ensures BE(FromBE(s), |s|) == s
  {
    if s != [] {
      var n := |s|;
      var x := FromBE(s);
      var hi := FromBE(s[..n - 1]);
      assert x / 256 == hi && x % 256 == s[n - 1] by {
        DivModUnique(x, 256, hi, s[n - 1]);
      }
      BEOfFromBE(s[..n - 1]);
      assert s == s[..n - 1] + [s[n - 1]];
    }
  }

  /** The value of a 2-, 4- or 8-byte big-endian field as a C reader shifts it together. */
  lemma FromBE2(s: seq<byte>)
    requires |s| == 2
    ensures FromBE(s) == s[0] as int * 0x100 + s[1]
  {
    assert s[..1][..0] == [];
  }

  lemma FromBE4(s: seq<byte>)
    requires |s| == 4
    ensures FromBE(s) == s[0] as int * 0x100_0000 + s[1] as int * 0x1_0000 + s[2] as int * 0x100 + s[3]
  {
    assert s[..3] == s[..2] + [s[2]];
    FromBE2(s[..2]);
    assert s[..3][..2] == s[..2];
  }

  lemma FromBE8(s: seq<byte>)
    requires |s| == 8
    ensures FromBE(s) == FromBE(s[..4]) * 0x1_0000_0000 + FromBE(s[4..])
  {
    FromBEAppend(s[..4], s[4..]);
    assert s == s[..4] + s[4..];
    Pow256Values();
  }

  /** Concatenated big-endian fields read as one wider field. */
  lemma {:induction false} FromBEAppend(a: seq<byte>, b: seq<byte>)
    ensures FromBE(a + b) == FromBE(a) * Pow256(|b|) + FromBE(b)
  {
    if b == [] {
      assert a + b == a;
    } else {
      var ab := a + b;
      var b' := b[..|b| - 1];
      var last := b[|b| - 1];
      assert ab[..|ab| - 1] == a + b';
      assert FromBE(ab) == FromBE(a + b') * 256 + last;
      assert FromBE(b) == FromBE(b') * 256 + last;
      FromBEAppend(a, b');
      Distribute(FromBE(a), Pow256(|b'|), FromBE(b'));
    }
  }

  lemma Distribute(a: int, p: int, c: int)
    ensures (a * p + c) * 256 == a * (256 * p) + c * 256
  {
  }
}

/** The outcome of a Rust call: a value, an error value, or a panic. */
module Results {

  datatype Option<T> = None | Some(value: T)

  datatype Outcome<T, E> = Ok(value: T) | Err(error: E) | Panic
}
