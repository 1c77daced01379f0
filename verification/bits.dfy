/**
 * Bit-level arithmetic shared by the bit-banged SPI driver and the register
 * drivers: powers of two, Python's `(v >> i) & 1`, most-significant-bit-first
 * bit strings, and bitwise OR on naturals.
 */
module Bits {

  /** A logic level as the GPIO layer reports or accepts it. */
  type bit = b: int | 0 <= b <= 1

  function Pow2(n: nat): (r: nat)
    ensures r >= 1
  {
    if n == 0 then 1 else 2 * Pow2(n - 1)
  }

  /** Python's `(v >> i) & 1` for a non-negative `v`: shift right i times, keep the low bit. */
  function BitOf(v: nat, i: nat): bit
  {
    if i == 0 then v % 2 else BitOf(v / 2, i - 1)
  }

  /** The value of a bit string read most-significant bit first. */
  function MsbValue(bits: seq<bit>): nat
  {
    if |bits| == 0 then 0 else 2 * MsbValue(bits[..|bits| - 1]) + bits[|bits| - 1]
  }

  /** The `n` low bits of `v`, most-significant first. */
  function MsbBits(v: nat, n: nat): (r: seq<bit>)
    ensures |r| == n
  {
    if n == 0 then [] else MsbBits(v / 2, n - 1) + [v % 2]
  }

  /** Bitwise OR of two naturals (Python's `|` on non-negative ints). */
  function Or(a: nat, b: nat): nat
    decreases a + b
  {
    if a == 0 then b
    else if b == 0 then a
    else 2 * Or(a / 2, b / 2) + (if a % 2 == 1 || b % 2 == 1 then 1 else 0)
  }

  /** Position k of `MsbBits(v, n)` is bit `n - 1 - k` of `v`: the string is MSB first. */
  lemma {:induction false} MsbBitsIndex(v: nat, n: nat, k: nat)
    requires k < n
    ensures MsbBits(v, n)[k] == BitOf(v, n - 1 - k)
  {
    if k < n - 1 {
      MsbBitsIndex(v / 2, n - 1, k);
    }
  }

  /** A bit string of length n denotes a value below 2^n. */
  lemma {:induction false} MsbValueBound(bits: seq<bit>)
    ensures MsbValue(bits) < Pow2(|bits|)
  {
    if |bits| > 0 {
      MsbValueBound(bits[..|bits| - 1]);
    }
  }

  lemma MsbValueSnoc(bits: seq<bit>, b: bit)
    ensures MsbValue(bits + [b]) == 2 * MsbValue(bits) + b
  {
    assert (bits + [b])[..|bits|] == bits;
  }

  /** Euclidean division is unique: the remainder is pinned down by any decomposition. */
  lemma ModUnique(x: int, d: int, q: int, s: int)
    requires d > 0 && 0 <= s < d && x == d * q + s
    ensures x % d == s && x / d == q
  {
    var k := q - x / d;
    assert d * k == x % d - s;
    MulAwayFromZero(d, k);
  }

  lemma MulAwayFromZero(d: int, k: int)
    requires d > 0
    ensures k >= 1 ==> d * k >= d
    ensures k <= -1 ==> d * k <= -d
  {
  }

  /** Taking n + 1 low bits: the low bit, then n low bits of the halved value. */
  lemma ModPow2Step(v: nat, n: nat)
    ensures v % Pow2(n + 1) == 2 * ((v / 2) % Pow2(n)) + v % 2
  {
    var h, r := v / 2, v % 2;
    var a, b := h / Pow2(n), h % Pow2(n);
    assert h == Pow2(n) * a + b;
    assert v == Pow2(n + 1) * a + (2 * b + r) by {
      assert Pow2(n + 1) * a == 2 * (Pow2(n) * a);
    }
    ModUnique(v, Pow2(n + 1), a, 2 * b + r);
  }

  /** Reading back the n low bits of v, MSB first, gives v modulo 2^n. */
  lemma {:induction false} MsbValueOfBits(v: nat, n: nat)
    ensures MsbValue(MsbBits(v, n)) == v % Pow2(n)
  {
    if n > 0 {
      MsbValueOfBits(v / 2, n - 1);
      MsbValueSnoc(MsbBits(v / 2, n - 1), v % 2);
      ModPow2Step(v, n - 1);
    }
  }

  /** Only the n low bits of a value reach its n-bit string. */
  lemma MsbBitsLow(v: nat, n: nat)
    ensures MsbBits(v, n) == MsbBits(v % Pow2(n), n)
  {
    var w := v % Pow2(n);
    MsbValueOfBits(v, n);
    MsbValueOfBits(w, n);
    ModUnique(w, Pow2(n), 0, w);
    MsbValueInjective(MsbBits(v, n), MsbBits(w, n));
  }

  /** Two bit strings of one length with one value are the same string. */
  lemma {:induction false} MsbValueInjective(a: seq<bit>, b: seq<bit>)
    requires |a| == |b| && MsbValue(a) == MsbValue(b)
    ensures a == b
  {
    if |a| > 0 {
      var n := |a| - 1;
      assert 2 * MsbValue(a[..n]) + a[n] == 2 * MsbValue(b[..n]) + b[n];
      assert a[n] == b[n];
      MsbValueInjective(a[..n], b[..n]);
      assert a == a[..n] + [a[n]] && b == b[..n] + [b[n]];
    }
  }

  /** A string of n bits is the n-bit expansion of its own value. */
  lemma MsbBitsOfValue(bits: seq<bit>)
    ensures MsbBits(MsbValue(bits), |bits|) == bits
  {
    MsbValueBound(bits);
    MsbValueOfBits(MsbValue(bits), |bits|);
    ModUnique(MsbValue(bits), Pow2(|bits|), 0, MsbValue(bits));
    MsbValueInjective(MsbBits(MsbValue(bits), |bits|), bits);
  }

  lemma OrZero(a: nat)
    ensures Or(a, 0) == a && Or(0, a) == a
  {
  }

  /** OR-ing a 0/1 bit into an even number adds it: `(acc << 1) | bit`. */
  lemma OrEvenBit(a: nat, c: bit)
    ensures Or(2 * a, c) == 2 * a + c
  {
    if a != 0 && c != 0 {
      assert (2 * a) / 2 == a && (2 * a) % 2 == 0;
      assert Or(2 * a, c) == 2 * Or(a, 0) + 1;
      OrZero(a);
    }
  }

  /** OR-ing bit c at position i into a multiple of 2^(i+1) adds c * 2^i. */
  lemma {:induction false} OrFreshBit(m: nat, c: bit, i: nat)
    ensures Or(m * Pow2(i + 1), c * Pow2(i)) == m * Pow2(i + 1) + c * Pow2(i)
  {
    var a := m * Pow2(i + 1);
    assert a == 2 * (m * Pow2(i)) by {
      assert Pow2(i + 1) == 2 * Pow2(i);
    }
    if c == 0 || m == 0 {
      OrZero(a);
      OrZero(c * Pow2(i));
    } else if i == 0 {
      OrEvenBit(m, c);
    } else {
      var b := Pow2(i);
      assert b == 2 * Pow2(i - 1);
      assert a / 2 == m * Pow2(i) && a % 2 == 0;
      assert b / 2 == Pow2(i - 1) && b % 2 == 0;
      assert Or(a, b) == 2 * Or(m * Pow2(i), Pow2(i - 1));
      OrFreshBit(m, 1, i - 1);
    }
  }

  /** One step of `value |= bit << i`: the value read so far, shifted up, gains the next bit. */
  lemma OrAppendsBit(bits: seq<bit>, b: bit, i: nat)
    ensures Or(MsbValue(bits) * Pow2(i + 1), b * Pow2(i)) == MsbValue(bits + [b]) * Pow2(i)
  {
    var m := MsbValue(bits);
    OrFreshBit(m, b, i);
    MsbValueSnoc(bits, b);
    ShiftedSum(m, b, Pow2(i));
  }

  lemma ShiftedSum(m: int, b: int, p: int)
    ensures m * (2 * p) + b * p == (2 * m + b) * p
  {
  }

  lemma Pow2Eight()
    ensures Pow2(8) == 256
  {
  }

  /** A byte written as 8 bits MSB first and read back MSB first is the same byte. */
  lemma ByteRoundTrip(v: nat)
    requires v < 256
    ensures MsbValue(MsbBits(v, 8)) == v
  {
    MsbValueOfBits(v, 8);
    Pow2Eight();
    ModUnique(v, 256, 0, v);
  }
}
