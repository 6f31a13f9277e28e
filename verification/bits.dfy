/** Fixed-width register arithmetic shared by every design: powers of two, wrap-around on
    assignment, bit slices and bitwise complement, and nmigen's `bits_for`. */
module Bits {

  /** 2^n. */
  function Pow2(n: nat): (r: nat)
    ensures r >= 1
  {
    if n == 0 then 1 else 2 * Pow2(n - 1)
  }

  lemma {:induction false} Pow2Add(a: nat, b: nat)
    ensures Pow2(a + b) == Pow2(a) * Pow2(b)
  {
    if a > 0 {
      Pow2Add(a - 1, b);
    }
  }

  lemma {:induction false} Pow2Monotone(a: nat, b: nat)
    requires a <= b
    ensures Pow2(a) <= Pow2(b)
  {
    if a < b {
      Pow2Monotone(a, b - 1);
    }
  }

  /** A triangle wave over the phase u in [0, 2 * half): half - 1 down to 0 over the first
      half, 0 up to half - 1 over the second. */
  function Triangle(u: nat, half: nat): nat
    requires u < 2 * half
  {
    if u < half then half - 1 - u else u - half
  }

  /** A 4-bit value. */
  type Nibble = x: nat | x < 16

  /** The powers of two behind the register widths used in the designs. */
  lemma Pow2Table()
    ensures Pow2(4) == 16 && Pow2(5) == 32 && Pow2(6) == 64 && Pow2(8) == 256
    ensures Pow2(10) == 1024 && Pow2(16) == 0x1_0000 && Pow2(24) == 0x100_0000
  {
    assert Pow2(8) == 256;
    assert Pow2(12) == 4096;
    assert Pow2(16) == 0x1_0000;
    assert Pow2(20) == 0x10_0000;
  }

  /** The value a `width`-bit unsigned register holds after being assigned `v`:
      the residue of `v` modulo 2^width, for negative `v` as well. */
  function Trunc(v: int, width: nat): (r: nat)
    ensures r < Pow2(width)
    ensures 0 <= v < Pow2(width) ==> r == v
  {
    var m := Pow2(width);
    if 0 <= v < m then v else v % m
  }

  /** Bits lo .. hi-1 of `v` (nmigen `v[lo:hi]`), as an unsigned number. */
  function Slice(v: nat, lo: nat, hi: nat): (r: nat)
    requires lo <= hi
    ensures r < Pow2(hi - lo)
  {
    var d := Pow2(lo);
    var m := Pow2(hi - lo);
    (v / d) % m
  }

  /** Bit i of `v` (nmigen `v[i]`). */
  predicate Bit(v: nat, i: nat)
  {
    Slice(v, i, i + 1) == 1
  }

  /** nmigen `v.all()` on a `width`-bit value: every bit set. */
  predicate AllOnes(v: nat, width: nat)
  {
    Trunc(v, width) == Pow2(width) - 1
  }

  /** nmigen `bits_for(n)` for n >= 0: the width of the narrowest unsigned register that
      holds n (at least one bit). */
  function BitsFor(n: nat): (r: nat)
    ensures r >= 1 && n < Pow2(r)
    ensures r > 1 ==> Pow2(r - 1) <= n
  {
    if n < 2 then 1 else 1 + BitsFor(n / 2)
  }

  /** BitsFor is monotone: a larger bound never needs a narrower register. */
  lemma {:induction false} BitsForMonotone(m: nat, n: nat)
    requires m <= n
    ensures BitsFor(m) <= BitsFor(n)
  {
    if m >= 2 {
      BitsForMonotone(m / 2, n / 2);
    }
  }

  /** A decomposition x = q * m + r with 0 <= r < m determines the remainder. */
  lemma ModUnique(x: int, q: int, r: int, m: int)
    requires m > 0 && 0 <= r < m && x == q * m + r
    ensures x % m == r && x / m == q
  {
    var q0, r0 := x / m, x % m;
    assert (q - q0) * m == r0 - r;
    MulBound(q - q0, m);
  }

  /** A non-zero multiple of m is at least m away from 0. */
  lemma MulBound(t: int, m: int)
    requires m > 0
    ensures t >= 1 ==> t * m >= m
    ensures t <= -1 ==> t * m <= -m
  {
  }

  /** Advancing a residue by k is advancing the number by k and reducing. */
  lemma ModAdd(a: int, k: int, m: int)
    requires m > 0
    ensures (a % m + k) % m == (a + k) % m
  {
    var r := (a % m + k) % m;
    var q2 := (a % m + k) / m;
    assert a % m + k == q2 * m + r;
    assert a + k == (a / m + q2) * m + r;
    ModUnique(a + k, a / m + q2, r, m);
  }
}
