/** The sweeping tone `Music2a` (audio/music2a.py): the half period of the square wave is
    clkdivider + 1 ticks with clkdivider = 8192 + 64 * sweep, where the 7-bit sweep runs
    up and down as a triangle driven by a free-running 28-bit counter `tone`; bit 27 of
    the tone chooses between a fast sweep (tone bits 15..22) and a slow one (bits
    18..25). */
module Music2a {
  import opened Bits

  datatype SweepState = SweepState(tone: nat, counter: nat, left: Nibble)

  function SweepReset(): SweepState
  {
    SweepState(0, 0, 0)
  }

  /** A 7-bit sweep from the tone's field `tone[lo:lo+7]` and its direction bit
      `tone[lo+7]`: the field while the bit is set, its 7-bit complement while it is
      clear. The field and the bit are read with literal divisors: lo is 15 (fast) or 18
      (slow). */
  function SweepOf(up: bool, field: nat): nat
    requires field < 128
  {
    if up then field else 127 - field
  }

  function FastSweep(tone: nat): nat
  {
    SweepOf(tone / 0x40_0000 % 2 == 1, tone / 0x8000 % 128)
  }

  function SlowSweep(tone: nat): nat
  {
    SweepOf(tone / 0x200_0000 % 2 == 1, tone / 0x4_0000 % 128)
  }

  /** `Cat(Const(0, 6), sweep, Const(1, 2))`: six zero bits, the sweep, then 01. */
  function ClkDivider(tone: nat): nat
  {
    var sweep := if tone / 0x800_0000 % 2 == 1 then SlowSweep(tone) else FastSweep(tone);
    0 + sweep * 64 + 1 * 0x2000
  }

  /** One clock edge: `tone` wraps at 28 bits, `counter` (15 bits) reloads clkdivider at
      0 and otherwise counts down. */
  function SweepStep(s: SweepState): SweepState
  {
    var tone := (s.tone + 1) % 0x1000_0000;
    if s.counter == 0 then SweepState(tone, ClkDivider(s.tone), 15 - s.left)
    else SweepState(tone, s.counter - 1, s.left)
  }

  function SweepRun(s: SweepState, n: nat): SweepState
    decreases n
  {
    if n == 0 then s else SweepRun(SweepStep(s), n - 1)
  }

  /** Each sweep is the triangle of the 8-bit phase formed by its field and direction bit
      (`tone[15:23]` for the fast one, `tone[18:26]` for the slow one). */
  lemma SweepsAreTriangles(tone: nat)
    ensures FastSweep(tone) == Triangle(tone / 0x8000 % 256, 128)
    ensures SlowSweep(tone) == Triangle(tone / 0x4_0000 % 256, 128)
  {
    PhaseSplit(tone / 0x8000);
    PhaseSplit(tone / 0x4_0000);
    assert tone / 0x8000 / 128 == tone / 0x40_0000;
    assert tone / 0x4_0000 / 128 == tone / 0x200_0000;
  }

  /** The top bit and the low seven bits of an 8-bit phase. */
  lemma PhaseSplit(v: nat)
    ensures v % 256 == 128 * (v / 128 % 2) + v % 128
  {
    var q := v / 256;
    assert v == 256 * q + v % 256;
    assert v / 128 == 2 * q + (v % 256) / 128;
  }

  /** The triangle stays within 7 bits, meets 0 in the middle and 127 at both ends, and
      moves by at most one per phase step, also across the wrap from 255 to 0: a
      continuous ramp up and down. */
  lemma TriangleRamp(u: nat)
    requires u < 256
    ensures Triangle(u, 128) < 128
    ensures Triangle(0, 128) == Triangle(255, 128) == 127 && Triangle(127, 128) == Triangle(128, 128) == 0
    ensures u < 255 ==> -1 <= Triangle(u + 1, 128) - Triangle(u, 128) <= 1
    ensures u < 127 ==> Triangle(u + 1, 128) == Triangle(u, 128) - 1
    ensures 128 <= u < 255 ==> Triangle(u + 1, 128) == Triangle(u, 128) + 1
  {
  }

  /** The divider is 8192 plus 64 times the sweep chosen by tone bit 27, so it lies in
      [8192, 16320], within the 15-bit counter, and is a multiple of 64. */
  lemma DividerRange(tone: nat)
    ensures var sweep := if tone / 0x800_0000 % 2 == 1 then SlowSweep(tone) else FastSweep(tone);
            && sweep < 128
            && ClkDivider(tone) == 8192 + 64 * sweep
    ensures 8192 <= ClkDivider(tone) <= 16320 && ClkDivider(tone) % 64 == 0
  {
  }

  /** From reset: the tone within 28 bits, the counter at most 16320, the output 0 or 15. */
  predicate SweepInv(s: SweepState)
  {
    s.tone < 0x1000_0000 && s.counter <= 16320 && (s.left == 0 || s.left == 15)
  }

  lemma SweepStepInv(s: SweepState)
    requires SweepInv(s)
    ensures SweepInv(SweepStep(s))
  {
    DividerRange(s.tone);
  }

  /** After n ticks the tone has advanced by n, modulo 2^28. */
  lemma {:induction false} ToneAfter(s: SweepState, n: nat)
    requires s.tone < 0x1000_0000
    ensures SweepRun(s, n).tone == (s.tone + n) % 0x1000_0000
    decreases n
  {
    if n > 0 {
      ToneAfter(SweepStep(s), n - 1);
      ModAdd(s.tone + 1, n - 1, 0x1000_0000);
    }
  }

  /** Counting down from k: the output flips after k + 1 ticks, and the counter is then
      reloaded with the divider of the k-th tick. */
  lemma {:induction false} FlipAfter(s: SweepState)
    ensures SweepRun(s, s.counter + 1).left == 15 - s.left
    ensures SweepRun(s, s.counter + 1).counter == ClkDivider(SweepRun(s, s.counter).tone)
    decreases s.counter
  {
    if s.counter > 0 {
      FlipAfter(SweepStep(s));
    }
  }

  /** Each half period: from counter k the output flips k + 1 ticks later, and the next
      half period, clkdivider + 1 ticks, is set by the tone at the flipping tick. */
  lemma HalfPeriod(s: SweepState)
    requires s.tone < 0x1000_0000
    ensures var t := SweepRun(s, s.counter + 1);
            && t.left == 15 - s.left
            && t.tone == (s.tone + s.counter + 1) % 0x1000_0000
            && t.counter == ClkDivider((s.tone + s.counter) % 0x1000_0000)
  {
    FlipAfter(s);
    ToneAfter(s, s.counter);
    ToneAfter(s, s.counter + 1);
  }
}
