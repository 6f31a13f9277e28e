/** The two-tone siren `Music2` (audio/music2.py): the square-wave generator of Music1
    whose half period switches between clkdivider and clkdivider / 2 ticks (440 Hz and
    880 Hz) with the top bit of a free-running 24-bit counter `tone`. */
module Music2 {
  import opened Bits

  /** int(25 MHz / 440 / 2), as in Music1. */
  const BoardDivider: nat := 25000000 / 440 / 2

  datatype SirenState = SirenState(tone: nat, counter: nat, left: Nibble)

  function SirenReset(): SirenState
  {
    SirenState(0, 0, 0)
  }

  /** `tone[-1]`, bit 23 of the tone. */
  predicate TopBitSet(tone: nat)
  {
    tone / 0x80_0000 % 2 == 1
  }

  /** The reload value: `clkdivider - 1` while `tone[-1]` is set, else
      `int(clkdivider / 2) - 1`. */
  function Reload(d: nat, tone: nat): nat
    requires d >= 2
  {
    if TopBitSet(tone) then d - 1 else d / 2 - 1
  }

  function SirenStep(d: nat, s: SirenState): SirenState
    requires d >= 2
  {
    var tone := (s.tone + 1) % 0x100_0000;
    if s.counter == 0 then SirenState(tone, Reload(d, s.tone), 15 - s.left)
    else SirenState(tone, s.counter - 1, s.left)
  }

  function SirenRun(d: nat, s: SirenState, n: nat): SirenState
    requires d >= 2
    decreases n
  {
    if n == 0 then s else SirenRun(d, SirenStep(d, s), n - 1)
  }

  /** From reset: `tone` within 24 bits, the counter below clkdivider, the output 0 or 15. */
  predicate SirenInv(d: nat, s: SirenState)
  {
    s.tone < 0x100_0000 && s.counter < d && (s.left == 0 || s.left == 15)
  }

  lemma SirenStepInv(d: nat, s: SirenState)
    requires d >= 2 && SirenInv(d, s)
    ensures SirenInv(d, SirenStep(d, s))
  {
  }

  /** `tone[-1]` is bit 23 as the shared bit-slice definition reads it, and it is set
      exactly in the upper half of the tone's 24-bit range. */
  lemma TopBit(tone: nat)
    requires tone < 0x100_0000
    ensures TopBitSet(tone) <==> Bit(tone, 23)
    ensures TopBitSet(tone) <==> tone >= 0x80_0000
  {
    Pow2Table();
    assert Pow2(24) == 2 * Pow2(23);
    assert Pow2(24 - 23) == 2;
  }

  /** The output flips exactly when the counter reaches 0; the counter is then reloaded
      for a long half period (clkdivider ticks) in the upper half of the tone cycle and a
      short one (clkdivider / 2 ticks) in the lower half. */
  lemma ReloadHalves(d: nat, s: SirenState)
    requires d >= 2 && SirenInv(d, s)
    ensures SirenStep(d, s).left == if s.counter == 0 then 15 - s.left else s.left
    ensures s.counter == 0 ==>
              SirenStep(d, s).counter + 1 == if s.tone >= 0x80_0000 then d else d / 2
    ensures s.counter > 0 ==> SirenStep(d, s).counter == s.counter - 1
  {
    TopBit(s.tone);
  }

  /** After n ticks the tone has advanced by n, modulo 2^24. */
  lemma {:induction false} ToneAfter(d: nat, s: SirenState, n: nat)
    requires d >= 2 && s.tone < 0x100_0000
    ensures SirenRun(d, s, n).tone == (s.tone + n) % 0x100_0000
    decreases n
  {
    if n > 0 {
      var s' := SirenStep(d, s);
      ToneAfter(d, s', n - 1);
      ModAdd(s.tone + 1, n - 1, 0x100_0000);
    }
  }

  /** Counting down from k: the output flips after k + 1 ticks, and the counter is then
      reloaded according to the tone of the k-th tick. */
  lemma {:induction false} FlipAfter(d: nat, s: SirenState)
    requires d >= 2
    ensures SirenRun(d, s, s.counter + 1).left == 15 - s.left
    ensures SirenRun(d, s, s.counter + 1).counter == Reload(d, SirenRun(d, s, s.counter).tone)
    decreases s.counter
  {
    if s.counter > 0 {
      FlipAfter(d, SirenStep(d, s));
    }
  }

  /** From counter k the output flips after k + 1 ticks; the tone has then advanced by
      k + 1, and the new half period is chosen by the tone at the flipping tick. */
  lemma CountDown(d: nat, s: SirenState)
    requires d >= 2 && s.tone < 0x100_0000
    ensures var t := SirenRun(d, s, s.counter + 1);
            && t.left == 15 - s.left
            && t.tone == (s.tone + s.counter + 1) % 0x100_0000
            && t.counter == Reload(d, (s.tone + s.counter) % 0x100_0000)
  {
    FlipAfter(d, s);
    ToneAfter(d, s, s.counter);
    ToneAfter(d, s, s.counter + 1);
  }
}
