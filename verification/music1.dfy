/** The 440 Hz square-wave generator `Music1` (audio/music1.py): a down-counter reloaded
    with clkdivider - 1 flips the 4-bit left-channel output between 0 and 15 every
    clkdivider ticks, clkdivider = int(f / 440 / 2) for the clock frequency f. */
module Music1 {
  import opened Bits

  /** The ULX3S default clock. */
  const ClkFreq: nat := 25000000

  /** int(f / 440 / 2): the ticks in half a period of 440 Hz. For a whole number of hertz
      the floating-point quotient truncates to the integer quotient. */
  function Divider(f: nat): nat
  {
    f / 440 / 2
  }

  /** `counter` (bit_length(clkdivider) bits, never wrapping) and `left`, the 4-bit
      `stereo.l` output. */
  datatype ToneState = ToneState(counter: nat, left: Nibble)

  function ToneReset(): ToneState
  {
    ToneState(0, 0)
  }

  function ToneStep(d: nat, s: ToneState): ToneState
    requires d >= 1
  {
    if s.counter == 0 then ToneState(d - 1, 15 - s.left) else s.(counter := s.counter - 1)
  }

  function ToneRun(d: nat, s: ToneState, n: nat): ToneState
    requires d >= 1
    decreases n
  {
    if n == 0 then s else ToneRun(d, ToneStep(d, s), n - 1)
  }

  /** From reset the counter stays below clkdivider and the output is 0 or 15. */
  predicate ToneInv(d: nat, s: ToneState)
  {
    s.counter < d && (s.left == 0 || s.left == 15)
  }

  lemma ToneStepInv(d: nat, s: ToneState)
    requires d >= 1 && ToneInv(d, s)
    ensures ToneInv(d, ToneStep(d, s))
    ensures ToneStep(d, s).left == if s.counter == 0 then 15 - s.left else s.left
  {
  }

  /** On the 25 MHz board clkdivider is 28409, and a whole period of 2 * 28409 ticks is
      within two ticks of f / 440. */
  lemma BoardDivider()
    ensures Divider(ClkFreq) == 28409
    ensures 2 * Divider(ClkFreq) <= ClkFreq / 440 < 2 * Divider(ClkFreq) + 2
  {
  }

  /** Counting down: from counter k the output flips after k + 1 ticks, and the counter is
      reloaded with clkdivider - 1 at that moment. */
  lemma {:induction false} CountDown(d: nat, s: ToneState)
    requires d >= 1
    ensures ToneRun(d, s, s.counter + 1) == ToneState(d - 1, 15 - s.left)
    decreases s.counter
  {
    if s.counter > 0 {
      CountDown(d, ToneStep(d, s));
    }
  }

  /** Just after a reload the output holds for exactly clkdivider ticks, then flips; two
      half periods restore the state, so the output is a square wave of period
      2 * clkdivider. */
  lemma {:induction false} Period(d: nat, s: ToneState)
    requires d >= 1 && s.counter == d - 1
    ensures forall n :: 0 <= n < d ==> ToneRun(d, s, n).left == s.left
    ensures ToneRun(d, s, d) == ToneState(d - 1, 15 - s.left)
    ensures ToneRun(d, s, 2 * d) == s
  {
    forall n | 0 <= n < d
      ensures ToneRun(d, s, n).left == s.left
    {
      Holds(d, s, n);
    }
    CountDown(d, s);
    var t := ToneRun(d, s, d);
    CountDown(d, t);
    RunAdd(d, s, d, d);
  }

  /** While the counter has not reached 0 the output holds. */
  lemma {:induction false} Holds(d: nat, s: ToneState, n: nat)
    requires d >= 1 && n <= s.counter
    ensures ToneRun(d, s, n) == ToneState(s.counter - n, s.left)
    decreases n
  {
    if n > 0 {
      Holds(d, ToneStep(d, s), n - 1);
    }
  }

  lemma {:induction false} RunAdd(d: nat, s: ToneState, a: nat, b: nat)
    requires d >= 1
    ensures ToneRun(d, s, a + b) == ToneRun(d, ToneRun(d, s, a), b)
    decreases a
  {
    if a > 0 {
      RunAdd(d, ToneStep(d, s), a - 1, b);
    }
  }
}
