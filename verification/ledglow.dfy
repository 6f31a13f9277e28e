/** The breathing LEDs `LedGlow` (leds/ledglow.py): a first-order sigma-delta modulator
    (a 4-bit accumulator whose carry drives all eight LEDs) turns a 4-bit brightness
    into a duty cycle of brightness / 16, and the brightness ramps up and down with the
    top bits of a free-running 26-bit counter. */
module LedGlow {
  import opened Bits

  /** `cnt` (26 bits), the registered brightness `pwm_input` (4 bits) and the
      accumulator `pwm` (5 bits: four of sum, one of carry). */
  datatype GlowState = GlowState(cnt: nat, pwmInput: Nibble, pwm: nat)

  function GlowReset(): GlowState
  {
    GlowState(0, 0, 0)
  }

  /** `cnt[-5:]`, the counter's top five bits `cnt[21:26]`. */
  function TopField(cnt: nat): nat
  {
    cnt / 0x20_0000 % 32
  }

  /** The brightness loaded from the counter: `cnt[-5:]` while `cnt[-1]` (the field's own
      top bit) is set, else its 5-bit complement, kept to the four bits of `pwm_input`. */
  function Brightness(cnt: nat): Nibble
  {
    var top := TopField(cnt);
    if top / 16 == 1 then top % 16 else (31 - top) % 16
  }

  /** `pwm[0:-1] + pwm_input`: the accumulator's low four bits plus the brightness. */
  function PwmStep(pwm: nat, k: Nibble): nat
  {
    pwm % 16 + k
  }

  function GlowStep(s: GlowState): GlowState
  {
    GlowState((s.cnt + 1) % 0x400_0000, Brightness(s.cnt), PwmStep(s.pwm, s.pwmInput))
  }

  /** Every LED shows the accumulator's carry bit `pwm[-1]`. */
  function Leds(s: GlowState): seq<bool>
  {
    seq(8, _ => s.pwm / 16 % 2 == 1)
  }

  /** The accumulator never overflows its five bits, so `pwm[-1]` is just pwm >= 16. */
  lemma PwmFits(pwm: nat, k: Nibble)
    ensures PwmStep(pwm, k) < 32
    ensures PwmStep(pwm, k) / 16 % 2 == 1 <==> pwm % 16 + k >= 16
    ensures PwmStep(pwm, k) % 16 == (pwm % 16 + k) % 16
  {
  }

  /** All eight LEDs show the same value. */
  lemma LedsEqual(s: GlowState)
    ensures |Leds(s)| == 8
    ensures forall i, j :: 0 <= i < 8 && 0 <= j < 8 ==> Leds(s)[i] == Leds(s)[j]
  {
  }

  /** The brightness is the triangle of the 5-bit phase `cnt[21:26]`: 15 down to 0 while
      bit 25 is clear, 0 up to 15 while it is set. */
  lemma BrightnessTriangle(cnt: nat)
    ensures TopField(cnt) / 16 == cnt / 0x200_0000 % 2
    ensures Brightness(cnt) == Triangle(TopField(cnt), 16)
  {
    var v := cnt / 0x20_0000;
    var q := v / 32;
    assert v == 32 * q + v % 32;
    assert cnt / 0x200_0000 == v / 16;
    assert v / 16 == 2 * q + (v % 32) / 16;
  }

  /** `cnt` wraps at 26 bits, and the brightness register takes the counter's value of
      the previous tick. */
  lemma GlowStepFields(s: GlowState)
    requires s.cnt < 0x400_0000
    ensures GlowStep(s).cnt == if s.cnt == 0x3FF_FFFF then 0 else s.cnt + 1
    ensures GlowStep(s).pwmInput == Brightness(s.cnt)
  {
  }

  /** From reset: the counter within 26 bits and the accumulator within 5 bits. */
  predicate GlowInv(s: GlowState)
  {
    s.cnt < 0x400_0000 && s.pwm < 32
  }

  lemma GlowStepInv(s: GlowState)
    requires GlowInv(s)
    ensures GlowInv(GlowStep(s))
    ensures Leds(GlowStep(s))[0] <==> s.pwm % 16 + s.pwmInput >= 16
  {
    PwmFits(s.pwm, s.pwmInput);
  }

  /** The accumulator after n steps with the brightness held at k. */
  function PwmAfter(pwm: nat, k: Nibble, n: nat): nat
    decreases n
  {
    if n == 0 then pwm else PwmAfter(PwmStep(pwm, k), k, n - 1)
  }

  /** The number of those n steps after which the LEDs are on. */
  function OnCount(pwm: nat, k: Nibble, n: nat): nat
    decreases n
  {
    if n == 0 then 0
    else (if PwmStep(pwm, k) >= 16 then 1 else 0) + OnCount(PwmStep(pwm, k), k, n - 1)
  }

  /** The modulator's balance: what was added (n times k) is what left as carries
      (16 each) plus the change of the accumulator's residue. */
  lemma {:induction false} Balance(pwm: nat, k: Nibble, n: nat)
    ensures 16 * OnCount(pwm, k, n) + PwmAfter(pwm, k, n) % 16 == pwm % 16 + n * k
    decreases n
  {
    if n > 0 {
      var p := PwmStep(pwm, k);
      Balance(p, k, n - 1);
      Carry(pwm, k);
      var nk := n * k;
      assert nk == (n - 1) * k + k;
    }
  }

  /** One step of the modulator: the carry out (16) plus the new residue is the old
      residue plus the input. */
  lemma Carry(pwm: nat, k: Nibble)
    ensures 16 * (if PwmStep(pwm, k) >= 16 then 1 else 0) + PwmStep(pwm, k) % 16 == pwm % 16 + k
  {
  }

  /** Over any 16 consecutive steps with the brightness held at k the LEDs are on
      exactly k times, and the residue is back where it started: a duty cycle of k/16. */
  lemma DutyCycle(pwm: nat, k: Nibble)
    ensures OnCount(pwm, k, 16) == k
    ensures PwmAfter(pwm, k, 16) % 16 == pwm % 16
  {
    Balance(pwm, k, 16);
    var r := PwmAfter(pwm, k, 16) % 16;
    var t := OnCount(pwm, k, 16) - k;
    assert t * 16 == pwm % 16 - r;
    MulBound(t, 16);
  }

  /** n ticks of the design. */
  function GlowRun(s: GlowState, n: nat): GlowState
    decreases n
  {
    if n == 0 then s else GlowRun(GlowStep(s), n - 1)
  }

  /** The number of those n ticks after which the LEDs are lit. */
  function LitCount(s: GlowState, n: nat): nat
    decreases n
  {
    if n == 0 then 0
    else (if Leds(GlowStep(s))[0] then 1 else 0) + LitCount(GlowStep(s), n - 1)
  }

  /** The next n ticks stay inside the brightness band of the current counter value (one
      band is 2^21 ticks), and the brightness register already holds that band's value. */
  predicate InBand(s: GlowState, n: nat)
  {
    GlowInv(s) && s.pwmInput == Brightness(s.cnt) && s.cnt % 0x20_0000 + n < 0x20_0000
  }

  /** One tick inside a band: the counter just increments, the rest of the band is one
      tick shorter, the brightness register keeps its value and the accumulator takes
      one modulator step. */
  lemma BandStep(s: GlowState, n: nat)
    requires InBand(s, n) && n > 0
    ensures InBand(GlowStep(s), n - 1)
    ensures GlowStep(s).cnt == s.cnt + 1
    ensures GlowStep(s).pwmInput == s.pwmInput
    ensures GlowStep(s).pwm == PwmStep(s.pwm, s.pwmInput)
    ensures Leds(GlowStep(s))[0] <==> PwmStep(s.pwm, s.pwmInput) >= 16
  {
    var t := GlowStep(s);
    assert t.cnt == s.cnt + 1 && t.cnt % 0x20_0000 + (n - 1) < 0x20_0000 by {
      CounterInBand(s.cnt);
    }
    assert Brightness(t.cnt) == s.pwmInput by {
      CounterInBand(s.cnt);
      assert TopField(t.cnt) == TopField(s.cnt);
    }
    assert GlowInv(t) by {
      GlowStepInv(s);
    }
    assert Leds(t)[0] <==> PwmStep(s.pwm, s.pwmInput) >= 16 by {
      PwmFits(s.pwm, s.pwmInput);
    }
  }

  /** Below the end of a band, incrementing the 26-bit counter does not wrap and keeps
      the band. */
  lemma CounterInBand(c: nat)
    requires c < 0x400_0000 && c % 0x20_0000 + 1 < 0x20_0000
    ensures (c + 1) % 0x400_0000 == c + 1
    ensures (c + 1) / 0x20_0000 == c / 0x20_0000 && (c + 1) % 0x20_0000 == c % 0x20_0000 + 1
  {
    var q := c / 0x20_0000;
    var r := c % 0x20_0000;
    ModUnique(c + 1, q, r + 1, 0x20_0000);
    assert q < 32;
    ModUnique(c + 1, 0, c + 1, 0x400_0000);
  }

  /** While the counter stays inside one brightness band the design runs the modulator
      of `PwmAfter` with that band's brightness. */
  lemma {:induction false} HeldPwm(s: GlowState, n: nat)
    requires InBand(s, n)
    ensures GlowRun(s, n).pwm == PwmAfter(s.pwm, s.pwmInput, n)
    decreases n
  {
    if n > 0 {
      BandStep(s, n);
      HeldPwm(GlowStep(s), n - 1);
    }
  }

  /** Within one brightness band the LEDs are lit exactly when that modulator carries. */
  lemma {:induction false} HeldLit(s: GlowState, n: nat)
    requires InBand(s, n)
    ensures LitCount(s, n) == OnCount(s.pwm, s.pwmInput, n)
    decreases n
  {
    if n > 0 {
      BandStep(s, n);
      HeldLit(GlowStep(s), n - 1);
    }
  }

  /** On the design itself: 16 ticks inside one brightness band light the LEDs exactly
      `pwm_input` times. */
  lemma DutyOnBoard(s: GlowState)
    requires InBand(s, 16)
    ensures LitCount(s, 16) == s.pwmInput
  {
    HeldLit(s, 16);
    DutyCycle(s.pwm, s.pwmInput);
  }
}
