/** The PS/2 keyboard monitor of ps2_keyboard/ps2test.py: every byte the PS/2 receiver
    reports is sent over the UART as two lower-case hexadecimal digits, high nibble first.
    The receiver and the UART are outside this model; their signals (`ps2.valid`,
    `ps2.data`, `uart.tx_ack`) are inputs of each tick. */
module Ps2Test {
  import opened Bits

  const CodeZero: nat := 48
  const CodeA: nat := 97

  /** `ByteToHex`: a 4-bit value as the ASCII code of its hexadecimal digit. */
  function ByteToHex(b: nat): (h: nat)
    requires b < 16
    ensures h < 256
    ensures CodeZero <= h <= CodeZero + 9 || CodeA <= h <= CodeA + 5
  {
    if b < 10 then CodeZero + b else CodeA + b - 10
  }

  /** The value of a hexadecimal digit's code; the inverse of ByteToHex. */
  function HexValue(h: nat): (b: nat)
    requires CodeZero <= h <= CodeZero + 9 || CodeA <= h <= CodeA + 5
    ensures b < 16
  {
    if h <= CodeZero + 9 then h - CodeZero else h - CodeA + 10
  }

  lemma HexRoundTrip(b: nat)
    requires b < 16
    ensures HexValue(ByteToHex(b)) == b
  {
  }

  /** Different nibbles give different digits; digits 0-9 are '0'..'9' and 10-15 are
      'a'..'f'. */
  lemma HexInjective(b: nat, c: nat)
    requires b < 16 && c < 16
    ensures ByteToHex(b) == ByteToHex(c) <==> b == c
    ensures b < 10 <==> ByteToHex(b) <= CodeZero + 9
  {
    HexRoundTrip(b);
    HexRoundTrip(c);
  }

  /** The sender's registers: `tx_state` (2 bits), the nibble `b` feeding ByteToHex and
      `tx_ready`. */
  datatype TxState = TxState(state: nat, nibble: nat, ready: bool)

  datatype TxIn = TxIn(valid: bool, data: nat, ack: bool)

  function TxReset(): TxState
  {
    TxState(0, 0, false)
  }

  /** One clock edge. */
  function TxStep(s: TxState, i: TxIn): TxState
  {
    if s.state == 0 then
      if i.valid then TxState(1, Slice(i.data, 4, 8), true) else s
    else if s.state == 1 then
      if i.ack then s.(state := 2, nibble := Slice(i.data, 0, 4)) else s
    else if s.state == 2 then
      if i.ack then s.(state := 0, ready := false) else s
    else s
  }

  /** The character on `uart.tx_data`. */
  function TxData(s: TxState): nat
    requires s.nibble < 16
  {
    ByteToHex(s.nibble)
  }

  /** From reset: `tx_state` is 0, 1 or 2 (never 3), `tx_ready` is high exactly while a
      byte is being sent, and the nibble fits ByteToHex's 4-bit input. */
  predicate TxInv(s: TxState)
  {
    s.state <= 2 && (s.ready <==> s.state != 0) && s.nibble < 16
  }

  lemma TxResetInv()
    ensures TxInv(TxReset())
  {
  }

  lemma TxStepInv(s: TxState, i: TxIn)
    requires TxInv(s)
    ensures TxInv(TxStep(s, i))
  {
  }

  /** A received byte starts a transmission: the high nibble's digit is offered and
      `tx_ready` raised. Without `ps2.valid` the sender stays idle. */
  lemma ByteStarts(s: TxState, i: TxIn)
    requires TxInv(s) && s.state == 0 && i.data < 256
    ensures i.valid ==>
              TxStep(s, i).state == 1 && TxStep(s, i).ready && TxData(TxStep(s, i)) == ByteToHex(i.data / 16)
    ensures !i.valid ==> TxStep(s, i) == s
  {
    assert Pow2(4) == 16;
    assert Pow2(8 - 4) == 16;
  }

  /** The first acknowledgement offers the low nibble's digit, taken from `ps2.data` as it
      is at that tick rather than as it was when the byte arrived; the second ends the
      transmission. Without an acknowledgement nothing changes. */
  lemma AcksAdvance(s: TxState, i: TxIn)
    requires TxInv(s) && s.state != 0
    ensures !i.ack ==> TxStep(s, i) == s
    ensures i.ack && s.state == 1 ==>
              TxStep(s, i).state == 2 && TxStep(s, i).ready && TxData(TxStep(s, i)) == ByteToHex(i.data % 16)
    ensures i.ack && s.state == 2 ==> TxStep(s, i).state == 0 && !TxStep(s, i).ready
  {
    assert Pow2(0) == 1;
    assert Pow2(4 - 0) == 16;
  }

  /** The sender over a sequence of ticks' inputs. */
  function TxRun(s: TxState, ins: seq<TxIn>): TxState
    decreases |ins|
  {
    if |ins| == 0 then s else TxRun(TxStep(s, ins[0]), ins[1..])
  }

  /** While the UART does not acknowledge, a busy sender holds everything, however long
      the UART takes. */
  lemma {:induction false} WaitHolds(s: TxState, ins: seq<TxIn>)
    requires TxInv(s) && s.state != 0
    requires forall k :: 0 <= k < |ins| ==> !ins[k].ack
    ensures TxRun(s, ins) == s
    decreases |ins|
  {
    if |ins| > 0 {
      AcksAdvance(s, ins[0]);
      WaitHolds(s, ins[1..]);
    }
  }

  /** A byte arrives, the UART then takes any number of ticks before it acknowledges the
      first digit, and `ps2.data` still holds the byte at that acknowledgement: the high
      digit is offered throughout the wait, and the two digits sent spell the byte, high
      digit times 16 plus low digit. */
  lemma DigitsSpellByte(s: TxState, i: TxIn, waits: seq<TxIn>, j: TxIn)
    requires TxInv(s) && s.state == 0 && i.valid && i.data < 256
    requires forall k :: 0 <= k < |waits| ==> !waits[k].ack
    requires j.ack && j.data == i.data
    ensures var s1 := TxStep(s, i);
            var sw := TxRun(s1, waits);
            var s2 := TxStep(sw, j);
            && sw == s1 && sw.state == 1
            && HexValue(TxData(s1)) * 16 + HexValue(TxData(s2)) == i.data
  {
    ByteStarts(s, i);
    var s1 := TxStep(s, i);
    TxStepInv(s, i);
    WaitHolds(s1, waits);
    AcksAdvance(s1, j);
    HexRoundTrip(i.data / 16);
    HexRoundTrip(i.data % 16);
  }
}
