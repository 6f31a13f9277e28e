/** The SCCB (OmniVision Serial Camera Control Bus) write transmitter `SCCB`
    (ov7670/sccb.py). A 3-phase write sends the device ID 0x42, a register address and a
    data byte, each as 8 data slots (most significant bit first) and a ninth "don't care"
    slot in which the line is released. SIOC and SIOD are open-drain: the module drives
    only their output enables, and an enabled output pulls the line low. Every bus phase
    is followed by a wait of a quarter SCCB clock period in a shared TIMER state. */
module Sccb {

  const Idle: nat := 0
  const StartSignal: nat := 1
  const LoadByte: nat := 2
  const TxByte1: nat := 3
  const TxByte2: nat := 4
  const TxByte3: nat := 5
  const TxByte4: nat := 6
  const EndSignal1: nat := 7
  const EndSignal2: nat := 8
  const EndSignal3: nat := 9
  const EndSignal4: nat := 10
  const Done: nat := 11
  const Timer: nat := 12

  const CameraAddr: bv8 := 0x42

  /** int(CLK_FREQ / (4 * SCCB_FREQ)) for a 25 MHz clock and a 100 kHz bus: 62. */
  const QuarterPeriod: nat := 25000000 / (4 * 100000)

  /** int((2 * CLK_FREQ) / SCCB_FREQ): the pause after a transaction, 500 ticks. */
  const DoneWait: nat := (2 * 25000000) / 100000

  /** The registers; the 8-bit ones as bit vectors so that the shift is the hardware's. */
  datatype SccbState = SccbState(
    state: nat, ret: nat, timer: nat,
    addr: bv8, data: bv8, counter: nat, tx: bv8, index: nat,
    ready: bool, sioc: bool, siod: bool)

  datatype SccbIn = SccbIn(start: bool, address: bv8, data: bv8)

  function SccbReset(): SccbState
  {
    SccbState(Idle, Idle, 0, 0, 0, 0, 0, 0, true, false, false)
  }

  /** The byte sent in phase k of a transaction: device ID, address, data. */
  function ByteAt(s: SccbState, k: nat): bv8
  {
    if k == 0 then CameraAddr else if k == 1 then s.addr else s.data
  }

  /** One clock edge. `byte_counter` is 2 bits and `byte_index` 4 bits wide. */
  function SccbStep(s: SccbState, i: SccbIn): SccbState
  {
    if s.state == Idle then
      var s1 := s.(index := 0, counter := 0, sioc := false, siod := false);
      if i.start then s1.(state := StartSignal, addr := i.address, data := i.data, ready := false)
      else s1.(ready := true)
    else if s.state == StartSignal then
      s.(state := Timer, ret := LoadByte, timer := QuarterPeriod, sioc := false, siod := true)
    else if s.state == LoadByte then
      s.(counter := (s.counter + 1) % 4, index := 0,
         state := if s.counter == 3 then EndSignal1 else TxByte1,
         tx := ByteAt(s, s.counter))
    else if s.state == TxByte1 then
      s.(state := Timer, ret := TxByte2, timer := QuarterPeriod, sioc := true)
    else if s.state == TxByte2 then
      s.(state := Timer, ret := TxByte3, timer := QuarterPeriod,
         siod := if s.index == 8 then false else s.tx & 0x80 == 0)
    else if s.state == TxByte3 then
      s.(state := Timer, ret := TxByte4, timer := QuarterPeriod, sioc := false)
    else if s.state == TxByte4 then
      s.(tx := s.tx << 1, index := (s.index + 1) % 16,
         state := if s.index == 8 then LoadByte else TxByte1)
    else if s.state == EndSignal1 then
      s.(state := Timer, ret := EndSignal2, timer := QuarterPeriod, sioc := true)
    else if s.state == EndSignal2 then
      s.(state := Timer, ret := EndSignal3, timer := QuarterPeriod, siod := true)
    else if s.state == EndSignal3 then
      s.(state := Timer, ret := EndSignal4, timer := QuarterPeriod, sioc := false)
    else if s.state == EndSignal4 then
      s.(state := Timer, ret := Done, timer := QuarterPeriod, siod := false)
    else if s.state == Done then
      s.(state := Timer, ret := Idle, timer := DoneWait, counter := 0)
    else if s.state == Timer then
      if s.timer == 0 then s.(state := s.ret, timer := 0) else s.(timer := s.timer - 1)
    else s
  }

  /** The state after a sequence of inputs. */
  function SccbRun(s: SccbState, ins: seq<SccbIn>): SccbState
    decreases |ins|
  {
    if |ins| == 0 then s else SccbRun(SccbStep(s, ins[0]), ins[1..])
  }

  /** The phase the machine is in: the state, or the state a wait returns to. */
  function Phase(s: SccbState): nat
  {
    if s.state == Timer then s.ret else s.state
  }

  predicate Sending(ph: nat)
  {
    TxByte1 <= ph <= TxByte4
  }

  /** Bit k of a byte, as a mask test. */
  predicate ByteBit(b: bv8, k: nat)
    requires k < 8
  {
    b & [0x01, 0x02, 0x04, 0x08, 0x10, 0x20, 0x40, 0x80][k] != 0
  }

  /** A byte shifted left j times within 8 bits, one place per slot. */
  function Shifted(b: bv8, j: nat): bv8
  {
    if j == 0 then b else Shifted(b, j - 1) << 1
  }

  /** What holds in every reachable state. Outside IDLE `ready` is low. While a byte is
      being sent, `byte_counter` names the phase after it (1..3), at most 8 slots have gone
      by and the shift register holds that byte shifted left once per slot. During the
      stop sequence and the final pause the 2-bit counter has wrapped to 0. */
  predicate SccbInv(s: SccbState)
  {
    && s.state <= Timer && s.ret <= Done
    && (s.state == Timer ==> s.ret != Timer && s.ret != StartSignal && s.ret != TxByte1
                             && s.ret != EndSignal1)
    && (s.state != Idle ==> !s.ready)
    && s.counter < 4
    && s.index <= 9
    && (Sending(Phase(s)) ==>
          && 1 <= s.counter <= 3 && s.index <= 8
          && s.tx == Shifted(ByteAt(s, s.counter - 1), s.index))
    && (EndSignal1 <= Phase(s) <= Done ==> s.counter == 0)
  }

  lemma ResetInv()
    ensures SccbInv(SccbReset())
  {
  }

  /** The invariant holds after every tick: in particular `fsm_state` stays within 0..12
      and `ready` stays low from an accepted start until the machine is back in IDLE. */
  lemma StepInv(s: SccbState, i: SccbIn)
    requires SccbInv(s)
    ensures SccbInv(SccbStep(s, i))
    ensures SccbStep(s, i).state <= 12
    ensures s.state != Idle ==> !SccbStep(s, i).ready
  {
    if s.state == LoadByte {
      LoadInv(s, i);
    } else if s.state == TxByte4 {
      ShiftInv(s, i);
    } else if s.state == Timer {
      WaitInv(s, i);
    } else if s.state in {StartSignal, TxByte1, TxByte2, TxByte3} {
      SlotPhaseInv(s, i);
    } else if s.state != Idle {
      StopPhaseInv(s, i);
    } else {
      IdleInv(s, i);
    }
  }

  lemma IdleInv(s: SccbState, i: SccbIn)
    requires SccbInv(s) && s.state == Idle
    ensures SccbInv(SccbStep(s, i))
  {
  }

  lemma WaitInv(s: SccbState, i: SccbIn)
    requires SccbInv(s) && s.state == Timer
    ensures SccbInv(SccbStep(s, i))
  {
    assert SccbStep(s, i) == s.(state := if s.timer == 0 then s.ret else s.state,
                                timer := if s.timer == 0 then 0 else s.timer - 1);
  }

  lemma LoadInv(s: SccbState, i: SccbIn)
    requires SccbInv(s) && s.state == LoadByte
    ensures SccbInv(SccbStep(s, i))
  {
    var s' := SccbStep(s, i);
    if s.counter < 3 {
      var b := ByteAt(s, s.counter);
      assert s'.counter == s.counter + 1 && s'.index == 0 && s'.tx == b;
      assert ByteAt(s', s'.counter - 1) == b;
    }
  }

  lemma ShiftInv(s: SccbState, i: SccbIn)
    requires SccbInv(s) && s.state == TxByte4
    ensures SccbInv(SccbStep(s, i))
  {
    var s' := SccbStep(s, i);
    if s.index < 8 {
      var b := ByteAt(s, s.counter - 1);
      assert s'.index == s.index + 1 && s'.counter == s.counter && s'.tx == Shifted(b, s.index + 1);
      assert ByteAt(s', s'.counter - 1) == b;
    }
  }

  /** The phases that only set outputs and start a wait leave the byte registers alone. */
  lemma SlotPhaseInv(s: SccbState, i: SccbIn)
    requires SccbInv(s) && s.state in {StartSignal, TxByte1, TxByte2, TxByte3}
    ensures SccbInv(SccbStep(s, i))
  {
    var s' := SccbStep(s, i);
    assert s'.tx == s.tx && s'.addr == s.addr && s'.data == s.data && s'.counter == s.counter;
  }

  lemma StopPhaseInv(s: SccbState, i: SccbIn)
    requires SccbInv(s) && EndSignal1 <= s.state <= Done
    ensures SccbInv(SccbStep(s, i))
  {
    var s' := SccbStep(s, i);
    assert s'.counter == 0 && s'.state == Timer;
  }

  /** IDLE clears the slot index, the byte counter and both output enables. A start
      latches address and data, drops `ready` and begins the start condition; otherwise
      `ready` is raised. */
  lemma IdleStep(s: SccbState, i: SccbIn)
    requires s.state == Idle
    ensures var s' := SccbStep(s, i);
            && s'.index == 0 && s'.counter == 0 && !s'.sioc && !s'.siod
            && (i.start ==> s'.state == StartSignal && s'.addr == i.address
                            && s'.data == i.data && !s'.ready)
            && (!i.start ==> s'.state == Idle && s'.ready)
  {
  }

  /** Outside IDLE the inputs are not read. */
  lemma BusyIgnoresInputs(s: SccbState, i: SccbIn, j: SccbIn)
    requires s.state != Idle
    ensures SccbStep(s, i) == SccbStep(s, j)
  {
  }

  /** LOAD_BYTE loads the device ID 0x42, then the latched address, then the latched
      data; on the fourth visit it ends the transaction instead, so exactly three bytes
      are sent. */
  lemma LoadOrder(s: SccbState, i: SccbIn)
    requires SccbInv(s) && s.state == LoadByte
    ensures var s' := SccbStep(s, i);
            && (s.counter < 3 ==> s'.state == TxByte1 && s'.tx == [CameraAddr, s.addr, s.data][s.counter]
                                  && s'.counter == s.counter + 1 && s'.index == 0)
            && (s.counter == 3 ==> s'.state == EndSignal1 && s'.counter == 0)
  {
  }

  /** The bit on SIOD in slot j of a byte (slot 8 is released): bit 7-j of the byte,
      most significant first. The line is low exactly when its output is enabled. */
  lemma SlotBit(s: SccbState, i: SccbIn)
    requires SccbInv(s) && s.state == TxByte2
    ensures var b := ByteAt(s, s.counter - 1);
            var s' := SccbStep(s, i);
            && (s.index < 8 ==> (!s'.siod <==> ByteBit(b, 7 - s.index)))
            && (s.index == 8 ==> !s'.siod)
  {
    if s.index < 8 {
      TopBitOfShift(ByteAt(s, s.counter - 1), s.index);
    }
  }

  /** Bit 7 of a byte shifted left by j is bit 7-j of the byte. */
  lemma TopBitOfShift(b: bv8, j: nat)
    requires j < 8
    ensures (Shifted(b, j) & 0x80 == 0) <==> !ByteBit(b, 7 - j)
  {
    assert Shifted(b, 1) == b << 1;
    assert Shifted(b, 2) == b << 2;
    assert Shifted(b, 3) == b << 3;
    assert Shifted(b, 4) == b << 4;
    assert Shifted(b, 5) == b << 5;
    assert Shifted(b, 6) == b << 6;
    assert Shifted(b, 7) == b << 7;
  }

  /** The start condition pulls SIOD low with SIOC released; the stop sequence then
      pulls SIOC low, pulls SIOD low, releases SIOC and releases SIOD, in that order. */
  lemma StartAndStop(s: SccbState, i: SccbIn)
    ensures s.state == StartSignal ==> !SccbStep(s, i).sioc && SccbStep(s, i).siod
    ensures s.state == EndSignal1 ==> SccbStep(s, i).sioc && SccbStep(s, i).ret == EndSignal2
    ensures s.state == EndSignal2 ==> SccbStep(s, i).siod && SccbStep(s, i).ret == EndSignal3
    ensures s.state == EndSignal3 ==> !SccbStep(s, i).sioc && SccbStep(s, i).ret == EndSignal4
    ensures s.state == EndSignal4 ==> !SccbStep(s, i).siod && SccbStep(s, i).ret == Done
  {
  }

  /** Every bus phase waits a quarter period of 62 ticks, the final pause 500; both
      constants as the source computes them. */
  lemma Waits(s: SccbState, i: SccbIn)
    requires s.state in {StartSignal, TxByte1, TxByte2, TxByte3, EndSignal1, EndSignal2, EndSignal3,
                         EndSignal4, Done}
    ensures SccbStep(s, i).state == Timer
    ensures SccbStep(s, i).timer == if s.state == Done then 500 else 62
  {
  }

  /** A wait of t in TIMER lasts t+1 ticks, whatever the inputs, and then resumes at the
      recorded return state with nothing else changed. */
  lemma {:induction false} TimerWait(s: SccbState, ins: seq<SccbIn>)
    requires s.state == Timer && |ins| == s.timer + 1
    ensures SccbRun(s, ins) == s.(state := s.ret, timer := 0)
    decreases |ins|
  {
    var s' := SccbStep(s, ins[0]);
    if s.timer > 0 {
      TimerWait(s', ins[1..]);
      assert s'.(state := s'.ret, timer := 0) == s.(state := s.ret, timer := 0);
    }
  }
}
