/** The camera register loader `OV7670Config` (ov7670/ov7670_config.py). On `start` it walks
    a 16-bit-wide configuration ROM from address 0: an ordinary entry is a register write,
    high byte the register address and low byte its value, handed to the SCCB transmitter
    when that is ready; 0xFFF0 is a 10 ms pause; 0xFFFF ends the walk and raises `done`.
    The ROM itself is outside this module: its word arrives as the input `rom_data`. */
module Ov7670Config {
  import opened Bits

  const CfgIdle: nat := 0
  const SendCmd: nat := 1
  const CfgDone: nat := 2
  const CfgTimer: nat := 3

  /** int(CLK_FREQ / 100) for a 25 MHz clock: ten milliseconds, 250000 ticks. */
  const DelayTicks: nat := 25000000 / 100

  const EndMarker: nat := 0xFFFF
  const DelayMarker: nat := 0xFFF0

  datatype CfgState = CfgState(
    state: nat, ret: nat, timer: nat, romAddr: nat, done: bool,
    sccbAddr: nat, sccbData: nat, sccbStart: bool)

  datatype CfgIn = CfgIn(sccbReady: bool, romData: nat, start: bool)

  function CfgReset(): CfgState
  {
    CfgState(CfgIdle, CfgIdle, 0, 0, false, 0, 0, false)
  }

  /** A ROM word that is neither marker: a register write. */
  predicate IsWrite(d: nat)
  {
    d != EndMarker && d != DelayMarker
  }

  /** One clock edge. `rom_addr` is 8 bits wide and wraps; `timer` is only decremented
      when it is non-zero. */
  function CfgStep(s: CfgState, i: CfgIn): CfgState
  {
    if s.state == CfgIdle then
      var s1 := s.(romAddr := 0);
      if i.start then s1.(state := SendCmd, done := false) else s1
    else if s.state == SendCmd then
      if i.romData == EndMarker then s.(state := CfgDone)
      else if i.romData == DelayMarker then
        s.(timer := DelayTicks, state := CfgTimer, ret := SendCmd, romAddr := Trunc(s.romAddr + 1, 8))
      else if i.sccbReady then
        s.(state := CfgTimer, ret := SendCmd, timer := 0, romAddr := Trunc(s.romAddr + 1, 8),
           sccbAddr := Slice(i.romData, 8, 16), sccbData := Slice(i.romData, 0, 8), sccbStart := true)
      else s
    else if s.state == CfgDone then
      s.(state := CfgIdle, done := true)
    else if s.state == CfgTimer then
      var s1 := s.(sccbStart := false);
      if s.timer == 0 then s1.(state := s.ret) else s1.(timer := s.timer - 1)
    else s
  }

  function CfgRun(s: CfgState, ins: seq<CfgIn>): CfgState
    decreases |ins|
  {
    if |ins| == 0 then s else CfgRun(CfgStep(s, ins[0]), ins[1..])
  }

  /** What holds from reset on: one of the four states, TIMER always returning to SEND_CMD,
      the timer at 0 outside TIMER, the 8-bit registers in range, and `sccb_start` high
      only on the first tick of the one-tick wait that follows a register write. */
  predicate CfgInv(s: CfgState)
  {
    && s.state <= CfgTimer
    && (s.state == CfgTimer ==> s.ret == SendCmd)
    && (s.state != CfgTimer ==> s.timer == 0)
    && s.romAddr < 256 && s.sccbAddr < 256 && s.sccbData < 256
    && (s.sccbStart ==> s.state == CfgTimer && s.timer == 0)
  }

  lemma CfgResetInv()
    ensures CfgInv(CfgReset())
  {
  }

  lemma CfgStepInv(s: CfgState, i: CfgIn)
    requires CfgInv(s)
    ensures CfgInv(CfgStep(s, i))
  {
  }

  /** IDLE holds the ROM address at 0; `start` begins the walk and clears `done`. */
  lemma IdleStep(s: CfgState, i: CfgIn)
    requires s.state == CfgIdle
    ensures CfgStep(s, i).romAddr == 0
    ensures CfgStep(s, i).state == if i.start then SendCmd else CfgIdle
    ensures i.start ==> !CfgStep(s, i).done
    ensures !i.start ==> CfgStep(s, i).done == s.done
  {
  }

  /** The end marker finishes the walk: DONE, then back to IDLE with `done` raised. */
  lemma EndOfRom(s: CfgState, i: CfgIn, j: CfgIn)
    requires s.state == SendCmd && i.romData == EndMarker
    ensures CfgStep(s, i).state == CfgDone
    ensures CfgStep(CfgStep(s, i), j).state == CfgIdle && CfgStep(CfgStep(s, i), j).done
    ensures CfgStep(CfgStep(s, i), j).romAddr == s.romAddr
  {
  }

  /** A register write waits, changing nothing, until the transmitter is ready. */
  lemma WaitsForReady(s: CfgState, i: CfgIn)
    requires s.state == SendCmd && IsWrite(i.romData) && !i.sccbReady
    ensures CfgStep(s, i) == s
  {
  }

  /** The register address and value handed to the transmitter are the two bytes of the
      ROM word: together they rebuild it. */
  lemma WriteSplitsWord(s: CfgState, i: CfgIn)
    requires s.state == SendCmd && IsWrite(i.romData) && i.sccbReady && i.romData < 0x1_0000
    ensures CfgStep(s, i).sccbAddr * 256 + CfgStep(s, i).sccbData == i.romData
    ensures CfgStep(s, i).sccbAddr == i.romData / 256 && CfgStep(s, i).sccbData == i.romData % 256
  {
    assert Pow2(8) == 256;
    assert Pow2(0) == 1;
    assert Pow2(16 - 8) == 256;
    assert Pow2(8 - 0) == 256;
  }

  /** `sccb_start` rises exactly when a register write is accepted, and it never stays
      high for two ticks in a row: each write is one pulse. */
  lemma StartPulse(s: CfgState, i: CfgIn)
    requires CfgInv(s)
    ensures !s.sccbStart && CfgStep(s, i).sccbStart <==>
              s.state == SendCmd && IsWrite(i.romData) && i.sccbReady
    ensures s.sccbStart ==> !CfgStep(s, i).sccbStart
  {
  }

  /** A register write takes two ticks: the pulse tick and the one-tick wait. Afterwards
      the loader is back in SEND_CMD at the next ROM address with the pulse over, holding
      the word's two bytes for the transmitter, and nothing else has changed. */
  lemma WriteCycle(s: CfgState, i: CfgIn, j: CfgIn)
    requires CfgInv(s) && s.state == SendCmd && IsWrite(i.romData) && i.sccbReady
    ensures CfgStep(CfgStep(s, i), j)
            == s.(ret := SendCmd, romAddr := (s.romAddr + 1) % 256,
                  sccbAddr := Slice(i.romData, 8, 16), sccbData := Slice(i.romData, 0, 8))
  {
    assert Pow2(8) == 256;
  }

  /** A wait of t in TIMER lasts t+1 ticks, whatever the inputs, and then resumes at the
      recorded return state with `sccb_start` low and nothing else changed. */
  lemma {:induction false} CfgTimerWait(s: CfgState, ins: seq<CfgIn>)
    requires s.state == CfgTimer && |ins| == s.timer + 1
    ensures CfgRun(s, ins) == s.(state := s.ret, timer := 0, sccbStart := false)
    decreases |ins|
  {
    var s' := CfgStep(s, ins[0]);
    if s.timer > 0 {
      CfgTimerWait(s', ins[1..]);
      assert s'.(state := s'.ret, timer := 0, sccbStart := false)
             == s.(state := s.ret, timer := 0, sccbStart := false);
    }
  }

  /** The pause marker: 250002 ticks later (the marker tick, 250000 counted down and the
      return) the loader is back in SEND_CMD at the next ROM address, nothing sent. */
  lemma PauseCycle(s: CfgState, ins: seq<CfgIn>)
    requires CfgInv(s) && s.state == SendCmd
    requires |ins| == DelayTicks + 2 && ins[0].romData == DelayMarker
    ensures CfgRun(s, ins) == s.(ret := SendCmd, romAddr := (s.romAddr + 1) % 256)
  {
    assert Pow2(8) == 256;
    var s' := CfgStep(s, ins[0]);
    assert CfgRun(s, ins) == CfgRun(s', ins[1..]);
    CfgTimerWait(s', ins[1..]);
  }
}
