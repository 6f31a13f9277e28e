/** The SDRAM self-test of sdram16/test_sdram16.py, in its 8 MHz `sync` domain: after a
    power-on delay it writes the low 16 bits of every 24-bit word address to that address,
    one write every two ticks, then reads the whole memory back, one read every 32 ticks,
    setting a sticky error flag on any mismatch and a pass flag when a read sweep completes
    without error. The SDRAM controller is outside the model: the word it returns,
    `mem.data_out`, is an input of each tick. */
module SdramTest {
  import opened Bits

  datatype TestState = TestState(
    resetCnt: nat, addr: nat, count: nat,
    we: bool, oe: bool, read: bool, err: bool, passed: bool)

  function TestReset(): TestState
  {
    TestState(0, 0, 0, false, false, false, false, false)
  }

  /** The power-on delay is over: `reset_cnt.all()`. */
  predicate Ready(s: TestState)
  {
    AllOnes(s.resetCnt, 5)
  }

  /** The word written to the current address, `addr[:16]`. */
  function DataIn(s: TestState): nat
  {
    Slice(s.addr, 0, 16)
  }

  /** The address advances this tick: in the write phase at count 1, in either phase when
      the count is all ones, and never before the power-on delay is over. */
  predicate Advance(s: TestState)
  {
    Ready(s) && ((!s.read && s.count == 1) || AllOnes(s.count, 5))
  }

  /** One tick of the `sync` domain with `mem.data_out` = dataOut. */
  function TestStep(s: TestState, dataOut: nat): TestState
  {
    var resetCnt := if !Ready(s) then Trunc(s.resetCnt + 1, 5) else s.resetCnt;
    var err := if s.count > 0 && s.read && dataOut != DataIn(s) then true else s.err;
    var s1 := s.(resetCnt := resetCnt, err := err, count := Trunc(s.count + 1, 5),
                 we := s.count == 0 && !s.read, oe := s.count == 0 && s.read);
    if Advance(s) then
      var s2 := s1.(count := if !s.read && s.count == 1 then 0 else s1.count,
                    addr := Trunc(s.addr + 1, 24));
      if AllOnes(s.addr, 24) then
        s2.(read := true, passed := if s.read && !s.err then true else s2.passed)
      else s2
    else s1
  }

  function TestRun(s: TestState, outs: seq<nat>): TestState
    decreases |outs|
  {
    if |outs| == 0 then s else TestRun(TestStep(s, outs[0]), outs[1..])
  }

  /** Every register within its width. */
  predicate TestInv(s: TestState)
  {
    s.resetCnt < 32 && s.addr < Pow2(24) && s.count < 32
  }

  lemma TestStepInv(s: TestState, dataOut: nat)
    requires TestInv(s)
    ensures TestInv(TestStep(s, dataOut))
  {
    if Advance(s) {
      assert TestStep(s, dataOut).addr == Trunc(s.addr + 1, 24);
    } else {
      assert TestStep(s, dataOut).addr == s.addr;
    }
  }

  /** The power-on counter counts up to 31 and stays there; until it gets there the
      address does not move. */
  lemma PowerOnDelay(s: TestState, dataOut: nat)
    requires TestInv(s)
    ensures TestStep(s, dataOut).resetCnt == if s.resetCnt < 31 then s.resetCnt + 1 else 31
    ensures Ready(s) <==> s.resetCnt == 31
    ensures s.resetCnt < 31 ==> TestStep(s, dataOut).addr == s.addr
  {
    assert Pow2(5) == 32;
  }

  /** The write and read requests are registered from the same count and are never both
      raised: a write request exactly at count 0 of the write phase, a read request at
      count 0 of the read phase. */
  lemma RequestsExclusive(s: TestState, dataOut: nat)
    ensures !(TestStep(s, dataOut).we && TestStep(s, dataOut).oe)
    ensures TestStep(s, dataOut).we <==> s.count == 0 && !s.read
    ensures TestStep(s, dataOut).oe <==> s.count == 0 && s.read
  {
  }

  /** The error flag is sticky: it is raised by a mismatch between the word read and the
      low 16 bits of the address at a read-phase tick with non-zero count, and never
      cleared. */
  lemma ErrorSticky(s: TestState, dataOut: nat)
    ensures TestStep(s, dataOut).err <==>
              s.err || (s.count > 0 && s.read && dataOut != s.addr % 0x1_0000)
  {
    Pow2Table();
    assert Pow2(0) == 1;
    assert Pow2(16 - 0) == 0x1_0000;
  }

  /** The read phase, once entered, lasts forever; it is entered exactly when the address
      advances past all ones. The pass flag is sticky too, and it is raised only by an
      error-free read-phase advance past the last address. */
  lemma PhaseFlags(s: TestState, dataOut: nat)
    ensures s.read ==> TestStep(s, dataOut).read
    ensures !s.read && TestStep(s, dataOut).read <==> !s.read && Advance(s) && AllOnes(s.addr, 24)
    ensures s.passed ==> TestStep(s, dataOut).passed
    ensures !s.passed && TestStep(s, dataOut).passed <==>
              !s.passed && Advance(s) && AllOnes(s.addr, 24) && s.read && !s.err
  {
  }

  /** In the write phase, after the delay, the count alternates 0, 1, 0, 1, ...: from
      count 0 a write is requested on the next tick, and two ticks later the address has
      advanced by one with the count back at 0. */
  lemma WriteCycle(s: TestState, d0: nat, d1: nat)
    requires TestInv(s) && Ready(s) && !s.read && s.count == 0 && !AllOnes(s.addr, 24)
    ensures var s1 := TestStep(s, d0);
            var s2 := TestStep(s1, d1);
            && s1.we && s1.addr == s.addr && s1.count == 1
            && !s2.we && s2.addr == s.addr + 1 && s2.count == 0 && !s2.read
  {
    Pow2Table();
  }

  /** In the read phase the address moves only when the count is all ones; the count
      runs through all 32 values. */
  lemma ReadPhaseStep(s: TestState, dataOut: nat)
    requires TestInv(s) && Ready(s) && s.read
    ensures TestStep(s, dataOut).count == (s.count + 1) % 32
    ensures TestStep(s, dataOut).addr == if s.count == 31 then (s.addr + 1) % Pow2(24) else s.addr
    ensures TestStep(s, dataOut).read && Ready(TestStep(s, dataOut))
  {
    Pow2Table();
    assert Advance(s) <==> s.count == 31;
  }

  /** A read sweep of one address: from count c, 32 - c ticks later (whatever the memory
      returns) the next address is reached with the count back at 0, still reading. */
  lemma {:induction false} ReadSweep(s: TestState, outs: seq<nat>)
    requires TestInv(s) && Ready(s) && s.read && |outs| == 32 - s.count
    ensures TestRun(s, outs).addr == (s.addr + 1) % Pow2(24)
    ensures TestRun(s, outs).count == 0 && TestRun(s, outs).read
    decreases |outs|
  {
    var s' := TestStep(s, outs[0]);
    ReadPhaseStep(s, outs[0]);
    TestStepInv(s, outs[0]);
    if s.count < 31 {
      ReadSweep(s', outs[1..]);
    }
  }
}
