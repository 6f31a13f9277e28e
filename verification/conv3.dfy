/** The streaming 3x3 convolution unit `Conv3` (conv/conv3.py) as a synchronous transition
    system: one call of `Step` is one clock edge. Every `m.d.sync` assignment of a tick is
    computed from the pre-tick state and the tick's inputs and committed together; where
    several assignments of one tick target the same register the later one in program order
    wins. */
module Conv3 {
  import opened Bits

  /** Construction parameters: nine kernel weights (row-major, possibly negative), the
      right shift, the frame width and height and the pixel width in bits. */
  datatype Params = Params(k: seq<int>, sh: nat, w: nat, h: nat, dw: nat)

  /** What the unit needs to make sense: nine weights, at least three columns and two rows. */
  predicate ValidParams(p: Params)
  {
    |p.k| == 9 && p.w >= 3 && p.h >= 2
  }

  /** The eight registered cells of the 3x3 window; the ninth, p22, is combinational. */
  datatype Window = Window(p00: int, p01: int, p02: int,
                           p10: int, p11: int, p12: int,
                           p20: int, p21: int)

  /** Every register of the unit. `rd0`/`rd1` are the data registers of the two synchronous
      line-buffer read ports; `op`, `valid`, `ox`, `oy` and `stall` are the outputs
      `o_p`, `o_valid`, `o_x`, `o_y` and `o_stall`. */
  datatype State = State(
    x: nat, y: nat, started: bool, stall: bool,
    win: Window, pd0: int, pd1: int,
    rd0: int, rd1: int, mem0: seq<int>, mem1: seq<int>,
    op: nat, valid: bool, ox: nat, oy: nat)

  /** One tick's inputs `i_p` and `i_valid`. */
  datatype Input = Input(pixel: int, valid: bool)

  /** Power-on values: counters at zero, output coordinates at (w-1, h-1), memories zeroed. */
  function Reset(p: Params): (s: State)
    requires ValidParams(p)
    ensures s.x == 0 && s.y == 0 && !s.started && !s.stall && !s.valid
    ensures s.ox == p.w - 1 && s.oy == p.h - 1
    ensures |s.mem0| == p.w && |s.mem1| == p.w
  {
    State(0, 0, false, false, Window(0, 0, 0, 0, 0, 0, 0, 0), 0, 0, 0, 0,
          seq(p.w, _ => 0), seq(p.w, _ => 0), 0, false, p.w - 1, p.h - 1)
  }

  /** The unit processes a tick when a pixel arrives or while it flushes the frame tail. */
  predicate Active(s: State, i: Input)
  {
    i.valid || s.stall
  }

  /** The three priming positions that fill the window's corner cells. */
  predicate Priming(x: nat, y: nat)
  {
    (y == 0 && (x == 0 || x == 1)) || (y == 1 && x == 0)
  }

  /** Ticks that slide the window and emit a pixel. */
  predicate Shifts(s: State, i: Input)
  {
    Active(s, i) && !Priming(s.x, s.y) && s.started
  }

  /** Line-buffer read address: two columns ahead of x, wrapping at w (the intended `x2`). */
  function X2(p: Params, x: nat): (r: nat)
    requires ValidParams(p)
    ensures x < p.w ==> r < p.w && r == (x + 2) % p.w
  {
    if x >= p.w - 2 then x + 2 - p.w else x + 2
  }

  /** `x2` as declared in the source: a register only `bits_for(h)` wide. */
  function X2AsWritten(p: Params, x: nat): nat
    requires ValidParams(p)
  {
    Trunc(X2(p, x), BitsFor(p.h))
  }

  /** A synchronous write port: one word written at `addr` when enabled. */
  function WritePort(mem: seq<int>, en: bool, addr: nat, d: int): (r: seq<int>)
    ensures |r| == |mem|
    ensures forall a :: 0 <= a < |mem| && a != addr ==> r[a] == mem[a]
    ensures en && addr < |mem| ==> r[addr] == d
    ensures !en ==> r == mem
  {
    if en && addr < |mem| then mem[addr := d] else mem
  }

  /** The word a transparent synchronous read port registers at this edge: the word being
      written when the addresses coincide, else the stored word (0 off the end). */
  function ReadPort(mem: seq<int>, en: bool, waddr: nat, d: int, raddr: nat): int
  {
    if en && waddr == raddr then d else if raddr < |mem| then mem[raddr] else 0
  }

  /** The combinational bottom-right cell: the input pixel, replaced by p21 in column 0
      (the right neighbour of the last column) and by p12 in the flush row y == h. */
  function P22(p: Params, s: State, pixel: int): int
  {
    if s.x == 0 then s.win.p21 else if s.y == p.h then s.win.p12 else pixel
  }

  /** The nine taps in kernel order. */
  function Taps(win: Window, p22: int): (t: seq<int>)
    ensures |t| == 9
  {
    [win.p00, win.p01, win.p02, win.p10, win.p11, win.p12, win.p20, win.p21, p22]
  }

  /** Weighted sum of the taps. */
  function Dot(k: seq<int>, v: seq<int>): int
    requires |k| == |v|
  {
    if |k| == 0 then 0 else k[0] * v[0] + Dot(k[1..], v[1..])
  }

  /** The output pixel for a weighted sum: an arithmetic (floor) right shift by sh, then
      wrapped into the dw-bit `o_p`; there is no saturation. */
  function OutPixel(p: Params, sum: int): (r: nat)
    ensures r < Pow2(p.dw)
  {
    Trunc(sum / Pow2(p.sh), p.dw)
  }

  /** Window registers after an active tick: the three priming cases, then the slide. */
  function NextWindow(p: Params, s: State, pixel: int): Window
    requires ValidParams(p)
  {
    var v := s.win;
    if s.x == 0 && s.y == 0 then
      v.(p00 := pixel, p01 := pixel, p10 := pixel, p11 := pixel)
    else if s.x == 1 && s.y == 0 then
      v.(p02 := pixel, p12 := pixel)
    else if s.x == 0 && s.y == 1 then
      v.(p20 := pixel, p21 := pixel)
    else if s.started then
      Window(
        if s.x == 0 then s.pd0 else v.p01,
        if s.x == 0 then s.pd0 else v.p02,
        if s.x == p.w - 1 then v.p02 else s.rd0,
        if s.x == 0 then s.pd1 else v.p11,
        if s.x == 0 then s.pd1 else v.p12,
        if s.x == p.w - 1 then v.p12 else s.rd1,
        if s.y == p.h then (if s.x == 0 then s.pd1 else v.p11)
        else (if s.x == 0 then pixel else v.p21),
        if s.y == p.h then (if s.x == 0 then s.pd1 else v.p12) else pixel)
    else
      v
  }

  /** One clock edge, given the line-buffer read address and whether the read ports
      capture this tick. */
  function Tick(p: Params, s: State, i: Input, raddr: nat, ren: bool): State
    requires ValidParams(p)
  {
    var act := Active(s, i);
    var shift := Shifts(s, i);
    var frameEnd := act && s.y == p.h + 1;
    var we0 := i.valid && s.y != 1 && s.y != p.h;
    var wd0 := if s.y >= 2 then s.pd1 else i.pixel;
    var we1 := i.valid && s.y != p.h;
    s.(
      x := if !act then s.x
           else if frameEnd || s.x == p.w - 1 then 0
           else Trunc(s.x + 1, BitsFor(p.w)),
      y := if !act then s.y
           else if frameEnd then 0
           else if s.x == p.w - 1 then Trunc(s.y + 1, BitsFor(p.h + 3))
           else s.y,
      started := if act && s.y == 1 && s.x == 0 then true
                 else if frameEnd then false
                 else s.started,
      stall := if act && s.y == p.h - 1 && s.x == p.w - 1 then true
               else if frameEnd then false
               else s.stall,
      win := if act then NextWindow(p, s, i.pixel) else s.win,
      pd0 := if act then s.rd0 else s.pd0,
      pd1 := if act then s.rd1 else s.pd1,
      rd0 := if ren then ReadPort(s.mem0, we0, s.x, wd0, raddr) else s.rd0,
      rd1 := if ren then ReadPort(s.mem1, we1, s.x, i.pixel, raddr) else s.rd1,
      mem0 := WritePort(s.mem0, we0, s.x, wd0),
      mem1 := WritePort(s.mem1, we1, s.x, i.pixel),
      op := if shift then OutPixel(p, Dot(p.k, Taps(s.win, P22(p, s, i.pixel)))) else s.op,
      valid := shift,
      ox := if shift then (if s.ox == p.w - 1 then 0 else Trunc(s.ox + 1, BitsFor(p.w)))
            else if frameEnd then p.w - 1
            else s.ox,
      oy := if shift && s.ox == p.w - 1 then
              (if s.oy == p.h - 1 then 0 else Trunc(s.oy + 1, BitsFor(p.h)))
            else if frameEnd then p.h - 1
            else s.oy)
  }

  /** The unit exactly as written: the read address is the narrow `x2` and the read ports,
      whose enable is never driven, capture on every tick, idle or not. */
  function StepAsWritten(p: Params, s: State, i: Input): (r: State)
    requires ValidParams(p)
    ensures !Active(s, i) ==>
              r == s.(valid := false,
                      rd0 := ReadPort(s.mem0, false, s.x, 0, X2AsWritten(p, s.x)),
                      rd1 := ReadPort(s.mem1, false, s.x, 0, X2AsWritten(p, s.x)))
  {
    Tick(p, s, i, X2AsWritten(p, s.x), true)
  }

  /** The unit with the two corrections this model adopts: `x2` wraps at w, and the read
      ports capture only on ticks the unit processes. An idle tick is then a pure pause:
      only `o_valid` drops. */
  function Step(p: Params, s: State, i: Input): (r: State)
    requires ValidParams(p)
    ensures !Active(s, i) ==> r == s.(valid := false)
    ensures r.valid <==> Active(s, i) && s.started && !Priming(s.x, s.y)
  {
    Tick(p, s, i, X2(p, s.x), Active(s, i))
  }

  // ---------------------------------------------------------------------------------
  // Positions and output labels

  /** Intake positions at which the window holds a full neighbourhood: from (1,1) on. */
  predicate StartedAt(x: nat, y: nat)
  {
    (y == 1 && x >= 1) || y >= 2
  }

  /** The pixel whose neighbourhood the window holds at a started intake position
      (one column and one row behind the intake, wrapping to the previous row). */
  function CenterX(p: Params, x: nat): nat
    requires ValidParams(p)
  {
    if x >= 1 then x - 1 else p.w - 1
  }

  function CenterY(x: nat, y: nat): nat
    requires StartedAt(x, y)
  {
    if x >= 1 then y - 1 else y - 2
  }

  /** Raster successor of an output coordinate, wrapping at (w-1, h-1) to (0, 0): the
      behaviour of the `o_x`/`o_y` counters. */
  function SuccX(p: Params, cx: nat): nat
    requires ValidParams(p)
  {
    if cx < p.w - 1 then cx + 1 else 0
  }

  function SuccY(p: Params, cx: nat, cy: nat): nat
    requires ValidParams(p)
  {
    if cx < p.w - 1 then cy else if cy < p.h - 1 then cy + 1 else 0
  }

  /** Raster predecessor, the inverse of the successor. */
  function PredX(p: Params, cx: nat): nat
    requires ValidParams(p)
  {
    if cx >= 1 then cx - 1 else p.w - 1
  }

  function PredY(p: Params, cx: nat, cy: nat): nat
    requires ValidParams(p)
  {
    if cx >= 1 then cy else if cy >= 1 then cy - 1 else p.h - 1
  }

  /** Successor and predecessor are inverse on the frame's coordinates. */
  lemma SuccPred(p: Params, cx: nat, cy: nat)
    requires ValidParams(p) && cx < p.w && cy < p.h
    ensures SuccX(p, PredX(p, cx)) == cx && SuccY(p, PredX(p, cx), PredY(p, cx, cy)) == cy
    ensures PredX(p, SuccX(p, cx)) == cx && PredY(p, SuccX(p, cx), SuccY(p, cx, cy)) == cy
  {
  }

  /** The label of the last pixel emitted, as a function of the intake position. */
  function LastX(p: Params, x: nat, y: nat): nat
    requires ValidParams(p)
  {
    if StartedAt(x, y) then PredX(p, CenterX(p, x)) else p.w - 1
  }

  function LastY(p: Params, x: nat, y: nat): nat
    requires ValidParams(p)
  {
    if StartedAt(x, y) then PredY(p, CenterX(p, x), CenterY(x, y)) else p.h - 1
  }

  /** The control invariant of every state reachable from reset, whatever the inputs:
      counter ranges, the `started` and `o_stall` latches as functions of the intake
      position, and the output coordinates as the label of the last emitted pixel. */
  ghost predicate ControlInv(p: Params, s: State)
    requires ValidParams(p)
  {
    && |s.mem0| == p.w && |s.mem1| == p.w
    && s.x < p.w && s.y <= p.h + 1 && (s.y == p.h + 1 ==> s.x == 0)
    && s.started == StartedAt(s.x, s.y)
    && s.stall == (s.y >= p.h)
    && s.ox == LastX(p, s.x, s.y) && s.oy == LastY(p, s.x, s.y)
  }

  /** Raster successor of an intake position: x wraps to 0 at w-1 and increments y; the
      extra row y == h+1 has a single position, after which the next frame starts. */
  function NextX(p: Params, x: nat, y: nat): nat
    requires ValidParams(p)
  {
    if y == p.h + 1 || x == p.w - 1 then 0 else x + 1
  }

  function NextY(p: Params, x: nat, y: nat): nat
    requires ValidParams(p)
  {
    if y == p.h + 1 then 0 else if x == p.w - 1 then y + 1 else y
  }

  lemma ResetControl(p: Params)
    requires ValidParams(p)
    ensures ControlInv(p, Reset(p))
  {
  }

  /** Counters and latches under one tick, for any inputs: x stays in [0, w), wraps and
      increments y at w-1, and everything resets at y == h+1; `started` is set only at
      (0,1); `o_stall` only at (w-1,h-1); each pixel emitted carries the label of the
      window's centre, one raster step after the previous label. */
  lemma StepControl(p: Params, s: State, i: Input)
    requires ValidParams(p) && ControlInv(p, s)
    ensures ControlInv(p, Step(p, s, i))
    ensures Active(s, i) ==> Step(p, s, i).x == NextX(p, s.x, s.y) && Step(p, s, i).y == NextY(p, s.x, s.y)
    ensures !s.started && Step(p, s, i).started ==> s.x == 0 && s.y == 1
    ensures !s.stall && Step(p, s, i).stall ==> s.x == p.w - 1 && s.y == p.h - 1
    ensures Step(p, s, i).valid ==>
              && Step(p, s, i).ox == CenterX(p, s.x) && Step(p, s, i).oy == CenterY(s.x, s.y)
              && Step(p, s, i).ox == SuccX(p, s.ox) && Step(p, s, i).oy == SuccY(p, s.ox, s.oy)
  {
    var r := Step(p, s, i);
    if Active(s, i) {
      assert s.x + 1 < Pow2(BitsFor(p.w));
      assert s.y + 1 < Pow2(BitsFor(p.h + 3));
      assert s.ox + 1 < Pow2(BitsFor(p.w));
      assert s.oy + 1 < Pow2(BitsFor(p.h));
      if Shifts(s, i) {
        SuccPred(p, CenterX(p, s.x), CenterY(s.x, s.y));
      }
    }
  }

  // ---------------------------------------------------------------------------------
  // Runs over input sequences, and the pixels they emit

  /** The states after each tick of a sequence of inputs. */
  function Run(p: Params, s: State, ins: seq<Input>): (r: seq<State>)
    requires ValidParams(p)
    ensures |r| == |ins|
    decreases |ins|
  {
    if |ins| == 0 then [] else [Step(p, s, ins[0])] + Run(p, Step(p, s, ins[0]), ins[1..])
  }

  /** The state after the whole sequence. */
  function Final(p: Params, s: State, ins: seq<Input>): State
    requires ValidParams(p)
    decreases |ins|
  {
    if |ins| == 0 then s else Final(p, Step(p, s, ins[0]), ins[1..])
  }

  /** An emitted pixel with its output coordinates. */
  datatype Pixel = Pixel(x: nat, y: nat, value: nat)

  /** The pixels a sequence of states presents with `o_valid` high, in order. */
  function Emitted(states: seq<State>): seq<Pixel>
  {
    if |states| == 0 then []
    else (if states[0].valid then [Pixel(states[0].ox, states[0].oy, states[0].op)] else [])
         + Emitted(states[1..])
  }

  /** The tick does not read `o_valid`. */
  lemma StepIgnoresValid(p: Params, s: State, i: Input, v: bool)
    requires ValidParams(p)
    ensures Step(p, s.(valid := v), i) == Step(p, s, i)
  {
  }

  lemma {:induction false} RunIgnoresValid(p: Params, s: State, ins: seq<Input>, v: bool)
    requires ValidParams(p)
    ensures Run(p, s.(valid := v), ins) == Run(p, s, ins)
  {
    if |ins| > 0 {
      StepIgnoresValid(p, s, ins[0], v);
    }
  }

  /** Inserting a tick without a pixel anywhere the unit is not flushing changes nothing it
      emits: the emitted pixels, labels included, are only delayed. */
  lemma {:induction false} PauseInvisible(p: Params, s: State, a: seq<Input>, q: int, b: seq<Input>)
    requires ValidParams(p)
    requires !Final(p, s, a).stall
    ensures Emitted(Run(p, s, a + [Input(q, false)] + b)) == Emitted(Run(p, s, a + b))
    decreases |a|
  {
    if |a| == 0 {
      assert a + [Input(q, false)] + b == [Input(q, false)] + b;
      assert a + b == b;
      var s0 := Step(p, s, Input(q, false));
      assert s0 == s.(valid := false);
      assert ([Input(q, false)] + b)[1..] == b;
      RunIgnoresValid(p, s, b, false);
      assert Emitted(Run(p, s, [Input(q, false)] + b)) == Emitted([s0] + Run(p, s, b));
      assert ([s0] + Run(p, s, b))[1..] == Run(p, s, b);
    } else {
      var s1 := Step(p, s, a[0]);
      assert (a + [Input(q, false)] + b)[0] == a[0];
      assert (a + [Input(q, false)] + b)[1..] == a[1..] + [Input(q, false)] + b;
      assert (a + b)[0] == a[0];
      assert (a + b)[1..] == a[1..] + b;
      PauseInvisible(p, s1, a[1..], q, b);
      var r1 := Run(p, s1, a[1..] + [Input(q, false)] + b);
      var r2 := Run(p, s1, a[1..] + b);
      assert ([s1] + r1)[1..] == r1;
      assert ([s1] + r2)[1..] == r2;
    }
  }

  // ---------------------------------------------------------------------------------
  // The source as written against the corrected unit

  /** When the narrow `x2` register is nevertheless wide enough for x (ImageConv's 320x480:
      both 9 bits), the source's read address is the intended one. */
  lemma X2AsWrittenAgrees(p: Params, x: nat)
    requires ValidParams(p) && x < p.w && BitsFor(p.w) <= BitsFor(p.h)
    ensures X2AsWritten(p, x) == X2(p, x)
  {
    Pow2Monotone(BitsFor(p.w), BitsFor(p.h));
  }

  /** On ticks the unit processes, and with a wide enough `x2`, the source as written and
      the corrected unit agree exactly (`Conv3Frame.FeedAgrees` carries this over a whole
      frame). */
  lemma AsWrittenAgreesOnActiveTicks(p: Params, s: State, i: Input)
    requires ValidParams(p) && s.x < p.w && BitsFor(p.w) <= BitsFor(p.h) && Active(s, i)
    ensures StepAsWritten(p, s, i) == Step(p, s, i)
  {
    X2AsWrittenAgrees(p, s.x);
  }

  /** The unit's default geometry w = 320, h = 240 gives `x2` only bits_for(240) = 8 bits:
      at x = 254 the source reads address 0 where column 256 is needed. */
  lemma X2AsWrittenWrapsEarly()
    ensures var p := Params([0, 0, 0, 0, 1, 0, 0, 0, 0], 0, 320, 240, 8);
            X2(p, 254) == 256 && X2AsWritten(p, 254) == 0
  {
    var p := Params([0, 0, 0, 0, 1, 0, 0, 0, 0], 0, 320, 240, 8);
    assert BitsFor(240) == 8;
    assert Pow2(8) == 256;
  }

  /** With the example's kernel the weighted sum is the top-right tap. */
  lemma DotTopRight(v: seq<int>)
    requires |v| == 9
    ensures Dot(GapExampleParams().k, v) == v[2]
  {
    var k := GapExampleParams().k;
    assert Dot(k[3..], v[3..]) == 0 by {
      assert Dot(k[8..], v[8..]) == 0;
      assert Dot(k[7..], v[7..]) == 0;
      assert Dot(k[6..], v[6..]) == 0;
      assert Dot(k[5..], v[5..]) == 0;
      assert Dot(k[4..], v[4..]) == 0;
    }
    assert Dot(k[2..], v[2..]) == v[2];
    assert Dot(k[1..], v[1..]) == v[2];
  }

  /** A reachable state at intake (1,1) of a 4x2 frame whose first row is 10 11 12 13 and
      whose next pixel is 20, with a kernel that picks the top-right tap. */
  function GapExampleParams(): (p: Params)
    ensures ValidParams(p)
  {
    Params([0, 0, 1, 0, 0, 0, 0, 0, 0], 0, 4, 2, 8)
  }

  function GapExampleState(): State
  {
    State(1, 1, true, false, Window(10, 10, 11, 10, 10, 11, 20, 20), 11, 11, 12, 12,
          [10, 11, 12, 13], [20, 11, 12, 13], 0, false, 3, 1)
  }

  /** As written, one idle tick before the next two pixels changes the pixel emitted for
      coordinate (1,0) from 12 (column 2 of row 0, the top-right neighbour) to 13: during
      the idle tick the read port, always enabled, re-reads two columns ahead of the
      unchanged x. The corrected unit emits 12 either way. */
  lemma GapChangesOutputAsWritten()
    ensures var p := GapExampleParams();
            var s := GapExampleState();
            var a := StepAsWritten(p, StepAsWritten(p, s, Input(21, true)), Input(22, true));
            var t0 := StepAsWritten(p, s, Input(0, false));
            var b := StepAsWritten(p, StepAsWritten(p, t0, Input(21, true)), Input(22, true));
            && a.valid && a.ox == 1 && a.oy == 0 && a.op == 12
            && b.valid && b.ox == 1 && b.oy == 0 && b.op == 13
  {
    GapContinuousAsWritten();
    GapPausedAsWritten();
  }

  /** The two pixels arriving back to back, as written: (1,0) carries 12. */
  lemma GapContinuousAsWritten()
    ensures var p := GapExampleParams();
            var a := StepAsWritten(p, StepAsWritten(p, GapExampleState(), Input(21, true)), Input(22, true));
            a.valid && a.ox == 1 && a.oy == 0 && a.op == 12
  {
    var p := GapExampleParams();
    var s := GapExampleState();
    assert BitsFor(2) == 2;
    assert BitsFor(4) == 3;
    assert X2AsWritten(p, 1) == 3;
    var a1 := StepAsWritten(p, s, Input(21, true));
    assert a1.win.p02 == 12 && a1.x == 2 && a1.y == 1 && a1.ox == 0 && a1.oy == 0;
    var a := StepAsWritten(p, a1, Input(22, true));
    DotTopRight(Taps(a1.win, P22(p, a1, 22)));
    assert a.op == OutPixel(p, 12);
  }

  /** The same two pixels after one idle tick, as written: (1,0) carries 13. */
  lemma GapPausedAsWritten()
    ensures var p := GapExampleParams();
            var t0 := StepAsWritten(p, GapExampleState(), Input(0, false));
            var b := StepAsWritten(p, StepAsWritten(p, t0, Input(21, true)), Input(22, true));
            b.valid && b.ox == 1 && b.oy == 0 && b.op == 13
  {
    var p := GapExampleParams();
    var s := GapExampleState();
    assert BitsFor(2) == 2;
    assert BitsFor(4) == 3;
    assert X2AsWritten(p, 1) == 3;
    var t0 := StepAsWritten(p, s, Input(0, false));
    assert t0 == s.(rd0 := 13, rd1 := 13);
    var b1 := StepAsWritten(p, t0, Input(21, true));
    assert b1.win.p02 == 13 && b1.x == 2 && b1.y == 1 && b1.ox == 0 && b1.oy == 0;
    var b := StepAsWritten(p, b1, Input(22, true));
    DotTopRight(Taps(b1.win, P22(p, b1, 22)));
    assert b.op == OutPixel(p, 13);
  }

  lemma GapInvisibleCorrected()
    ensures var p := GapExampleParams();
            var s := GapExampleState();
            var a := Step(p, Step(p, s, Input(21, true)), Input(22, true));
            var t0 := Step(p, s, Input(0, false));
            var b := Step(p, Step(p, t0, Input(21, true)), Input(22, true));
            && a.valid && a.ox == 1 && a.oy == 0 && a.op == 12
            && b == a
  {
    var p := GapExampleParams();
    var s := GapExampleState();
    assert BitsFor(4) == 3;
    var a1 := Step(p, s, Input(21, true));
    assert a1.win.p02 == 12 && a1.x == 2 && a1.y == 1 && a1.ox == 0 && a1.oy == 0;
    var a := Step(p, a1, Input(22, true));
    DotTopRight(Taps(a1.win, P22(p, a1, 22)));
    assert a.valid && a.ox == 1 && a.oy == 0 && a.op == 12;
    var t0 := Step(p, s, Input(0, false));
    assert t0 == s.(valid := false);
    StepIgnoresValid(p, s, Input(21, true), false);
  }
}
