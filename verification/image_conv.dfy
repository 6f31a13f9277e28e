/** The multi-kernel filter `ImageConv` (image_conv/image_conv.py): one RGB565 pixel
    stream broadcast to twelve `Conv3` units (four kernels times three colour channels),
    an output multiplexer driven by `sel`, and coordinate mirroring. */
module ImageConv {
  import opened Bits
  import opened Conv3
  import opened Conv3Frame
  import Conv3Kernels

  /** The four kernels, in the order `sel` numbers them (identity is the default). */
  datatype Filter = Blur | Sharpen | Edge | Identity

  /** The three colour channels of RGB565. */
  datatype Channel = Red | Green | Blue

  function Kernel(f: Filter): (k: seq<int>)
    ensures |k| == 9
  {
    match f
    case Blur => [1, 2, 1, 2, 4, 2, 1, 2, 1]
    case Sharpen => [0, -1, 0, -1, 5, -1, 0, -1, 0]
    case Edge => [-1, -1, -1, -1, 8, -1, -1, -1, -1]
    case Identity => Conv3Kernels.IdentityKernel()
  }

  /** The right shift of each kernel: only the Gaussian blur is normalised, by 2^4. */
  function Shift(f: Filter): nat
  {
    if f == Blur then 4 else 0
  }

  /** Bits per channel: 5 for red and blue, 6 for green. */
  function ChannelWidth(c: Channel): nat
  {
    if c == Green then 6 else 5
  }

  /** The frame resolution (defaults 320 x 480). */
  datatype Config = Config(resX: nat, resY: nat)

  predicate ValidConfig(cfg: Config)
  {
    cfg.resX >= 3 && cfg.resY >= 2
  }

  /** The construction parameters of the unit for filter f on channel c. */
  function UnitParams(cfg: Config, f: Filter, c: Channel): (p: Params)
    requires ValidConfig(cfg)
    ensures ValidParams(p) && p.w == cfg.resX && p.h == cfg.resY
  {
    Params(Kernel(f), Shift(f), cfg.resX, cfg.resY, ChannelWidth(c))
  }

  /** The three units of one kernel. */
  datatype Bank = Bank(r: State, g: State, b: State)

  /** The twelve units. */
  datatype ImState = ImState(blur: Bank, edge: Bank, sharp: Bank, ident: Bank)

  function BankOf(s: ImState, f: Filter): Bank
  {
    match f
    case Blur => s.blur
    case Sharpen => s.sharp
    case Edge => s.edge
    case Identity => s.ident
  }

  function ChannelOf(b: Bank, c: Channel): State
  {
    match c
    case Red => b.r
    case Green => b.g
    case Blue => b.b
  }

  /** The unit for filter f on channel c. */
  function UnitOf(s: ImState, f: Filter, c: Channel): State
  {
    ChannelOf(BankOf(s, f), c)
  }

  /** One tick's stream inputs `i_valid`, `i_r`, `i_g`, `i_b`. */
  datatype PixelIn = PixelIn(valid: bool, r: int, g: int, b: int)

  /** The combinational controls `sel`, `x_flip` and `y_flip`, read only by the outputs. */
  datatype Controls = Controls(sel: Nibble, xFlip: bool, yFlip: bool)

  /** What each unit sees: its own channel of the pixel and the shared `i_valid`. */
  function ChannelIn(px: PixelIn, c: Channel): (i: Input)
    ensures i.valid == px.valid
  {
    match c
    case Red => Input(px.r, px.valid)
    case Green => Input(px.g, px.valid)
    case Blue => Input(px.b, px.valid)
  }

  function ResetBank(cfg: Config, f: Filter): Bank
    requires ValidConfig(cfg)
  {
    Bank(Reset(UnitParams(cfg, f, Red)), Reset(UnitParams(cfg, f, Green)), Reset(UnitParams(cfg, f, Blue)))
  }

  function ImReset(cfg: Config): ImState
    requires ValidConfig(cfg)
  {
    ImState(ResetBank(cfg, Blur), ResetBank(cfg, Edge), ResetBank(cfg, Sharpen), ResetBank(cfg, Identity))
  }

  function StepBank(cfg: Config, f: Filter, b: Bank, px: PixelIn): Bank
    requires ValidConfig(cfg)
  {
    Bank(Step(UnitParams(cfg, f, Red), b.r, ChannelIn(px, Red)),
         Step(UnitParams(cfg, f, Green), b.g, ChannelIn(px, Green)),
         Step(UnitParams(cfg, f, Blue), b.b, ChannelIn(px, Blue)))
  }

  /** One clock edge of all twelve units. */
  function ImStep(cfg: Config, s: ImState, px: PixelIn): ImState
    requires ValidConfig(cfg)
  {
    ImState(StepBank(cfg, Blur, s.blur, px), StepBank(cfg, Edge, s.edge, px),
            StepBank(cfg, Sharpen, s.sharp, px), StepBank(cfg, Identity, s.ident, px))
  }

  /** The broadcast: every unit takes one step of `Conv3` on its own channel of the pixel
      and the common `i_valid`; nothing else reaches it. */
  lemma UnitStep(cfg: Config, s: ImState, px: PixelIn, f: Filter, c: Channel)
    requires ValidConfig(cfg)
    ensures UnitOf(ImStep(cfg, s, px), f, c) == Step(UnitParams(cfg, f, c), UnitOf(s, f, c), ChannelIn(px, c))
  {
  }

  /** Power-on puts every unit in its own reset state. */
  lemma UnitReset(cfg: Config, f: Filter, c: Channel)
    requires ValidConfig(cfg)
    ensures UnitOf(ImReset(cfg), f, c) == Reset(UnitParams(cfg, f, c))
  {
  }

  // ---------------------------------------------------------------------------------
  // Lockstep

  /** Two units agree on every control register: intake counters, latches and the output
      valid flag and coordinates. */
  predicate SameControl(a: State, b: State)
  {
    a.x == b.x && a.y == b.y && a.started == b.started && a.stall == b.stall
    && a.valid == b.valid && a.ox == b.ox && a.oy == b.oy
  }

  /** A unit's control registers evolve from the frame size and `i_valid` alone: two units
      of the same frame size that agree on control and see the same `i_valid` still agree
      after the tick, whatever their kernels, shifts, widths and pixels. */
  lemma StepSameControl(p: Params, q: Params, s: State, t: State, i: Input, j: Input)
    requires ValidParams(p) && ValidParams(q) && p.w == q.w && p.h == q.h
    requires SameControl(s, t) && i.valid == j.valid
    ensures SameControl(Step(p, s, i), Step(q, t, j))
  {
  }

  /** Every unit agrees on control with `ident_r`, the unit the outputs read. */
  predicate Lockstep(s: ImState)
  {
    forall f: Filter, c: Channel :: SameControl(UnitOf(s, f, c), s.ident.r)
  }

  /** What every reachable state satisfies: lockstep, each unit's own control invariant,
      and each output pixel register within its channel's width. */
  ghost predicate ImInv(cfg: Config, s: ImState)
    requires ValidConfig(cfg)
  {
    && Lockstep(s)
    && (forall f: Filter, c: Channel ::
          ControlInv(UnitParams(cfg, f, c), UnitOf(s, f, c))
          && UnitOf(s, f, c).op < Pow2(ChannelWidth(c)))
  }

  lemma ImResetInv(cfg: Config)
    requires ValidConfig(cfg)
    ensures ImInv(cfg, ImReset(cfg))
  {
    var s := ImReset(cfg);
    forall f: Filter, c: Channel
      ensures SameControl(UnitOf(s, f, c), s.ident.r)
      ensures ControlInv(UnitParams(cfg, f, c), UnitOf(s, f, c))
      ensures UnitOf(s, f, c).op < Pow2(ChannelWidth(c))
    {
      UnitReset(cfg, f, c);
      UnitReset(cfg, Identity, Red);
      ResetControl(UnitParams(cfg, f, c));
    }
  }

  /** An output pixel register only ever holds a kernel result wrapped to the unit's width. */
  lemma StepOpFits(p: Params, s: State, i: Input)
    requires ValidParams(p) && s.op < Pow2(p.dw)
    ensures Step(p, s, i).op < Pow2(p.dw)
  {
  }

  lemma ImStepInv(cfg: Config, s: ImState, px: PixelIn)
    requires ValidConfig(cfg) && ImInv(cfg, s)
    ensures ImInv(cfg, ImStep(cfg, s, px))
  {
    var s' := ImStep(cfg, s, px);
    forall f: Filter, c: Channel
      ensures SameControl(UnitOf(s', f, c), s'.ident.r)
      ensures ControlInv(UnitParams(cfg, f, c), UnitOf(s', f, c))
      ensures UnitOf(s', f, c).op < Pow2(ChannelWidth(c))
    {
      var p := UnitParams(cfg, f, c);
      UnitStep(cfg, s, px, f, c);
      UnitStep(cfg, s, px, Identity, Red);
      StepSameControl(p, UnitParams(cfg, Identity, Red), UnitOf(s, f, c), s.ident.r,
                      ChannelIn(px, c), ChannelIn(px, Red));
      StepControl(p, UnitOf(s, f, c), ChannelIn(px, c));
      StepOpFits(p, UnitOf(s, f, c), ChannelIn(px, c));
    }
  }

  // ---------------------------------------------------------------------------------
  // Outputs

  /** The output multiplexer: 1 blur, 2 sharpen, 3 edge, anything else identity. */
  function Select(sel: Nibble): Filter
  {
    if sel == 1 then Blur else if sel == 2 then Sharpen else if sel == 3 then Edge else Identity
  }

  /** The mirrored coordinate `res-1-v` when `flip`, else `v`, assigned to a `width`-bit
      output. */
  function Flip(flip: bool, res: nat, v: nat, width: nat): nat
  {
    if flip then Trunc(res - 1 - v, width) else Trunc(v, width)
  }

  /** The combinational outputs during a tick. */
  datatype ImOutput = ImOutput(stall: bool, valid: bool, x: nat, y: nat, r: nat, g: nat, b: nat)

  /** `o_stall`, the coordinates and `o_valid` come from `ident_r` (the last one from its
      `i_valid`, i.e. the stream input); the colour is the selected kernel's bank, each
      channel in its own width. */
  function Outputs(cfg: Config, s: ImState, px: PixelIn, ctl: Controls): ImOutput
  {
    var id := s.ident.r;
    var bank := BankOf(s, Select(ctl.sel));
    ImOutput(id.stall, ChannelIn(px, Red).valid,
             Flip(ctl.xFlip, cfg.resX, id.ox, 10), Flip(ctl.yFlip, cfg.resY, id.oy, 9),
             Trunc(bank.r.op, ChannelWidth(Red)), Trunc(bank.g.op, ChannelWidth(Green)),
             Trunc(bank.b.op, ChannelWidth(Blue)))
  }

  /** Mirroring stays inside the frame and undoes itself, provided the frame fits the
      output register. */
  lemma FlipInvolution(res: nat, v: nat, width: nat)
    requires v < res <= Pow2(width)
    ensures Flip(true, res, v, width) == res - 1 - v < res
    ensures Flip(true, res, Flip(true, res, v, width), width) == v
    ensures Flip(false, res, v, width) == v
  {
  }

  /** In every reachable state the colour is the selected kernel's output on all three
      channels together, each at its full width: no channel is cut by the output port. */
  lemma OutputColour(cfg: Config, s: ImState, px: PixelIn, ctl: Controls)
    requires ValidConfig(cfg) && ImInv(cfg, s)
    ensures var o := Outputs(cfg, s, px, ctl);
            && o.r == UnitOf(s, Select(ctl.sel), Red).op
            && o.g == UnitOf(s, Select(ctl.sel), Green).op
            && o.b == UnitOf(s, Select(ctl.sel), Blue).op
  {
    var g := Select(ctl.sel);
    assert UnitOf(s, g, Red).op < Pow2(ChannelWidth(Red));
    assert UnitOf(s, g, Green).op < Pow2(ChannelWidth(Green));
    assert UnitOf(s, g, Blue).op < Pow2(ChannelWidth(Blue));
  }

  /** In every reachable state the stall and the coordinates can be read off any of the
      twelve units, as they all agree; the coordinates are the unit's output label,
      mirrored when asked, and stay inside the frame; and `o_valid` is the stream's
      `i_valid`, not a unit's output valid. */
  lemma OutputPosition(cfg: Config, s: ImState, px: PixelIn, ctl: Controls, f: Filter, c: Channel)
    requires ValidConfig(cfg) && cfg.resX <= Pow2(10) && cfg.resY <= Pow2(9) && ImInv(cfg, s)
    ensures var o := Outputs(cfg, s, px, ctl);
            var u := UnitOf(s, f, c);
            && o.stall == u.stall
            && o.x == (if ctl.xFlip then cfg.resX - 1 - u.ox else u.ox)
            && o.y == (if ctl.yFlip then cfg.resY - 1 - u.oy else u.oy)
            && o.x < cfg.resX && o.y < cfg.resY
            && o.valid == px.valid
  {
    var id := s.ident.r;
    assert SameControl(UnitOf(s, f, c), id);
    assert ControlInv(UnitParams(cfg, Identity, Red), UnitOf(s, Identity, Red));
    FlipInvolution(cfg.resX, id.ox, 10);
    FlipInvolution(cfg.resY, id.oy, 9);
  }

  /** As written, `o_valid` is high on the very first tick of a frame, while no unit has
      produced a pixel yet (its registered output still holds the reset value 0). */
  lemma ValidBeforeFirstPixel(cfg: Config, px: PixelIn, ctl: Controls)
    requires ValidConfig(cfg) && px.valid
    ensures Outputs(cfg, ImReset(cfg), px, ctl).valid
    ensures !ImReset(cfg).ident.r.valid && !ImStep(cfg, ImReset(cfg), px).ident.r.valid
  {
    UnitReset(cfg, Identity, Red);
    UnitStep(cfg, ImReset(cfg), px, Identity, Red);
  }

  // ---------------------------------------------------------------------------------
  // Kernels

  /** Each kernel's weight sum: 16 for blur, 1 for sharpen and identity, 0 for edge. */
  function Gain(f: Filter): int
  {
    match f
    case Blur => 16
    case Sharpen => 1
    case Edge => 0
    case Identity => 1
  }

  /** The kernel tables sum to their gains; the blur's gain is 2^4, which its shift
      divides back out, and the others have no shift. */
  lemma KernelGains(f: Filter)
    ensures Conv3Kernels.KernelSum(Kernel(f)) == Gain(f)
    ensures f != Edge ==> Gain(f) == Pow2(Shift(f))
    ensures f == Edge ==> Shift(f) == 0
  {
    Conv3Kernels.KernelSumNine(Kernel(f));
    assert Pow2(4) == 16;
  }

  /** A constant v that fits the channel, times the kernel's sum, comes out of the
      shift-and-wrap as v itself, or as 0 for edge detection. */
  lemma ConstantGain(cfg: Config, f: Filter, c: Channel, v: int)
    requires ValidConfig(cfg) && 0 <= v < Pow2(ChannelWidth(c))
    ensures OutPixel(UnitParams(cfg, f, c), v * Conv3Kernels.KernelSum(Kernel(f)))
            == (if f == Edge then 0 else v)
  {
    var p := UnitParams(cfg, f, c);
    var g := Gain(f);
    var sum := v * Conv3Kernels.KernelSum(Kernel(f));
    assert sum == v * g && (f != Edge ==> g == Pow2(p.sh)) && (f == Edge ==> p.sh == 0) by {
      KernelGains(f);
    }
    if f == Edge {
      assert sum == 0;
    } else {
      assert sum / g == v;
    }
  }

  /** On a frame of one constant value that fits the channel, identity, sharpen and blur
      give back that value everywhere and edge detection gives 0 everywhere. */
  lemma ConstantFrames(cfg: Config, f: Filter, c: Channel, img: seq<seq<int>>, v: int)
    requires ValidConfig(cfg) && ImageOk(UnitParams(cfg, f, c), img)
    requires 0 <= v < Pow2(ChannelWidth(c))
    requires forall y, x :: 0 <= y < cfg.resY && 0 <= x < cfg.resX ==> img[y][x] == v
    ensures forall y, x :: 0 <= y < cfg.resY && 0 <= x < cfg.resX ==>
              Convolved(UnitParams(cfg, f, c), img)[y][x] == (if f == Edge then 0 else v)
  {
    Conv3Kernels.ConstantFrame(UnitParams(cfg, f, c), img, v);
    ConstantGain(cfg, f, c, v);
  }

  // ---------------------------------------------------------------------------------
  // Frames

  /** One RGB565 frame as three channel planes. */
  datatype Rgb = Rgb(r: seq<seq<int>>, g: seq<seq<int>>, b: seq<seq<int>>)

  function Plane(img: Rgb, c: Channel): seq<seq<int>>
  {
    match c
    case Red => img.r
    case Green => img.g
    case Blue => img.b
  }

  /** Three planes of the configured size. */
  ghost predicate RgbOk(cfg: Config, img: Rgb)
  {
    && |img.r| == cfg.resY && (forall j :: 0 <= j < |img.r| ==> |img.r[j]| == cfg.resX)
    && |img.g| == cfg.resY && (forall j :: 0 <= j < |img.g| ==> |img.g[j]| == cfg.resX)
    && |img.b| == cfg.resY && (forall j :: 0 <= j < |img.b| ==> |img.b[j]| == cfg.resX)
  }

  lemma PlaneOk(cfg: Config, img: Rgb, f: Filter, c: Channel)
    requires ValidConfig(cfg) && RgbOk(cfg, img)
    ensures ImageOk(UnitParams(cfg, f, c), Plane(img, c))
  {
  }

  /** The source of a frame for the whole filter, the counterpart of `FeedInput`: the
      image in raster order at `ident_r`'s intake position, then the flush inputs. */
  function ImFeedInput(cfg: Config, img: Rgb, tail: seq<PixelIn>, s: ImState): PixelIn
    requires ValidConfig(cfg) && RgbOk(cfg, img) && |tail| == cfg.resX + 1
  {
    var x, y := s.ident.r.x, s.ident.r.y;
    if y < cfg.resY && x < cfg.resX then PixelIn(true, img.r[y][x], img.g[y][x], img.b[y][x])
    else if y == cfg.resY && x < cfg.resX then tail[x]
    else tail[cfg.resX]
  }

  /** n ticks of the filter fed by that source. */
  function ImFeed(cfg: Config, img: Rgb, tail: seq<PixelIn>, s: ImState, n: nat): (r: seq<ImState>)
    requires ValidConfig(cfg) && RgbOk(cfg, img) && |tail| == cfg.resX + 1
    ensures |r| == n
    decreases n
  {
    if n == 0 then []
    else
      var s' := ImStep(cfg, s, ImFeedInput(cfg, img, tail, s));
      [s'] + ImFeed(cfg, img, tail, s', n - 1)
  }

  /** The states of one unit along a run of the filter. */
  function Project(run: seq<ImState>, f: Filter, c: Channel): (r: seq<State>)
    ensures |r| == |run|
  {
    if |run| == 0 then [] else [UnitOf(run[0], f, c)] + Project(run[1..], f, c)
  }

  /** One channel of the flush inputs. */
  function ChannelTail(tail: seq<PixelIn>, c: Channel): (r: seq<Input>)
    ensures |r| == |tail|
  {
    seq(|tail|, k requires 0 <= k < |tail| => ChannelIn(tail[k], c))
  }

  /** A unit in lockstep with `ident_r` is fed exactly what it would be fed on its own. */
  lemma FeedInputAgrees(cfg: Config, img: Rgb, tail: seq<PixelIn>, s: ImState, f: Filter, c: Channel)
    requires ValidConfig(cfg) && RgbOk(cfg, img) && |tail| == cfg.resX + 1
    requires SameControl(UnitOf(s, f, c), s.ident.r)
    ensures ImageOk(UnitParams(cfg, f, c), Plane(img, c))
    ensures FeedInput(UnitParams(cfg, f, c), Plane(img, c), ChannelTail(tail, c), UnitOf(s, f, c))
            == ChannelIn(ImFeedInput(cfg, img, tail, s), c)
  {
    PlaneOk(cfg, img, f, c);
  }

  /** Feeding the filter a frame feeds every unit its channel of that frame: the unit's
      states along the filter's run are the states of `Conv3` fed the channel plane on its
      own. */
  lemma {:induction false} UnitFeed(cfg: Config, img: Rgb, tail: seq<PixelIn>, s: ImState, n: nat,
                                    f: Filter, c: Channel)
    requires ValidConfig(cfg) && RgbOk(cfg, img) && |tail| == cfg.resX + 1
    requires SameControl(UnitOf(s, f, c), s.ident.r)
    ensures ImageOk(UnitParams(cfg, f, c), Plane(img, c))
    ensures Project(ImFeed(cfg, img, tail, s, n), f, c)
            == Feed(UnitParams(cfg, f, c), Plane(img, c), ChannelTail(tail, c), UnitOf(s, f, c), n)
    decreases n
  {
    PlaneOk(cfg, img, f, c);
    if n > 0 {
      var px := ImFeedInput(cfg, img, tail, s);
      var s' := ImStep(cfg, s, px);
      var p := UnitParams(cfg, f, c);
      FeedInputAgrees(cfg, img, tail, s, f, c);
      UnitStep(cfg, s, px, f, c);
      UnitStep(cfg, s, px, Identity, Red);
      StepSameControl(p, UnitParams(cfg, Identity, Red), UnitOf(s, f, c), s.ident.r,
                      ChannelIn(px, c), ChannelIn(px, Red));
      UnitFeed(cfg, img, tail, s', n - 1, f, c);
      var run := ImFeed(cfg, img, tail, s, n);
      assert run == [s'] + ImFeed(cfg, img, tail, s', n - 1);
      assert run[1..] == ImFeed(cfg, img, tail, s', n - 1);
    }
  }

  /** A whole frame from the frame start: every one of the twelve units emits, in raster
      order, its kernel's convolution of its channel of the frame, each pixel labelled with
      its coordinates. When the frame is no wider than it is tall (the default 320 x 480),
      each unit goes through the very states of the unit as written, so the same holds of
      the source's units. */
  lemma ImageFrame(cfg: Config, img: Rgb, tail: seq<PixelIn>, s: ImState, f: Filter, c: Channel)
    requires ValidConfig(cfg) && RgbOk(cfg, img) && |tail| == cfg.resX + 1
    requires ImInv(cfg, s) && s.ident.r.x == 0 && s.ident.r.y == 0
    ensures var p := UnitParams(cfg, f, c);
            && ImageOk(p, Plane(img, c))
            && Emitted(Project(ImFeed(cfg, img, tail, s, TicksLeft(p, 0, 0)), f, c))
               == Raster(p, Convolved(p, Plane(img, c)), 0, 0)
    ensures var p := UnitParams(cfg, f, c);
            cfg.resX <= cfg.resY ==>
              Project(ImFeed(cfg, img, tail, s, TicksLeft(p, 0, 0)), f, c)
              == FeedAsWritten(p, Plane(img, c), ChannelTail(tail, c), UnitOf(s, f, c), TicksLeft(p, 0, 0))
  {
    var p := UnitParams(cfg, f, c);
    assert SameControl(UnitOf(s, f, c), s.ident.r);
    assert ControlInv(p, UnitOf(s, f, c));
    UnitFeed(cfg, img, tail, s, TicksLeft(p, 0, 0), f, c);
    FrameTheorem(p, Plane(img, c), ChannelTail(tail, c), UnitOf(s, f, c));
    if cfg.resX <= cfg.resY {
      BitsForMonotone(cfg.resX, cfg.resY);
      FeedAgrees(p, Plane(img, c), ChannelTail(tail, c), UnitOf(s, f, c), TicksLeft(p, 0, 0));
    }
  }
}
