/** What one frame through `Conv3` (conv/conv3.py) produces: fed a w x h image in raster
    order, one pixel per tick, and then any w+1 inputs while it flushes, the unit emits
    exactly the w*h pixels of the edge-replicated convolution of the image, labelled with
    their coordinates in raster order, and comes back to the frame-start state. */
module Conv3Frame {
  import opened Bits
  import opened Conv3

  /** An image of h rows of w pixels. */
  ghost predicate ImageOk(p: Params, img: seq<seq<int>>)
    requires ValidParams(p)
  {
    |img| == p.h && forall j :: 0 <= j < |img| ==> |img[j]| == p.w
  }

  /** The nearest in-range index: edge replication. */
  function Clamp(v: int, n: nat): (r: nat)
    requires n >= 1
    ensures r < n
    ensures 0 <= v < n ==> r == v
  {
    if v < 0 then 0 else if v >= n then n - 1 else v
  }

  /** The pixel at column cx, row cy of the image extended by replicating its edges. */
  function Px(p: Params, img: seq<seq<int>>, cx: int, cy: int): int
    requires ValidParams(p) && ImageOk(p, img)
  {
    img[Clamp(cy, p.h)][Clamp(cx, p.w)]
  }

  /** The eight registered cells of the neighbourhood of (cx, cy). */
  function WindowAt(p: Params, img: seq<seq<int>>, cx: int, cy: int): Window
    requires ValidParams(p) && ImageOk(p, img)
  {
    Window(Px(p, img, cx - 1, cy - 1), Px(p, img, cx, cy - 1), Px(p, img, cx + 1, cy - 1),
           Px(p, img, cx - 1, cy), Px(p, img, cx, cy), Px(p, img, cx + 1, cy),
           Px(p, img, cx - 1, cy + 1), Px(p, img, cx, cy + 1))
  }

  /** The 3x3 neighbourhood of (cx, cy), row-major, with edge replication. */
  function Neighbourhood(p: Params, img: seq<seq<int>>, cx: int, cy: int): (n: seq<int>)
    requires ValidParams(p) && ImageOk(p, img)
    ensures |n| == 9
  {
    [Px(p, img, cx - 1, cy - 1), Px(p, img, cx, cy - 1), Px(p, img, cx + 1, cy - 1),
     Px(p, img, cx - 1, cy), Px(p, img, cx, cy), Px(p, img, cx + 1, cy),
     Px(p, img, cx - 1, cy + 1), Px(p, img, cx, cy + 1), Px(p, img, cx + 1, cy + 1)]
  }

  /** The reference result: the kernel applied to the edge-replicated neighbourhood,
      floor-shifted by sh and wrapped to dw bits. */
  function ConvAt(p: Params, img: seq<seq<int>>, cx: int, cy: int): nat
    requires ValidParams(p) && ImageOk(p, img)
  {
    OutPixel(p, Dot(p.k, Neighbourhood(p, img, cx, cy)))
  }

  /** An image of h rows of w output pixels. */
  predicate Shaped(p: Params, out: seq<seq<nat>>)
  {
    |out| == p.h && forall j :: 0 <= j < |out| ==> |out[j]| == p.w
  }

  /** The reference output image: the convolution at every pixel. */
  function Convolved(p: Params, img: seq<seq<int>>): (out: seq<seq<nat>>)
    requires ValidParams(p) && ImageOk(p, img)
    ensures Shaped(p, out)
    ensures forall y, x :: 0 <= y < p.h && 0 <= x < p.w ==> out[y][x] == ConvAt(p, img, x, y)
  {
    seq(p.h, y requires 0 <= y < p.h => seq(p.w, x requires 0 <= x < p.w => ConvAt(p, img, x, y)))
  }

  /** The raster scan of an output image from (cx, cy) to (w-1, h-1): each pixel with its
      coordinates, in row-major order. */
  function Raster(p: Params, out: seq<seq<nat>>, cx: nat, cy: nat): seq<Pixel>
    requires Shaped(p, out) && cx < p.w
    decreases p.h - cy, p.w - cx
  {
    if cy >= p.h then []
    else [Pixel(cx, cy, out[cy][cx])]
         + (if cx == p.w - 1 then Raster(p, out, 0, cy + 1) else Raster(p, out, cx + 1, cy))
  }

  /** The number of pixels in `rows` full rows. */
  function Cells(p: Params, rows: nat): nat
  {
    if rows == 0 then 0 else p.w + Cells(p, rows - 1)
  }

  lemma {:induction false} CellsValue(p: Params, rows: nat)
    ensures Cells(p, rows) == rows * p.w
  {
    if rows > 0 {
      CellsValue(p, rows - 1);
    }
  }

  /** The raster from (cx, cy) holds the rest of row cy and every row below it. */
  lemma {:induction false} RasterLength(p: Params, out: seq<seq<nat>>, cx: nat, cy: nat)
    requires Shaped(p, out) && cx < p.w && cy < p.h
    ensures |Raster(p, out, cx, cy)| + cx == Cells(p, p.h - cy)
    decreases p.h - cy, p.w - cx
  {
    var r := Raster(p, out, cx, cy);
    if cx == p.w - 1 {
      assert |r| == 1 + |Raster(p, out, 0, cy + 1)|;
      if cy + 1 < p.h {
        RasterLength(p, out, 0, cy + 1);
      }
    } else {
      assert |r| == 1 + |Raster(p, out, cx + 1, cy)|;
      RasterLength(p, out, cx + 1, cy);
    }
  }

  /** The input a raster-order source presents at each tick: the image pixel at the
      unit's intake position with `i_valid` high, and during the w+1 flush ticks the
      matching entry of `tail` (any pixel, valid or not). */
  function FeedInput(p: Params, img: seq<seq<int>>, tail: seq<Input>, s: State): Input
    requires ValidParams(p) && ImageOk(p, img) && |tail| == p.w + 1
  {
    if s.y < p.h && s.x < p.w then Input(img[s.y][s.x], true)
    else if s.y == p.h && s.x < p.w then tail[s.x]
    else tail[p.w]
  }

  /** n ticks of the unit fed by that source. */
  function Feed(p: Params, img: seq<seq<int>>, tail: seq<Input>, s: State, n: nat): (r: seq<State>)
    requires ValidParams(p) && ImageOk(p, img) && |tail| == p.w + 1
    ensures |r| == n
    decreases n
  {
    if n == 0 then []
    else
      var s' := Step(p, s, FeedInput(p, img, tail, s));
      [s'] + Feed(p, img, tail, s', n - 1)
  }

  /** Ticks from intake position (x, y) to the end of the frame. */
  function TicksLeft(p: Params, x: nat, y: nat): nat
    requires ValidParams(p) && x < p.w && y <= p.h + 1
    decreases p.h + 1 - y, p.w - x
  {
    if y == p.h + 1 then 1
    else if x == p.w - 1 then 1 + TicksLeft(p, 0, y + 1)
    else 1 + TicksLeft(p, x + 1, y)
  }

  /** A frame, flush included, takes (h+1)*w + 1 ticks. */
  lemma {:induction false} TicksLeftValue(p: Params, x: nat, y: nat)
    requires ValidParams(p) && x < p.w && y <= p.h
    ensures TicksLeft(p, x, y) == (p.h + 1 - y) * p.w - x + 1
    decreases p.h + 1 - y, p.w - x
  {
    if x == p.w - 1 {
      if y < p.h {
        TicksLeftValue(p, 0, y + 1);
      }
    } else {
      TicksLeftValue(p, x + 1, y);
    }
  }

  // ---------------------------------------------------------------------------------
  // The data invariant

  /** Next column, wrapping at w: where the read ports of the last tick pointed. */
  function NextCol(p: Params, x: nat): nat
    requires ValidParams(p)
  {
    if x == p.w - 1 then 0 else x + 1
  }

  /** Which image row line buffer 0 holds at address a when the intake is at (x, y): row 0
      while rows 0 and 1 come in, afterwards the row two above the intake, already
      advanced to the row above for the columns passed in this row. */
  function Row0(p: Params, a: nat, x: nat, y: nat): nat
  {
    if y <= 1 then 0 else if y < p.h && a < x then y - 1 else y - 2
  }

  /** Which image row line buffer 1 holds at address a: the intake row for the columns
      passed in this row, else the row above. */
  function Row1(p: Params, a: nat, x: nat, y: nat): nat
  {
    if a < x && y < p.h then y else if y >= 1 then y - 1 else 0
  }

  /** The line buffers: before the intake passes row h, every word written so far holds
      the image pixel of the row Row0/Row1 names. */
  ghost predicate MemOk(p: Params, img: seq<seq<int>>, s: State)
    requires ValidParams(p) && ImageOk(p, img)
  {
    && ControlInv(p, s)
    && (s.y <= p.h ==>
          forall a :: 0 <= a < p.w && (s.y >= 1 || a < s.x) ==>
            && s.mem0[a] == img[Row0(p, a, s.x, s.y)][a]
            && s.mem1[a] == img[Row1(p, a, s.x, s.y)][a])
  }

  /** The read-port registers hold the words at the next column, the delayed samples the
      words at the intake column. */
  ghost predicate PortsOk(p: Params, img: seq<seq<int>>, s: State)
    requires ValidParams(p) && ImageOk(p, img)
  {
    && ControlInv(p, s)
    && (s.y <= p.h && !(s.x == 0 && s.y == 0) ==>
          s.rd0 == s.mem0[NextCol(p, s.x)] && s.rd1 == s.mem1[NextCol(p, s.x)])
    && (s.y <= p.h && !(s.y == 0 && s.x <= 1) ==>
          s.pd0 == s.mem0[s.x] && s.pd1 == s.mem1[s.x])
  }

  /** Positions after the top-left priming tick and before the window is complete. */
  predicate Primed1(x: nat, y: nat)
  {
    (y == 0 && x >= 1) || (y == 1 && x == 0)
  }

  predicate Primed2(x: nat, y: nat)
  {
    (y == 0 && x >= 2) || (y == 1 && x == 0)
  }

  /** The window: the corner cells filled so far while priming, and once started the
      edge-replicated neighbourhood of the pixel one column and one row behind the intake. */
  ghost predicate WindowOk(p: Params, img: seq<seq<int>>, s: State)
    requires ValidParams(p) && ImageOk(p, img)
  {
    && ControlInv(p, s)
    && (Primed1(s.x, s.y) ==>
          s.win.p00 == img[0][0] && s.win.p01 == img[0][0]
          && s.win.p10 == img[0][0] && s.win.p11 == img[0][0])
    && (Primed2(s.x, s.y) ==> s.win.p02 == img[0][1] && s.win.p12 == img[0][1])
    && (StartedAt(s.x, s.y) ==> s.win == WindowAt(p, img, CenterX(p, s.x), CenterY(s.x, s.y)))
  }

  /** What the registers hold, as a function of the image and the intake position, in a
      frame fed without gaps. */
  ghost predicate FrameInv(p: Params, img: seq<seq<int>>, s: State)
    requires ValidParams(p) && ImageOk(p, img)
  {
    MemOk(p, img, s) && PortsOk(p, img, s) && WindowOk(p, img, s)
  }

  /** At frame start nothing about the data is required. */
  lemma FrameStartInv(p: Params, img: seq<seq<int>>, s: State)
    requires ValidParams(p) && ImageOk(p, img) && ControlInv(p, s) && s.x == 0 && s.y == 0
    ensures FrameInv(p, img, s)
  {
  }

  /** The line buffers under one fed tick. */
  lemma StepMem(p: Params, img: seq<seq<int>>, tail: seq<Input>, s: State)
    requires ValidParams(p) && ImageOk(p, img) && |tail| == p.w + 1
    requires FrameInv(p, img, s) && s.y <= p.h
    ensures MemOk(p, img, Step(p, s, FeedInput(p, img, tail, s)))
  {
    var i := FeedInput(p, img, tail, s);
    var s' := Step(p, s, i);
    StepControl(p, s, i);
    if s'.y <= p.h {
      forall a | 0 <= a < p.w && (s'.y >= 1 || a < s'.x)
        ensures s'.mem0[a] == img[Row0(p, a, s'.x, s'.y)][a]
        ensures s'.mem1[a] == img[Row1(p, a, s'.x, s'.y)][a]
      {
        if a != s.x {
          assert s'.mem0[a] == s.mem0[a] && s'.mem1[a] == s.mem1[a];
        } else if s.y >= 2 && s.y < p.h {
          assert s'.mem0[a] == s.pd1;
        }
      }
    }
  }

  /** The read-port registers and the delayed samples under one fed tick. */
  lemma StepPorts(p: Params, img: seq<seq<int>>, tail: seq<Input>, s: State)
    requires ValidParams(p) && ImageOk(p, img) && |tail| == p.w + 1
    requires FrameInv(p, img, s) && s.y <= p.h
    ensures PortsOk(p, img, Step(p, s, FeedInput(p, img, tail, s)))
  {
    var i := FeedInput(p, img, tail, s);
    var s' := Step(p, s, i);
    StepControl(p, s, i);
    assert X2(p, s.x) != s.x;
    if s'.y <= p.h && !(s'.x == 0 && s'.y == 0) {
      assert NextCol(p, s'.x) == X2(p, s.x);
      assert s'.rd0 == s.mem0[X2(p, s.x)];
      assert s'.rd1 == s.mem1[X2(p, s.x)];
    }
    if s'.y <= p.h && !(s'.y == 0 && s'.x <= 1) {
      assert s'.x == NextCol(p, s.x) && s'.x != s.x;
    }
  }

  /** The slide of a started window: the neighbourhood moves one raster step. */
  lemma SlideWindow(p: Params, img: seq<seq<int>>, s: State, pixel: int)
    requires ValidParams(p) && ImageOk(p, img) && FrameInv(p, img, s)
    requires StartedAt(s.x, s.y) && s.y <= p.h
    requires s.y < p.h ==> pixel == img[s.y][s.x]
    ensures NextWindow(p, s, pixel) == WindowAt(p, img, s.x, s.y - 1)
  {
    var c := NextCol(p, s.x);
    assert s.mem0[c] == img[Row0(p, c, s.x, s.y)][c];
    assert s.mem1[c] == img[Row1(p, c, s.x, s.y)][c];
    assert s.mem0[s.x] == img[Row0(p, s.x, s.x, s.y)][s.x];
    assert s.mem1[s.x] == img[Row1(p, s.x, s.x, s.y)][s.x];
  }

  /** The window under one fed tick. */
  lemma StepWindow(p: Params, img: seq<seq<int>>, tail: seq<Input>, s: State)
    requires ValidParams(p) && ImageOk(p, img) && |tail| == p.w + 1
    requires FrameInv(p, img, s) && s.y <= p.h
    ensures WindowOk(p, img, Step(p, s, FeedInput(p, img, tail, s)))
  {
    var i := FeedInput(p, img, tail, s);
    var s' := Step(p, s, i);
    StepControl(p, s, i);
    assert s'.win == NextWindow(p, s, i.pixel);
    if StartedAt(s.x, s.y) {
      SlideWindow(p, img, s, i.pixel);
      assert CenterX(p, s'.x) == s.x && CenterY(s'.x, s'.y) == s.y - 1;
    } else if s.x == 0 && s.y == 1 {
      assert s'.x == 1 && s'.y == 1;
      assert s'.win == WindowAt(p, img, 0, 0);
    }
  }

  /** In a started state the taps fed to the multipliers are the neighbourhood of the
      window's centre. */
  lemma TapsAtCenter(p: Params, img: seq<seq<int>>, s: State, pixel: int)
    requires ValidParams(p) && ImageOk(p, img) && WindowOk(p, img, s) && StartedAt(s.x, s.y)
    requires s.y < p.h ==> pixel == img[s.y][s.x]
    ensures Taps(s.win, P22(p, s, pixel)) == Neighbourhood(p, img, CenterX(p, s.x), CenterY(s.x, s.y))
  {
    var cx := CenterX(p, s.x);
    var cy := CenterY(s.x, s.y);
    assert P22(p, s, pixel) == Px(p, img, cx + 1, cy + 1);
  }

  /** The pixel emitted by a started tick is the convolution at the window's centre. */
  lemma StepOutput(p: Params, img: seq<seq<int>>, tail: seq<Input>, s: State)
    requires ValidParams(p) && ImageOk(p, img) && |tail| == p.w + 1
    requires FrameInv(p, img, s) && StartedAt(s.x, s.y)
    ensures var s' := Step(p, s, FeedInput(p, img, tail, s));
            && s'.valid
            && s'.ox == CenterX(p, s.x) && s'.oy == CenterY(s.x, s.y)
            && s'.op == ConvAt(p, img, CenterX(p, s.x), CenterY(s.x, s.y))
  {
    var i := FeedInput(p, img, tail, s);
    StepControl(p, s, i);
    TapsAtCenter(p, img, s, i.pixel);
  }

  /** The frame invariant is kept by every fed tick up to the last one. */
  lemma StepFrameInv(p: Params, img: seq<seq<int>>, tail: seq<Input>, s: State)
    requires ValidParams(p) && ImageOk(p, img) && |tail| == p.w + 1
    requires FrameInv(p, img, s) && s.y <= p.h
    ensures FrameInv(p, img, Step(p, s, FeedInput(p, img, tail, s)))
  {
    StepMem(p, img, tail, s);
    StepPorts(p, img, tail, s);
    StepWindow(p, img, tail, s);
  }

  /** The part of the reference stream still to come from intake position (x, y). */
  function Remaining(p: Params, img: seq<seq<int>>, x: nat, y: nat): seq<Pixel>
    requires ValidParams(p) && ImageOk(p, img) && x < p.w
  {
    var out := Convolved(p, img);
    if StartedAt(x, y) then Raster(p, out, CenterX(p, x), CenterY(x, y)) else Raster(p, out, 0, 0)
  }

  /** One fed tick before the last consumes the head of the remaining reference stream
      exactly when it emits a pixel. */
  lemma RemainingStep(p: Params, img: seq<seq<int>>, tail: seq<Input>, s: State)
    requires ValidParams(p) && ImageOk(p, img) && |tail| == p.w + 1
    requires FrameInv(p, img, s) && s.y <= p.h
    ensures var s' := Step(p, s, FeedInput(p, img, tail, s));
            Remaining(p, img, s.x, s.y)
            == (if s'.valid then [Pixel(s'.ox, s'.oy, s'.op)] else []) + Remaining(p, img, s'.x, s'.y)
  {
    var i := FeedInput(p, img, tail, s);
    var s' := Step(p, s, i);
    StepControl(p, s, i);
    if StartedAt(s.x, s.y) {
      StepOutput(p, img, tail, s);
      assert StartedAt(s'.x, s'.y);
      assert CenterX(p, s'.x) == SuccX(p, CenterX(p, s.x));
      assert CenterY(s'.x, s'.y) == SuccY(p, CenterX(p, s.x), CenterY(s.x, s.y));
    } else {
      assert !s'.valid;
    }
  }

  /** The flush tick at (0, h+1) emits the last pixel, (w-1, h-1), and returns to the
      frame start. */
  lemma LastTick(p: Params, img: seq<seq<int>>, tail: seq<Input>, s: State)
    requires ValidParams(p) && ImageOk(p, img) && |tail| == p.w + 1
    requires FrameInv(p, img, s) && s.y == p.h + 1
    ensures var s' := Step(p, s, FeedInput(p, img, tail, s));
            && Remaining(p, img, s.x, s.y) == [Pixel(s'.ox, s'.oy, s'.op)] && s'.valid
            && ControlInv(p, s') && s'.x == 0 && s'.y == 0
  {
    StepControl(p, s, FeedInput(p, img, tail, s));
    StepOutput(p, img, tail, s);
    assert Raster(p, Convolved(p, img), 0, p.h) == [];
  }

  /** The first tick of a feed. */
  lemma FeedUnfold(p: Params, img: seq<seq<int>>, tail: seq<Input>, s: State, m: nat)
    requires ValidParams(p) && ImageOk(p, img) && |tail| == p.w + 1
    ensures var s' := Step(p, s, FeedInput(p, img, tail, s));
            Emitted(Feed(p, img, tail, s, m + 1))
            == (if s'.valid then [Pixel(s'.ox, s'.oy, s'.op)] else []) + Emitted(Feed(p, img, tail, s', m))
  {
    var r := Feed(p, img, tail, s, m + 1);
    assert r[1..] == Feed(p, img, tail, Step(p, s, FeedInput(p, img, tail, s)), m);
  }

  /** The last state of a non-empty run. */
  function Last(r: seq<State>): State
    requires |r| >= 1
  {
    r[|r| - 1]
  }

  /** The last state of a feed is the last state of the feed from the next state. */
  lemma FeedLast(p: Params, img: seq<seq<int>>, tail: seq<Input>, s: State, n: nat)
    requires ValidParams(p) && ImageOk(p, img) && |tail| == p.w + 1 && n >= 1
    ensures var s' := Step(p, s, FeedInput(p, img, tail, s));
            Last(Feed(p, img, tail, s, n)) == if n == 1 then s' else Last(Feed(p, img, tail, s', n - 1))
  {
  }

  /** The rest of a frame, n ticks from intake position (x, y), ends in the frame-start
      state. */
  lemma {:induction false} FeedEnds(p: Params, img: seq<seq<int>>, tail: seq<Input>, s: State, n: nat)
    requires ValidParams(p) && ImageOk(p, img) && |tail| == p.w + 1 && ControlInv(p, s)
    requires n == TicksLeft(p, s.x, s.y)
    ensures |Feed(p, img, tail, s, n)| >= 1
    ensures var f := Last(Feed(p, img, tail, s, n)); ControlInv(p, f) && f.x == 0 && f.y == 0
    decreases n
  {
    var i := FeedInput(p, img, tail, s);
    var s' := Step(p, s, i);
    StepControl(p, s, i);
    FeedLast(p, img, tail, s, n);
    if s.y != p.h + 1 {
      assert n - 1 == TicksLeft(p, s'.x, s'.y);
      FeedEnds(p, img, tail, s', n - 1);
    }
  }

  /** One fed tick seen from the frame level: before the last tick the invariants carry
      over, one tick fewer is left and the remaining stream loses exactly what the tick
      emitted; the last tick emits all that remains. */
  lemma FrameStep(p: Params, img: seq<seq<int>>, tail: seq<Input>, s: State)
    requires ValidParams(p) && ImageOk(p, img) && |tail| == p.w + 1
    requires FrameInv(p, img, s)
    ensures var s' := Step(p, s, FeedInput(p, img, tail, s));
            var head := if s'.valid then [Pixel(s'.ox, s'.oy, s'.op)] else [];
            if s.y == p.h + 1 then Remaining(p, img, s.x, s.y) == head
            else
              && FrameInv(p, img, s')
              && TicksLeft(p, s.x, s.y) == TicksLeft(p, s'.x, s'.y) + 1
              && Remaining(p, img, s.x, s.y) == head + Remaining(p, img, s'.x, s'.y)
  {
    StepControl(p, s, FeedInput(p, img, tail, s));
    if s.y == p.h + 1 {
      LastTick(p, img, tail, s);
    } else {
      StepFrameInv(p, img, tail, s);
      RemainingStep(p, img, tail, s);
    }
  }

  /** From any position of a gap-free frame, the rest of the frame emits exactly the rest
      of the reference stream. */
  lemma {:induction false} FeedFrom(p: Params, img: seq<seq<int>>, tail: seq<Input>, s: State)
    requires ValidParams(p) && ImageOk(p, img) && |tail| == p.w + 1
    requires FrameInv(p, img, s)
    ensures Emitted(Feed(p, img, tail, s, TicksLeft(p, s.x, s.y))) == Remaining(p, img, s.x, s.y)
    decreases TicksLeft(p, s.x, s.y)
  {
    var s' := Step(p, s, FeedInput(p, img, tail, s));
    FrameStep(p, img, tail, s);
    if s.y == p.h + 1 {
      FeedUnfold(p, img, tail, s, 0);
    } else {
      FeedFrom(p, img, tail, s');
      FeedUnfold(p, img, tail, s, TicksLeft(p, s'.x, s'.y));
    }
  }

  /** One frame, from the frame-start state (power-on, or the end of the previous frame),
      fed the image in raster order without gaps and then any w+1 inputs (TicksLeft(p, 0, 0),
      that is (h+1)*w + 1 ticks): the unit emits exactly the reference stream, the first
      pixel labelled (0,0), and is back at the frame start, so frames can follow each
      other indefinitely. */
  lemma FrameTheorem(p: Params, img: seq<seq<int>>, tail: seq<Input>, s: State)
    requires ValidParams(p) && ImageOk(p, img) && |tail| == p.w + 1
    requires ControlInv(p, s) && s.x == 0 && s.y == 0
    ensures var r := Feed(p, img, tail, s, TicksLeft(p, 0, 0));
            && Emitted(r) == Raster(p, Convolved(p, img), 0, 0)
            && Emitted(r)[0] == Pixel(0, 0, ConvAt(p, img, 0, 0))
            && ControlInv(p, Last(r)) && Last(r).x == 0 && Last(r).y == 0
  {
    FrameStartInv(p, img, s);
    FeedFrom(p, img, tail, s);
    FeedEnds(p, img, tail, s, TicksLeft(p, 0, 0));
  }

  /** The same feeding, for the unit as written (`StepAsWritten`). */
  function FeedAsWritten(p: Params, img: seq<seq<int>>, tail: seq<Input>, s: State, n: nat): (r: seq<State>)
    requires ValidParams(p) && ImageOk(p, img) && |tail| == p.w + 1
    ensures |r| == n
    decreases n
  {
    if n == 0 then []
    else
      var s' := StepAsWritten(p, s, FeedInput(p, img, tail, s));
      [s'] + FeedAsWritten(p, img, tail, s', n - 1)
  }

  /** Every tick of a feed is one the unit processes: a pixel arrives while y < h, and the
      unit stalls from y == h on. So when `x2` is wide enough for x (bits_for(w) <=
      bits_for(h), as for ImageConv's 320x480 and the 6x4 bench) the source as written
      goes through exactly the states of the corrected unit, for any number of ticks. */
  lemma {:induction false} FeedAgrees(p: Params, img: seq<seq<int>>, tail: seq<Input>, s: State, n: nat)
    requires ValidParams(p) && ImageOk(p, img) && |tail| == p.w + 1
    requires ControlInv(p, s) && BitsFor(p.w) <= BitsFor(p.h)
    ensures FeedAsWritten(p, img, tail, s, n) == Feed(p, img, tail, s, n)
    decreases n
  {
    if n > 0 {
      var i := FeedInput(p, img, tail, s);
      assert Active(s, i);
      AsWrittenAgreesOnActiveTicks(p, s, i);
      StepControl(p, s, i);
      FeedAgrees(p, img, tail, Step(p, s, i), n - 1);
    }
  }

  /** The frame theorem for the source as written, under that geometry. */
  lemma FrameTheoremAsWritten(p: Params, img: seq<seq<int>>, tail: seq<Input>, s: State)
    requires ValidParams(p) && ImageOk(p, img) && |tail| == p.w + 1
    requires ControlInv(p, s) && s.x == 0 && s.y == 0 && BitsFor(p.w) <= BitsFor(p.h)
    ensures var r := FeedAsWritten(p, img, tail, s, TicksLeft(p, 0, 0));
            && Emitted(r) == Raster(p, Convolved(p, img), 0, 0)
            && ControlInv(p, Last(r)) && Last(r).x == 0 && Last(r).y == 0
  {
    FeedAgrees(p, img, tail, s, TicksLeft(p, 0, 0));
    FrameTheorem(p, img, tail, s);
  }

  /** A frame emits w*h pixels. */
  lemma FrameLength(p: Params, out: seq<seq<nat>>)
    requires ValidParams(p) && Shaped(p, out)
    ensures |Raster(p, out, 0, 0)| == p.h * p.w
  {
    RasterLength(p, out, 0, 0);
    CellsValue(p, p.h);
  }

  /** Pixel (x, y) sits in the raster from (cx, cy) as many places on as there are pixels
      from (cx, cy) up to it. */
  lemma {:induction false} RasterAt(p: Params, out: seq<seq<nat>>, cx: nat, cy: nat, x: nat, y: nat)
    requires Shaped(p, out) && cx < p.w && x < p.w && cy <= y < p.h && (y > cy || x >= cx)
    ensures Cells(p, y - cy) + x - cx < |Raster(p, out, cx, cy)|
    ensures Raster(p, out, cx, cy)[Cells(p, y - cy) + x - cx] == Pixel(x, y, out[y][x])
    decreases p.h - cy, p.w - cx
  {
    var r := Raster(p, out, cx, cy);
    if y == cy && x == cx {
    } else {
      var cx', cy' := if cx == p.w - 1 then 0 else cx + 1, if cx == p.w - 1 then cy + 1 else cy;
      RasterAt(p, out, cx', cy', x, y);
      var r' := Raster(p, out, cx', cy');
      assert r == [Pixel(cx, cy, out[cy][cx])] + r';
      assert Cells(p, y - cy) + x - cx == Cells(p, y - cy') + x - cx' + 1 by {
        if cx == p.w - 1 {
          assert Cells(p, y - cy) == p.w + Cells(p, y - cy');
        }
      }
    }
  }

  /** The raster scan of a frame puts pixel (x, y) at index y*w + x. */
  lemma FrameIndex(p: Params, out: seq<seq<nat>>, x: nat, y: nat)
    requires ValidParams(p) && Shaped(p, out) && x < p.w && y < p.h
    ensures y * p.w + x < |Raster(p, out, 0, 0)|
    ensures Raster(p, out, 0, 0)[y * p.w + x] == Pixel(x, y, out[y][x])
  {
    RasterAt(p, out, 0, 0, x, y);
    CellsValue(p, y);
  }
}
