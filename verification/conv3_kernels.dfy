/** What particular kernels do to a frame: the identity kernel passes the image through
    unchanged (the scenario of conv/sim_conv3.py among others), and any kernel maps a
    constant image to a constant image scaled by the kernel's sum. */
module Conv3Kernels {
  import opened Bits
  import opened Conv3
  import opened Conv3Frame

  /** The identity kernel: only the centre tap is 1. */
  function IdentityKernel(): seq<int>
  {
    [0, 0, 0, 0, 1, 0, 0, 0, 0]
  }

  /** The sum of a kernel's weights. */
  function KernelSum(k: seq<int>): int
  {
    if |k| == 0 then 0 else k[0] + KernelSum(k[1..])
  }

  /** The sum of a nine-weight kernel, written out. */
  lemma KernelSumNine(k: seq<int>)
    requires |k| == 9
    ensures KernelSum(k) == k[0] + k[1] + k[2] + k[3] + k[4] + k[5] + k[6] + k[7] + k[8]
  {
    assert KernelSum(k[8..]) == k[8];
    assert KernelSum(k[7..]) == k[7] + k[8];
    assert KernelSum(k[6..]) == k[6] + k[7] + k[8];
    assert KernelSum(k[5..]) == k[5] + k[6] + k[7] + k[8];
    assert KernelSum(k[4..]) == k[4] + k[5] + k[6] + k[7] + k[8];
    assert KernelSum(k[3..]) == k[3] + k[4] + k[5] + k[6] + k[7] + k[8];
    assert KernelSum(k[2..]) == k[2] + k[3] + k[4] + k[5] + k[6] + k[7] + k[8];
    assert KernelSum(k[1..]) == k[1] + k[2] + k[3] + k[4] + k[5] + k[6] + k[7] + k[8];
  }

  /** Every input pixel fits the dw-bit input port `i_p`. */
  ghost predicate PixelsFit(p: Params, img: seq<seq<int>>)
    requires ValidParams(p) && ImageOk(p, img)
  {
    forall y, x :: 0 <= y < p.h && 0 <= x < p.w ==> 0 <= img[y][x] < Pow2(p.dw)
  }

  /** The weighted sum with the identity kernel is the centre tap. */
  lemma DotIdentity(v: seq<int>)
    requires |v| == 9
    ensures Dot(IdentityKernel(), v) == v[4]
  {
    var k := IdentityKernel();
    assert Dot(k[8..], v[8..]) == 0;
    assert Dot(k[7..], v[7..]) == 0;
    assert Dot(k[6..], v[6..]) == 0;
    assert Dot(k[5..], v[5..]) == 0;
    assert Dot(k[4..], v[4..]) == v[4];
    assert Dot(k[3..], v[3..]) == v[4];
    assert Dot(k[2..], v[2..]) == v[4];
    assert Dot(k[1..], v[1..]) == v[4];
  }

  /** A weighted sum of equal taps is the tap times the kernel's sum. */
  lemma {:induction false} DotConstant(k: seq<int>, v: seq<int>, c: int)
    requires |k| == |v|
    requires forall j :: 0 <= j < |v| ==> v[j] == c
    ensures Dot(k, v) == c * KernelSum(k)
    decreases |k|
  {
    if |k| > 0 {
      DotConstant(k[1..], v[1..], c);
      assert Dot(k, v) == k[0] * c + c * KernelSum(k[1..]);
      assert c * KernelSum(k) == c * k[0] + c * KernelSum(k[1..]);
    }
  }

  /** The identity kernel with no shift reproduces the input image: the output image is
      the input image. */
  lemma IdentityReproduces(p: Params, img: seq<seq<int>>)
    requires ValidParams(p) && ImageOk(p, img) && PixelsFit(p, img)
    requires p.k == IdentityKernel() && p.sh == 0
    ensures Convolved(p, img) == img
  {
    var out := Convolved(p, img);
    forall y | 0 <= y < p.h
      ensures out[y] == img[y]
    {
      forall x | 0 <= x < p.w
        ensures out[y][x] == img[y][x]
      {
        var n := Neighbourhood(p, img, x, y);
        DotIdentity(n);
        assert n[4] == img[y][x];
      }
    }
  }

  /** A constant image convolves to a constant image: the constant times the kernel's
      sum, floor-shifted by sh and wrapped to dw bits. */
  lemma ConstantFrame(p: Params, img: seq<seq<int>>, c: int)
    requires ValidParams(p) && ImageOk(p, img)
    requires forall y, x :: 0 <= y < p.h && 0 <= x < p.w ==> img[y][x] == c
    ensures forall y, x :: 0 <= y < p.h && 0 <= x < p.w ==>
              Convolved(p, img)[y][x] == OutPixel(p, c * KernelSum(p.k))
  {
    forall y, x | 0 <= y < p.h && 0 <= x < p.w
      ensures ConvAt(p, img, x, y) == OutPixel(p, c * KernelSum(p.k))
    {
      var n := Neighbourhood(p, img, x, y);
      forall j | 0 <= j < 9
        ensures n[j] == c
      {
      }
      DotConstant(p.k, n, c);
    }
  }

  /** With the identity kernel, a frame from the frame-start state emits the input image
      itself, in raster order, each pixel labelled with its own coordinates. */
  lemma IdentityFrame(p: Params, img: seq<seq<nat>>, tail: seq<Input>, s: State)
    requires ValidParams(p) && ImageOk(p, img) && PixelsFit(p, img) && |tail| == p.w + 1
    requires p.k == IdentityKernel() && p.sh == 0
    requires ControlInv(p, s) && s.x == 0 && s.y == 0
    ensures Emitted(Feed(p, img, tail, s, TicksLeft(p, 0, 0))) == Raster(p, img, 0, 0)
    ensures BitsFor(p.w) <= BitsFor(p.h) ==>
              Emitted(FeedAsWritten(p, img, tail, s, TicksLeft(p, 0, 0))) == Raster(p, img, 0, 0)
  {
    FrameTheorem(p, img, tail, s);
    IdentityReproduces(p, img);
    if BitsFor(p.w) <= BitsFor(p.h) {
      FeedAgrees(p, img, tail, s, TicksLeft(p, 0, 0));
    }
  }

  /** The 6x4 test bench of conv/sim_conv3.py: identity kernel, no shift, 8-bit pixels,
      pixels 1, 2, 3, ... in raster order. */
  function SimParams(): (p: Params)
    ensures ValidParams(p)
  {
    Params(IdentityKernel(), 0, 6, 4, 8)
  }

  function SimImage(): (img: seq<seq<nat>>)
    ensures ImageOk(SimParams(), img)
    ensures forall y, x :: 0 <= y < 4 && 0 <= x < 6 ==> img[y][x] == 6 * y + x + 1
  {
    seq(4, y requires 0 <= y < 4 => seq(6, x requires 0 <= x < 6 => 6 * y + x + 1))
  }

  /** The raster scan of the test bench's image is 1, 2, ..., 24, pixel j at column j % 6
      of row j / 6. */
  lemma SimRaster()
    ensures var e := Raster(SimParams(), SimImage(), 0, 0);
            && |e| == 24
            && forall j :: 0 <= j < 24 ==> e[j] == Pixel(j % 6, j / 6, j + 1)
  {
    var p := SimParams();
    var img := SimImage();
    var e := Raster(p, img, 0, 0);
    FrameLength(p, img);
    forall j | 0 <= j < 24
      ensures j < |e| && e[j] == Pixel(j % 6, j / 6, j + 1)
    {
      var x, y := j % 6, j / 6;
      FrameIndex(p, img, x, y);
      assert y * 6 + x == j;
      assert img[y][x] == j + 1;
    }
  }

  /** The bench's geometry: bits_for(6) == bits_for(4) == 3, so its `x2` is wide enough. */
  lemma SimGeometry()
    ensures BitsFor(SimParams().w) == BitsFor(SimParams().h) == 3
  {
    assert BitsFor(1) == 1;
    assert BitsFor(3) == 2;
    assert BitsFor(2) == 2;
  }

  /** In the test bench, from power-on, the unit emits the 24 input pixels unchanged, each
      labelled with its own coordinates, within 31 ticks (the bench's inputs from pixel 25
      on fall in the flush and may be anything); this holds of the unit as written, which
      the bench instantiates, as well as of the corrected one. */
  lemma SimFrame(tail: seq<Input>)
    requires |tail| == 7
    ensures TicksLeft(SimParams(), 0, 0) == 31
    ensures var e := Emitted(FeedAsWritten(SimParams(), SimImage(), tail, Reset(SimParams()), 31));
            && |e| == 24
            && forall j :: 0 <= j < 24 ==> e[j] == Pixel(j % 6, j / 6, j + 1)
    ensures Feed(SimParams(), SimImage(), tail, Reset(SimParams()), 31)
            == FeedAsWritten(SimParams(), SimImage(), tail, Reset(SimParams()), 31)
  {
    var p := SimParams();
    var img := SimImage();
    assert TicksLeft(p, 0, 0) == 31 by {
      TicksLeftValue(p, 0, 0);
    }
    assert Emitted(Feed(p, img, tail, Reset(p), 31)) == Raster(p, img, 0, 0) by {
      ResetControl(p);
      assert PixelsFit(p, img) by {
        assert Pow2(p.dw) == 256;
      }
      IdentityFrame(p, img, tail, Reset(p));
    }
    ResetControl(p);
    SimGeometry();
    FeedAgrees(p, img, tail, Reset(p), 31);
    SimRaster();
  }
}
