/** The on-screen-display overlay `OSD` (image_conv/osd.py): a per-pixel compositor whose
    result is registered, so the colour computed for the inputs of one tick is the output
    during the next. Outside the menu box it copies the pixel, optionally drawing a 64-pixel
    grid in green and a frame border in blue; inside the box it draws a column of 16x16
    slots, the current option highlighted with its icon. */
module Osd {
  import opened Bits

  datatype Colour = Colour(r: nat, g: nat, b: nat)

  const Black := Colour(0, 0, 0)
  const White := Colour(0xFF, 0xFF, 0xFF)
  const Gray := Colour(0x3F, 0x3F, 0x3F)
  const Red := Colour(0xFF, 0, 0)
  const Green := Colour(0, 0xFF, 0)
  const Blue := Colour(0, 0, 0xFF)
  const MidGray := Colour(0x7F, 0x7F, 0x7F)

  /** The menu box: top-left corner and size (defaults 608, 288, 16, 192). */
  datatype Box = Box(xStart: nat, yStart: nat, width: nat, height: nat)

  function DefaultBox(): Box
  {
    Box(608, 288, 16, 192)
  }

  /** One tick's inputs. */
  datatype OsdIn = OsdIn(on: bool, val: nat, c: Colour, x: nat, y: nat,
                         sel: bool, grid: bool, border: bool)

  /** Every input within its signal's width: `osd_val` 4 bits, colours 8 bits, x and y
      10 bits. */
  predicate InputsFit(i: OsdIn)
  {
    i.val < 16 && i.c.r < 256 && i.c.g < 256 && i.c.b < 256 && i.x < 1024 && i.y < 1024
  }

  predicate Fits(c: Colour)
  {
    c.r < 256 && c.g < 256 && c.b < 256
  }

  /** The default copy with the grid and border overlays. */
  function Pass(i: OsdIn): Colour
  {
    Colour(i.c.r,
           if i.grid && (AllOnes(i.x, 6) || AllOnes(i.y, 6)) then 0xFF else i.c.g,
           if i.border && (i.x < 2 || i.x >= 638 || i.y < 2 || i.y >= 478) then 0xFF else i.c.b)
  }

  predicate InBox(b: Box, x: nat, y: nat)
  {
    b.xStart <= x < b.xStart + b.width && b.yStart <= y < b.yStart + b.height
  }

  /** `y_offset[4:]`: the slot index, from the 10-bit difference y - y_start. */
  function SlotOf(b: Box, y: nat): nat
  {
    Slice(Trunc(y - b.yStart, 10), 4, 10)
  }

  /** The position inside a 16x16 cell: the low four bits of x and y. */
  function Xb(i: OsdIn): nat
  {
    Slice(i.x, 0, 4)
  }

  function Yb(i: OsdIn): nat
  {
    Slice(i.y, 0, 4)
  }

  /** The inner square of a cell, 3..13 in both directions. */
  predicate Inner(xb: nat, yb: nat)
  {
    xb > 2 && xb < 14 && yb > 2 && yb < 14
  }

  /** The two diagonals of a cell. */
  predicate Diagonal(xb: nat, yb: nat)
  {
    xb == yb || xb + yb == 15
  }

  /** Icon pixels drawn over the highlighted slot's colour `base`, per option. */
  function Icon(val: nat, xb: nat, yb: nat, base: Colour): Colour
  {
    if val == 0 then (if Inner(xb, yb) then White else base)
    else if val == 1 then (if Inner(xb, yb) then Red else base)
    else if val == 2 then (if Inner(xb, yb) then Green else base)
    else if val == 3 then (if Inner(xb, yb) then Blue else base)
    else if val == 4 then (if Inner(xb, yb) then MidGray else base)
    else if val == 5 then (if Inner(xb, yb) then (if Diagonal(xb, yb) then White else Black) else base)
    else if val == 6 then
      (if Inner(xb, yb) then
         (if (yb == 10 && (xb == 6 || xb == 8)) || (yb != 10 && Diagonal(xb, yb)) then White else Black)
       else base)
    else if val == 7 then (if xb == 2 || xb == 14 || yb == 2 || yb == 14 then Blue else base)
    else if val == 8 then (if yb == 8 && xb > 4 && xb < 6 then Red else base)
    else if val == 9 then (if Inner(xb, yb) then (if yb < 4 then White else Black) else base)
    else if val == 10 then (if yb == 8 && xb > 4 && xb < 12 then Green else base)
    else if val == 11 then (if yb == 8 && xb == 8 then Red else base)
    else base
  }

  /** The colour registered for one tick's inputs. */
  function OsdStep(b: Box, i: OsdIn): (o: Colour)
    requires InputsFit(i)
    ensures Fits(o)
  {
    if i.on && InBox(b, i.x, i.y) then
      if SlotOf(b, i.y) == i.val then
        var xb, yb := Xb(i), Yb(i);
        var base := if i.sel && (xb == 0 || xb == 15 || yb == 0 || yb == 15) then Red else Gray;
        Icon(i.val, xb, yb, base)
      else Black
    else Pass(i)
  }

  /** The low bits as remainders. */
  lemma LowBits(v: nat)
    ensures AllOnes(v, 6) <==> v % 64 == 63
    ensures Slice(v, 0, 4) == v % 16
  {
    assert Pow2(6) == 64;
    assert Pow2(4) == 16;
  }

  /** With the display off, or outside the box, the pixel is copied, except that the grid
      paints green where x or y is 63 modulo 64 and the border paints blue within two
      pixels of the edge of a 640x480 frame. */
  lemma PassOutsideBox(b: Box, i: OsdIn)
    requires InputsFit(i) && !(i.on && InBox(b, i.x, i.y))
    ensures OsdStep(b, i).r == i.c.r
    ensures OsdStep(b, i).g == if i.grid && (i.x % 64 == 63 || i.y % 64 == 63) then 0xFF else i.c.g
    ensures OsdStep(b, i).b == if i.border && (i.x < 2 || i.x >= 640 - 2 || i.y < 2 || i.y >= 480 - 2)
                               then 0xFF else i.c.b
  {
    LowBits(i.x);
    LowBits(i.y);
  }

  /** Inside the box with the display on, neither the incoming pixel nor the grid and
      border overlays have any effect. */
  lemma BoxIgnoresStream(b: Box, i: OsdIn, c: Colour, grid: bool, border: bool)
    requires InputsFit(i) && Fits(c) && i.on && InBox(b, i.x, i.y)
    ensures OsdStep(b, i.(c := c, grid := grid, border := border)) == OsdStep(b, i)
  {
  }

  /** Which slot a row of the box belongs to: the 16-row band counted from y_start. */
  lemma SlotIsBand(b: Box, y: nat)
    requires b.yStart <= y < b.yStart + 1024
    ensures SlotOf(b, y) == (y - b.yStart) / 16
  {
    assert Pow2(10) == 1024 && Pow2(4) == 16 && Pow2(6) == 64;
  }

  /** Inside the box, every slot but the highlighted one is black. */
  lemma OtherSlotsBlack(b: Box, i: OsdIn)
    requires InputsFit(i) && i.on && InBox(b, i.x, i.y) && i.y < b.yStart + 1024
    requires (i.y - b.yStart) / 16 != i.val
    ensures OsdStep(b, i) == Black
  {
    SlotIsBand(b, i.y);
  }

  /** In the highlighted slot, when it is selected, the outermost ring of the cell is red,
      except where the lines of option 7's icon, which run across the whole cell at
      offsets 2 and 14, cross it. */
  lemma SelectedRingRed(b: Box, i: OsdIn)
    requires InputsFit(i) && i.on && InBox(b, i.x, i.y) && i.y < b.yStart + 1024
    requires (i.y - b.yStart) / 16 == i.val && i.sel
    requires i.x % 16 in {0, 15} || i.y % 16 in {0, 15}
    ensures OsdStep(b, i) == if i.val == 7 && (i.x % 16 in {2, 14} || i.y % 16 in {2, 14}) then Blue else Red
  {
    SlotIsBand(b, i.y);
    LowBits(i.x);
    LowBits(i.y);
  }

  /** Options 0 to 4 fill the inner square with one colour each (white, red, green, blue,
      mid gray); option 9 fills it white in its top row and black below. */
  lemma FilledIcons(b: Box, i: OsdIn)
    requires InputsFit(i) && i.on && InBox(b, i.x, i.y) && i.y < b.yStart + 1024
    requires (i.y - b.yStart) / 16 == i.val
    requires Inner(i.x % 16, i.y % 16)
    ensures i.val < 5 ==> OsdStep(b, i) == [White, Red, Green, Blue, MidGray][i.val]
    ensures i.val == 9 ==> OsdStep(b, i) == if i.y % 16 < 4 then White else Black
  {
    SlotIsBand(b, i.y);
    LowBits(i.x);
    LowBits(i.y);
  }

  /** The X-flip icon (option 5) is the two diagonals of the inner square: white exactly on
      them, black elsewhere in the square. */
  lemma XFlipIcon(b: Box, i: OsdIn)
    requires InputsFit(i) && i.on && InBox(b, i.x, i.y) && i.y < b.yStart + 1024
    requires (i.y - b.yStart) / 16 == i.val == 5
    requires Inner(i.x % 16, i.y % 16)
    ensures OsdStep(b, i) == White <==> (i.x % 16 == i.y % 16 || i.x % 16 == 15 - i.y % 16)
    ensures OsdStep(b, i) != White ==> OsdStep(b, i) == Black
  {
    SlotIsBand(b, i.y);
    LowBits(i.x);
    LowBits(i.y);
  }

  /** Options 12 to 15 have no icon: the highlighted slot is plain gray, with the red ring
      when selected. */
  lemma NoIconAbove11(b: Box, i: OsdIn)
    requires InputsFit(i) && i.on && InBox(b, i.x, i.y) && i.y < b.yStart + 1024
    requires (i.y - b.yStart) / 16 == i.val && i.val >= 12
    ensures OsdStep(b, i) == if i.sel && (i.x % 16 in {0, 15} || i.y % 16 in {0, 15}) then Red else Gray
  {
    SlotIsBand(b, i.y);
    LowBits(i.x);
    LowBits(i.y);
  }
}
