/** The text-mode address generator `Video` (retro/video.py). It maps the beam position
    of a 640x480 display to the address of a character cell in a 32x16 text buffer:
    columns are 16 pixels wide counted from a 64-pixel left border, and rows are 12
    scanlines high counted from line 48. The column is combinational in x; the row and
    the scanline within it are registers advanced at the end of each line. */
module Video {
  import opened Bits

  const BorderX: nat := 64
  const BorderY: nat := 48
  const LastX: nat := 639
  const LinesPerRow: nat := 12

  /** `row` (4 bits) and `lin` (4 bits). */
  datatype VideoState = VideoState(row: nat, lin: nat)

  function VideoReset(): VideoState
  {
    VideoState(0, 0)
  }

  /** The text column: `xa = x - 64` as 10 bits, `col = xa[4:]` kept to 5 bits. */
  function Col(x: nat): nat
  {
    Trunc(Slice(Trunc(x - BorderX, 10), 4, 10), 5)
  }

  /** `c_addr = Cat(col, row)`: the column in the low 5 bits, the row above them. */
  function CAddr(s: VideoState, x: nat): nat
  {
    Col(x) + 32 * s.row
  }

  /** One pixel clock edge at beam position (x, y). */
  function VideoStep(s: VideoState, x: nat, y: nat): VideoState
  {
    if y == BorderY && x == 0 then VideoState(0, 0)
    else if x == LastX then
      if s.lin == 11 then VideoState(Trunc(s.row + 1, 4), 0)
      else s.(lin := Trunc(s.lin + 1, 4))
    else s
  }

  /** The column is the 16-pixel band of x measured from the border, modulo the 1024
      positions of the 10-bit difference and the 32 columns of the buffer. Inside the
      512 pixels after the border this is simply (x - 64) / 16. */
  lemma ColMeaning(x: nat)
    requires x < 1024
    ensures Col(x) == ((x - BorderX) % 1024) / 16 % 32
    ensures BorderX <= x < BorderX + 512 ==> Col(x) == (x - BorderX) / 16
  {
    assert Pow2(10) == 1024 && Pow2(4) == 16 && Pow2(6) == 64 && Pow2(5) == 32;
    assert Pow2(10 - 4) == 64;
  }

  /** The scanline counter stays within a text row and both registers keep their widths. */
  predicate VideoInv(s: VideoState)
  {
    s.lin < LinesPerRow && s.row < 16
  }

  lemma VideoResetInv()
    ensures VideoInv(VideoReset())
  {
  }

  lemma VideoStepInv(s: VideoState, x: nat, y: nat)
    requires VideoInv(s)
    ensures VideoInv(VideoStep(s, x, y))
  {
    assert Pow2(4) == 16;
  }

  /** The address fits the 9-bit `c_addr` and names the cell: row and column are
      recovered from it. */
  lemma CAddrCell(s: VideoState, x: nat)
    requires VideoInv(s)
    ensures CAddr(s, x) < 512
    ensures CAddr(s, x) / 32 == s.row && CAddr(s, x) % 32 == Col(x)
  {
    assert Pow2(5) == 32;
  }

  /** The registers change only at the top of the text area (where both restart) and at
      the last pixel of a line (where the scanline advances, and after 12 scanlines the
      row); at every other position nothing changes. */
  lemma WhenRegistersChange(s: VideoState, x: nat, y: nat)
    requires VideoInv(s)
    ensures y == BorderY && x == 0 ==> VideoStep(s, x, y) == VideoState(0, 0)
    ensures x == LastX ==>
              VideoStep(s, x, y) == if s.lin == LinesPerRow - 1 then VideoState((s.row + 1) % 16, 0)
                                    else VideoState(s.row, s.lin + 1)
    ensures !(y == BorderY && x == 0) && x != LastX ==> VideoStep(s, x, y) == s
  {
    assert Pow2(4) == 16;
  }

  /** n line ends after the restart at the top of the text area. */
  function AfterLines(n: nat): VideoState
  {
    if n == 0 then VideoState(0, 0) else VideoStep(AfterLines(n - 1), LastX, 0)
  }

  /** After n line ends the scanline is n mod 12 and the row n div 12, modulo the 16 rows:
      each text row is 12 scanlines. */
  lemma {:induction false} RowsOfTwelveLines(n: nat)
    ensures AfterLines(n) == VideoState((n / LinesPerRow) % 16, n % LinesPerRow)
  {
    if n > 0 {
      RowsOfTwelveLines(n - 1);
      var s := AfterLines(n - 1);
      WhenRegistersChange(s, LastX, 0);
      var q, r := (n - 1) / 12, (n - 1) % 12;
      assert n - 1 == 12 * q + r;
      if r == 11 {
        assert n == 12 * (q + 1) && n / 12 == q + 1 && n % 12 == 0;
        assert (q % 16 + 1) % 16 == (q + 1) % 16;
      } else {
        assert n == 12 * q + (r + 1) && n / 12 == q && n % 12 == r + 1;
      }
    }
  }
}
