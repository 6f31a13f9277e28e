/** The frame-dump converter image_conv/bmp.py, as a function from the bytes of the dump to
    the bytes of the BMP file: a fixed 54-byte header for a 640x480 top-down 24-bit image,
    then every 16-bit RGB565 word of the dump (little-endian) expanded to a blue, green,
    red byte triple written twice, which doubles the width of the captured frame. Bytes
    are naturals below 256; reading and writing the files is left out. */
module Bmp {

  /** The value of a little-endian byte string. */
  function LittleEndian(bs: seq<nat>): nat
    decreases |bs|
  {
    if |bs| == 0 then 0 else bs[0] + 256 * LittleEndian(bs[1..])
  }

  /** The 32-bit little-endian field at `off`. */
  function Field32(h: seq<nat>, off: nat): nat
    requires off + 4 <= |h|
  {
    LittleEndian(h[off..off + 4])
  }

  function Field16(h: seq<nat>, off: nat): nat
    requires off + 2 <= |h|
  {
    LittleEndian(h[off..off + 2])
  }

  const FrameBytes: nat := 640 * 480 * 3

  /** The header fields from the "compression" field on, given the bitmap-size bytes. */
  function HeaderTail(sizeField: seq<nat>): seq<nat>
  {
    [0x00, 0x00, 0x00, 0x00]
    + sizeField
    + [0x13, 0x0b, 0x00, 0x00] + [0x13, 0x0b, 0x00, 0x00]
    + [0x00, 0x00, 0x00, 0x00]
    + [0x00, 0x00, 0x00, 0x00]
  }

  /** The header fields before that: signature, file size, reserved, pixel-data offset,
      info-header size, width, height, planes, bits per pixel. */
  function HeaderHead(): seq<nat>
  {
    ['B' as nat, 'M' as nat]
    + [0x36, 0x10, 0x0E, 0x00]
    + [0x00, 0x00, 0x00, 0x00]
    + [0x36, 0x00, 0x00, 0x00]
    + [0x28, 0x00, 0x00, 0x00]
    + [0x80, 0x02, 0x00, 0x00]
    + [0x20, 0xFE, 0xFF, 0xFF]
    + [0x01, 0x00]
    + [0x18, 0x00]
  }

  /** The header as the script writes it: its bitmap-size field holds 0x000E0100. */
  function HeaderAsWritten(): seq<nat>
  {
    HeaderHead() + HeaderTail([0x00, 0x01, 0x0E, 0x00])
  }

  /** The header with the bitmap-size field holding the size of the pixel data,
      640 * 480 * 3 = 0x000E1000. */
  function Header(): (h: seq<nat>)
    ensures |h| == 54
  {
    HeaderHead() + HeaderTail([0x00, 0x10, 0x0E, 0x00])
  }

  /** The three colour components of an RGB565 word `i`: `r = (i >> 11) << 3`,
      `g = ((i >> 5) & 0x3f) << 2`, `b = (i & 0x1f) << 3`. */
  datatype Rgb = Rgb(r: nat, g: nat, b: nat)

  function Decode565(i: nat): Rgb
  {
    Rgb(i / 2048 * 8, (i / 32) % 64 * 4, i % 32 * 8)
  }

  /** The six bytes written for one word: blue, green, red, twice. */
  function PixelBytes(c: Rgb): seq<nat>
  {
    [c.b, c.g, c.r, c.b, c.g, c.r]
  }

  /** The pixel data: the dump read two bytes at a time, a trailing odd byte on its own. */
  function Body(dump: seq<nat>): seq<nat>
    decreases |dump|
  {
    if |dump| == 0 then []
    else
      var n := if |dump| >= 2 then 2 else 1;
      PixelBytes(Decode565(LittleEndian(dump[..n]))) + Body(dump[n..])
  }

  function Convert(dump: seq<nat>): seq<nat>
  {
    Header() + Body(dump)
  }

  function ConvertAsWritten(dump: seq<nat>): seq<nat>
  {
    HeaderAsWritten() + Body(dump)
  }

  predicate IsByte(v: nat)
  {
    v < 256
  }

  /** A 4-byte little-endian value, written out. */
  lemma LittleEndian4(a: nat, b: nat, c: nat, d: nat)
    ensures LittleEndian([a, b, c, d]) == a + 256 * b + 65536 * c + 16777216 * d
  {
    assert [a, b, c, d][1..] == [b, c, d];
    assert [b, c, d][1..] == [c, d];
    LittleEndian2(c, d);
    assert LittleEndian([b, c, d]) == b + 256 * (c + 256 * d);
    assert LittleEndian([a, b, c, d]) == a + 256 * (b + 256 * (c + 256 * d));
  }

  lemma LittleEndian2(a: nat, b: nat)
    ensures LittleEndian([a, b]) == a + 256 * b
  {
    assert [a, b][1..] == [b];
    assert [b][1..] == [];
    assert LittleEndian([b]) == b;
  }

  /** The fields in the first part of the header. */
  lemma HeadFields(h: seq<nat>)
    requires |h| == 54 && h[..30] == HeaderHead()
    ensures h[..2] == ['B' as nat, 'M' as nat]
    ensures Field32(h, 2) == 54 + FrameBytes == 0x000E1036
    ensures Field32(h, 10) == 54
    ensures Field32(h, 14) == 40
    ensures Field32(h, 18) == 640
    ensures Field32(h, 22) == 0x1_0000_0000 - 480
    ensures Field16(h, 26) == 1 && Field16(h, 28) == 24
  {
    assert h[2..6] == [0x36, 0x10, 0x0E, 0x00];
    LittleEndian4(0x36, 0x10, 0x0E, 0x00);
    assert h[10..14] == [0x36, 0x00, 0x00, 0x00];
    LittleEndian4(0x36, 0x00, 0x00, 0x00);
    assert h[14..18] == [0x28, 0x00, 0x00, 0x00];
    LittleEndian4(0x28, 0x00, 0x00, 0x00);
    assert h[18..22] == [0x80, 0x02, 0x00, 0x00];
    LittleEndian4(0x80, 0x02, 0x00, 0x00);
    assert h[22..26] == [0x20, 0xFE, 0xFF, 0xFF];
    LittleEndian4(0x20, 0xFE, 0xFF, 0xFF);
    assert h[26..28] == [0x01, 0x00];
    LittleEndian2(0x01, 0x00);
    assert h[28..30] == [0x18, 0x00];
    LittleEndian2(0x18, 0x00);
  }

  /** The bitmap-size field, whatever bytes it is given. */
  lemma SizeField(h: seq<nat>, sizeField: seq<nat>)
    requires |sizeField| == 4 && |h| == 54 && h[30..] == HeaderTail(sizeField)
    ensures Field32(h, 30) == 0
    ensures Field32(h, 34) == LittleEndian(sizeField)
  {
    assert h[30..34] == [0, 0, 0, 0];
    LittleEndian4(0, 0, 0, 0);
    assert h[34..38] == sizeField;
  }

  /** The header describes a 640x480 image, 24 bits per pixel, one plane, stored top
      down (height -480 as a 32-bit two's complement number); its pixel data starts at
      offset 54, just after the header, and the file-size field counts the header and a
      full frame of pixel data, as does the bitmap-size field. */
  lemma HeaderFields()
    ensures |Header()| == Field32(Header(), 10) == 54
    ensures Header()[..2] == ['B' as nat, 'M' as nat]
    ensures Field32(Header(), 2) == 54 + FrameBytes == 0x000E1036
    ensures Field32(Header(), 14) == 40
    ensures Field32(Header(), 18) == 640
    ensures Field32(Header(), 22) == 0x1_0000_0000 - 480
    ensures Field16(Header(), 26) == 1 && Field16(Header(), 28) == 24
    ensures Field32(Header(), 30) == 0
    ensures Field32(Header(), 34) == FrameBytes
  {
    var h := Header();
    assert h[..30] == HeaderHead();
    HeadFields(h);
    assert h[30..] == HeaderTail([0x00, 0x10, 0x0E, 0x00]);
    SizeField(h, [0x00, 0x10, 0x0E, 0x00]);
    LittleEndian4(0x00, 0x10, 0x0E, 0x00);
  }

  /** As written, the bitmap-size field disagrees with the file-size field: it reads
      0x000E0100 = 917760, not the 921600 bytes of pixel data the file size implies. */
  lemma SizeFieldAsWritten()
    ensures Field32(HeaderAsWritten(), 34) == 0x000E0100
    ensures Field32(HeaderAsWritten(), 34) != Field32(HeaderAsWritten(), 2) - Field32(HeaderAsWritten(), 10)
  {
    var h := HeaderAsWritten();
    assert h[..30] == HeaderHead();
    HeadFields(h);
    assert h[30..] == HeaderTail([0x00, 0x01, 0x0E, 0x00]);
    SizeField(h, [0x00, 0x01, 0x0E, 0x00]);
    LittleEndian4(0x00, 0x01, 0x0E, 0x00);
  }

  /** The two headers differ in byte 35 only. */
  lemma HeadersDiffer()
    ensures |HeaderAsWritten()| == |Header()|
    ensures forall k :: 0 <= k < 54 ==> (HeaderAsWritten()[k] == Header()[k] <==> k != 35)
  {
    var a, b := HeaderAsWritten(), Header();
    var t, u := HeaderTail([0x00, 0x01, 0x0E, 0x00]), HeaderTail([0x00, 0x10, 0x0E, 0x00]);
    assert |t| == |u| == 24;
    forall k | 0 <= k < 54
      ensures a[k] == b[k] <==> k != 35
    {
      if k >= 30 {
        assert a[k] == t[k - 30] && b[k] == u[k - 30];
      }
    }
  }

  /** The corrected header is consistent: file size minus pixel offset is the bitmap
      size. */
  lemma SizeFieldCorrected()
    ensures Field32(Header(), 34) == Field32(Header(), 2) - Field32(Header(), 10)
  {
    HeaderFields();
  }

  /** Each component fits a byte with its low bits clear, and the three fields rebuild
      the 16-bit word: the decoding loses nothing. */
  lemma Decode565RoundTrip(i: nat)
    requires i < 0x1_0000
    ensures var c := Decode565(i);
            && IsByte(c.r) && IsByte(c.g) && IsByte(c.b)
            && c.r % 8 == 0 && c.g % 4 == 0 && c.b % 8 == 0
            && (c.r / 8) * 2048 + (c.g / 4) * 32 + c.b / 8 == i
  {
    var q, rm := i / 2048, i % 2048;
    var hi, lo := rm / 32, rm % 32;
    assert i == 2048 * q + rm && q < 32;
    assert rm == 32 * hi + lo && hi < 64;
    assert i == 32 * (64 * q + hi) + lo;
    assert i / 32 == 64 * q + hi && i % 32 == lo;
    assert (64 * q + hi) % 64 == hi;
  }

  /** A one-byte word (the trailing byte of an odd-length dump) has no red. */
  lemma OddByteNoRed(i: nat)
    requires i < 256
    ensures Decode565(i).r == 0
  {
  }

  /** Six output bytes per input word, a trailing odd byte counting as a word. */
  lemma {:induction false} BodyLength(dump: seq<nat>)
    ensures |Body(dump)| == 6 * ((|dump| + 1) / 2)
    decreases |dump|
  {
    if |dump| > 0 {
      var n := if |dump| >= 2 then 2 else 1;
      BodyLength(dump[n..]);
    }
  }

  /** The file is the 54-byte header followed by six bytes per word; the file the source
      writes has the same length and pixel bytes, behind its own header. */
  lemma ConvertLength(dump: seq<nat>)
    ensures |Convert(dump)| == 54 + 6 * ((|dump| + 1) / 2)
    ensures Convert(dump)[..54] == Header()
    ensures |ConvertAsWritten(dump)| == |Convert(dump)|
    ensures ConvertAsWritten(dump)[..54] == HeaderAsWritten()
    ensures ConvertAsWritten(dump)[54..] == Convert(dump)[54..]
  {
    BodyLength(dump);
    HeadersDiffer();
    assert Convert(dump)[54..] == Body(dump);
    assert ConvertAsWritten(dump)[54..] == Body(dump);
  }

  /** The word number k of the dump: bytes 2k and 2k+1, or 2k alone at the end. */
  function WordAt(dump: seq<nat>, k: nat): nat
    requires 2 * k < |dump|
  {
    LittleEndian(dump[2 * k..if 2 * k + 2 <= |dump| then 2 * k + 2 else |dump|])
  }

  /** The six bytes of word k of the dump sit at 6k in the pixel data. */
  lemma {:induction false} BodyAt(dump: seq<nat>, k: nat)
    requires 2 * k < |dump|
    ensures 6 * k + 6 <= |Body(dump)|
    ensures Body(dump)[6 * k..6 * k + 6] == PixelBytes(Decode565(WordAt(dump, k)))
    decreases k
  {
    BodyLength(dump);
    var n := if |dump| >= 2 then 2 else 1;
    var rest := dump[n..];
    var head := PixelBytes(Decode565(LittleEndian(dump[..n])));
    assert Body(dump) == head + Body(rest);
    if k > 0 {
      BodyAt(rest, k - 1);
      assert WordAt(rest, k - 1) == WordAt(dump, k) by {
        assert rest[2 * (k - 1)..if 2 * (k - 1) + 2 <= |rest| then 2 * (k - 1) + 2 else |rest|]
               == dump[2 * k..if 2 * k + 2 <= |dump| then 2 * k + 2 else |dump|];
      }
      assert Body(dump)[6 * k..6 * k + 6] == Body(rest)[6 * (k - 1)..6 * (k - 1) + 6];
    }
  }

  /** In the file, as written or corrected, word k of the dump becomes the pixel pair at
      byte 54 + 6k: blue, green, red of the decoded word, twice. */
  lemma ConvertAt(dump: seq<nat>, k: nat)
    requires 2 * k < |dump|
    ensures 54 + 6 * k + 6 <= |Convert(dump)|
    ensures Convert(dump)[54 + 6 * k..54 + 6 * k + 6] == PixelBytes(Decode565(WordAt(dump, k)))
    ensures 54 + 6 * k + 6 <= |ConvertAsWritten(dump)|
    ensures ConvertAsWritten(dump)[54 + 6 * k..54 + 6 * k + 6] == PixelBytes(Decode565(WordAt(dump, k)))
  {
    BodyAt(dump, k);
    HeadersDiffer();
    assert Convert(dump)[54 + 6 * k..54 + 6 * k + 6] == Body(dump)[6 * k..6 * k + 6];
    assert ConvertAsWritten(dump)[54 + 6 * k..54 + 6 * k + 6] == Body(dump)[6 * k..6 * k + 6];
  }
}
