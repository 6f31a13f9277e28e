# ulx3s nMigen examples: a Dafny model of the core designs

This project models the synchronous logic of a set of nMigen designs for the ULX3S FPGA
board and proves properties of them. Every design is a transition system: an immutable
record of its registers and a pure step function for one clock edge. Memories are
sequences. Combinational signals are computed from the pre-edge state and the tick's
inputs. All `m.d.sync` assignments of a tick are committed together, and where two of
them target one register the later one in program order wins. Each assignment
truncates to the register's width, written out explicitly (module `Bits`, or literal
moduli such as `% 0x100_0000`).

- `Conv3` (conv/conv3.py) is a streaming 3x3 convolution. Its registers are:
  - the intake counters `x`/`y`;
  - the `started` and `o_stall` latches;
  - two line buffers with synchronous, transparent read ports;
  - the window `p00..p21` (with `p22` combinational) and the delayed samples `pd0`/`pd1`;
  - the output pixel and its coordinates `o_x`/`o_y`.

  `Conv3Frame` proves the frame theorem. A unit fed one frame in raster order from its
  frame-start state emits, in raster order, exactly the edge-replicated convolution of
  the image: `w*h` pixels labelled `(0,0)` to `(w-1,h-1)`. It then returns to the
  frame-start state. Every tick of a frame is one the unit processes, so whenever
  bits_for(w) <= bits_for(h) (the 6x4 bench, ImageConv's 320x480) the unit as written
  goes through the same states and the theorem holds of it too. `Conv3Kernels`
  specialises the theorem to the identity kernel (the image comes back unchanged,
  including the 6x4 bench of conv/sim_conv3.py) and to constant images.
- `ImageConv` (image_conv/image_conv.py) has twelve `Conv3` units: four kernels times
  three RGB565 channels. All units run in lockstep on one `i_valid`. It also models the
  `sel` multiplexer, the coordinate mirrors and the `o_stall`/`o_valid` wiring.
- `Osd` (image_conv/osd.py) is the menu overlay, a registered per-pixel compositor.
- `Sccb` (ov7670/sccb.py) is the 13-state SCCB write transmitter. `Ov7670Config`
  (ov7670/ov7670_config.py) is the ROM walker that drives it.
- `Ps2Test` (ps2_keyboard/ps2test.py) covers `ByteToHex` and the three-state sender
  that prints a PS/2 byte as two hex digits.
- `Bmp` (image_conv/bmp.py) is the RGB565-dump-to-24-bit-BMP converter, as a function
  from bytes to bytes.
- `Video` (retro/video.py) is the character-cell address and the row/scan-line counters.
- `SdramTest` (sdram16/test_sdram16.py) is the SDRAM self-test sequencer. The
  controller's `data_out` is an input.
- `Music1`, `Music2`, `Music2a` and `Music3` (audio/) are the square-wave tone
  generators.
- `LedGlow` (leds/ledglow.py) is the first-order sigma-delta LED dimmer.

For `Conv3` the model adopts two corrections to the source, and for `Music3` and `Bmp`
one each; see "## Findings". Each is proved against a member that models the source as
written. The `x2` read address is one place where the design's stated intent ("two
columns ahead with wraparound") and the code differ. The model follows the code in
`Conv3.X2AsWritten`/`Conv3.StepAsWritten` and proves when the two agree.

## Model

| member | source | states |
|---|---|---|
| Conv3.Reset | conv/conv3.py:23-38 | power-on: intake counters 0, no latch set, `o_valid` low, output coordinates at (w-1, h-1), line buffers w words deep |
| Conv3.X2 | conv/conv3.py:33-35 | for every column x < w the read address is (x+2) mod w, inside the buffer |
| Conv3.WritePort | conv/conv3.py:73-79 | a write port changes only the enabled address, to the written word, and keeps the depth |
| Conv3.Taps | conv/conv3.py:159-167 | nine taps in kernel order |
| Conv3.OutPixel | conv/conv3.py:159-167 | the floor-shifted weighted sum is wrapped into the dw-bit `o_p` (no saturation) |
| Conv3.X2AsWritten | conv/conv3.py:34-35 | the read address as the source computes it: the intended (x+2) mod w cut to the `bits_for(h)` bits of the `x2` register |
| Conv3.ReadPort | conv/conv3.py:58-63 | a transparent synchronous read port: it registers the word being written when the write address matches, else the stored word (0 past the depth) |
| Conv3.P22 | conv/conv3.py:51-52 | the combinational bottom-right tap: `p21` in column 0, `p12` in the flush row y == h, otherwise the incoming pixel |
| Conv3.NextWindow | conv/conv3.py:122-155 | the window registers after an active tick: the three priming cases (0,0), (1,0), (0,1), then the slide with its column-0, last-column and flush-row substitutions |
| Conv3.Tick | conv/conv3.py:72-175 | one clock edge of the unit: the line-buffer write enables and data, the x/y counters, the `started`/`o_stall` latches, `pd0`/`pd1`, the window, the output pixel and the output label, with the later of two assignments winning |
| Conv3.StepAsWritten | conv/conv3.py:84-93 | as written, an idle tick changes `o_valid` and also the read-port registers, which re-read at the narrow `x2` |
| Conv3.Step | conv/conv3.py:84-157 | with the corrections, an idle tick (neither `i_valid` nor `o_stall`) only drops `o_valid`; `o_valid` is high exactly after an active, started, non-priming tick |
| Conv3.SuccPred | conv/conv3.py:169-175 | the `o_x`/`o_y` raster successor and predecessor are inverse on the frame |
| Conv3.ResetControl | conv/conv3.py:23-38 | the control invariant holds at power-on |
| Conv3.StepControl | conv/conv3.py:95-175 | the control invariant is kept by every tick for any input. Active ticks move x/y one raster step, wrapping at w-1 and resetting at y == h+1. `started` is set only at (0,1) and `o_stall` only at (w-1,h-1); `o_stall` is high exactly while y >= h, i.e. for the last row plus one pixel. Each emitted pixel carries the label of the window's centre, one raster step after the previous label |
| Conv3.StepIgnoresValid | conv/conv3.py:85 | no tick reads `o_valid` |
| Conv3.RunIgnoresValid | conv/conv3.py:85 | nor does any run of ticks |
| Conv3.PauseInvisible | conv/conv3.py:88-93 | inserting an idle tick anywhere outside the flush changes nothing emitted, labels included |
| Conv3.X2AsWrittenAgrees | conv/conv3.py:34-35 | when bits_for(w) <= bits_for(h) the narrow `x2` equals (x+2) mod w |
| Conv3.AsWrittenAgreesOnActiveTicks | conv/conv3.py:34-93 | on active ticks with such a geometry the source as written and the corrected unit take the same step |
| Conv3.X2AsWrittenWrapsEarly | conv/conv3.py:34-35 | with the default 320x240, at x = 254 the source reads address 0 where column 256 is needed |
| Conv3.GapChangesOutputAsWritten | conv/conv3.py:80-93 | as written, one idle tick before two pixels changes the value emitted for (1,0) from 12 to 13 |
| Conv3.GapContinuousAsWritten | conv/conv3.py:80-93 | the same scenario without the idle tick emits 12 at (1,0) |
| Conv3.GapPausedAsWritten | conv/conv3.py:80-93 | with the idle tick, as written, (1,0) carries 13 |
| Conv3.GapInvisibleCorrected | conv/conv3.py:88-93 | the corrected unit emits the same state, 12 at (1,0), with or without the idle tick |
| Conv3Frame.Clamp | conv/conv3.py:123-155 | edge replication picks the nearest in-range index, the index itself when in range |
| Conv3Frame.Convolved | conv/conv3.py:159-167 | the reference output image: the kernel on the edge-replicated neighbourhood of every pixel, shifted and wrapped |
| Conv3Frame.TicksLeftValue | conv/conv3.py:96-112 | a frame takes (h+1)*w + 1 ticks from (0,0), the flush row and final tick included |
| Conv3Frame.StepMem | conv/conv3.py:73-82 | line buffer 1 holds the intake row, and line buffer 0 the row above it, for every written word |
| Conv3Frame.StepPorts | conv/conv3.py:80-93 | the read-port registers hold the next column of both buffered rows and `pd0`/`pd1` the delayed samples |
| Conv3Frame.SlideWindow | conv/conv3.py:144-155 | the shift branch moves the window one raster step of the image, replicating edges and the last row |
| Conv3Frame.StepWindow | conv/conv3.py:123-155 | after the three priming cases and every slide, the window holds the neighbourhood of the centre pixel |
| Conv3Frame.TapsAtCenter | conv/conv3.py:52-167 | the nine taps, `p22` included, are the 3x3 edge-replicated neighbourhood of the centre pixel |
| Conv3Frame.StepOutput | conv/conv3.py:144-175 | a started tick emits the convolution at the window's centre, labelled with that centre |
| Conv3Frame.StepFrameInv | conv/conv3.py:73-155 | the data invariant (buffers, ports, window) is kept by every fed tick of a frame |
| Conv3Frame.RemainingStep | conv/conv3.py:144-175 | each fed tick emits exactly the head of the reference stream still to come |
| Conv3Frame.LastTick | conv/conv3.py:104-112 | the flush tick emits pixel (w-1, h-1) and returns to the frame-start state |
| Conv3Frame.FeedEnds | conv/conv3.py:104-112 | the rest of a frame always ends at the frame-start state |
| Conv3Frame.FeedFrom | conv/conv3.py:88-175 | from any position of a frame the remaining ticks emit exactly the remaining reference pixels |
| Conv3Frame.FrameTheorem | conv/conv3.py:26-177 | one frame from the frame-start state emits the raster scan of the convolved image, first pixel (0,0), and ends at frame start |
| Conv3Frame.FeedAsWritten | conv/conv3.py:26-177 | a frame fed, pixel by pixel and then through the flush, to the unit as written |
| Conv3Frame.FeedAgrees | conv/conv3.py:34-120 | every tick of a frame is one the unit processes (pixels while y < h, the stall from y == h on), so when bits_for(w) <= bits_for(h) the unit as written goes through exactly the corrected unit's states, for any number of ticks |
| Conv3Frame.FrameTheoremAsWritten | conv/conv3.py:26-177 | under that geometry the unit as written also emits the raster scan of the convolved image over one frame and ends at the frame start |
| Conv3Frame.FrameLength | conv/conv3.py:169-175 | a frame emits w*h pixels |
| Conv3Frame.FrameIndex | conv/conv3.py:169-175 | pixel (x,y) is the (y*w + x)-th pixel emitted |
| Conv3Kernels.DotIdentity | image_conv/image_conv.py:47-50 | the identity kernel's weighted sum is the centre tap |
| Conv3Kernels.DotConstant | conv/conv3.py:159-167 | a weighted sum of equal taps is the tap times the kernel sum |
| Conv3Kernels.IdentityReproduces | conv/sim_conv3.py:13-15 | the identity kernel with no shift maps every image of in-range pixels to itself |
| Conv3Kernels.ConstantFrame | conv/conv3.py:159-167 | a constant image convolves to the constant times the kernel sum, shifted and wrapped |
| Conv3Kernels.IdentityFrame | conv/sim_conv3.py:13-15 | with the identity kernel a frame emits the input image in raster order; so does the unit as written when bits_for(w) <= bits_for(h) |
| Conv3Kernels.SimImage | conv/sim_conv3.py:7-9 | the bench feeds pixel 6y+x+1 at (x,y) of a 6x4 frame |
| Conv3Kernels.SimGeometry | conv/sim_conv3.py:15 | the bench's 6x4 geometry has bits_for(6) == bits_for(4) == 3, so its `x2` register is wide enough |
| Conv3Kernels.SimFrame | conv/sim_conv3.py:7-16 | from power-on the bench's unit as written emits pixels 1..24 unchanged, pixel j at (j mod 6, j div 6), within 31 ticks, going through the same states as the corrected unit |
| ImageConv.Kernel | image_conv/image_conv.py:46-68 | each filter has a nine-weight kernel |
| ImageConv.UnitParams | image_conv/image_conv.py:70-97 | each unit is a valid `Conv3` of the configured frame size |
| ImageConv.ChannelIn | image_conv/image_conv.py:33-37 | every unit receives the shared `i_valid` |
| ImageConv.UnitStep | image_conv/image_conv.py:33-101 | every unit takes one `Conv3` step on its own channel of the pixel |
| ImageConv.UnitReset | image_conv/image_conv.py:70-97 | power-on puts every unit in its `Conv3` reset state |
| ImageConv.ImStep | image_conv/image_conv.py:33-101 | one clock edge of the filter: each of the twelve units takes one `Conv3` step on its own channel of the pixel and the shared `i_valid` |
| ImageConv.StepSameControl | image_conv/image_conv.py:103-109 | units of one frame size with the same `i_valid` keep identical counters, latches and coordinates whatever their kernel or pixels |
| ImageConv.ImResetInv | image_conv/image_conv.py:103-109 | at power-on all twelve units are in lockstep with `ident_r` |
| ImageConv.StepOpFits | image_conv/image_conv.py:26-28 | an output register never exceeds its channel width |
| ImageConv.ImStepInv | image_conv/image_conv.py:103-109 | lockstep and each unit's invariants are kept by every tick |
| ImageConv.FlipInvolution | image_conv/image_conv.py:107-108 | the mirrored coordinate stays in the frame and mirroring twice is the identity |
| ImageConv.OutputColour | image_conv/image_conv.py:111-120 | in every reachable state each colour output is the selected bank's unit output at its full channel width |
| ImageConv.OutputPosition | image_conv/image_conv.py:103-109 | `o_stall` and the (possibly mirrored) coordinates can be read off any unit, lie inside the frame, and `o_valid` is the input `i_valid` |
| ImageConv.ValidBeforeFirstPixel | image_conv/image_conv.py:106 | as wired, `o_valid` is high on the first tick of a frame while no unit has produced a pixel |
| ImageConv.Select | image_conv/image_conv.py:111-120 | the multiplexer on the 4-bit `sel`: 1 blur, 2 sharpen, 3 edge, every other value (0 and 4 to 15) identity |
| ImageConv.Flip | image_conv/image_conv.py:107-108 | a mirrored coordinate `res-1-v` when the flip input is set, else `v`, assigned to the output's width |
| ImageConv.Outputs | image_conv/image_conv.py:103-120 | the combinational outputs: stall and coordinates from `ident_r`, `o_valid` from the stream's `i_valid`, the colour from the selected bank |
| ImageConv.KernelGains | image_conv/image_conv.py:47-68 | kernel sums: 16 = 2^4 for blur (shift 4), 1 for sharpen and identity (shift 0), 0 for edge |
| ImageConv.ConstantGain | image_conv/image_conv.py:47-97 | a constant that fits the channel comes out of each kernel's shift and wrap as itself, or 0 for edge |
| ImageConv.ConstantFrames | image_conv/image_conv.py:47-97 | on a constant frame identity, sharpen and blur return the constant and edge returns 0 |
| ImageConv.PlaneOk | image_conv/image_conv.py:75-101 | each channel plane is an image of the unit's frame size |
| ImageConv.FeedInputAgrees | image_conv/image_conv.py:33-37 | a unit in lockstep is fed exactly what it would be fed alone |
| ImageConv.UnitFeed | image_conv/image_conv.py:33-101 | feeding the filter a frame feeds every unit its channel of that frame |
| ImageConv.ImageFrame | image_conv/image_conv.py:70-101 | over one frame every unit emits its kernel's convolution of its channel plane, in raster order; for a frame no wider than tall (the default 320 x 480) each unit's states are those of the unit as written fed its plane alone |
| Osd.OsdStep | image_conv/osd.py:28-181 | each registered output channel fits 8 bits |
| Osd.LowBits | image_conv/osd.py:34-46 | "low six bits all ones" is v mod 64 = 63, and `x[:4]` is x mod 16 |
| Osd.PassOutsideBox | image_conv/osd.py:32-37 | display off or outside the box: red copied; green 0xFF on grid lines (x or y mod 64 = 63) when `grid`; blue 0xFF in the 2-pixel frame border when `border` |
| Osd.BoxIgnoresStream | image_conv/osd.py:49-58 | inside the box the incoming pixel, grid and border are ignored |
| Osd.SlotIsBand | image_conv/osd.py:39-61 | the slot of a row is the 16-row band counted from `y_start` |
| Osd.OtherSlotsBlack | image_conv/osd.py:53-58 | inside the box every slot but the highlighted one is black |
| Osd.SelectedRingRed | image_conv/osd.py:69-76 | with `sel`, the outer ring of the highlighted cell is red, except where option 7's blue ring crosses it |
| Osd.FilledIcons | image_conv/osd.py:79-165 | options 0 to 4 fill the inner square white, red, green, blue, mid-gray; option 9 is white above row 4 and black below |
| Osd.XFlipIcon | image_conv/osd.py:120-127 | option 5 is white exactly on the two diagonals of the inner square, black elsewhere in it |
| Osd.NoIconAbove11 | image_conv/osd.py:79-179 | options 12 to 15 draw only the gray cell and the red ring |
| Sccb.ResetInv | ov7670/sccb.py:26-40 | the FSM invariant holds at power-on |
| Sccb.SccbStep | ov7670/sccb.py:42-160 | one clock edge of the 13-state transmitter, with the 2-bit `byte_counter` and 4-bit `byte_index` wrapping |
| Sccb.StepInv | ov7670/sccb.py:42-160 | the invariant is kept; `fsm_state` stays in 0..12; outside IDLE `ready` stays low |
| Sccb.IdleInv | ov7670/sccb.py:43-58 | IDLE keeps the invariant |
| Sccb.WaitInv | ov7670/sccb.py:153-160 | TIMER keeps the invariant |
| Sccb.LoadInv | ov7670/sccb.py:67-84 | LOAD_BYTE keeps the invariant |
| Sccb.ShiftInv | ov7670/sccb.py:109-117 | TX_BYTE_4 keeps the invariant |
| Sccb.SlotPhaseInv | ov7670/sccb.py:59-108 | START_SIGNAL and TX_BYTE_1..3 keep the invariant |
| Sccb.StopPhaseInv | ov7670/sccb.py:118-152 | END_SIGNAL_1..4 and DONE keep the invariant |
| Sccb.IdleStep | ov7670/sccb.py:43-58 | IDLE clears index, counter and both enables; `start` latches address and data, drops `ready` and goes to START_SIGNAL, otherwise `ready` is raised |
| Sccb.BusyIgnoresInputs | ov7670/sccb.py:59-160 | outside IDLE the inputs are not read |
| Sccb.LoadOrder | ov7670/sccb.py:67-84 | LOAD_BYTE sends 0x42, the address, then the data, and after the third byte goes to END_SIGNAL_1 |
| Sccb.SlotBit | ov7670/sccb.py:92-117 | in slot j < 8 SIOD is driven low exactly when bit 7-j of the byte is 0 (MSB first); slot 8 releases it |
| Sccb.TopBitOfShift | ov7670/sccb.py:101-111 | bit 7 of the byte shifted left j times is bit 7-j of the byte |
| Sccb.StartAndStop | ov7670/sccb.py:59-145 | start drives SIOD with SIOC released; the stop sequence drives SIOC, drives SIOD, releases SIOC, releases SIOD |
| Sccb.Waits | ov7670/sccb.py:59-152 | every bus phase waits int(25e6/(4*1e5)) = 62 ticks, DONE int(2*25e6/1e5) = 500 |
| Sccb.TimerWait | ov7670/sccb.py:153-160 | a wait of t lasts t+1 ticks whatever the inputs, then resumes at the return state |
| Ov7670Config.CfgResetInv | ov7670/ov7670_config.py:15-24 | the FSM invariant holds at power-on |
| Ov7670Config.CfgStep | ov7670/ov7670_config.py:28-68 | one clock edge of the ROM walker: IDLE, SEND_CMD with its end-of-ROM, pause and register-write entries, DONE and TIMER |
| Ov7670Config.CfgStepInv | ov7670/ov7670_config.py:28-68 | the invariant is kept by every tick |
| Ov7670Config.IdleStep | ov7670/ov7670_config.py:29-35 | IDLE forces `rom_addr` to 0; `start` moves to SEND_CMD and clears `done` |
| Ov7670Config.EndOfRom | ov7670/ov7670_config.py:38-62 | the 0xFFFF entry leads to DONE and then IDLE with `done` set |
| Ov7670Config.WaitsForReady | ov7670/ov7670_config.py:47-57 | a register entry changes nothing until `sccb_ready` |
| Ov7670Config.WriteSplitsWord | ov7670/ov7670_config.py:53-55 | the entry's high byte becomes `sccb_addr` and its low byte `sccb_data`, and together they rebuild it |
| Ov7670Config.StartPulse | ov7670/ov7670_config.py:56-64 | `sccb_start` rises exactly when a register entry is accepted and never stays high two ticks |
| Ov7670Config.WriteCycle | ov7670/ov7670_config.py:47-68 | an accepted entry returns to SEND_CMD two ticks later with `rom_addr` advanced by one mod 256 and the word split |
| Ov7670Config.CfgTimerWait | ov7670/ov7670_config.py:63-68 | a wait of t lasts t+1 ticks, then returns with `sccb_start` low |
| Ov7670Config.PauseCycle | ov7670/ov7670_config.py:40-68 | the 0xFFF0 entry pauses 250000 + 2 ticks and advances `rom_addr` by one |
| Ps2Test.ByteToHex | ps2_keyboard/ps2test.py:22-25 | a nibble maps to an ASCII code in '0'..'9' or 'a'..'f' |
| Ps2Test.HexValue | ps2_keyboard/ps2test.py:22-25 | the digit's value is a nibble |
| Ps2Test.HexRoundTrip | ps2_keyboard/ps2test.py:22-25 | reading the digit back gives the nibble |
| Ps2Test.HexInjective | ps2_keyboard/ps2test.py:22-25 | distinct nibbles give distinct digits, decimal digits exactly for nibbles below 10 |
| Ps2Test.TxResetInv | ps2_keyboard/ps2test.py:48-49 | the sender's invariant holds at power-on |
| Ps2Test.TxStep | ps2_keyboard/ps2test.py:61-80 | one clock edge of the sender: state 0 waits for `ps2.valid`, states 1 and 2 wait for `tx_ack` |
| Ps2Test.TxStepInv | ps2_keyboard/ps2test.py:61-80 | `tx_state` never reaches 3 and `tx_ready` is high exactly outside state 0 |
| Ps2Test.ByteStarts | ps2_keyboard/ps2test.py:62-68 | in state 0 a valid byte raises `tx_ready` with the high nibble's digit; nothing else changes anything |
| Ps2Test.AcksAdvance | ps2_keyboard/ps2test.py:69-80 | an ack in state 1 sends the low nibble of the byte present at ack time; an ack in state 2 drops `tx_ready`; without an ack nothing changes |
| Ps2Test.WaitHolds | ps2_keyboard/ps2test.py:69-80 | however many ticks the UART takes to acknowledge, a busy sender holds its state and the offered digit |
| Ps2Test.DigitsSpellByte | ps2_keyboard/ps2test.py:61-80 | a byte arrives, the UART takes any number of ticks before its first ack and `ps2.data` still holds the byte at that ack: the high digit is offered throughout the wait, and the two digits sent read back as the byte |
| Bmp.Header | image_conv/bmp.py:5-44 | the header is 54 bytes |
| Bmp.HeaderAsWritten | image_conv/bmp.py:5-44 | the 54 header bytes exactly as the script writes them, image-size field included |
| Bmp.Decode565 | image_conv/bmp.py:49-52 | the three colour bytes of an RGB565 word: the 5/6/5 fields shifted up by 3, 2 and 3 |
| Bmp.Body | image_conv/bmp.py:46-58 | the pixel data: the dump read two bytes at a time (a trailing odd byte alone), each word written as blue, green, red twice |
| Bmp.Convert | image_conv/bmp.py:3-58 | the converted file with the corrected header |
| Bmp.ConvertAsWritten | image_conv/bmp.py:3-58 | the file the script writes: its header followed by the same pixel data |
| Bmp.HeadFields | image_conv/bmp.py:5-29 | 'BM', file size 0x000E1036 = 54 + 640*480*3, offset 54, 40-byte info header, width 640, height -480, 1 plane, 24 bits |
| Bmp.SizeField | image_conv/bmp.py:31-44 | compression 0 and the image-size field as written in bytes 34..37 |
| Bmp.HeaderFields | image_conv/bmp.py:5-44 | the corrected header's fields, image size 640*480*3 included, and header length equal to the pixel-data offset |
| Bmp.SizeFieldAsWritten | image_conv/bmp.py:34-35 | as written the image-size field is 0x000E0100, not file size minus offset |
| Bmp.HeadersDiffer | image_conv/bmp.py:35 | the written and corrected headers differ in byte 35 only |
| Bmp.SizeFieldCorrected | image_conv/bmp.py:34-35 | corrected, the image size is file size minus offset |
| Bmp.Decode565RoundTrip | image_conv/bmp.py:49-52 | each colour is a byte with zero low bits, and the 5/6/5 fields recovered from them rebuild the word |
| Bmp.OddByteNoRed | image_conv/bmp.py:47-52 | a trailing odd byte decodes with red 0 |
| Bmp.BodyLength | image_conv/bmp.py:46-58 | n input bytes give 6 * ceil(n/2) output bytes |
| Bmp.ConvertLength | image_conv/bmp.py:3-58 | the file is the 54-byte header followed by those bytes; the file as written has the same length, its own header as the first 54 bytes and the same bytes after them |
| Bmp.BodyAt | image_conv/bmp.py:46-58 | the k-th input word yields bytes 6k..6k+5: (b,g,r) twice |
| Bmp.ConvertAt | image_conv/bmp.py:46-58 | the same, 54 bytes into the file, as written or corrected |
| Video.ColMeaning | retro/video.py:35-43 | col = ((x-64) mod 1024) div 16 mod 32, and (x-64) div 16 inside the 512-pixel text area |
| Video.Col | retro/video.py:35-42 | the text column `(x - 64)[4:]` in 10-bit arithmetic, kept to 5 bits |
| Video.CAddr | retro/video.py:43 | `c_addr`: the column in the low 5 bits, the row above them |
| Video.VideoStep | retro/video.py:46-57 | one pixel-clock edge: the reset at (0,48), else the line count at x == 639 with its wrap into the row |
| Video.VideoResetInv | retro/video.py:46-50 | the frame reset gives row 0, line 0 |
| Video.VideoStepInv | retro/video.py:46-57 | once reset, `lin` stays at most 11 and `row` within 4 bits |
| Video.CAddrCell | retro/video.py:43 | `c_addr` is below 512, with row = c_addr div 32 and column = c_addr mod 32 |
| Video.WhenRegistersChange | retro/video.py:46-57 | reset at (0,48); at x == 639 `lin` increments, wrapping after 11 and advancing `row` mod 16; no other tick changes them |
| Video.RowsOfTwelveLines | retro/video.py:51-57 | after n scan lines the counters are row (n div 12) mod 16, line n mod 12 |
| SdramTest.TestStepInv | sdram16/test_sdram16.py:73-125 | the sequencer's invariant is kept by every tick |
| SdramTest.TestStep | sdram16/test_sdram16.py:73-125 | one tick of the sequencer: the power-on counter, the error flag, the count and request registers, the address and the phase flags |
| SdramTest.PowerOnDelay | sdram16/test_sdram16.py:73-117 | `reset_cnt` counts up and saturates at 31, and `addr` does not move before then |
| SdramTest.RequestsExclusive | sdram16/test_sdram16.py:105-109 | `we` is (count 0 and writing), `oe` is (count 0 and reading), never both |
| SdramTest.ErrorSticky | sdram16/test_sdram16.py:100-102 | `err` becomes set exactly when it was set or a read-phase word differs from the address's low 16 bits |
| SdramTest.PhaseFlags | sdram16/test_sdram16.py:119-125 | `read` rises only at the all-ones address and never falls; `passed` rises only there in the read phase without error, and never falls |
| SdramTest.WriteCycle | sdram16/test_sdram16.py:104-117 | in the write phase each address is written in two ticks |
| SdramTest.ReadPhaseStep | sdram16/test_sdram16.py:104-117 | in the read phase `count` wraps at 32 and `addr` advances only at count 31 |
| SdramTest.ReadSweep | sdram16/test_sdram16.py:111-121 | each address is held for the rest of a 32-tick count in the read phase, then advances by one mod 2^24 |
| Music1.ToneStepInv | audio/music1.py:21-30 | the counter stays below clkdivider and the output is 0 or 15, flipping exactly at counter 0 |
| Music1.ToneStep | audio/music1.py:24-30 | one clock edge: reload clkdivider-1 and flip the output at counter 0, otherwise count down |
| Music1.BoardDivider | audio/music1.py:21 | at 25 MHz clkdivider is 28409 and a period of 2*clkdivider ticks is within two ticks of f/440 |
| Music1.CountDown | audio/music1.py:24-30 | from counter k the output flips k+1 ticks later with the counter reloaded to clkdivider-1 |
| Music1.Holds | audio/music1.py:29-30 | before the counter reaches 0 the output holds |
| Music1.Period | audio/music1.py:21-30 | after a reload the output holds clkdivider ticks then flips, and two half periods restore the state |
| Music2.SirenStepInv | audio/music2.py:21-34 | the counter stays below clkdivider, `tone` within 24 bits, the output 0 or 15 |
| Music2.SirenStep | audio/music2.py:21-34 | one clock edge: the 24-bit tone advances; at counter 0 the output flips and the reload depends on tone bit 23 |
| Music2.TopBit | audio/music2.py:23-29 | `tone[-1]` is bit 23, set exactly in the upper half of the 24-bit range |
| Music2.ReloadHalves | audio/music2.py:27-34 | at counter 0 the output flips and the half period becomes clkdivider ticks in the upper half of the tone cycle and clkdivider/2 in the lower |
| Music2.ToneAfter | audio/music2.py:23-25 | after n ticks `tone` has advanced by n mod 2^24 |
| Music2.FlipAfter | audio/music2.py:27-34 | from counter k the output flips k+1 ticks later, reloaded by the tone of the flipping tick |
| Music2.CountDown | audio/music2.py:23-34 | the two combined: flip time, tone and new half period |
| Music2a.SweepsAreTriangles | audio/music2a.py:29-37 | the fast and slow sweeps are triangles of the 8-bit phases `tone[15:23]` and `tone[18:26]` |
| Music2a.TriangleRamp | audio/music2a.py:29-37 | each triangle stays in 7 bits, runs 127 down to 0 and back up by one per step, continuous across the wrap |
| Music2a.DividerRange | audio/music2a.py:39-42 | clkdivider = 8192 + 64*sweep with `tone[27]` choosing the sweep, in [8192, 16320], a multiple of 64 |
| Music2a.ClkDivider | audio/music2a.py:29-42 | the divider `Cat(0 x6, sweep, 01)` with bit 27 choosing the slow or the fast sweep |
| Music2a.SweepStep | audio/music2a.py:21-51 | one clock edge: the 28-bit tone advances; at counter 0 the output flips and the counter reloads the divider |
| Music2a.SweepStepInv | audio/music2a.py:21-51 | the counter stays at most 16320 (within 15 bits), `tone` within 28 bits, the output 0 or 15 |
| Music2a.ToneAfter | audio/music2a.py:23-27 | after n ticks `tone` has advanced by n mod 2^28 |
| Music2a.FlipAfter | audio/music2a.py:45-51 | from counter k the output flips k+1 ticks later, reloaded with the divider of that tick |
| Music2a.HalfPeriod | audio/music2a.py:27-51 | each half period lasts clkdivider + 1 ticks with clkdivider taken from the tone at the flip |
| Music3.NotesDecreasing | audio/music3.py:23 | the semitone dividers strictly decrease |
| Music3.NoteMemTable | audio/music3.py:23-24 | the note memory holds each divider minus one within 9 bits, and 0 in its four unused entries |
| Music3.NoteSplit | audio/music3.py:37-42 | the 6-bit note number splits into octave 0..5 and semitone 0..11 that rebuild it; clkdivider is four times the table entry, within 11 bits |
| Music3.OctaveReloadPowers | audio/music3.py:51-62 | the octave reload is 2^(8-octave) - 1 for octaves 0..5 |
| Music3.FlipCondition | audio/music3.py:47-66 | the output flips exactly when both counters are 0; the octave counter moves only when the note counter is 0 |
| Music3.ReloadMonotone | audio/music3.py:29-48 | with the note counter as wide as clkdivider, the reload is the whole divider and strictly smaller for every higher semitone |
| Music3.ReloadAsWrittenNotMonotone | audio/music3.py:29-48 | as written, semitone 4 reloads 84 while the higher semitone 5 and the lowest, 0, both reload 508 |
| Music3.ScaleStepInv | audio/music3.py:26-66 | `tone` within 28 bits, the note counter below its modulus, the octave counter within 8 bits and the output 0 or 15 |
| Music3.StepWith | audio/music3.py:26-66 | one clock edge with the note counter's modulus as a parameter: the reload of the note counter, the octave reload table and the flip |
| Music3.StepAsWritten | audio/music3.py:29-66 | the design as written, with the 9-bit `counter_note` |
| Music3.Step | audio/music3.py:29-66 | the design with the note counter as wide as the 11-bit `clkdivider` |
| LedGlow.PwmFits | leds/ledglow.py:11-17 | the 5-bit accumulator never overflows, and its carry bit is set exactly when the 4-bit residue plus the input reaches 16 |
| LedGlow.LedsEqual | leds/ledglow.py:25-26 | all eight LEDs show the same bit |
| LedGlow.BrightnessTriangle | leds/ledglow.py:20-23 | `cnt[-1]` is the top bit of `cnt[-5:]`, and the brightness is the triangle of that 5-bit phase: 15 down to 0, then 0 up to 15 |
| LedGlow.GlowStepFields | leds/ledglow.py:15-23 | `cnt` wraps at 2^26 and the brightness register takes the brightness of the previous counter value |
| LedGlow.Brightness | leds/ledglow.py:20-23 | the brightness loaded into `pwm_input`: `cnt[-5:]` while `cnt[-1]`, else its complement, cut to 4 bits |
| LedGlow.GlowStep | leds/ledglow.py:15-23 | one clock edge: the 26-bit counter advances, the brightness register loads, the accumulator adds |
| LedGlow.GlowStepInv | leds/ledglow.py:9-26 | counter within 26 bits, accumulator within 5; the LEDs light exactly on a carry |
| LedGlow.Balance | leds/ledglow.py:17 | over n steps with input k, 16 per carry plus the residue's change equals n*k |
| LedGlow.DutyCycle | leds/ledglow.py:17 | over any 16 steps with input k the carry is set exactly k times and the residue returns to its start |
| LedGlow.BandStep | leds/ledglow.py:15-23 | inside a brightness band a tick increments the counter, keeps the brightness and steps the accumulator |
| LedGlow.CounterInBand | leds/ledglow.py:16 | below a band's end the counter's increment neither wraps nor leaves the band |
| LedGlow.HeldPwm | leds/ledglow.py:15-23 | inside a band the design's accumulator is the modulator's with that band's brightness |
| LedGlow.HeldLit | leds/ledglow.py:15-26 | inside a band the LEDs light exactly when that modulator carries |
| LedGlow.DutyOnBoard | leds/ledglow.py:15-26 | 16 ticks inside a band light the LEDs exactly `pwm_input` times |

## Left out

- File I/O in image_conv/bmp.py (`sys.argv`, `open`, `read`, `write`) is not modelled: the converter is a function from the dump's bytes to the file's bytes.
- Board top-levels, pin resources, PLLs and clock domains are not modelled. Each design runs on a single clock, including the `pixel` domain of retro/video.py and the divided `sync` domain of sdram16/test_sdram16.py.
- The submodules the designs instantiate are not part of this model:
  - `PS2` and `UART` in ps2test.py: their `valid`, `data` and `tx_ack` are inputs.
  - The SDRAM controller in test_sdram16.py: `data_out` is an input.
  - `DivideBy12` in music3.py: only its quotient/remainder contract is used.
  - The camera ROM of ov7670_config.py: `rom_data` is an input.
- LED and debug wiring (`leds`, `leds16`, `usb.pullup`) and the simulation-only `l0`/`l1` signals of conv/conv3.py:66-70 are left out; they feed nothing the model's properties are about.
- retro/video.py never drives its `r`, `g`, `b` outputs and never uses its colour constants (lines 7-17), so neither is modelled.
- Conv3: a line-buffer read past its depth is modelled as 0; `ControlInv` proves the design never does it.
- Conv3: pixel inputs are assumed to fit `dw` bits; the unit does not truncate `i_p`.
- Music1.BoardDivider: `int(f / 440 / 2)` is a floating-point quotient in the source. It is modelled as integer division, which agrees for a whole number of hertz.
- Music1, Music2: the counter's width is `bit_length(clkdivider)`. The counter never exceeds clkdivider - 1, so its wrap-around is not modelled.
- Conv3.StepControl: the `o_stall` duration of w + 1 ticks is stated as `o_stall` being high exactly while y >= h, not as a tick count.
- ImageConv.OutputPosition: requires the frame to fit `o_x` (10 bits) and `o_y` (9 bits), as the defaults 320 x 480 do.
- LedGlow.DutyOnBoard: requires the brightness register to already hold its band's value. That is the case from the second tick of each band on; at power-on and on a band's first tick it still holds the previous band's value.

## Findings

| source | as written | input that shows it | evidently intended | confidence | as-written member | corrected member |
|---|---|---|---|---|---|---|
| conv/conv3.py:34-35 | `x2` is declared `bits_for(h)` wide, so the read address two columns ahead is truncated to the height's width | the default geometry w = 320, h = 240 at x = 254: `x2` is 0 instead of 256 | `x2` as wide as `x`, i.e. (x+2) mod w | high, not executed | Conv3.X2AsWrittenWrapsEarly | Conv3.X2 |
| conv/conv3.py:59-62 | the read ports' enable is never driven, so they capture every tick; on an idle tick they re-read two columns ahead of the unchanged `x`, and the next active tick slides a column x+2 word into the window | a 4x2 frame at intake (1,1), with the first row 10 11 12 13: one idle tick before the next two pixels turns the value emitted for (1,0) from 12 into 13 | the ports capture only on ticks the unit processes (`i_valid` or `o_stall`), so an idle tick is a pure pause | medium, not executed | Conv3.GapChangesOutputAsWritten | Conv3.PauseInvisible |
| audio/music3.py:29-48 | `counter_note` is 9 bits but `clkdivider` is 11, so the reload keeps only the low nine bits of the divider | octave 0, semitone 4 (divider 1620) reloads 84; semitone 5 (divider 1532) and semitone 0 (divider 2044) both reload 508 | a note counter as wide as `clkdivider`, so that higher semitones have shorter cycles | high, not executed | Music3.ReloadAsWrittenNotMonotone | Music3.ReloadMonotone |
| image_conv/bmp.py:34-35 | the image-size field is written as bytes 00 01 0E 00, i.e. 0x000E0100 = 917760 | every converted file: the field differs from file size minus offset, 921600 = 640*480*3 | bytes 00 10 0E 00, i.e. 0x000E1000 = 921600 | high, not executed | Bmp.SizeFieldAsWritten | Bmp.SizeFieldCorrected |
