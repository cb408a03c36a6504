# PC-FX Hexview in Dafny

A verified model of the memory viewer in `src/hexview.c`, a PC-FX program.
Each pass of its main loop does the following:

- it samples the controller pad;
- it picks a display format (HEX or ASCII) and a cursor step of 256, 4096,
  65536 or 1048576 bytes;
- it moves a 256-byte window on a fresh press of UP or DOWN;
- it prints the window's address range and a caret that marks the step;
- it copies the window into `mem_buf` and prints it as 16 formatted rows
  through the first HuC6270 video controller.

The program can also draw Shift_JIS text through the KING processor
(`printsjis`, `print_narrow`, `print_wide`). A vertical-blank interrupt
samples the pad and counts frames.

The model keeps the program's own shape. Code that changes state is
imperative Dafny:

- `hex_format_line` writes into an `array<char>`;
- `read_array` fills the `array<u8>` `mem_buf`;
- the pad globals form a class;
- VRAM and KRAM are classes holding a map and a write pointer, changed by
  the same set-pointer and write-word calls the program makes.

Each method is proved against a specification function. The properties
the program relies on are lemmas about those functions.

Modules, one file each:

- `machine.dfy` (`Machine`): the `u8`/`u16`/`u32` newtypes, C's
  unsigned wrap-around (`Wrap32`), `Option` and `Result`.
- `hex_format.dfy` (`HexFormat`):
  - `hex_lookup`;
  - the row layout of `hex_format_line` and the method itself;
  - reading a HEX row back;
  - `%8.8X`.
- `text_out.dfy` (`TextOut`): the tile word of `print_at`/`putch_at`,
  C strings up to their NUL, the VRAM port, `print_at` and `putch_at`.
- `kanji.dfy` (`Kanji`):
  - spreading a glyph row to two bits per pixel;
  - `print_narrow` and `print_wide`;
  - the lead-byte scan of `printsjis` and `printsjis` itself.
- `pad.dfy` (`Pad`): `joyread` and the body of `my_vblank_irq`.
- `viewer.dfy` (`Viewer`):
  - format, step and caret selection;
  - cursor movement and the alignment invariant of `baseaddr`;
  - the range line, the snapshot, and what the screen shows after a pass;
  - the loop body as the class `Viewer`.

Two facts about the code shape the model:

- **Row length and spacing.** A formatted row is 39 characters plus a
  NUL. The two hex digits of a byte are not separated, and a single space
  follows every odd-numbered byte except the last. An all-zero HEX row is
  therefore `0000 0000 0000 0000 0000 0000 0000 0000`.
- **Alignment.** `baseaddr` always stays a multiple of 256, because it
  starts at 0x8000 and every step is a multiple of 256
  (`Viewer.NextBaseAligned`).

## Model

| member | source | states |
|---|---|---|
| `Machine.Wrap32` | src/hexview.c:425-429 | the `u32` C stores for an integer is congruent to it modulo 2^32 and equals it when it is already in range |
| `Machine.Wrap32LowByte` | src/hexview.c:425-429 | reducing modulo 2^32 keeps the value modulo 256 |
| `HexFormat.DigitValue` | src/hexview.c:86 | inverse of `hex_lookup`: the returned index holds the given digit |
| `HexFormat.DigitValueOfTable` | src/hexview.c:86 | every entry of `hex_lookup` is an uppercase hex digit and reads back to its own index |
| `HexFormat.PosFacts` | src/hexview.c:325-354 | byte `i` starts at column 2i + i/2; its cell and separator end where byte i+1 starts, and the row ends at column 39 |
| `HexFormat.LinePrefix` | src/hexview.c:325-354 | after `n` bytes the output index is at column 2n + n/2, or 39 after the last byte |
| `HexFormat.Line` | src/hexview.c:325-355 | a row is exactly 39 visible characters in both modes |
| `HexFormat.Cell` | src/hexview.c:327-346 | defines the two characters of one byte: `hex_lookup` of the high then the low nibble, or a space then the byte if 0x20..0x7F and a space otherwise; always two characters |
| `HexFormat.CellPrintable` | src/hexview.c:327-346 | the two characters of one byte lie in 0x20..0x7F in both modes |
| `HexFormat.PrefixPrintable` | src/hexview.c:325-354 | every character written so far lies in 0x20..0x7F |
| `HexFormat.LinePrintable` | src/hexview.c:325-355 | a formatted row is printable and contains no NUL, so `print_at` prints all 39 characters |
| `HexFormat.ColumnOwner` | src/hexview.c:325-354 | every column is either a separator at 5k+4 (k < 7) or one of the two characters of exactly one byte |
| `HexFormat.PosMono` | src/hexview.c:325-354 | later bytes start at later columns, two or more apart |
| `HexFormat.PrefixCells` | src/hexview.c:327-345 | once byte `i` is written its two characters sit at columns Pos(i) and Pos(i)+1 |
| `HexFormat.PrefixSep` | src/hexview.c:351-353 | once byte 2k+1 is written the separator at column 5k+4 is a space |
| `HexFormat.LineLayout` | src/hexview.c:325-355 | in both modes byte `i` occupies columns 2i+i/2 and the next one, and columns 4, 9, ..., 34 are spaces |
| `HexFormat.HexLineDigits` | src/hexview.c:327-335 | in HEX mode every non-separator column holds a digit of `hex_lookup` |
| `HexFormat.AsciiLayout` | src/hexview.c:336-345 | in ASCII mode byte `i` shows as a space then the byte itself when 0x20 <= b <= 0x7F (DEL included), else a second space |
| `HexFormat.HexRoundTrip` | src/hexview.c:327-335 | reading the digit pairs of a HEX row back gives the 16 bytes exactly |
| `HexFormat.PairDigit` | src/hexview.c:327-335 | the two digits at Pos(i) of a text that parses are those of the parsed byte |
| `HexFormat.ParsedColumn` | src/hexview.c:325-354 | each column of a text that parses to a row is that column of the row's HEX line |
| `HexFormat.HexParseIsFormat` | src/hexview.c:325-355 | conversely, a text that parses back to a row is exactly that row's HEX line |
| `HexFormat.EmitCell` | src/hexview.c:327-346 | one loop iteration writes the byte's two characters at `out_ind` and `out_ind+1` and nothing else |
| `HexFormat.LineAtByte` | src/hexview.c:325-354 | what iteration `i` writes (the cell, then a space when `i` is odd and below 15) agrees with the row layout |
| `HexFormat.FormatLine` | src/hexview.c:319-356 | `hex_format_line` writes the row's 39 characters at indices 0..38 and the NUL at 39, and leaves the rest of the buffer unchanged |
| `HexFormat.Pow16` | src/hexview.c:434 | every power of 16 is positive |
| `HexFormat.HexText` | src/hexview.c:434 | `%n.nX` is exactly `n` characters |
| `HexFormat.Hex8` | src/hexview.c:434 | `%8.8X` is exactly 8 characters |
| `HexFormat.HexTextDigits` | src/hexview.c:434 | every character of `%n.nX` is an uppercase hex digit |
| `HexFormat.HexTextDigitAt` | src/hexview.c:434 | digit `k` of `%n.nX`, counted from the left, is the digit of weight 16^(n-1-k) |
| `HexFormat.HexTextRoundTrip` | src/hexview.c:434 | the digits of `%n.nX` read back as the value when it is below 16^n |
| `TextOut.TileWord` | src/hexview.c:464 | the stored `u16` is `pal*0x1000 + c + 0x100` modulo 2^16 |
| `TextOut.TilePalette` | src/hexview.c:464 | the palette field of a word is 0..15 |
| `TextOut.TileChar` | src/hexview.c:464 | the character field of a word, less the base tile, is -0x100..0xEFF |
| `TextOut.TileWordDecode` | src/hexview.c:464 | for the 16 palettes and characters below 0xF00, palette and character decode back from the word |
| `TextOut.TileWords` | src/hexview.c:463-466 | one word per character, word `i` being the tile word of character `i` |
| `TextOut.PaintedPrefix` | src/hexview.c:462-466 | after `n` writes, cells a..a+n-1 hold the first `n` words and every other cell is untouched |
| `TextOut.Painted` | src/hexview.c:462-466 | streaming words from cell `a` puts word `k` in cell a+k and leaves every other cell as it was |
| `TextOut.PaintedSnoc` | src/hexview.c:465 | one more write extends the painted run by exactly one cell |
| `TextOut.PaintedShows` | src/hexview.c:463-466 | painting a text's words makes its cells show the text, and each cell decodes back to palette and character |
| `TextOut.StrLen` | src/hexview.c:463 | the length `strlen8` gives is the index of the first NUL |
| `TextOut.CText` | src/hexview.c:463 | the printed text holds no NUL and, followed by a NUL, is a prefix of the buffer |
| `TextOut.CTextOfTerminated` | src/hexview.c:463 | bytes after the first NUL do not change what is printed |
| `TextOut.Vdc.SetVramWrite` | src/hexview.c:462 | setting the write pointer changes no cell |
| `TextOut.Vdc.VramWrite` | src/hexview.c:465 | a data write stores the word at the pointer and steps the pointer by one |
| `TextOut.PrintAt` | src/hexview.c:455-467 | `print_at` leaves VRAM with the text's tile words from cell y*64+x on, everything else unchanged, and the pointer just past the text |
| `TextOut.PutChAt` | src/hexview.c:469-480 | `putch_at` changes exactly cell y*64+x, to the character's tile word |
| `TextOut.PutChIsPrintOfOne` | src/hexview.c:469-480 | `putch_at(c)` leaves VRAM as `print_at` does with the one-character string `c` |
| `Kanji.Spread` | src/hexview.c:558-562 | defines `px` after the first `n` inner-loop steps: bit `x << 1` set for each set pixel `from + x` |
| `Kanji.SpreadNext` | src/hexview.c:558-562 | one inner-loop step sets bit 2x exactly when pixel x is set |
| `Kanji.SpreadBits` | src/hexview.c:558-562 | after `n` steps bit 2x is set iff x < n and pixel x is set, and every odd bit is clear |
| `Kanji.SpreadRow` | src/hexview.c:557-562 | the inner loop sets bit 2x iff glyph bit `from + x` is set, and no odd bit |
| `Kanji.NarrowImage` | src/hexview.c:555-564 | defines KRAM after the first `n` rows of a narrow glyph: row `y`'s spread word at `kram + (y<<5)` |
| `Kanji.NarrowImageCell` | src/hexview.c:555-564 | a narrow glyph's row `y` lands in word a+32y and no other word changes |
| `Kanji.WideImage` | src/hexview.c:575-593 | defines KRAM after the first `n` rows of a wide glyph: left half at `kram + (y<<5)`, right half in the next word |
| `Kanji.WideImageNext` | src/hexview.c:575-593 | drawing one more wide row adds its left and right words |
| `Kanji.WideImageCell` | src/hexview.c:575-593 | a wide glyph's row `y` lands in words a+32y (pixels 0..7) and a+32y+1 (pixels 8..15) and no other word changes |
| `Kanji.King.SetKramWrite` | src/hexview.c:556 | setting the KRAM write pointer changes no word |
| `Kanji.King.KramWrite` | src/hexview.c:563 | a KRAM write stores the word at the pointer and steps it by one |
| `Kanji.PrintNarrow` | src/hexview.c:547-565 | `print_narrow` leaves KRAM as the narrow image of the ANK glyph of `sjis` at `kram` |
| `Kanji.PrintWideRow` | src/hexview.c:576-592 | one row of `print_wide` writes the spread left half at `kram + (y<<5)` and the right half in the next word |
| `Kanji.PrintWide` | src/hexview.c:567-594 | `print_wide` leaves KRAM as the wide image of the kanji glyph of `sjis` at `kram` |
| `Kanji.Scan` | src/hexview.c:522-543 | the classification loop of `printsjis` as a function: one-byte and two-byte codes up to the NUL, or an error where the loop would read past the terminator or the end; a successful scan yields fewer codes than bytes (the NUL itself is in `ScanDecode`) |
| `Kanji.ScanDecode` | src/hexview.c:522-543 | every code the scan yields obeys the lead-byte rule and holds no NUL, and the codes spell out the string up to its NUL |
| `Kanji.ScanNarrowCons` | src/hexview.c:526-531 | a single-width byte scans to a one-byte code, then the rest |
| `Kanji.ScanWideCons` | src/hexview.c:532-539 | a lead byte and a non-NUL trail byte scan to one two-byte code `ch*256 + ch2`, then the rest |
| `Kanji.ScanEncode` | src/hexview.c:522-543 | round trip: valid codes, encoded and terminated, scan back to exactly those codes |
| `Kanji.ScanStop` | src/hexview.c:524 | the scan ends at the NUL |
| `Kanji.ScanStep` | src/hexview.c:526-542 | at each offset a byte is single iff it is below 0x81 or in 0xA1..0xDF; otherwise it joins the next byte and the scan resumes two bytes on |
| `Kanji.ColumnsCons` | src/hexview.c:530-538 | columns add up from the front as from the back |
| `Kanji.Render` | src/hexview.c:524-543 | defines KRAM after drawing codes left to right, each starting where the previous one ended |
| `Kanji.RenderAppend` | src/hexview.c:524-543 | drawing `xs + ys` draws `xs`, then `ys` starting `Columns(xs)` further on |
| `Kanji.RenderSnoc` | src/hexview.c:526-539 | each code is drawn where the previous ones ended, one column for a one-byte code and two for a two-byte code |
| `Kanji.PrintSjis` | src/hexview.c:511-545 | `printsjis` leaves KRAM as the scanned codes drawn left to right from `x + (y<<5)` |
| `Pad.PadType` | src/hexview.c:404 | the device tag is a 4-bit value |
| `Pad.PadTypeUnmasked` | src/hexview.c:107 | `joyread`'s unmasked `temp >> 28` equals the masked tag the main loop tests |
| `Pad.Pressed` | src/hexview.c:108 | the newly pressed set lies within the current sample and misses every button held before |
| `Pad.PressedButton` | src/hexview.c:108 | a button is newly pressed iff it was up in the previous sample and is down in the new one |
| `Pad.IntendedTrigger` | src/hexview.c:107-112 | the intended trigger: newly pressed buttons on a standard pad, else 0; it lies within the new sample and misses every button held before |
| `Pad.TriggerAsWritten` | src/hexview.c:107-112 | the trigger `joyread` computes is 0 on every call |
| `Pad.MissedPress` | src/hexview.c:103-113 | a fresh press of UP is reported by the intended trigger and missed by the one as written |
| `Pad.PadState.constructor` | src/hexview.c:73-96 | the pad globals and the frame counter start at 0 |
| `Pad.PadState.JoyRead` | src/hexview.c:99-114 | `joyread` shifts the old sample into `joypad_last`, stores the new one, and leaves `joytrg` 0 |
| `Pad.PadState.JoyReadFixed` | src/hexview.c:99-114 | with the trigger taken from the new sample, `joytrg` holds the newly pressed buttons on a standard pad and 0 otherwise |
| `Pad.PadState.VblankIrq` | src/hexview.c:120-128 | the frame counter goes up by one iff status bit 0x20 is set, then the pad is sampled |
| `Viewer.ViewFormat` | src/hexview.c:399-409 | reference definition of the display format: ASCII when a standard pad holds SELECT, HEX otherwise |
| `Viewer.StepSize` | src/hexview.c:401-421 | every step is a positive multiple of 256 |
| `Viewer.PointerText` | src/hexview.c:402-421 | the caret text is four printable characters |
| `Viewer.CaretMarksSteppedDigit` | src/hexview.c:410-436 | the marker is printed one row below and two columns right of the range text, and the caret's column `i` is the one whose range digit `i + 2` has weight 16^(7-(i+2)), the step |
| `Viewer.NextBase` | src/hexview.c:423-431 | reference definition of the cursor update: on a standard pad, `Direction` steps added modulo 2^32; otherwise unchanged |
| `Viewer.Direction` | src/hexview.c:423-431 | the net move per pass is at most one step either way |
| `Viewer.SameSampleStays` | src/hexview.c:423 | with an unchanged sample the window does not move |
| `Viewer.NoPadStays` | src/hexview.c:399-404 | without a standard pad: HEX, step 256, caret `"   ^"`, and the window stays |
| `Viewer.BothEdgesCancel` | src/hexview.c:424-430 | fresh presses of UP and DOWN together leave the window where it was |
| `Viewer.SingleEdgeMoves` | src/hexview.c:424-430 | a fresh UP alone adds the step and a fresh DOWN alone subtracts it, modulo 2^32 |
| `Viewer.CursorWalkThrough` | src/hexview.c:388-430 | from 0x8000, UP with step 256 gives 0x8100, then DOWN with VI held gives 0x7100 |
| `Viewer.NextBaseAligned` | src/hexview.c:423-431 | a window on a 256-byte boundary stays on one after a pass |
| `Viewer.AlignedNoWrap` | src/hexview.c:434 | for an aligned window `baseaddr + 0xff` does not wrap |
| `Viewer.RangeText` | src/hexview.c:434 | the range line is 19 characters |
| `Viewer.Pow16Eight` | src/hexview.c:434 | eight hex digits span exactly the `u32` range |
| `Viewer.RangeTextReadsBack` | src/hexview.c:434 | the range line's two fields read back as the first and last address, which lie 0xFF apart for an aligned window |
| `Viewer.Hex8ReadsBack` | src/hexview.c:434 | `%8.8X` of a `u32` is eight hex digits reading back as the value |
| `Viewer.RangeDigitWeight` | src/hexview.c:434 | character `k` of the range line is the first address's hex digit of weight 16^(7-k) |
| `Viewer.RangeTextPrintable` | src/hexview.c:434-435 | the range line is printable text |
| `Viewer.Snapshot` | src/hexview.c:308-315 | the snapshot is 256 bytes |
| `Viewer.RowBytes` | src/hexview.c:442 | a row is 16 bytes of the snapshot |
| `Viewer.RowHoldsMemory` | src/hexview.c:308-315 | in an aligned window byte `j` of row `r` is memory at `base + 16r + j`, with no wrap |
| `Viewer.HexRowShowsMemory` | src/hexview.c:438-444 | row `r` of the hex view reads back as the 16 memory bytes from `base + 16r` |
| `Viewer.ScreenRows` | src/hexview.c:440-445 | 16 rows of 39 tile words each |
| `Viewer.Screen` | src/hexview.c:434-445 | defines VRAM after one pass: the range line, then the caret, then the 16 rows |
| `Viewer.ShowsKept` | src/hexview.c:434-436 | printing cells beside a shown text leaves it shown |
| `Viewer.FirstRowsBefore` | src/hexview.c:440-445 | printing rows changes no cell before the first row |
| `Viewer.FirstRowsCell` | src/hexview.c:440-445 | a printed row keeps its words, because rows lie 64 cells apart and hold at most 60 words |
| `Viewer.RowsKeep` | src/hexview.c:440-445 | printing the rows keeps the range line and the caret shown |
| `Viewer.RowsShow` | src/hexview.c:440-445 | after the rows are printed each screen row shows its formatted line |
| `Viewer.ScreenShows` | src/hexview.c:434-445 | after a pass the screen shows the range line, the caret and all 16 formatted rows |
| `Viewer.SelectView` | src/hexview.c:399-421 | the sequential ifs choose ASCII iff a standard pad holds SELECT, and the same step and caret as the priority order IV, V, VI, default |
| `Viewer.MoveCursor` | src/hexview.c:423-431 | adding the step on a fresh UP and then subtracting it on a fresh DOWN moves the window by `Direction` steps modulo 2^32 |
| `Viewer.WrapSum` | src/hexview.c:425-429 | two sums congruent modulo 2^32 store the same `u32` |
| `Viewer.Viewer.constructor` | src/hexview.c:388-392 | the window starts at 0x8000, aligned, with the held keys ignored |
| `Viewer.Viewer.ReadArray` | src/hexview.c:308-315 | `mem_buf[i]` is memory at `(base + i) mod 2^32` for every i < 256 |
| `Viewer.Viewer.PrintRow` | src/hexview.c:442-444 | the row's formatted line is printed at its screen row |
| `Viewer.Viewer.PrintRows` | src/hexview.c:440-445 | the 16 rows are printed in order |
| `Viewer.Viewer.ReadPad` | src/hexview.c:394-432 | the samples shift, format and caret follow the pad word, and the window moves as `NextBase` says and stays aligned |
| `Viewer.Viewer.ShowPosition` | src/hexview.c:434-436 | the range line and then the caret are printed in the pad palette |
| `Viewer.Viewer.Step` | src/hexview.c:394-448 | one pass: new samples, window moved and still aligned, `mem_buf` the window's snapshot, and VRAM the screen of that pass |

## Findings

| source | as written | input that shows it | evidently intended | confidence | as-written member | corrected member |
|---|---|---|---|---|---|---|
| src/hexview.c:108 | `joytrg = (~joypad_last) & joypad` runs before `joypad = temp` (line 113), so it computes `~x & x` and `joytrg` is always 0 | previous sample `0xF0000000`, new sample `0xF0000100` (UP pressed): `joytrg` should be `JOY_UP` but is 0 | the buttons newly pressed in the new sample, `~joypad_last & temp` | not executed | `Pad.PadState.JoyRead` (`Pad.MissedPress`, `Pad.TriggerAsWritten`) | `Pad.PadState.JoyReadFixed` (`Pad.IntendedTrigger`, `Pad.PressedButton`) |

Nothing else in the program reads `joytrg`, so the viewer's behaviour does
not depend on it. The main loop does its own edge detection, which the
model proves with `Viewer.Direction` and `Viewer.MoveCursor`.
`Pad.PadState.VblankIrq` keeps the code as written.

## Left out

- `init` (src/hexview.c:151-305) is left out. It is hardware bring-up
  through liberis calls whose effect is not visible here.
- `vsync` and the interrupt's timing are left out. `vsync` is a busy-wait,
  and the interrupt can run at any point of the main loop. Concurrency and
  volatile reads are not modelled.
- `Viewer.Viewer.Step` takes the pad word as a parameter. Nothing ties it
  to `Pad.PadState`.
- Infinite loop: the model gives one pass of `while (1)` and the invariant
  it keeps, not the loop itself.
- External primitives become parameters:
  - `read_addr` is a function `mem: u32 -> u8`;
  - `eris_pad_read` and the status register are method parameters;
  - `eris_romfont_get` is the `RomFont` value.
- VRAM and KRAM addresses are unbounded integers. The controllers' own
  address width and wrap-around are not modelled. Every address the
  viewer uses is small.
- `PAD_TYPE_FXPAD` comes from eris/pad.h, which is not part of this model.
  The model takes it to be 0xF. The worked examples build their pad words
  from the constant (`Pad.FX_PAD_IDLE`), so every proof also goes through
  for any other 4-bit tag.
- The text printed once before the loop (src/hexview.c:374-386) is left
  out: the title, the labels, the column header and the `%cx:` row labels.
  `sprintf` is modelled only for the `%8.8X` range line.
- `putnumber_at` (src/hexview.c:482-506) is left out. It is never called,
  and for lengths other than 2, 4 and 5 it prints an uninitialised buffer.
- `step`/`stepval` (src/hexview.c:144-147) is left out: it is a debugger
  hook only.
- Characters are taken as non-negative codes. With a signed `char`, a byte
  of 0x80 or more given to `putch_at` or `print_at` would give a different
  tile word. The viewer itself prints only 0x20..0x7F
  (`HexFormat.LinePrintable`, `Viewer.RangeTextPrintable`).
- `Pad.PadState.VblankIrq`: the frame counter is an unbounded integer. The
  `int` overflow of `sda_frame_count` is not modelled.
- `Kanji.PrintSjis` requires that `Kanji.Scan` succeeds. The source
  behaves in two cases the model does not define:
  - a two-byte lead byte right before the NUL makes it read past the
    terminator;
  - a byte string with no NUL makes it read past the end.
  `Kanji.Scan` reports both as errors.
- ROM font byte order: a kanji glyph is taken as sixteen 16-bit rows, as
  `print_wide` reads them. How the font ROM lays these out in bytes is not
  modelled.
