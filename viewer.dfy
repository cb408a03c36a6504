/** One pass of the viewer's main loop: sample the pad, choose the display
    format and the cursor step, move the 256-byte window on a fresh press of
    UP or DOWN, print the range line and the step pointer, take a snapshot
    of the window and print it as 16 formatted rows.

    The window's state between passes is `(prevjoy1, joy1, baseaddr)`; the
    window always starts on a 256-byte boundary, so its last address
    `baseaddr + 0xFF` never wraps past 2^32. */
module Viewer {
  import opened Machine
  import opened HexFormat
  import opened TextOut
  import opened Pad

  // Screen layout and palettes.
  const LEFT_EDGE: int := 1
  const RANGE_LINE: int := 4
  const HEXTITLE_LINE: int := 8
  const PAL_TEXT: int := 0
  const PAL_JOYPAD: int := 5

  /** The window the viewer opens on. */
  const START_ADDR: u32 := 0x8000

  /** Size of the snapshot `mem_buf`. */
  const BUF_SIZE: int := 256

  /** Number of formatted rows, 16 bytes each. */
  const ROWS: int := 16

  // ---------------------------------------------------------------------
  // What one pass chooses from the pad word.

  /** SELECT held on a standard pad shows the window as ASCII. */
  function ViewFormat(joy1: bv32): Format
  {
    if IsFxPad(joy1) && joy1 & JOY_SELECT != 0 then Ascii else Hex
  }

  /** The cursor step: IV beats V, V beats VI, and the default is one
      window; without a standard pad the default holds. */
  function StepSize(joy1: bv32): (step: u32)
    ensures step as int % BUF_SIZE == 0 && step > 0
  {
    if !IsFxPad(joy1) then 256
    else if joy1 & JOY_IV != 0 then 1048576
    else if joy1 & JOY_V != 0 then 65536
    else if joy1 & JOY_VI != 0 then 4096
    else 256
  }

  /** The four-character marker printed under the range line. */
  function PointerText(joy1: bv32): (p: string)
    ensures |p| == 4 && Printable(p)
  {
    if !IsFxPad(joy1) then "   ^"
    else if joy1 & JOY_IV != 0 then "^   "
    else if joy1 & JOY_V != 0 then " ^  "
    else if joy1 & JOY_VI != 0 then "  ^ "
    else "   ^"
  }

  /** The marker's caret stands in column `i` of the four. */
  predicate CaretAt(p: string, i: int)
    requires |p| == 4 && 0 <= i < 4
  {
    p[i] == '^' && forall j :: 0 <= j < 4 && j != i ==> p[j] == ' '
  }

  /** The caret marks the digit the step changes: the marker is printed
      one row below the range text and two columns right of it, so caret
      column `i` sits under digit `i + 2` of the first address, and the
      step is that digit's weight 16^(7 - (i + 2)) (see `RangeDigitWeight`). */
  lemma CaretMarksSteppedDigit(joy1: bv32)
    ensures PointerAt() == RangeAt() + MAP_WIDTH + 2
    ensures exists i :: 0 <= i < 4 && CaretAt(PointerText(joy1), i) && StepSize(joy1) as int == Pow16(7 - (i + 2))
  {
    var p := PointerText(joy1);
    var i := if p == "^   " then 0 else if p == " ^  " then 1 else if p == "  ^ " then 2 else 3;
    assert Pow16(2) == 256;
    assert Pow16(3) == 4096;
    assert Pow16(4) == 65536;
    assert Pow16(5) == 1048576;
    assert CaretAt(p, i);
  }

  /** A 0-to-1 change of button `b` between two samples. */
  predicate RisingEdge(prev: bv32, cur: bv32, b: bv32)
  {
    prev & b == 0 && cur & b != 0
  }

  /** Net movement of the window in steps: +1 on a fresh UP, -1 on a fresh
      DOWN, nothing when both or neither. */
  function Direction(prev: bv32, joy1: bv32): (d: int)
    ensures -1 <= d <= 1
  {
    (if RisingEdge(prev, joy1, JOY_UP) then 1 else 0) - (if RisingEdge(prev, joy1, JOY_DOWN) then 1 else 0)
  }

  /** Where the window starts after a pass with samples `prev` then `joy1`:
      on a standard pad it moves by `Direction` steps modulo 2^32,
      otherwise it stays. */
  function NextBase(prev: bv32, joy1: bv32, base: u32): u32
  {
    if IsFxPad(joy1) then Wrap32(base as int + Direction(prev, joy1) * StepSize(joy1) as int) else base
  }

  /** Two unchanged samples have no edge, so the window stays. */
  lemma SameSampleStays(joy1: bv32, base: u32)
    ensures NextBase(joy1, joy1, base) == base
  {
  }

  /** Without a standard pad the window stays, whatever the buttons. */
  lemma NoPadStays(prev: bv32, joy1: bv32, base: u32)
    requires !IsFxPad(joy1)
    ensures NextBase(prev, joy1, base) == base
    ensures ViewFormat(joy1) == Hex && StepSize(joy1) == 256 && PointerText(joy1) == "   ^"
  {
  }

  /** Fresh presses of UP and DOWN together cancel. */
  lemma BothEdgesCancel(prev: bv32, joy1: bv32, base: u32)
    requires RisingEdge(prev, joy1, JOY_UP) && RisingEdge(prev, joy1, JOY_DOWN)
    ensures NextBase(prev, joy1, base) == base
  {
  }

  /** A fresh UP alone moves the window one step up, a fresh DOWN alone one
      step down, both modulo 2^32. */
  lemma SingleEdgeMoves(prev: bv32, joy1: bv32, base: u32)
    requires IsFxPad(joy1)
    ensures RisingEdge(prev, joy1, JOY_UP) && !RisingEdge(prev, joy1, JOY_DOWN) ==>
      NextBase(prev, joy1, base) as int == (base as int + StepSize(joy1) as int) % TWO_TO_32
    ensures RisingEdge(prev, joy1, JOY_DOWN) && !RisingEdge(prev, joy1, JOY_UP) ==>
      NextBase(prev, joy1, base) as int == (base as int - StepSize(joy1) as int) % TWO_TO_32
  {
  }

  /** A worked example: from 0x8000 a fresh UP with the default step gives
      0x8100, and then a fresh DOWN with VI held gives 0x7100. */
  lemma CursorWalkThrough()
    ensures NextBase(FX_PAD_IDLE, FX_PAD_IDLE | JOY_UP, 0x8000) == 0x8100
    ensures NextBase(FX_PAD_IDLE | JOY_UP, FX_PAD_IDLE | JOY_DOWN | JOY_VI, 0x8100) == 0x7100
  {
  }

  /** Every move is a multiple of 256, and so is 2^32: a window on a
      256-byte boundary stays on one. */
  lemma {:induction false} NextBaseAligned(prev: bv32, joy1: bv32, base: u32)
    requires base as int % BUF_SIZE == 0
    ensures NextBase(prev, joy1, base) as int % BUF_SIZE == 0
  {
    if IsFxPad(joy1) {
      var s := StepSize(joy1) as int;
      var n := base as int + Direction(prev, joy1) * s;
      var q, p := base as int / 256, s / 256;
      assert n == 256 * (q + Direction(prev, joy1) * p);
      Wrap32LowByte(n);
    }
  }

  /** The window's last address: `baseaddr + 0xff` as a `u32`. */
  function LastAddr(base: u32): u32
  {
    Wrap32(base as int + 0xFF)
  }

  /** A window on a 256-byte boundary ends inside the address space, so its
      last address is the plain sum. */
  lemma AlignedNoWrap(base: u32)
    requires base as int % BUF_SIZE == 0
    ensures LastAddr(base) as int == base as int + 0xFF
  {
  }

  /** The range line `"%8.8X - %8.8X"` of the window's first and last address. */
  function RangeText(base: u32): (s: string)
    ensures |s| == 19
  {
    Hex8(base) + " - " + Hex8(LastAddr(base))
  }

  lemma Pow16Eight()
    ensures Pow16(8) == TWO_TO_32
  {
    assert Pow16(4) == 65536;
  }

  /** The range line reads back: its two eight-digit fields give the first
      and the last address of the window, and they lie 0xFF apart when the
      window is aligned. */
  lemma RangeTextReadsBack(base: u32)
    ensures RangeText(base)[..8] == Hex8(base) && RangeText(base)[11..] == Hex8(LastAddr(base))
    ensures forall k :: 0 <= k < 8 ==> IsHexDigit(Hex8(base)[k]) && IsHexDigit(Hex8(LastAddr(base))[k])
    ensures ParseHex(Hex8(base)) == base as int
    ensures ParseHex(Hex8(LastAddr(base))) == LastAddr(base) as int
    ensures base as int % BUF_SIZE == 0 ==> ParseHex(Hex8(LastAddr(base))) == ParseHex(Hex8(base)) + 0xFF
  {
    var s := RangeText(base);
    assert s[..8] == Hex8(base);
    assert s[11..] == Hex8(LastAddr(base));
    Hex8ReadsBack(base);
    Hex8ReadsBack(LastAddr(base));
    if base as int % BUF_SIZE == 0 {
      AlignedNoWrap(base);
    }
  }

  /** `%8.8X` of a `u32` is eight digits that read back as the value. */
  lemma Hex8ReadsBack(v: u32)
    ensures forall k :: 0 <= k < 8 ==> IsHexDigit(Hex8(v)[k])
    ensures ParseHex(Hex8(v)) == v as int
  {
    Pow16Eight();
    HexTextDigits(v as nat, 8);
    HexTextRoundTrip(v as nat, 8);
  }

  /** Character `k` of the range line's first address is its hex digit of
      weight 16^(7 - k). */
  lemma RangeDigitWeight(base: u32, k: nat)
    requires k < 8
    ensures RangeText(base)[k] == HexDigits[base as int / Pow16(7 - k) % 16]
  {
    HexTextDigitAt(base as nat, 8, k);
    assert RangeText(base)[k] == Hex8(base)[k];
  }

  /** The range line is printable text. */
  lemma RangeTextPrintable(base: u32)
    ensures Printable(RangeText(base))
  {
    var s := RangeText(base);
    HexTextDigits(base as nat, 8);
    HexTextDigits(LastAddr(base) as nat, 8);
    forall k | 0 <= k < 19 ensures 0x20 <= s[k] as int <= 0x7F {
      if k < 8 {
        assert s[k] == Hex8(base)[k];
      } else if k >= 11 {
        assert s[k] == Hex8(LastAddr(base))[k - 11];
      }
    }
  }

  // ---------------------------------------------------------------------
  // The snapshot and what the screen shows.

  /** The 256 bytes `read_array(base)` copies: byte `i` comes from address
      `base + i` as a `u32`. */
  function Snapshot(mem: u32 -> u8, base: u32): (s: seq<u8>)
    ensures |s| == BUF_SIZE
  {
    seq(BUF_SIZE, i requires 0 <= i < BUF_SIZE => mem(Wrap32(base as int + i)))
  }

  /** The bytes of row `r` of the snapshot. */
  function RowBytes(snap: seq<u8>, r: int): (row: seq<u8>)
    requires |snap| == BUF_SIZE && 0 <= r < ROWS
    ensures |row| == 16
  {
    snap[16 * r..16 * r + 16]
  }

  /** In an aligned window, byte `j` of row `r` is the memory byte at
      `base + 16*r + j`, with no wrap-around. */
  lemma RowHoldsMemory(mem: u32 -> u8, base: u32, r: int, j: int)
    requires base as int % BUF_SIZE == 0 && 0 <= r < ROWS && 0 <= j < 16
    ensures base as int + 16 * r + j < TWO_TO_32
    ensures RowBytes(Snapshot(mem, base), r)[j] == mem((base as int + 16 * r + j) as u32)
  {
    var q := base as int / BUF_SIZE;
    assert base as int == BUF_SIZE * q;
    assert q < 0x100_0000;
    assert base as int + 16 * r + j < TWO_TO_32;
    assert Snapshot(mem, base)[16 * r + j] == mem(Wrap32(base as int + (16 * r + j)));
  }

  /** Row `r` of the hex view reads back as the 16 memory bytes from
      `base + 16*r` on. */
  lemma HexRowShowsMemory(mem: u32 -> u8, base: u32, r: int)
    requires base as int % BUF_SIZE == 0 && 0 <= r < ROWS
    ensures ParseHexLine(Line(Hex, RowBytes(Snapshot(mem, base), r))) ==
      Some(seq(16, j requires 0 <= j < 16 => mem((base as int + 16 * r + j) as u32)))
  {
    var row := RowBytes(Snapshot(mem, base), r);
    HexRoundTrip(row);
    forall j | 0 <= j < 16 ensures row[j] == mem((base as int + 16 * r + j) as u32) {
      RowHoldsMemory(mem, base, r, j);
    }
    assert row == seq(16, j requires 0 <= j < 16 => mem((base as int + 16 * r + j) as u32));
  }

  /** Screen positions of the three dynamic parts. */
  function RangeAt(): int { CellAddr(LEFT_EDGE + 1, RANGE_LINE + 1) }
  function PointerAt(): int { CellAddr(LEFT_EDGE + 3, RANGE_LINE + 2) }
  function RowAt(r: int): int { CellAddr(LEFT_EDGE + 3, HEXTITLE_LINE + r + 1) }

  /** The attribute words of the 16 formatted rows of `snap`. */
  function ScreenRows(fmt: Format, snap: seq<u8>): (rows: seq<seq<u16>>)
    requires |snap| == BUF_SIZE
    ensures |rows| == ROWS
    ensures forall r :: 0 <= r < ROWS ==> |rows[r]| == LINE_LENGTH
  {
    seq(ROWS, r requires 0 <= r < ROWS => TileWords(PAL_TEXT, Line(fmt, RowBytes(snap, r))))
  }

  /** VRAM after printing the first `n` of `rows`, row `r` from `RowAt(r)`. */
  function PaintFirstRows(m: map<int, u16>, rows: seq<seq<u16>>, n: int): map<int, u16>
    requires 0 <= n <= |rows|
  {
    if n == 0 then m else Painted(PaintFirstRows(m, rows, n - 1), RowAt(n - 1), rows[n - 1])
  }

  /** VRAM after printing all of `rows`. */
  function PaintRows(m: map<int, u16>, rows: seq<seq<u16>>): map<int, u16>
  {
    PaintFirstRows(m, rows, |rows|)
  }

  /** VRAM after one pass: the range line, the pointer, then the 16 rows. */
  function Screen(m: map<int, u16>, fmt: Format, base: u32, pointer: string, snap: seq<u8>): map<int, u16>
    requires |snap| == BUF_SIZE
  {
    var withRange := Painted(m, RangeAt(), TileWords(PAL_JOYPAD, RangeText(base)));
    var withPointer := Painted(withRange, PointerAt(), TileWords(PAL_JOYPAD, pointer));
    PaintRows(withPointer, ScreenRows(fmt, snap))
  }

  /** Painting cells outside a shown text leaves it shown. */
  lemma ShowsKept(m: map<int, u16>, a: int, pal: int, text: string, b: int, ws: seq<u16>)
    requires a + |text| <= b || b + |ws| <= a
    requires Shows(m, a, pal, text)
    ensures Shows(Painted(m, b, ws), a, pal, text)
  {
    var r := Painted(m, b, ws);
    forall k | 0 <= k < |text| ensures ShowsAt(r, a, pal, text, k) {
      assert ShowsAt(m, a, pal, text, k);
      assert !(b <= a + k < b + |ws|);
    }
    assert Shows(r, a, pal, text);
  }

  /** The rows leave every cell before the first row as it was. */
  lemma {:induction false} FirstRowsBefore(m: map<int, u16>, rows: seq<seq<u16>>, n: int, k: int)
    requires 0 <= n <= |rows| && k < RowAt(0)
    ensures k in PaintFirstRows(m, rows, n) <==> k in m
    ensures k in m ==> PaintFirstRows(m, rows, n)[k] == m[k]
  {
    if n > 0 {
      assert RowAt(0) <= RowAt(n - 1);
      FirstRowsBefore(m, rows, n - 1, k);
    }
  }

  /** Column `j` of row `r` holds word `j` of that row once it is painted:
      rows lie 64 cells apart, so later rows of up to 60 words do not
      reach it. */
  lemma {:induction false} FirstRowsCell(m: map<int, u16>, rows: seq<seq<u16>>, n: int, r: int, j: int)
    requires 0 <= r < n <= |rows| && 0 <= j < |rows[r]|
    requires forall i :: 0 <= i < |rows| ==> |rows[i]| <= 60
    ensures RowAt(r) + j in PaintFirstRows(m, rows, n)
    ensures PaintFirstRows(m, rows, n)[RowAt(r) + j] == rows[r][j]
  {
    if r < n - 1 {
      assert |rows[r]| <= 60;
      assert RowAt(r) + j < RowAt(n - 1);
      FirstRowsCell(m, rows, n - 1, r, j);
    }
  }

  /** Rows are painted below anything shown before the first row. */
  lemma RowsKeep(m: map<int, u16>, rows: seq<seq<u16>>, a: int, pal: int, text: string)
    requires |rows| == ROWS
    requires a + |text| <= RowAt(0) && Shows(m, a, pal, text)
    ensures Shows(PaintRows(m, rows), a, pal, text)
  {
    var painted := PaintRows(m, rows);
    forall k | 0 <= k < |text| ensures ShowsAt(painted, a, pal, text, k) {
      assert ShowsAt(m, a, pal, text, k);
      FirstRowsBefore(m, rows, ROWS, a + k);
    }
    assert Shows(painted, a, pal, text);
  }

  /** Each painted row shows its formatted line. */
  lemma RowsShow(m: map<int, u16>, fmt: Format, snap: seq<u8>, r: int)
    requires |snap| == BUF_SIZE && 0 <= r < ROWS
    ensures Shows(PaintRows(m, ScreenRows(fmt, snap)), RowAt(r), PAL_TEXT, Line(fmt, RowBytes(snap, r)))
  {
    var rows := ScreenRows(fmt, snap);
    var line := Line(fmt, RowBytes(snap, r));
    var painted := PaintRows(m, rows);
    assert rows[r] == TileWords(PAL_TEXT, line);
    forall j | 0 <= j < |line| ensures ShowsAt(painted, RowAt(r), PAL_TEXT, line, j) {
      FirstRowsCell(m, rows, ROWS, r, j);
    }
    assert Shows(painted, RowAt(r), PAL_TEXT, line);
  }

  /** After a pass the screen shows the range line and the pointer in the
      pad palette and every row of the snapshot in the text palette. */
  lemma ScreenShows(m: map<int, u16>, fmt: Format, base: u32, pointer: string, snap: seq<u8>)
    requires |snap| == BUF_SIZE && |pointer| == 4 && Printable(pointer)
    ensures Shows(Screen(m, fmt, base, pointer, snap), RangeAt(), PAL_JOYPAD, RangeText(base))
    ensures Shows(Screen(m, fmt, base, pointer, snap), PointerAt(), PAL_JOYPAD, pointer)
    ensures forall r :: 0 <= r < ROWS ==>
      Shows(Screen(m, fmt, base, pointer, snap), RowAt(r), PAL_TEXT, Line(fmt, RowBytes(snap, r)))
  {
    var withRange := Painted(m, RangeAt(), TileWords(PAL_JOYPAD, RangeText(base)));
    var withPointer := Painted(withRange, PointerAt(), TileWords(PAL_JOYPAD, pointer));
    RangeTextPrintable(base);
    PaintedShows(m, RangeAt(), PAL_JOYPAD, RangeText(base));
    ShowsKept(withRange, RangeAt(), PAL_JOYPAD, RangeText(base), PointerAt(), TileWords(PAL_JOYPAD, pointer));
    RowsKeep(withPointer, ScreenRows(fmt, snap), RangeAt(), PAL_JOYPAD, RangeText(base));
    PaintedShows(withRange, PointerAt(), PAL_JOYPAD, pointer);
    RowsKeep(withPointer, ScreenRows(fmt, snap), PointerAt(), PAL_JOYPAD, pointer);
    forall r | 0 <= r < ROWS
      ensures Shows(Screen(m, fmt, base, pointer, snap), RowAt(r), PAL_TEXT, Line(fmt, RowBytes(snap, r)))
    {
      RowsShow(withPointer, fmt, snap, r);
    }
  }

  // ---------------------------------------------------------------------
  // The loop body, step by step.

  /** Lines 394-421: the defaults, then, on a standard pad, SELECT and the
      step buttons in the source's order, each later test overriding the
      earlier ones. */
  method SelectView(joy1: bv32) returns (fmt: Format, offset: u32, pointer: string)
    ensures fmt == Ascii <==> IsFxPad(joy1) && joy1 & JOY_SELECT != 0
    ensures fmt == ViewFormat(joy1)
    ensures offset == StepSize(joy1)
    ensures pointer == PointerText(joy1)
  {
    fmt := Hex;
    offset := 256;
    pointer := "   ^";
    if (joy1 >> 28) & 0x0F == PAD_TYPE_FXPAD {
      if joy1 & JOY_SELECT != 0 {
        fmt := Ascii;
      }
      if joy1 & JOY_VI != 0 {
        offset := 4096;
        pointer := "  ^ ";
      }
      if joy1 & JOY_V != 0 {
        offset := 65536;
        pointer := " ^  ";
      }
      if joy1 & JOY_IV != 0 {
        offset := 1048576;
        pointer := "^   ";
      }
    }
  }

  /** Lines 423-431: when the sample changed, a fresh UP adds the step and a
      fresh DOWN then subtracts it, each modulo 2^32. */
  method MoveCursor(prevjoy1: bv32, joy1: bv32, offset: u32, base: u32) returns (moved: u32)
    ensures moved == Wrap32(base as int + Direction(prevjoy1, joy1) * offset as int)
  {
    moved := base;
    if prevjoy1 != joy1 {
      if prevjoy1 & JOY_UP == 0 && joy1 & JOY_UP != 0 {
        moved := Wrap32(moved as int + offset as int);
      }
      if prevjoy1 & JOY_DOWN == 0 && joy1 & JOY_DOWN != 0 {
        var up := moved;
        moved := Wrap32(moved as int - offset as int);
        WrapSum(up as int - offset as int, base as int + Direction(prevjoy1, joy1) * offset as int);
      }
    }
  }

  /** Two integers congruent modulo 2^32 wrap to the same `u32`. */
  lemma WrapSum(x: int, y: int)
    requires (x - y) % TWO_TO_32 == 0
    ensures Wrap32(x) == Wrap32(y)
  {
    var q := (x - y) / TWO_TO_32;
    assert x == y + q * TWO_TO_32;
    assert x % TWO_TO_32 == y % TWO_TO_32;
  }

  /** The viewer's state: the two last pad samples, the window, the
      snapshot buffer `mem_buf` and the video controller it prints to. */
  class Viewer {
    var joy1: bv32
    var prevjoy1: bv32
    var baseaddr: u32
    const memBuf: array<u8>
    const vdc: Vdc

    /** The window sits on a 256-byte boundary. */
    ghost predicate Valid()
      reads this
    {
      memBuf.Length == BUF_SIZE && baseaddr as int % BUF_SIZE == 0
    }

    /** Lines 388-392: the window opens at 0x8000 and the pad keys held at
        start are ignored. */
    constructor (joypad: bv32, vdc: Vdc)
      ensures Valid()
      ensures baseaddr == START_ADDR && joy1 == joypad && prevjoy1 == joypad
      ensures this.vdc == vdc && fresh(memBuf)
    {
      memBuf := new u8[BUF_SIZE];
      this.vdc := vdc;
      baseaddr := 0x8000;
      joy1 := joypad;
      prevjoy1 := joy1;
    }

    /** `read_array`: `mem` stands for `read_addr`. */
    method ReadArray(base: u32, mem: u32 -> u8)
      requires memBuf.Length == BUF_SIZE
      modifies memBuf
      ensures memBuf[..] == Snapshot(mem, base)
    {
      var i := 0;
      while i < BUF_SIZE
        invariant 0 <= i <= BUF_SIZE
        invariant forall k :: 0 <= k < i ==> memBuf[k] == mem(Wrap32(base as int + k))
      {
        memBuf[i] := mem(Wrap32(base as int + i));
        i := i + 1;
      }
    }

    /** Lines 442-444: format row `r` of the snapshot into `hexdata` and
        print it. */
    method PrintRow(fmt: Format, r: int, hexdata: array<char>)
      requires memBuf.Length == BUF_SIZE && 0 <= r < ROWS && hexdata.Length == 64
      modifies vdc, hexdata
      ensures vdc.vram == Painted(old(vdc.vram), RowAt(r), ScreenRows(fmt, memBuf[..])[r])
    {
      FormatLine(fmt, memBuf, r * 16, hexdata);
      ghost var line := Line(fmt, RowBytes(memBuf[..], r));
      assert '\0' in hexdata[..] && CText(hexdata[..]) == line by {
        assert memBuf[r * 16..r * 16 + 16] == RowBytes(memBuf[..], r);
        assert hexdata[..LINE_LENGTH + 1] == line + ['\0'];
        assert hexdata[..] == hexdata[..LINE_LENGTH + 1] + hexdata[LINE_LENGTH + 1..];
        LinePrintable(fmt, RowBytes(memBuf[..], r));
        CTextOfTerminated(line, hexdata[LINE_LENGTH + 1..]);
      }
      assert ScreenRows(fmt, memBuf[..])[r] == TileWords(PAL_TEXT, line);
      PrintAt(vdc, LEFT_EDGE + 3, HEXTITLE_LINE + r + 1, PAL_TEXT, hexdata[..]);
    }

    /** Lines 440-445: print the 16 rows of the snapshot in order. */
    method PrintRows(fmt: Format)
      requires memBuf.Length == BUF_SIZE
      modifies vdc
      ensures vdc.vram == PaintRows(old(vdc.vram), ScreenRows(fmt, memBuf[..]))
    {
      var hexdata := new char[64];
      ghost var rows := ScreenRows(fmt, memBuf[..]);
      var i := 0;
      while i < ROWS
        invariant 0 <= i <= ROWS
        invariant vdc.vram == PaintFirstRows(old(vdc.vram), rows, i)
      {
        PrintRow(fmt, i, hexdata);
        i := i + 1;
      }
    }

    /** Lines 394-432: take the new sample, choose format, step and
        pointer, and move the window on a standard pad. */
    method ReadPad(joypad: bv32) returns (fmt: Format, pointer: string)
      requires Valid()
      modifies this
      ensures Valid()
      ensures prevjoy1 == old(joy1) && joy1 == joypad
      ensures baseaddr == NextBase(old(joy1), joypad, old(baseaddr))
      ensures fmt == ViewFormat(joypad) && pointer == PointerText(joypad)
    {
      prevjoy1 := joy1;
      joy1 := joypad;
      var offset;
      fmt, offset, pointer := SelectView(joy1);
      if (joy1 >> 28) & 0x0F == PAD_TYPE_FXPAD {
        NextBaseAligned(prevjoy1, joy1, baseaddr);
        baseaddr := MoveCursor(prevjoy1, joy1, offset, baseaddr);
      }
    }

    /** Lines 434-436: the range line of the window and the step pointer
        below it, both in the pad palette. */
    method ShowPosition(pointer: string)
      requires |pointer| == 4 && Printable(pointer)
      modifies vdc
      ensures vdc.vram == Painted(Painted(old(vdc.vram), RangeAt(), TileWords(PAL_JOYPAD, RangeText(baseaddr))),
        PointerAt(), TileWords(PAL_JOYPAD, pointer))
    {
      var rangeBuf := RangeText(baseaddr) + ['\0'];
      RangeTextPrintable(baseaddr);
      CTextOfTerminated(RangeText(baseaddr), []);
      assert RangeText(baseaddr) + ['\0'] + [] == rangeBuf;
      PrintAt(vdc, LEFT_EDGE + 1, RANGE_LINE + 1, PAL_JOYPAD, rangeBuf);
      CTextOfTerminated(pointer, []);
      assert pointer + ['\0'] + [] == pointer + ['\0'];
      PrintAt(vdc, LEFT_EDGE + 3, RANGE_LINE + 2, PAL_JOYPAD, pointer + ['\0']);
    }

    /** One pass of `while (1)`: `joypad` is the sample the interrupt last
        stored and `mem` stands for `read_addr`. */
    method Step(joypad: bv32, mem: u32 -> u8)
      requires Valid()
      modifies this, memBuf, vdc
      ensures Valid()
      ensures prevjoy1 == old(joy1) && joy1 == joypad
      ensures baseaddr == NextBase(old(joy1), joypad, old(baseaddr))
      ensures memBuf[..] == Snapshot(mem, baseaddr)
      ensures vdc.vram == Screen(old(vdc.vram), ViewFormat(joypad), baseaddr, PointerText(joypad), memBuf[..])
    {
      var fmt, pointer := ReadPad(joypad);
      ShowPosition(pointer);
      ReadArray(baseaddr, mem);
      PrintRows(fmt);
    }
  }
}
