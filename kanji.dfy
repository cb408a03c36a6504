/** Text output through the KING processor: `printsjis` splits a
    NUL-terminated Shift_JIS string into one- and two-byte character codes,
    and `print_narrow` / `print_wide` draw each code's ROM-font glyph into
    KRAM, spreading every glyph row to two bits per pixel. */
module Kanji {
  import opened Machine

  /** An 8x16 ANK glyph: sixteen rows of eight pixels, bit x of row y
      being the pixel in column x. */
  type AnkGlyph = g: seq<bv8> | |g| == 16 witness seq(16, _ => 0)

  /** A 16x16 kanji glyph: sixteen rows of sixteen pixels. */
  type KanjiGlyph = g: seq<bv16> | |g| == 16 witness seq(16, _ => 0)

  /** The ROM font behind `eris_romfont_get`, seen as the two lookups the
      viewer makes: `ROMFONT_ANK_8x16` and `ROMFONT_KANJI_16x16`. */
  datatype RomFont = RomFont(ank: int -> AnkGlyph, kanji: int -> KanjiGlyph)

  /** KRAM words between two rows of a glyph: a row of the 256-pixel
      background is 32 words, so `y << 5` steps one pixel row down. */
  const ROW_STRIDE: int := 32

  // ---------------------------------------------------------------------
  // Spreading one glyph row to two bits per pixel.

  /** `px` after the first `n` steps of the inner loop: pixel x (taken from
      bit `from + x` of `row`) sets bit `x << 1`. Pixel indices are 16-bit
      vectors so that every shift stays in bit-vector arithmetic. */
  function Spread(row: bv16, from: bv16, n: bv16): bv16
    requires n <= 8 && from <= 8
    decreases n
  {
    if n == 0 then 0
    else
      var x := n - 1;
      var px := Spread(row, from, x);
      if (row >> (x + from)) & 1 == 1 then px | (1 << (x << 1)) else px
  }

  /** One step of the inner loop. */
  lemma SpreadNext(row: bv16, from: bv16, x: bv16)
    requires x < 8 && from <= 8
    ensures Spread(row, from, x + 1) ==
      if (row >> (x + from)) & 1 == 1 then Spread(row, from, x) | (1 << (x << 1)) else Spread(row, from, x)
  {
    assert (x + 1) - 1 == x;
  }

  /** After `n` steps, bit `2x` holds pixel x when x is one of the first n
      pixels and is clear otherwise, and every odd bit `2x + 1` is clear. */
  lemma {:induction false} SpreadBits(row: bv16, from: bv16, n: bv16, x: bv16)
    requires n <= 8 && from <= 8 && x < 8
    ensures PixelBit(Spread(row, from, n), x) <==> (x < n && Bit16(row, from + x))
    ensures !PadBit(Spread(row, from, n), x)
  {
    if n != 0 {
      SpreadBits(row, from, n - 1, x);
    }
  }

  /** Bit `x << 1`, the low bit of pixel x's two-bit slot. */
  predicate PixelBit(px: bv16, x: bv16)
    requires x < 8
  {
    Bit16(px, x << 1)
  }

  /** Bit `(x << 1) + 1`, the high bit of pixel x's two-bit slot. */
  predicate PadBit(px: bv16, x: bv16)
    requires x < 8
  {
    Bit16(px, (x << 1) + 1)
  }

  /** The inner `for (x = 0; x < 8; x++)` loop of `print_narrow` and
      `print_wide`: the spread form of pixels `from .. from + 7` of `row`. */
  method SpreadRow(row: bv16, from: bv16) returns (px: bv16)
    requires from <= 8
    ensures px == Spread(row, from, 8)
    ensures forall x: bv16 :: x < 8 ==> (PixelBit(px, x) <==> Bit16(row, from + x))
    ensures forall x: bv16 :: x < 8 ==> !PadBit(px, x)
  {
    px := 0;
    var x: bv16 := 0;
    while x < 8
      invariant x <= 8
      invariant px == Spread(row, from, x)
    {
      SpreadNext(row, from, x);
      if (row >> (x + from)) & 1 == 1 {
        px := px | (1 << (x << 1));
      }
      x := x + 1;
    }
    forall x: bv16 | x < 8
      ensures PixelBit(px, x) <==> Bit16(row, from + x)
      ensures !PadBit(px, x)
    {
      SpreadBits(row, from, 8, x);
    }
  }

  // ---------------------------------------------------------------------
  // Glyph images in KRAM.

  /** Word written for row `y` of a narrow glyph. */
  function NarrowRow(g: AnkGlyph, y: nat): bv16
    requires y < 16
  {
    Spread(g[y] as bv16, 0, 8)
  }

  /** KRAM `m` after the first `n` rows of narrow glyph `g` are drawn at
      `a`, one word per row, row y at `a + 32 y`. */
  function NarrowImage(m: map<int, bv16>, g: AnkGlyph, a: int, n: nat): map<int, bv16>
    requires n <= 16
  {
    if n == 0 then m
    else NarrowImage(m, g, a, n - 1)[a + ROW_STRIDE * (n - 1) := NarrowRow(g, n - 1)]
  }

  /** Cell `k` of a narrow glyph image: the first word of row `(k - a) / 32`
      when `k` starts one of the drawn rows, and the old contents otherwise. */
  lemma {:induction false} NarrowImageCell(m: map<int, bv16>, g: AnkGlyph, a: int, n: nat, k: int)
    requires n <= 16
    ensures a <= k < a + ROW_STRIDE * n && (k - a) % ROW_STRIDE == 0 ==>
      k in NarrowImage(m, g, a, n) && NarrowImage(m, g, a, n)[k] == NarrowRow(g, (k - a) / ROW_STRIDE)
    ensures !(a <= k < a + ROW_STRIDE * n && (k - a) % ROW_STRIDE == 0) ==>
      (k in NarrowImage(m, g, a, n) <==> k in m) &&
      (k in m ==> NarrowImage(m, g, a, n)[k] == m[k])
  {
    if n > 0 {
      NarrowImageCell(m, g, a, n - 1, k);
      if k == a + ROW_STRIDE * (n - 1) {
        assert (k - a) / ROW_STRIDE == n - 1;
      }
    }
  }

  /** Words written for row `y` of a wide glyph: left half (pixels 0..7)
      and right half (pixels 8..15). */
  function WideLeft(g: KanjiGlyph, y: nat): bv16
    requires y < 16
  {
    Spread(g[y], 0, 8)
  }

  function WideRight(g: KanjiGlyph, y: nat): bv16
    requires y < 16
  {
    Spread(g[y], 8, 8)
  }

  /** KRAM `m` after the first `n` rows of wide glyph `g` are drawn at `a`:
      row y's left half at `a + 32 y`, its right half in the word after. */
  function WideImage(m: map<int, bv16>, g: KanjiGlyph, a: int, n: nat): map<int, bv16>
    requires n <= 16
  {
    if n == 0 then m
    else
      WideImage(m, g, a, n - 1)
        [a + ROW_STRIDE * (n - 1) := WideLeft(g, n - 1)]
        [a + ROW_STRIDE * (n - 1) + 1 := WideRight(g, n - 1)]
  }

  /** One more row of a wide glyph. */
  lemma WideImageNext(m: map<int, bv16>, g: KanjiGlyph, a: int, y: nat)
    requires y < 16
    ensures WideImage(m, g, a, y + 1) ==
      WideImage(m, g, a, y)[a + ROW_STRIDE * y := WideLeft(g, y)][a + ROW_STRIDE * y + 1 := WideRight(g, y)]
  {
  }

  /** Cell `k` of a wide glyph image: a row's left half at column offset 0,
      its right half at offset 1, and the old contents everywhere else. */
  lemma {:induction false} WideImageCell(m: map<int, bv16>, g: KanjiGlyph, a: int, n: nat, k: int)
    requires n <= 16
    ensures a <= k < a + ROW_STRIDE * n && (k - a) % ROW_STRIDE == 0 ==>
      k in WideImage(m, g, a, n) && WideImage(m, g, a, n)[k] == WideLeft(g, (k - a) / ROW_STRIDE)
    ensures a <= k < a + ROW_STRIDE * n && (k - a) % ROW_STRIDE == 1 ==>
      k in WideImage(m, g, a, n) && WideImage(m, g, a, n)[k] == WideRight(g, (k - a) / ROW_STRIDE)
    ensures !(a <= k < a + ROW_STRIDE * n && (k - a) % ROW_STRIDE < 2) ==>
      (k in WideImage(m, g, a, n) <==> k in m) &&
      (k in m ==> WideImage(m, g, a, n)[k] == m[k])
  {
    if n > 0 {
      WideImageCell(m, g, a, n - 1, k);
      var top := a + ROW_STRIDE * (n - 1);
      if k == top {
        assert (k - a) / ROW_STRIDE == n - 1 && (k - a) % ROW_STRIDE == 0;
      } else if k == top + 1 {
        assert (k - a) / ROW_STRIDE == n - 1 && (k - a) % ROW_STRIDE == 1;
      }
    }
  }

  /** The KING processor's KRAM port: `eris_king_set_kram_write(addr, 1)`
      sets the write pointer, `eris_king_kram_write` stores a word there and
      steps it by one. */
  class King {
    var kram: map<int, bv16>
    var writeAddr: int

    constructor ()
      ensures kram == map[] && writeAddr == 0
    {
      kram := map[];
      writeAddr := 0;
    }

    method SetKramWrite(addr: int)
      modifies this
      ensures writeAddr == addr && kram == old(kram)
    {
      writeAddr := addr;
    }

    method KramWrite(w: bv16)
      modifies this
      ensures kram == old(kram)[old(writeAddr) := w]
      ensures writeAddr == old(writeAddr) + 1
    {
      kram := kram[writeAddr := w];
      writeAddr := writeAddr + 1;
    }
  }

  /** `print_narrow`: the ANK glyph of `sjis`, drawn one spread row per
      KRAM row from `kram` on. */
  method PrintNarrow(king: King, font: RomFont, sjis: int, kram: int)
    modifies king
    ensures king.kram == NarrowImage(old(king.kram), font.ank(sjis), kram, 16)
    ensures king.writeAddr == kram + ROW_STRIDE * 15 + 1
  {
    var glyph := font.ank(sjis);
    var y := 0;
    while y < 16
      invariant 0 <= y <= 16
      invariant king.kram == NarrowImage(old(king.kram), glyph, kram, y)
      invariant y > 0 ==> king.writeAddr == kram + ROW_STRIDE * (y - 1) + 1
    {
      king.SetKramWrite(kram + ROW_STRIDE * y);
      var px := SpreadRow(glyph[y] as bv16, 0);
      king.KramWrite(px);
      y := y + 1;
    }
  }

  /** One row of `print_wide`: the row's low byte spread into the word at
      `at`, its high byte into the word after it. */
  method PrintWideRow(king: King, glyph: KanjiGlyph, y: nat, at: int)
    requires y < 16
    modifies king
    ensures king.kram == old(king.kram)[at := WideLeft(glyph, y)][at + 1 := WideRight(glyph, y)]
    ensures king.writeAddr == at + 2
  {
    king.SetKramWrite(at);
    var px := SpreadRow(glyph[y], 0);
    king.KramWrite(px);
    king.SetKramWrite(at + 1);
    px := SpreadRow(glyph[y], 8);
    king.KramWrite(px);
  }

  /** `print_wide`: the kanji glyph of `sjis`, each row drawn as two spread
      words side by side. */
  method PrintWide(king: King, font: RomFont, sjis: int, kram: int)
    modifies king
    ensures king.kram == WideImage(old(king.kram), font.kanji(sjis), kram, 16)
    ensures king.writeAddr == kram + ROW_STRIDE * 15 + 2
  {
    var glyph := font.kanji(sjis);
    var y := 0;
    while y < 16
      invariant 0 <= y <= 16
      invariant king.kram == WideImage(old(king.kram), glyph, kram, y)
      invariant y > 0 ==> king.writeAddr == kram + ROW_STRIDE * (y - 1) + 2
    {
      PrintWideRow(king, glyph, y, kram + ROW_STRIDE * y);
      WideImageNext(old(king.kram), glyph, kram, y);
      y := y + 1;
    }
  }

  // ---------------------------------------------------------------------
  // Scanning Shift_JIS text.

  /** The lead-byte rule of `printsjis`: a byte stands for a one-column
      character when it is below 0x81 or in the half-width katakana range
      0xA1 .. 0xDF; any other byte starts a two-byte code. */
  predicate IsSingleByte(ch: u8)
  {
    ch < 0x81 || (0xA1 <= ch && ch <= 0xDF)
  }

  /** One character of the string, as `printsjis` classifies it. */
  datatype Code = Narrow(ch: u8) | Wide(lead: u8, trail: u8)
  {
    /** The `sjis` value passed on: `ch`, or `(ch << 8) + ch2`. */
    function Sjis(): int
    {
      match this
      case Narrow(ch) => ch as int
      case Wide(lead, trail) => lead as int * 256 + trail as int
    }

    /** Columns the character takes: `kram` grows by 1 or 2. */
    function Width(): nat
    {
      if Narrow? then 1 else 2
    }

    /** The bytes the character came from. */
    function Bytes(): seq<u8>
    {
      match this
      case Narrow(ch) => [ch]
      case Wide(lead, trail) => [lead, trail]
    }

    /** A code `printsjis` can produce: no NUL inside, and the lead byte
        rule decides its width. */
    predicate Valid()
    {
      match this
      case Narrow(ch) => ch != 0 && IsSingleByte(ch)
      case Wide(lead, trail) => !IsSingleByte(lead) && trail != 0
    }
  }

  /** Why a byte string has no defined rendering. */
  datatype ScanError =
    | Unterminated   // the bytes end before a NUL is met
    | LeadBeforeNul  // a two-byte lead byte sits right before the NUL, so
                     // the scan would go on reading past the terminator

  /** The codes `printsjis` draws for `text`, up to the terminating NUL. */
  function Scan(text: seq<u8>): (r: Result<seq<Code>, ScanError>)
    ensures r.Ok? ==> |r.value| < |text|
  {
    if |text| == 0 then Err(Unterminated)
    else if text[0] == 0 then Ok([])
    else if IsSingleByte(text[0]) then
      match Scan(text[1..])
      case Ok(cs) => Ok([Narrow(text[0])] + cs)
      case Err(e) => Err(e)
    else if |text| == 1 then Err(Unterminated)
    else if text[1] == 0 then Err(LeadBeforeNul)
    else
      match Scan(text[2..])
      case Ok(cs) => Ok([Wide(text[0], text[1])] + cs)
      case Err(e) => Err(e)
  }

  /** The bytes of a code sequence, without the terminator. */
  function Encode(cs: seq<Code>): (bs: seq<u8>)
    ensures |cs| <= |bs|
  {
    if cs == [] then [] else cs[0].Bytes() + Encode(cs[1..])
  }

  /** Total columns taken by `cs`. */
  function Columns(cs: seq<Code>): nat
  {
    if cs == [] then 0 else Columns(cs[..|cs| - 1]) + cs[|cs| - 1].Width()
  }

  /** Every code the scanner yields obeys the lead-byte rule, and the codes
      spell out the string up to its NUL. */
  lemma {:induction false} ScanDecode(text: seq<u8>)
    requires Scan(text).Ok?
    ensures forall i :: 0 <= i < |Scan(text).value| ==> Scan(text).value[i].Valid()
    ensures Encode(Scan(text).value) + [0] <= text
  {
    if text[0] != 0 {
      if IsSingleByte(text[0]) {
        ScanDecode(text[1..]);
        var cs := Scan(text[1..]).value;
        assert Scan(text).value == [Narrow(text[0])] + cs;
        assert ([Narrow(text[0])] + cs)[1..] == cs;
      } else {
        ScanDecode(text[2..]);
        var cs := Scan(text[2..]).value;
        assert Scan(text).value == [Wide(text[0], text[1])] + cs;
        assert ([Wide(text[0], text[1])] + cs)[1..] == cs;
      }
    }
  }

  /** A valid one-byte code in front of a scannable string. */
  lemma ScanNarrowCons(ch: u8, tail: seq<u8>)
    requires Narrow(ch).Valid() && Scan(tail).Ok?
    ensures Scan([ch] + tail) == Ok([Narrow(ch)] + Scan(tail).value)
  {
    assert ([ch] + tail)[1..] == tail;
  }

  /** A valid two-byte code in front of a scannable string. */
  lemma ScanWideCons(lead: u8, trail: u8, tail: seq<u8>)
    requires Wide(lead, trail).Valid() && Scan(tail).Ok?
    ensures Scan([lead, trail] + tail) == Ok([Wide(lead, trail)] + Scan(tail).value)
  {
    assert ([lead, trail] + tail)[2..] == tail;
  }

  /** Round trip: a sequence of valid codes, encoded and terminated, scans
      back to exactly those codes, whatever follows the terminator. */
  lemma {:induction false} ScanEncode(cs: seq<Code>, rest: seq<u8>)
    requires forall i :: 0 <= i < |cs| ==> cs[i].Valid()
    ensures Scan(Encode(cs) + [0] + rest) == Ok(cs)
  {
    if cs != [] {
      ScanEncode(cs[1..], rest);
      var tail := Encode(cs[1..]) + [0] + rest;
      var text := Encode(cs) + [0] + rest;
      assert text == cs[0].Bytes() + tail;
      assert [cs[0]] + cs[1..] == cs;
      match cs[0]
      case Narrow(ch) =>
        ScanNarrowCons(ch, tail);
      case Wide(lead, trail) =>
        ScanWideCons(lead, trail, tail);
    } else {
      assert (Encode(cs) + [0] + rest)[0] == 0;
    }
  }

  /** The scan stops at the terminator. */
  lemma ScanStop(text: seq<u8>)
    requires |text| > 0 && text[0] == 0
    ensures Scan(text) == Ok([])
  {
  }

  /** One step of the scan at `offset`, as `printsjis` takes it: a byte the
      lead-byte rule calls single is a one-byte code and the scan goes on
      after it; any other byte is joined with the next, non-NUL byte into a
      two-byte code and the scan goes on after both. */
  lemma ScanStep(text: seq<u8>, offset: nat)
    requires offset < |text| && Scan(text[offset..]).Ok? && text[offset] != 0
    ensures IsSingleByte(text[offset]) ==>
      offset + 1 < |text| && Scan(text[offset + 1..]).Ok? &&
      Scan(text[offset..]).value == [Narrow(text[offset])] + Scan(text[offset + 1..]).value
    ensures !IsSingleByte(text[offset]) ==>
      offset + 2 < |text| && text[offset + 1] != 0 && Scan(text[offset + 2..]).Ok? &&
      Scan(text[offset..]).value == [Wide(text[offset], text[offset + 1])] + Scan(text[offset + 2..]).value
  {
    var rest := text[offset..];
    assert rest[0] == text[offset];
    if IsSingleByte(rest[0]) {
      assert rest[1..] == text[offset + 1..];
    } else {
      assert rest[1] == text[offset + 1];
      assert rest[2..] == text[offset + 2..];
    }
  }

  // ---------------------------------------------------------------------
  // Drawing a string.

  /** KRAM after drawing one code at `a`. */
  function DrawCode(m: map<int, bv16>, font: RomFont, c: Code, a: int): map<int, bv16>
  {
    match c
    case Narrow(ch) => NarrowImage(m, font.ank(c.Sjis()), a, 16)
    case Wide(lead, trail) => WideImage(m, font.kanji(c.Sjis()), a, 16)
  }

  /** KRAM after drawing `cs` left to right from `a`, each code starting at
      the column where the previous one ended. */
  function Render(m: map<int, bv16>, font: RomFont, cs: seq<Code>, a: int): map<int, bv16>
    decreases |cs|
  {
    if cs == [] then m
    else Render(DrawCode(m, font, cs[0], a), font, cs[1..], a + cs[0].Width())
  }

  /** Columns counted from the front. */
  lemma {:induction false} ColumnsCons(cs: seq<Code>)
    requires cs != []
    ensures Columns(cs) == cs[0].Width() + Columns(cs[1..])
    decreases |cs|
  {
    if |cs| > 1 {
      var init := cs[..|cs| - 1];
      ColumnsCons(init);
      assert init[0] == cs[0] && init[1..] == cs[1..][..|cs| - 2];
    } else {
      assert cs[..0] == [] && cs[1..] == [];
    }
  }

  /** Drawing `xs + ys` draws `xs` and then `ys`, the latter starting
      `Columns(xs)` columns further on. */
  lemma {:induction false} RenderAppend(m: map<int, bv16>, font: RomFont, xs: seq<Code>, ys: seq<Code>, a: int)
    ensures Render(m, font, xs + ys, a) == Render(Render(m, font, xs, a), font, ys, a + Columns(xs))
    decreases |xs|
  {
    if xs == [] {
      assert xs + ys == ys;
    } else {
      var m' := DrawCode(m, font, xs[0], a);
      RenderAppend(m', font, xs[1..], ys, a + xs[0].Width());
      assert (xs + ys)[0] == xs[0] && (xs + ys)[1..] == xs[1..] + ys;
      ColumnsCons(xs);
    }
  }

  /** Drawing one more code puts it at the column where the earlier codes
      ended: a one-byte code's ANK glyph takes one column, a two-byte code's
      kanji glyph two. */
  lemma RenderSnoc(m: map<int, bv16>, font: RomFont, cs: seq<Code>, c: Code, a: int)
    ensures Render(m, font, cs + [c], a) == DrawCode(Render(m, font, cs, a), font, c, a + Columns(cs))
    ensures Columns(cs + [c]) == Columns(cs) + c.Width()
  {
    RenderAppend(m, font, cs, [c], a);
    assert (cs + [c])[..|cs|] == cs;
  }

  /** `printsjis`: draws the string's characters from column `x`, row `y`
      of the KRAM text grid, one column for a one-byte code and two for a
      two-byte code. */
  method PrintSjis(king: King, font: RomFont, text: seq<u8>, x: int, y: int)
    requires Scan(text).Ok?
    modifies king
    ensures king.kram == Render(old(king.kram), font, Scan(text).value, x + ROW_STRIDE * y)
  {
    var offset := 0;
    var kram := x + ROW_STRIDE * y;
    ghost var todo: seq<Code> := Scan(text).value;
    assert text[offset..] == text;
    var ch := text[offset];
    while ch != 0
      invariant 0 <= offset < |text| && ch == text[offset]
      invariant Scan(text[offset..]) == Ok(todo)
      invariant Render(old(king.kram), font, Scan(text).value, x + ROW_STRIDE * y) ==
        Render(king.kram, font, todo, kram)
      decreases |text| - offset
    {
      ScanStep(text, offset);
      if IsSingleByte(ch) {
        var sjis := ch as int;
        PrintNarrow(king, font, sjis, kram);
        kram := kram + 1;
      } else {
        offset := offset + 1;
        var ch2 := text[offset];
        var sjis := ch as int * 256 + ch2 as int;
        PrintWide(king, font, sjis, kram);
        kram := kram + 2;
      }
      todo := todo[1..];
      offset := offset + 1;
      ch := text[offset];
    }
    ScanStop(text[offset..]);
  }
}
