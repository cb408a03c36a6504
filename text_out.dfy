/** Text output through the first HuC6270 video controller: `print_at` and
    `putch_at` turn each character into one background-attribute word and
    stream the words into VRAM from the cell at row `y`, column `x` of the
    64-column map. */
module TextOut {
  import opened Machine

  /** Width of the background map: the controller is set to a 64x32 map. */
  const MAP_WIDTH: int := 64

  /** The VRAM cell of column `x`, row `y`: `(y * 64) + x`. */
  function CellAddr(x: int, y: int): int
  {
    y * 64 + x
  }

  /** The attribute word for character `c` in palette `pal`, as stored in a
      `u16`: `(pal * 0x1000) + c + 0x100`, reduced modulo 2^16. */
  function TileWord(pal: int, c: char): (w: u16)
    ensures (w as int - (pal * 0x1000 + c as int + 0x100)) % 0x1_0000 == 0
  {
    ((pal * 0x1000 + c as int + 0x100) % 0x1_0000) as u16
  }

  /** The palette number held in the top four bits of an attribute word. */
  function TilePalette(w: u16): (pal: int)
    ensures 0 <= pal < 16
  {
    w as int / 0x1000
  }

  /** The character code held in the low twelve bits, less the font's base
      tile 0x100. */
  function TileChar(w: u16): (c: int)
    ensures -0x100 <= c < 0xF00
  {
    w as int % 0x1000 - 0x100
  }

  /** For the 16 palettes and every character below 0xF00 the word packs
      palette and character without loss. */
  lemma TileWordDecode(pal: int, c: char)
    requires 0 <= pal < 16 && c as int < 0xF00
    ensures TilePalette(TileWord(pal, c)) == pal
    ensures TileChar(TileWord(pal, c)) == c as int
  {
    var n := pal * 0x1000 + c as int + 0x100;
    assert n < 0x1_0000;
    assert TileWord(pal, c) as int == n;
    assert n == pal * 0x1000 + (c as int + 0x100);
  }

  /** The words `print_at` writes for the characters of `s`, in order. */
  function TileWords(pal: int, s: string): (ws: seq<u16>)
    ensures |ws| == |s|
    ensures forall i :: 0 <= i < |s| ==> ws[i] == TileWord(pal, s[i])
  {
    if s == [] then [] else TileWords(pal, s[..|s| - 1]) + [TileWord(pal, s[|s| - 1])]
  }

  /** VRAM `m` after writing the first `n` words of `ws` into consecutive
      cells from `a`. */
  function PaintedPrefix(m: map<int, u16>, a: int, ws: seq<u16>, n: int): (r: map<int, u16>)
    requires 0 <= n <= |ws|
    ensures forall k :: a <= k < a + n ==> k in r && r[k] == ws[k - a]
    ensures forall k :: !(a <= k < a + n) ==> (k in r <==> k in m)
    ensures forall k :: !(a <= k < a + n) && k in m ==> r[k] == m[k]
  {
    if n == 0 then m else PaintedPrefix(m, a, ws, n - 1)[a + n - 1 := ws[n - 1]]
  }

  /** VRAM `m` after writing `ws` into consecutive cells from `a`: the
      written cells hold the words and every other cell is untouched. */
  function Painted(m: map<int, u16>, a: int, ws: seq<u16>): (r: map<int, u16>)
    ensures forall k :: a <= k < a + |ws| ==> k in r && r[k] == ws[k - a]
    ensures forall k :: !(a <= k < a + |ws|) ==> (k in r <==> k in m)
    ensures forall k :: !(a <= k < a + |ws|) && k in m ==> r[k] == m[k]
  {
    PaintedPrefix(m, a, ws, |ws|)
  }

  /** Writing one more word extends the painted run by one cell. */
  lemma PaintedSnoc(m: map<int, u16>, a: int, ws: seq<u16>, w: u16)
    ensures Painted(m, a, ws + [w]) == Painted(m, a, ws)[a + |ws| := w]
  {
    var longer := Painted(m, a, ws + [w]);
    var extended := Painted(m, a, ws)[a + |ws| := w];
    forall k ensures (k in longer <==> k in extended) && (k in longer ==> longer[k] == extended[k]) {
      if a <= k < a + |ws| {
        assert (ws + [w])[k - a] == ws[k - a];
      }
    }
  }

  /** Cell `a + k` shows character `k` of `text` in palette `pal`. */
  ghost predicate ShowsAt(vram: map<int, u16>, a: int, pal: int, text: string, k: int)
  {
    0 <= k < |text| && a + k in vram && vram[a + k] == TileWord(pal, text[k])
  }

  /** The cells from `a` show `text` in palette `pal`. */
  ghost predicate Shows(vram: map<int, u16>, a: int, pal: int, text: string)
  {
    forall k :: 0 <= k < |text| ==> ShowsAt(vram, a, pal, text, k)
  }

  /** Painting the words of `text` makes the screen show `text`, and each of
      its cells decodes back to the palette and the character. */
  lemma PaintedShows(m: map<int, u16>, a: int, pal: int, text: string)
    requires 0 <= pal < 16
    requires forall k :: 0 <= k < |text| ==> text[k] as int < 0xF00
    ensures Shows(Painted(m, a, TileWords(pal, text)), a, pal, text)
    ensures forall k :: 0 <= k < |text| ==>
      TilePalette(Painted(m, a, TileWords(pal, text))[a + k]) == pal &&
      TileChar(Painted(m, a, TileWords(pal, text))[a + k]) == text[k] as int
  {
    var ws := TileWords(pal, text);
    var r := Painted(m, a, ws);
    forall k | 0 <= k < |text|
      ensures ShowsAt(r, a, pal, text, k)
      ensures TilePalette(r[a + k]) == pal && TileChar(r[a + k]) == text[k] as int
    {
      assert r[a + k] == ws[k];
      TileWordDecode(pal, text[k]);
    }
    assert Shows(r, a, pal, text);
  }

  /** The length C's `strlen` gives: the index of the first NUL. */
  function StrLen(s: string): (n: nat)
    requires '\0' in s
    ensures n < |s| && s[n] == '\0'
    ensures forall i :: 0 <= i < n ==> s[i] != '\0'
  {
    if s[0] == '\0' then 0 else 1 + StrLen(s[1..])
  }

  /** The text of a NUL-terminated string: everything before the first NUL. */
  function CText(s: string): (t: string)
    requires '\0' in s
    ensures '\0' !in t
    ensures t + ['\0'] <= s
  {
    s[..StrLen(s)]
  }

  /** Two strings with the same text before their terminators are printed
      alike, whatever follows the terminator. */
  lemma CTextOfTerminated(t: string, rest: string)
    requires '\0' !in t
    ensures '\0' in t + ['\0'] + rest
    ensures CText(t + ['\0'] + rest) == t
  {
    var s := t + ['\0'] + rest;
    assert s[|t|] == '\0';
  }

  /** The first video controller's VRAM port: a write pointer set by
      `eris_low_sup_set_vram_write` and a data port that stores a word and
      steps the pointer. */
  class Vdc {
    var vram: map<int, u16>
    var writeAddr: int

    constructor ()
      ensures vram == map[] && writeAddr == 0
    {
      vram := map[];
      writeAddr := 0;
    }

    method SetVramWrite(addr: int)
      modifies this
      ensures writeAddr == addr && vram == old(vram)
    {
      writeAddr := addr;
    }

    method VramWrite(w: u16)
      modifies this
      ensures vram == old(vram)[old(writeAddr) := w]
      ensures writeAddr == old(writeAddr) + 1
    {
      vram := vram[writeAddr := w];
      writeAddr := writeAddr + 1;
    }
  }

  /** `print_at`: the text of `str` goes to the cells from (x, y) on, one
      word per character, and the write pointer ends just past it. */
  method PrintAt(vdc: Vdc, x: int, y: int, pal: int, str: string)
    requires '\0' in str
    modifies vdc
    ensures vdc.vram == Painted(old(vdc.vram), CellAddr(x, y), TileWords(pal, CText(str)))
    ensures vdc.writeAddr == CellAddr(x, y) + |CText(str)|
  {
    var i := CellAddr(x, y);
    vdc.SetVramWrite(i);
    ghost var start := vdc.vram;
    i := 0;
    while i < StrLen(str)
      invariant 0 <= i <= StrLen(str)
      invariant vdc.vram == Painted(start, CellAddr(x, y), TileWords(pal, str[..i]))
      invariant vdc.writeAddr == CellAddr(x, y) + i
    {
      var a := TileWord(pal, str[i]);
      assert str[..i + 1] == str[..i] + [str[i]];
      assert TileWords(pal, str[..i + 1]) == TileWords(pal, str[..i]) + [a];
      PaintedSnoc(start, CellAddr(x, y), TileWords(pal, str[..i]), a);
      vdc.VramWrite(a);
      i := i + 1;
    }
  }

  /** `putch_at`: one word for `c` at (x, y). */
  method PutChAt(vdc: Vdc, x: int, y: int, pal: int, c: char)
    modifies vdc
    ensures vdc.vram == old(vdc.vram)[CellAddr(x, y) := TileWord(pal, c)]
    ensures vdc.writeAddr == CellAddr(x, y) + 1
  {
    var i := CellAddr(x, y);
    vdc.SetVramWrite(i);
    var a := TileWord(pal, c);
    vdc.VramWrite(a);
  }

  /** `putch_at(x, y, pal, c)` leaves VRAM as `print_at` does with the
      one-character string `c`. */
  lemma PutChIsPrintOfOne(m: map<int, u16>, a: int, pal: int, c: char)
    requires c != '\0'
    ensures CText([c, '\0']) == [c]
    ensures Painted(m, a, TileWords(pal, CText([c, '\0']))) == m[a := TileWord(pal, c)]
  {
    CTextOfTerminated([c], []);
    assert [c] + ['\0'] + [] == [c, '\0'];
    assert TileWords(pal, [c]) == [] + [TileWord(pal, c)];
    PaintedSnoc(m, a, [], TileWord(pal, c));
  }
}
