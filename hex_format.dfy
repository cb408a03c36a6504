/** The row formatter of the viewer (`hex_format_line` with its digit table
    `hex_lookup`) and the eight-digit address text of the range line.

    A row of 16 bytes becomes 39 visible characters followed by a NUL.
    Each byte takes two characters; after every odd-numbered byte except
    the last a single space separates the pairs, so byte `i` starts at
    column `Pos(i) == 2*i + i/2` and the separators sit at columns
    `Sep(k) == 5*k + 4`. */
module HexFormat {
  import opened Machine

  /** `hex_lookup`. */
  const HexDigits: string := "0123456789ABCDEF"

  /** Number of visible characters in a formatted row. */
  const LINE_LENGTH: nat := 39

  datatype Format = Hex | Ascii

  predicate IsHexDigit(c: char) {
    '0' <= c <= '9' || 'A' <= c <= 'F'
  }

  /** The entry `n` of `hex_lookup`, spelled out. */
  lemma HexDigitsAt(n: nat)
    requires n < 16
    ensures HexDigits[n] == if n < 10 then (('0' as int) + n) as char else (('A' as int) + n - 10) as char
  {
    assert HexDigits == ['0', '1', '2', '3', '4', '5', '6', '7', '8', '9', 'A', 'B', 'C', 'D', 'E', 'F'];
  }

  /** The position of a digit character in `hex_lookup`: the inverse of the table. */
  function DigitValue(c: char): (n: nat)
    requires IsHexDigit(c)
    ensures n < 16 && HexDigits[n] == c
  {
    var n := if c <= '9' then c as int - '0' as int else c as int - 'A' as int + 10;
    HexDigitsAt(n);
    n
  }

  lemma DigitValueOfTable(n: nat)
    requires n < 16
    ensures IsHexDigit(HexDigits[n]) && DigitValue(HexDigits[n]) == n
  {
    HexDigitsAt(n);
  }

  /** Column of the first character of byte `i` (0 <= i < 16). */
  function Pos(i: nat): nat {
    2 * i + i / 2
  }

  /** Column of the `k`-th pair separator (0 <= k < 7). */
  function Sep(k: nat): nat {
    5 * k + 4
  }

  /** The two characters one byte becomes: high then low nibble through
      `hex_lookup`, or a space then the byte itself when it lies in
      0x20..0x7F inclusive, else a space. */
  function Cell(fmt: Format, b: u8): (s: string)
    ensures |s| == 2
  {
    match fmt
    case Hex => [HexDigits[b / 16], HexDigits[b % 16]]
    case Ascii => [' ', if 0x20 <= b <= 0x7F then b as int as char else ' ']
  }

  /** Text that follows byte `i`'s cell: a space after every odd-numbered
      byte except the last, nothing otherwise. */
  function Gap(i: nat): string {
    if i % 2 == 1 && i < 15 then " " else ""
  }

  /** Where byte `i` and the separator after it land. */
  lemma {:induction false} PosFacts(i: nat)
    requires i < 16
    ensures Pos(i) / 5 == i / 2 && Pos(i) % 5 == 2 * (i % 2)
    ensures (Pos(i) + 1) / 5 == i / 2 && (Pos(i) + 1) % 5 == 2 * (i % 2) + 1
    ensures Pos(i) + 1 < LINE_LENGTH
    ensures Pos(i) + 2 + |Gap(i)| == if i < 15 then Pos(i + 1) else LINE_LENGTH
    ensures i % 2 == 1 && i < 15 ==> Pos(i) + 2 == Sep(i / 2)
  {
    var g, h := i / 2, i % 2;
    assert i == 2 * g + h;
    assert Pos(i) == 5 * g + 2 * h;
  }

  /** The text the first `n` bytes of a row produce, as the row formatter
      emits it: each byte's cell followed by its gap. */
  function LinePrefix(fmt: Format, row: seq<u8>, n: nat): (s: string)
    requires |row| == 16 && n <= 16
    ensures |s| == if n < 16 then Pos(n) else LINE_LENGTH
  {
    if n == 0 then []
    else
      PosFacts(n - 1);
      LinePrefix(fmt, row, n - 1) + Cell(fmt, row[n - 1]) + Gap(n - 1)
  }

  /** The 39 visible characters of a formatted row. */
  function Line(fmt: Format, row: seq<u8>): (s: string)
    requires |row| == 16
    ensures |s| == LINE_LENGTH
  {
    LinePrefix(fmt, row, 16)
  }

  /** Every character lies in the printable range 0x20..0x7F, so a
      formatted row holds no NUL. */
  predicate Printable(s: string) {
    forall k :: 0 <= k < |s| ==> 0x20 <= s[k] as int <= 0x7F
  }

  lemma CellPrintable(fmt: Format, b: u8)
    ensures Printable(Cell(fmt, b))
  {
    if fmt == Hex {
      HexDigitsAt(b as nat / 16);
      HexDigitsAt(b as nat % 16);
    }
  }

  lemma {:induction false} PrefixPrintable(fmt: Format, row: seq<u8>, n: nat)
    requires |row| == 16 && n <= 16
    ensures Printable(LinePrefix(fmt, row, n))
  {
    if n > 0 {
      PrefixPrintable(fmt, row, n - 1);
      CellPrintable(fmt, row[n - 1]);
    }
  }

  /** A formatted row is printable text: it never contains the terminator. */
  lemma LinePrintable(fmt: Format, row: seq<u8>)
    requires |row| == 16
    ensures Printable(Line(fmt, row))
    ensures '\0' !in Line(fmt, row)
  {
    PrefixPrintable(fmt, row, 16);
  }

  /** Every column is either a separator or one of the two characters of exactly one byte. */
  lemma {:induction false} ColumnOwner(j: nat)
    requires j < LINE_LENGTH
    ensures j % 5 == 4 ==> j / 5 < 7 && j == Sep(j / 5)
    ensures j % 5 != 4 ==>
      var i := 2 * (j / 5) + (j % 5) / 2;
      i < 16 && j == Pos(i) + j % 5 % 2
  {
    if j % 5 != 4 {
      var i := 2 * (j / 5) + (j % 5) / 2;
      PosFacts(i);
    }
  }

  /** Columns grow with the byte index. */
  lemma PosMono(i: nat, j: nat)
    requires i < j < 16
    ensures Pos(i) + 2 <= Pos(j)
  {
  }

  /** Byte `i` of the first `n` bytes sits at columns Pos(i) and Pos(i)+1. */
  lemma {:induction false} PrefixCells(fmt: Format, row: seq<u8>, n: nat, i: nat)
    requires |row| == 16 && i < n <= 16
    ensures Pos(i) + 1 < |LinePrefix(fmt, row, n)|
    ensures LinePrefix(fmt, row, n)[Pos(i)] == Cell(fmt, row[i])[0]
    ensures LinePrefix(fmt, row, n)[Pos(i) + 1] == Cell(fmt, row[i])[1]
  {
    var prev := LinePrefix(fmt, row, n - 1);
    var cell := Cell(fmt, row[n - 1]);
    PosFacts(n - 1);
    assert LinePrefix(fmt, row, n) == prev + cell + Gap(n - 1);
    if i < n - 1 {
      PrefixCells(fmt, row, n - 1, i);
      assert Pos(i) + 1 < |prev|;
    } else {
      assert |prev| == Pos(i);
      assert (prev + cell + Gap(n - 1))[Pos(i)] == cell[0];
    }
  }

  /** The separator after pair `k` is in place once byte `2k+1` has been written. */
  lemma {:induction false} PrefixSep(fmt: Format, row: seq<u8>, n: nat, k: nat)
    requires |row| == 16 && n <= 16 && k < 7 && 2 * k + 2 <= n
    ensures Sep(k) < |LinePrefix(fmt, row, n)| && LinePrefix(fmt, row, n)[Sep(k)] == ' '
  {
    var prev := LinePrefix(fmt, row, n - 1);
    var cell := Cell(fmt, row[n - 1]);
    PosFacts(n - 1);
    assert LinePrefix(fmt, row, n) == prev + cell + Gap(n - 1);
    if 2 * k + 2 < n {
      PrefixSep(fmt, row, n - 1, k);
      assert Sep(k) < |prev|;
    } else {
      assert n - 1 == 2 * k + 1 && |prev| == Pos(n - 1) && Pos(n - 1) + 2 == Sep(k);
      assert Gap(n - 1) == " ";
      assert (prev + cell + Gap(n - 1))[Sep(k)] == ' ';
    }
  }

  /** The layout of a row: byte `i` at columns Pos(i) and Pos(i)+1, and a
      space at each of the seven separator columns. */
  lemma {:induction false} LineLayout(fmt: Format, row: seq<u8>)
    requires |row| == 16
    ensures forall i {:trigger Pos(i)} :: 0 <= i < 16 ==>
      Line(fmt, row)[Pos(i)] == Cell(fmt, row[i])[0] && Line(fmt, row)[Pos(i) + 1] == Cell(fmt, row[i])[1]
    ensures forall k {:trigger Sep(k)} :: 0 <= k < 7 ==> Line(fmt, row)[Sep(k)] == ' '
  {
    forall i | 0 <= i < 16
      ensures Line(fmt, row)[Pos(i)] == Cell(fmt, row[i])[0] && Line(fmt, row)[Pos(i) + 1] == Cell(fmt, row[i])[1]
    {
      PrefixCells(fmt, row, 16, i);
    }
    forall k | 0 <= k < 7 ensures Line(fmt, row)[Sep(k)] == ' ' {
      PrefixSep(fmt, row, 16, k);
    }
  }

  /** In HEX mode every non-separator column holds a digit of `hex_lookup`. */
  lemma {:induction false} HexLineDigits(row: seq<u8>)
    requires |row| == 16
    ensures WellFormedHex(Line(Hex, row))
  {
    var s := Line(Hex, row);
    LineLayout(Hex, row);
    forall j | 0 <= j < LINE_LENGTH
      ensures if j % 5 == 4 then s[j] == ' ' else IsHexDigit(s[j])
    {
      ColumnOwner(j);
      if j % 5 != 4 {
        var i := 2 * (j / 5) + (j % 5) / 2;
        assert s[Pos(i)] == Cell(Hex, row[i])[0] && s[Pos(i) + 1] == Cell(Hex, row[i])[1];
        DigitValueOfTable((row[i] / 16) as nat);
        DigitValueOfTable((row[i] % 16) as nat);
      } else {
        assert s[Sep(j / 5)] == ' ';
      }
    }
  }

  /** In ASCII mode byte `i` shows as a space followed by the byte itself if
      it is printable (0x20..0x7F, DEL included) and a space otherwise. */
  lemma {:induction false} AsciiLayout(row: seq<u8>, i: nat)
    requires |row| == 16 && i < 16
    ensures Line(Ascii, row)[Pos(i)] == ' '
    ensures 0x20 <= row[i] <= 0x7F ==> Line(Ascii, row)[Pos(i) + 1] as int == row[i] as int
    ensures !(0x20 <= row[i] <= 0x7F) ==> Line(Ascii, row)[Pos(i) + 1] == ' '
  {
    LineLayout(Ascii, row);
    assert Pos(i) == Pos(i);
  }

  /** A HEX-mode text: 39 columns, a space at every separator column and a
      digit of `hex_lookup` everywhere else. */
  predicate WellFormedHex(s: string) {
    |s| == LINE_LENGTH &&
    forall j :: 0 <= j < LINE_LENGTH ==> if j % 5 == 4 then s[j] == ' ' else IsHexDigit(s[j])
  }

  /** The byte whose digit pair starts at column Pos(i). */
  function PairValue(s: string, i: nat): u8
    requires WellFormedHex(s) && i < 16
  {
    PosFacts(i);
    (DigitValue(s[Pos(i)]) * 16 + DigitValue(s[Pos(i) + 1])) as u8
  }

  /** Reads a HEX-mode row back into the 16 bytes it shows. */
  function ParseHexLine(s: string): Option<seq<u8>> {
    if WellFormedHex(s) then Some(seq(16, i requires 0 <= i < 16 => PairValue(s, i))) else None
  }

  /** Reading the digit pairs back recovers the row. */
  lemma {:induction false} HexRoundTrip(row: seq<u8>)
    requires |row| == 16
    ensures ParseHexLine(Line(Hex, row)) == Some(row)
  {
    var s := Line(Hex, row);
    HexLineDigits(row);
    LineLayout(Hex, row);
    forall i | 0 <= i < 16 ensures PairValue(s, i) == row[i] {
      var b := row[i];
      assert s[Pos(i)] == HexDigits[b / 16] && s[Pos(i) + 1] == HexDigits[b % 16];
      DigitValueOfTable((b / 16) as nat);
      DigitValueOfTable((b % 16) as nat);
    }
    assert seq(16, i requires 0 <= i < 16 => PairValue(s, i)) == row;
  }

  /** The two digits of byte `i` of a parsed text are those of the byte itself. */
  lemma PairDigit(s: string, row: seq<u8>, i: nat)
    requires ParseHexLine(s) == Some(row) && i < 16
    ensures |row| == 16 && Pos(i) + 1 < |s|
    ensures Cell(Hex, row[i]) == [s[Pos(i)], s[Pos(i) + 1]]
  {
    PosFacts(i);
    var hi, lo := DigitValue(s[Pos(i)]), DigitValue(s[Pos(i) + 1]);
    assert row[i] == PairValue(s, i);
    assert row[i] / 16 == hi as u8 && row[i] % 16 == lo as u8;
  }

  /** Column `j` of a parsed text is column `j` of the parsed row's HEX line. */
  lemma ParsedColumn(s: string, row: seq<u8>, j: nat)
    requires ParseHexLine(s) == Some(row) && j < LINE_LENGTH
    ensures |row| == 16 && Line(Hex, row)[j] == s[j]
  {
    ColumnOwner(j);
    if j % 5 == 4 {
      PrefixSep(Hex, row, 16, j / 5);
    } else {
      var i := 2 * (j / 5) + (j % 5) / 2;
      PairDigit(s, row, i);
      PrefixCells(Hex, row, 16, i);
    }
  }

  /** Conversely, a text that parses back to a row is exactly that row's HEX line. */
  lemma {:induction false} HexParseIsFormat(s: string, row: seq<u8>)
    requires ParseHexLine(s) == Some(row)
    ensures |row| == 16 && Line(Hex, row) == s
  {
    forall j | 0 <= j < LINE_LENGTH ensures Line(Hex, row)[j] == s[j] {
      ParsedColumn(s, row, j);
    }
  }

  /** The first half of one iteration of `hex_format_line`: the two
      characters byte `b` becomes, written at `at` and `at + 1`. */
  method EmitCell(fmt: Format, b: u8, output: array<char>, at: nat)
    requires at + 1 < output.Length
    modifies output
    ensures output[at] == Cell(fmt, b)[0] && output[at + 1] == Cell(fmt, b)[1]
    ensures forall j :: 0 <= j < output.Length && j != at && j != at + 1 ==> output[j] == old(output[j])
  {
    if fmt == Hex {
      // `(b >> 4) & 0x0F` and `b & 0x0F` of an unsigned byte
      output[at] := HexDigits[b / 16];
      output[at + 1] := HexDigits[b % 16];
    } else {
      output[at] := ' ';
      if 0x20 <= b <= 0x7F {
        output[at + 1] := b as int as char;
      } else {
        output[at + 1] := ' ';
      }
    }
  }

  /** What the loop body of `hex_format_line` writes for byte `i`. */
  lemma LineAtByte(fmt: Format, row: seq<u8>, i: nat)
    requires |row| == 16 && i < 16
    ensures Pos(i) + 2 + |Gap(i)| <= LINE_LENGTH
    ensures Line(fmt, row)[Pos(i)] == Cell(fmt, row[i])[0] && Line(fmt, row)[Pos(i) + 1] == Cell(fmt, row[i])[1]
    ensures Gap(i) != "" ==> Line(fmt, row)[Pos(i) + 2] == ' '
  {
    PosFacts(i);
    PrefixCells(fmt, row, 16, i);
    if Gap(i) != "" {
      PrefixSep(fmt, row, 16, i / 2);
    }
  }

  /** `hex_format_line`: formats `bin[start..start+16]` into `output`,
      writing columns 0..38, then the NUL at column 39, and nothing else. */
  method FormatLine(fmt: Format, bin: array<u8>, start: nat, output: array<char>)
    requires start + 16 <= bin.Length
    requires LINE_LENGTH + 1 <= output.Length
    modifies output
    ensures output[..LINE_LENGTH] == Line(fmt, bin[start..start + 16])
    ensures output[LINE_LENGTH] == '\0'
    ensures output[LINE_LENGTH + 1..] == old(output[LINE_LENGTH + 1..])
  {
    ghost var line := Line(fmt, bin[start..start + 16]);
    var outInd := 0;
    for i := 0 to 16
      invariant outInd == if i < 16 then Pos(i) else LINE_LENGTH
      invariant forall j :: 0 <= j < outInd ==> output[j] == line[j]
      invariant i == 16 ==> output[LINE_LENGTH] == '\0'
      invariant forall j :: LINE_LENGTH < j < output.Length ==> output[j] == old(output[j])
    {
      LineAtByte(fmt, bin[start..start + 16], i);
      PosFacts(i);
      EmitCell(fmt, bin[start + i], output, outInd);
      outInd := outInd + 2;
      if i == 15 {
        output[outInd] := '\0';
      } else if i % 2 == 1 {
        output[outInd] := ' ';
        outInd := outInd + 1;
      }
    }
  }

  /** `16^n`. */
  function Pow16(n: nat): (p: nat)
    ensures p > 0
  {
    if n == 0 then 1 else 16 * Pow16(n - 1)
  }

  /** `%n.nX`: `v` as exactly `n` uppercase hex digits, zero-padded, most
      significant first (for `v < 16^n`). */
  function HexText(v: nat, n: nat): (s: string)
    ensures |s| == n
  {
    if n == 0 then [] else HexText(v / 16, n - 1) + [HexDigits[v % 16]]
  }

  /** `%8.8X` of a `u32`. */
  function Hex8(v: u32): (s: string)
    ensures |s| == 8
  {
    HexText(v as nat, 8)
  }

  /** The value of a string of hex digits, most significant first. */
  function ParseHex(s: string): nat
    requires forall k :: 0 <= k < |s| ==> IsHexDigit(s[k])
  {
    if s == [] then 0 else ParseHex(s[..|s| - 1]) * 16 + DigitValue(s[|s| - 1])
  }

  /** Every character of `%n.nX` is a digit of `hex_lookup`. */
  lemma {:induction false} HexTextDigits(v: nat, n: nat)
    ensures forall k :: 0 <= k < n ==> IsHexDigit(HexText(v, n)[k])
  {
    if n > 0 {
      HexTextDigits(v / 16, n - 1);
      DigitValueOfTable(v % 16);
      assert HexText(v, n)[n - 1] == HexDigits[v % 16];
      assert forall k :: 0 <= k < n - 1 ==> HexText(v, n)[k] == HexText(v / 16, n - 1)[k];
    }
  }

  /** Dividing by 16 and then by `16^m` is dividing by `16^(m+1)`. */
  lemma DivPow16(v: nat, m: nat)
    ensures v / 16 / Pow16(m) == v / Pow16(m + 1)
  {
    var p := Pow16(m);
    var a, b := v / 16 / p, v / 16 % p;
    assert v / 16 == p * a + b;
    assert v == 16 * p * a + (16 * b + v % 16);
    assert 0 <= 16 * b + v % 16 < 16 * p;
    DivUnique(v, 16 * p, a, 16 * b + v % 16);
  }

  /** Euclidean division has a single quotient. */
  lemma DivUnique(v: int, d: int, a: int, c: int)
    requires d > 0 && v == d * a + c && 0 <= c < d
    ensures v / d == a
  {
    var q, r := v / d, v % d;
    if q < a {
      MulDistance(d, a, q);
      assert false;
    } else if q > a {
      MulDistance(d, q, a);
      assert false;
    }
  }

  /** Multiples of `d` with different factors lie at least `d` apart. */
  lemma MulDistance(d: int, x: int, y: int)
    requires d > 0 && x > y
    ensures d * x >= d * y + d
  {
    var t := x - y - 1;
    assert d * x == d * y + d + d * t;
  }

  /** Digit `k` of `%n.nX`, counted from the left, is the digit of weight
      `16^(n-1-k)`. */
  lemma {:induction false} HexTextDigitAt(v: nat, n: nat, k: nat)
    requires k < n
    ensures HexText(v, n)[k] == HexDigits[v / Pow16(n - 1 - k) % 16]
  {
    if k < n - 1 {
      HexTextDigitAt(v / 16, n - 1, k);
      assert HexText(v, n)[k] == HexText(v / 16, n - 1)[k];
      DivPow16(v, n - 2 - k);
    }
  }

  /** `%n.nX` loses nothing: the digits read back give the value. */
  lemma {:induction false} HexTextRoundTrip(v: nat, n: nat)
    requires v < Pow16(n)
    ensures (HexTextDigits(v, n); ParseHex(HexText(v, n)) == v)
  {
    HexTextDigits(v, n);
    if n > 0 {
      var s := HexText(v, n);
      assert s[..n - 1] == HexText(v / 16, n - 1);
      HexTextRoundTrip(v / 16, n - 1);
      DigitValueOfTable(v % 16);
    }
  }
}
