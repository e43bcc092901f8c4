/** `output_glyph`: the text printed for the finished glyph, two header
    lines and then one line per row, either as a binary literal or as a
    hexadecimal literal of the row's bits. */
module Encoder {
  import opened Glyph
  import opened Numerals

  /** The bits of row r, column 0 first. */
  function RowBits(grid: seq<seq<char>>, r: int, nX: nat): (bits: seq<bool>)
    requires 0 <= r < |grid| && nX <= |grid[r]|
    ensures |bits| == nX
  {
    seq(nX, c requires 0 <= c < nX => Lit(grid[r][c]))
  }

  /** The binary body of a row: '1' for a lit cell, '0' for a dark one. */
  function BinDigits(bits: seq<bool>): (s: string)
    ensures |s| == |bits|
  {
    seq(|bits|, i requires 0 <= i < |bits| => if bits[i] then '1' else '0')
  }

  /** 2 to the k, the value of `1 << k` for the small shifts used here. */
  function Pow2(k: nat): (p: nat)
    ensures p >= 1
  {
    if k == 0 then 1 else 2 * Pow2(k - 1)
  }

  /** The row value: the sum of 2^(n-1-c) over the lit columns c, so that
      column 0 is the most significant bit. */
  function Value(bits: seq<bool>): nat
    decreases |bits|
  {
    if bits == [] then 0 else (if bits[0] then Pow2(|bits| - 1) else 0) + Value(bits[1..])
  }

  /** A row of n bits has a value below 2^n. */
  lemma {:induction false} ValueBound(bits: seq<bool>)
    ensures Value(bits) < Pow2(|bits|)
    decreases |bits|
  {
    if bits != [] {
      ValueBound(bits[1..]);
    }
  }

  /** Appending a bit doubles the value and adds the bit. */
  lemma {:induction false} ValueSnoc(bits: seq<bool>, b: bool)
    ensures Value(bits + [b]) == 2 * Value(bits) + (if b then 1 else 0)
    decreases |bits|
  {
    if bits == [] {
      assert ([] + [b])[1..] == [];
    } else {
      assert (bits + [b])[1..] == bits[1..] + [b];
      ValueSnoc(bits[1..], b);
    }
  }

  /** The row value is the binary body read as a big-endian binary numeral. */
  lemma {:induction false} ValueIsBinary(bits: seq<bool>)
    ensures Value(bits) == ParseNumeral(BinDigits(bits), 2)
    decreases |bits|
  {
    if bits != [] {
      var init := bits[..|bits| - 1];
      var last := bits[|bits| - 1];
      assert bits == init + [last];
      assert BinDigits(bits)[..|bits| - 1] == BinDigits(init);
      ValueIsBinary(init);
      ValueSnoc(init, last);
    }
  }

  /** The text `%s` prints from a char buffer: everything before the first
      zero byte. */
  function CString(buf: string): string
    decreases |buf|
  {
    if buf == [] || buf[0] == NUL then [] else [buf[0]] + CString(buf[1..])
  }

  lemma {:induction false} CStringOfTerminated(text: string, rest: string)
    requires NUL !in text && rest != [] && rest[0] == NUL
    ensures CString(text + rest) == text
    decreases |text|
  {
    if text == [] {
      assert [] + rest == rest;
    } else {
      assert (text + rest)[1..] == text[1..] + rest;
      CStringOfTerminated(text[1..], rest);
    }
  }

  function FormatName(fmt: Format): string
  {
    if fmt == Bin then "bin" else "hex"
  }

  /** The two header lines. */
  function Header(nY: nat, nX: nat, fmt: Format): seq<string>
  {
    ["Glyph (" + Numeral(nX, 10) + " x " + Numeral(nY, 10) + ")", "Format: " + FormatName(fmt)]
  }

  /** The data line of one row. */
  function RowLine(bits: seq<bool>, fmt: Format): string
  {
    if fmt == Bin then "  0b" + BinDigits(bits) else "  0x" + Numeral(Value(bits), 16)
  }

  /** The data lines of rows 0 .. n - 1, in order. */
  function DataLines(grid: seq<seq<char>>, n: nat, nX: nat, fmt: Format): (rows: seq<string>)
    requires WellShaped(grid) && n <= MAX_Y && nX <= MAX_X
    ensures |rows| == n
    ensures forall r :: 0 <= r < n ==> rows[r] == RowLine(RowBits(grid, r, nX), fmt)
  {
    if n == 0 then [] else DataLines(grid, n - 1, nX, fmt) + [RowLine(RowBits(grid, n - 1, nX), fmt)]
  }

  /** Everything `output_glyph` prints, one string per line. */
  function Render(grid: seq<seq<char>>, nY: nat, nX: nat, fmt: Format): seq<string>
    requires WellShaped(grid) && nY <= MAX_Y && nX <= MAX_X
  {
    Header(nY, nX, fmt) + DataLines(grid, nY, nX, fmt)
  }

  /** What the printed lines say: the header, then row r (from 0) on line
      r + 2. */
  lemma RenderHeader(grid: seq<seq<char>>, nY: nat, nX: nat, fmt: Format)
    requires WellShaped(grid) && nY <= MAX_Y && nX <= MAX_X
    ensures var out := Render(grid, nY, nX, fmt);
      |out| == nY + 2 &&
      out[0] == "Glyph (" + Numeral(nX, 10) + " x " + Numeral(nY, 10) + ")" &&
      out[1] == (if fmt == Bin then "Format: bin" else "Format: hex") &&
      forall r :: 0 <= r < nY ==> out[r + 2] == RowLine(RowBits(grid, r, nX), fmt)
  {
    var out := Render(grid, nY, nX, fmt);
    var head, rows := Header(nY, nX, fmt), DataLines(grid, nY, nX, fmt);
    assert out == head + rows && |head| == 2;
    assert out[0] == head[0] && out[1] == head[1];
    forall r | 0 <= r < nY ensures out[r + 2] == RowLine(RowBits(grid, r, nX), fmt) {
      assert out[r + 2] == rows[r];
    }
  }

  /** Row r (from 0) is printed on line r + 2. */
  lemma RenderRow(grid: seq<seq<char>>, nY: nat, nX: nat, fmt: Format, r: nat)
    requires WellShaped(grid) && nY <= MAX_Y && nX <= MAX_X && r < nY
    ensures Render(grid, nY, nX, fmt)[r + 2] == RowLine(RowBits(grid, r, nX), fmt)
  {
    var head, rows := Header(nY, nX, fmt), DataLines(grid, nY, nX, fmt);
    assert Render(grid, nY, nX, fmt) == head + rows && |head| == 2;
    assert (head + rows)[r + 2] == rows[r];
  }

  /** A BIN line is "  0b" and exactly nX characters, the c-th being '1'
      iff cell (r, c) holds '1'. */
  lemma RenderBinLine(grid: seq<seq<char>>, nY: nat, nX: nat, r: nat)
    requires WellShaped(grid) && nY <= MAX_Y && nX <= MAX_X && r < nY
    ensures var line := Render(grid, nY, nX, Bin)[r + 2];
      |line| == 4 + nX && line[..4] == "  0b" &&
      forall c :: 0 <= c < nX ==> (line[4 + c] == '1' <==> Lit(grid[r][c])) && line[4 + c] in "01"
  {
    RenderRow(grid, nY, nX, Bin, r);
    var line := Render(grid, nY, nX, Bin)[r + 2];
    var bits := RowBits(grid, r, nX);
    var body := BinDigits(bits);
    assert line == "  0b" + body;
    forall c | 0 <= c < nX ensures (line[4 + c] == '1' <==> Lit(grid[r][c])) && line[4 + c] in "01" {
      assert line[4 + c] == body[c];
      assert body[c] == if bits[c] then '1' else '0';
    }
  }

  /** A HEX line is "  0x" and a lower-case numeral without leading zeros
      ("0" for an empty row) whose value is the row value, which is below 2^nX and equals the BIN
      body read in binary. */
  lemma RenderHexLine(grid: seq<seq<char>>, nY: nat, nX: nat, r: nat)
    requires WellShaped(grid) && nY <= MAX_Y && nX <= MAX_X && r < nY
    ensures var line := Render(grid, nY, nX, Hex)[r + 2];
      var v := Value(RowBits(grid, r, nX));
      |line| > 4 && line[..4] == "  0x" &&
      (forall i :: 4 <= i < |line| ==> IsDigit(line[i], 16)) &&
      (v > 0 ==> line[4] != '0') && (|line| > 5 ==> line[4] != '0') &&
      (v == 0 ==> line == "  0x0") &&
      ParseNumeral(line[4..], 16) == v && v < Pow2(nX) &&
      v == ParseNumeral(BinDigits(RowBits(grid, r, nX)), 2)
  {
    RenderRow(grid, nY, nX, Hex, r);
    var bits := RowBits(grid, r, nX);
    var v := Value(bits);
    var line := Render(grid, nY, nX, Hex)[r + 2];
    assert line == "  0x" + Numeral(v, 16);
    assert line[4..] == Numeral(v, 16);
    forall i | 4 <= i < |line| ensures IsDigit(line[i], 16) {
      assert line[i] == Numeral(v, 16)[i - 4];
    }
    NumeralRoundTrip(v, 16);
    ValueBound(bits);
    ValueIsBinary(bits);
  }

  /** The HEX line and the BIN line of a row encode the same number. */
  lemma HexAgreesWithBin(grid: seq<seq<char>>, nY: nat, nX: nat, r: nat)
    requires WellShaped(grid) && nY <= MAX_Y && nX <= MAX_X && r < nY
    ensures ParseNumeral(Render(grid, nY, nX, Hex)[r + 2][4..], 16) ==
            ParseNumeral(Render(grid, nY, nX, Bin)[r + 2][4..], 2)
  {
    RenderHexLine(grid, nY, nX, r);
    RenderRow(grid, nY, nX, Bin, r);
    var bits := RowBits(grid, r, nX);
    assert Render(grid, nY, nX, Bin)[r + 2][4..] == BinDigits(bits);
  }

  /** The binary body of row r, built in a zeroed eight-byte buffer and read
      back as a C string; since nX < 8 the buffer stays NUL-terminated. */
  method BinRow(glyph: array2<char>, r: int, nX: nat) returns (body: string)
    requires 0 <= r < glyph.Length0 && glyph.Length1 == MAX_X && nX <= MAX_X
    ensures body == BinDigits(RowBits(Contents(glyph), r, nX))
    ensures |body| == nX
    ensures forall c :: 0 <= c < nX ==> (body[c] == '1' <==> glyph[r, c] == '1') && body[c] in "01"
  {
    ghost var digits := BinDigits(RowBits(Contents(glyph), r, nX));
    var buffer := new char[8](_ => NUL);
    for c := 0 to nX
      invariant forall j :: 0 <= j < c ==> buffer[j] == digits[j]
      invariant forall j :: c <= j < 8 ==> buffer[j] == NUL
    {
      buffer[c] := if glyph[r, c] == '1' then '1' else '0';
    }
    assert buffer[..] == digits + buffer[nX..];
    CStringOfTerminated(digits, buffer[nX..]);
    body := CString(buffer[..]);
  }

  /** The value of row r, accumulated as `out += 1 << (n_x - 1 - c)` over
      the lit columns. */
  method HexRow(glyph: array2<char>, r: int, nX: nat) returns (out: nat)
    requires 0 <= r < glyph.Length0 && glyph.Length1 == MAX_X && nX <= MAX_X
    ensures out == Value(RowBits(Contents(glyph), r, nX))
    ensures out < Pow2(nX)
  {
    ghost var bits := RowBits(Contents(glyph), r, nX);
    out := 0;
    for c := 0 to nX
      invariant out + Value(bits[c..]) == Value(bits)
    {
      assert bits[c..][1..] == bits[c + 1..];
      out := out + if glyph[r, c] == '1' then Pow2(nX - 1 - c) else 0;
    }
    assert bits[nX..] == [];
    ValueBound(bits);
  }

  /** The line `output_glyph` prints for row r in the chosen format. */
  method EmitRow(glyph: array2<char>, r: int, nX: nat, fmt: Format) returns (line: string)
    requires 0 <= r < glyph.Length0 && glyph.Length1 == MAX_X && nX <= MAX_X
    ensures line == RowLine(RowBits(Contents(glyph), r, nX), fmt)
  {
    if fmt == Bin {
      var body := BinRow(glyph, r, nX);
      line := "  0b" + body;
    } else {
      var out := HexRow(glyph, r, nX);
      line := "  0x" + Numeral(out, 16);
    }
  }

  /** `output_glyph`: the two header lines, then one line per row in order
      0 .. nY - 1. */
  method OutputGlyph(glyph: array2<char>, nY: nat, nX: nat, fmt: Format) returns (lines: seq<string>)
    requires glyph.Length0 == MAX_Y && glyph.Length1 == MAX_X && nY <= MAX_Y && nX <= MAX_X
    ensures lines == Render(Contents(glyph), nY, nX, fmt)
  {
    ghost var grid := Contents(glyph);
    lines := Header(nY, nX, fmt);
    for r := 0 to nY
      invariant lines == Header(nY, nX, fmt) + DataLines(grid, r, nX, fmt)
    {
      var line := EmitRow(glyph, r, nX, fmt);
      lines := lines + [line];
    }
  }
}
