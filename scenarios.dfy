/** End-to-end runs of the glyph generator: the
    options `-c C -r R -f F`, then the keys typed before and including `q`,
    then the printed glyph. Each run of keys is stated for every state the
    loop can start in (Initial provides one). */
module Scenarios {
  import opened Glyph
  import opened Options
  import opened Editing
  import opened Encoder
  import opened Numerals
  import opened Glyphgen

  /** `-c C -r R -f F` with C and R in range selects exactly those sizes and
      the format of F. */
  lemma OptionsGiven(cols: int, rows: int, f: string)
    requires 1 <= cols <= MAX_X && 1 <= rows <= MAX_Y
    ensures Expected([Cols(cols), Rows(rows), Fmt(f)], N_Y, N_X, Bin) == Parsed(rows, cols, FormatOf(f))
  {
    var opts := [Cols(cols), Rows(rows), Fmt(f)];
    assert opts[..2][..1] == [Cols(cols)] && opts[..2] == [Cols(cols), Rows(rows)];
    forall i | 0 <= i < |opts| ensures !StopsParsing(opts[i]) {
      if i == 0 {} else if i == 1 {} else {}
    }
    assert !exists i :: 0 <= i < |opts| && StopsParsing(opts[i]);
    assert LastRows(opts, N_Y) == rows;
    assert LastCols(opts[..2], N_X) == LastCols(opts[..2][..1], N_X) == cols;
    assert LastCols(opts, N_X) == cols;
    assert LastFormat(opts, Bin) == FormatOf(f);
  }

  /** `-c 0` and `-c 99` give 1 and 5 columns; `-r 0` and `-r 99` give 1
      and 10 rows. */
  lemma OptionsClamped()
    ensures Expected([Cols(0)], N_Y, N_X, Bin) == Parsed(N_Y, 1, Bin)
    ensures Expected([Cols(99)], N_Y, N_X, Bin) == Parsed(N_Y, 5, Bin)
    ensures Expected([Rows(0)], N_Y, N_X, Bin) == Parsed(1, N_X, Bin)
    ensures Expected([Rows(99)], N_Y, N_X, Bin) == Parsed(10, N_X, Bin)
  {
    assert [Cols(0)][..0] == [] && [Cols(99)][..0] == [] && [Rows(0)][..0] == [] && [Rows(99)][..0] == [];
  }

  lemma BinLines2(g: seq<seq<char>>, r0: seq<bool>, r1: seq<bool>)
    requires WellShaped(g)
    requires |r0| == 3 && |r1| == 3 && RowBits(g, 0, 3) == r0 && RowBits(g, 1, 3) == r1
    ensures Render(g, 2, 3, Bin) == ["Glyph (3 x 2)", "Format: bin", "  0b" + BinDigits(r0), "  0b" + BinDigits(r1)]
  {
    assert Numeral(3, 10) == [DIGITS[3]] == "3";
    assert Numeral(2, 10) == [DIGITS[2]] == "2";
    assert "Glyph (" + "3" + " x " + "2" + ")" == "Glyph (3 x 2)";
    assert "Format: " + "bin" == "Format: bin";
  }

  /** `-c 3 -r 2 -f b`, keys `f q`. */
  lemma FillCorner(s0: State)
    requires AtStart(s0, 2, 3)
    ensures var t := Replay(s0, [Char('f'), Char('q')]);
      t.exit && Render(t.grid, 2, 3, Bin) == ["Glyph (3 x 2)", "Format: bin", "  0b100", "  0b000"]
  {
    var keys := [Char('f'), Char('q')];
    var s1 := Transition(s0, keys[0]);
    var s2 := Transition(s1, keys[1]);
    assert keys[1..][1..] == [];
    assert Replay(s0, keys) == s2;
    var g := s2.grid;
    assert g == Blank()[0 := Blank()[0][0 := '1']];
    assert RowBits(g, 0, 3) == [true, false, false];
    assert RowBits(g, 1, 3) == [false, false, false];
    BinLines2(g, [true, false, false], [false, false, false]);
    assert BinDigits([true, false, false]) == "100";
    assert BinDigits([false, false, false]) == "000";
    assert "  0b" + "100" == "  0b100" && "  0b" + "000" == "  0b000";
  }

  /** Row r of a set of lit cells, for columns 0 to n - 1. */
  function LitRow(lit: set<(int, int)>, r: int, n: nat): (bits: seq<bool>)
    ensures |bits| == n
  {
    seq(n, c requires 0 <= c < n => (r, c) in lit)
  }

  /** From any starting state, the keys end the loop, and leave lit
      exactly the cells, as the index-level loop run from an empty glyph
      says. */
  lemma SketchedRun(s0: State, nY: int, nX: int, keys: seq<Key>)
    requires AtStart(s0, nY, nX)
    ensures var t := Replay(s0, keys);
      var e := SketchAll(Sketch({}, 0, 0, false), nY, nX, keys);
      t.exit == e.exit &&
      forall r :: 0 <= r < nY ==> RowBits(t.grid, r, nX) == LitRow(e.lit, r, nX)
  {
    assert Shows(s0, {});
    ReplaySketch(s0, {}, keys);
  }

  /** Running the index-level loop over a + b is running it over a, then
      over b. */
  lemma {:induction false} SketchAllSplit(e: Sketch, nY: int, nX: int, a: seq<Key>, b: seq<Key>)
    ensures SketchAll(e, nY, nX, a + b) == SketchAll(SketchAll(e, nY, nX, a), nY, nX, b)
    decreases |a|
  {
    if e.exit {
    } else if a == [] {
      assert a + b == b;
    } else {
      assert (a + b)[0] == a[0] && (a + b)[1..] == a[1..] + b;
      SketchAllSplit(Sketched(e, nY, nX, Decode(a[0])), nY, nX, a[1..], b);
    }
  }

  /** `-c 3 -r 2 -f h`, keys `f l f q`. */
  lemma FillTwoHex(s0: State)
    requires AtStart(s0, 2, 3)
    ensures var t := Replay(s0, TwoHexKeys());
      t.exit && Render(t.grid, 2, 3, Hex) == ["Glyph (3 x 2)", "Format: hex", "  0x6", "  0x0"]
  {
    TwoHexSketch();
    SketchedRun(s0, 2, 3, TwoHexKeys());
    TwoHexLines(Replay(s0, TwoHexKeys()).grid);
  }

  function TwoHexKeys(): seq<Key>
  {
    [Char('f'), Char('l'), Char('f'), Char('q')]
  }

  lemma TwoHexSketch()
    ensures var e := SketchAll(Sketch({}, 0, 0, false), 2, 3, TwoHexKeys());
      e.exit && LitRow(e.lit, 0, 3) == [true, true, false] && LitRow(e.lit, 1, 3) == [false, false, false]
  {
    var lit := {(0, 0), (0, 1)};
    assert SketchAll(Sketch({}, 0, 0, false), 2, 3, TwoHexKeys()) == Sketch(lit, 0, 1, true);
    assert LitRow(lit, 0, 3) == [true, true, false];
    assert LitRow(lit, 1, 3) == [false, false, false];
  }

  lemma TwoHexLines(g: seq<seq<char>>)
    requires WellShaped(g)
    requires RowBits(g, 0, 3) == [true, true, false] && RowBits(g, 1, 3) == [false, false, false]
    ensures Render(g, 2, 3, Hex) == ["Glyph (3 x 2)", "Format: hex", "  0x6", "  0x0"]
  {
    assert Value([true, true, false]) == 6 && Value([false, false, false]) == 0;
    assert Numeral(3, 10) == [DIGITS[3]] == "3";
    assert Numeral(2, 10) == [DIGITS[2]] == "2";
    assert Numeral(6, 16) == [DIGITS[6]] == "6";
    assert Numeral(0, 16) == [DIGITS[0]] == "0";
    assert "Glyph (" + "3" + " x " + "2" + ")" == "Glyph (3 x 2)";
    assert "Format: " + "hex" == "Format: hex";
    assert "  0x" + "6" == "  0x6" && "  0x" + "0" == "  0x0";
    assert Render(g, 2, 3, Hex) == Header(2, 3, Hex) + [RowLine(RowBits(g, 0, 3), Hex), RowLine(RowBits(g, 1, 3), Hex)];
  }

  /** `-c 5 -r 3 -f b`, keys `f l f l f l f l f q`: the whole top row. */
  lemma FillTopRow(s0: State)
    requires AtStart(s0, 3, 5)
    ensures var t := Replay(s0, TopRowKeys());
      t.exit && Render(t.grid, 3, 5, Bin) == ["Glyph (5 x 3)", "Format: bin", "  0b11111", "  0b00000", "  0b00000"]
  {
    TopRowSketch();
    SketchedRun(s0, 3, 5, TopRowKeys());
    TopRowLines(Replay(s0, TopRowKeys()).grid);
  }

  function TopRowKeys(): seq<Key>
  {
    [Char('f'), Char('l'), Char('f'), Char('l'), Char('f'), Char('l'), Char('f'), Char('l'), Char('f'), Char('q')]
  }

  lemma TopRowSketch()
    ensures var e := SketchAll(Sketch({}, 0, 0, false), 3, 5, TopRowKeys());
      e.exit && LitRow(e.lit, 0, 5) == [true, true, true, true, true] &&
      LitRow(e.lit, 1, 5) == [false, false, false, false, false] &&
      LitRow(e.lit, 2, 5) == [false, false, false, false, false]
  {
    var a := [Char('f'), Char('l'), Char('f'), Char('l'), Char('f')];
    var b := [Char('l'), Char('f'), Char('l'), Char('f'), Char('q')];
    assert TopRowKeys() == a + b;
    SketchAllSplit(Sketch({}, 0, 0, false), 3, 5, a, b);
    TopRowHalves();
    TopRowLit({(0, 0), (0, 1), (0, 2), (0, 3), (0, 4)});
  }

  lemma TopRowHalves()
    ensures SketchAll(Sketch({}, 0, 0, false), 3, 5, [Char('f'), Char('l'), Char('f'), Char('l'), Char('f')])
      == Sketch({(0, 0), (0, 1), (0, 2)}, 0, 2, false)
    ensures SketchAll(Sketch({(0, 0), (0, 1), (0, 2)}, 0, 2, false), 3, 5, [Char('l'), Char('f'), Char('l'), Char('f'), Char('q')])
      == Sketch({(0, 0), (0, 1), (0, 2), (0, 3), (0, 4)}, 0, 4, true)
  {
  }

  lemma TopRowLit(lit: set<(int, int)>)
    requires lit == {(0, 0), (0, 1), (0, 2), (0, 3), (0, 4)}
    ensures LitRow(lit, 0, 5) == [true, true, true, true, true]
    ensures LitRow(lit, 1, 5) == [false, false, false, false, false]
    ensures LitRow(lit, 2, 5) == [false, false, false, false, false]
  {
  }

  lemma TopRowLines(g: seq<seq<char>>)
    requires WellShaped(g)
    requires RowBits(g, 0, 5) == [true, true, true, true, true]
    requires RowBits(g, 1, 5) == [false, false, false, false, false] && RowBits(g, 2, 5) == [false, false, false, false, false]
    ensures Render(g, 3, 5, Bin) == ["Glyph (5 x 3)", "Format: bin", "  0b11111", "  0b00000", "  0b00000"]
  {
    assert BinDigits([true, true, true, true, true]) == "11111";
    assert BinDigits([false, false, false, false, false]) == "00000";
    assert Numeral(5, 10) == [DIGITS[5]] == "5";
    assert Numeral(3, 10) == [DIGITS[3]] == "3";
    assert "Glyph (" + "5" + " x " + "3" + ")" == "Glyph (5 x 3)";
    assert "Format: " + "bin" == "Format: bin";
    assert "  0b" + "11111" == "  0b11111" && "  0b" + "00000" == "  0b00000";
    assert Render(g, 3, 5, Bin) == Header(3, 5, Bin) +
      [RowLine(RowBits(g, 0, 5), Bin), RowLine(RowBits(g, 1, 5), Bin), RowLine(RowBits(g, 2, 5), Bin)];
  }

  /** `-c 3 -r 3 -f h`, keys `f j f j f q`: the whole left column. */
  lemma FillLeftColumn(s0: State)
    requires AtStart(s0, 3, 3)
    ensures var t := Replay(s0, LeftColumnKeys());
      t.exit && Render(t.grid, 3, 3, Hex) == ["Glyph (3 x 3)", "Format: hex", "  0x4", "  0x4", "  0x4"]
  {
    LeftColumnSketch();
    SketchedRun(s0, 3, 3, LeftColumnKeys());
    LeftColumnLines(Replay(s0, LeftColumnKeys()).grid);
  }

  function LeftColumnKeys(): seq<Key>
  {
    [Char('f'), Char('j'), Char('f'), Char('j'), Char('f'), Char('q')]
  }

  lemma LeftColumnSketch()
    ensures var e := SketchAll(Sketch({}, 0, 0, false), 3, 3, LeftColumnKeys());
      e.exit && LitRow(e.lit, 0, 3) == LitRow(e.lit, 1, 3) == LitRow(e.lit, 2, 3) == [true, false, false]
  {
    var lit := {(0, 0), (1, 0), (2, 0)};
    assert SketchAll(Sketch({}, 0, 0, false), 3, 3, LeftColumnKeys()) == Sketch(lit, 2, 0, true);
    assert LitRow(lit, 0, 3) == LitRow(lit, 1, 3) == LitRow(lit, 2, 3) == [true, false, false];
  }

  lemma LeftColumnLines(g: seq<seq<char>>)
    requires WellShaped(g)
    requires RowBits(g, 0, 3) == RowBits(g, 1, 3) == RowBits(g, 2, 3) == [true, false, false]
    ensures Render(g, 3, 3, Hex) == ["Glyph (3 x 3)", "Format: hex", "  0x4", "  0x4", "  0x4"]
  {
    assert Value([true, false, false]) == 4;
    assert Numeral(3, 10) == [DIGITS[3]] == "3";
    assert Numeral(4, 16) == [DIGITS[4]] == "4";
    assert "Glyph (" + "3" + " x " + "3" + ")" == "Glyph (3 x 3)";
    assert "Format: " + "hex" == "Format: hex";
    assert "  0x" + "4" == "  0x4";
    assert Render(g, 3, 3, Hex) == Header(3, 3, Hex) +
      [RowLine(RowBits(g, 0, 3), Hex), RowLine(RowBits(g, 1, 3), Hex), RowLine(RowBits(g, 2, 3), Hex)];
  }

  /** `-c 2 -r 2 -f b`, keys `f l f j d h d c q`: painting, then `c`
      clears everything. */
  lemma PaintThenClear(s0: State)
    requires AtStart(s0, 2, 2)
    ensures var t := Replay(s0, ClearKeys());
      t.exit && Render(t.grid, 2, 2, Bin) == ["Glyph (2 x 2)", "Format: bin", "  0b00", "  0b00"]
  {
    ClearSketch();
    SketchedRun(s0, 2, 2, ClearKeys());
    ClearLines(Replay(s0, ClearKeys()).grid);
  }

  function ClearKeys(): seq<Key>
  {
    [Char('f'), Char('l'), Char('f'), Char('j'), Char('d'), Char('h'), Char('d'), Char('c'), Char('q')]
  }

  lemma ClearSketch()
    ensures var e := SketchAll(Sketch({}, 0, 0, false), 2, 2, ClearKeys());
      e.exit && LitRow(e.lit, 0, 2) == LitRow(e.lit, 1, 2) == [false, false]
  {
    var a := [Char('f'), Char('l'), Char('f'), Char('j')];
    var b := [Char('d'), Char('h'), Char('d'), Char('c'), Char('q')];
    assert ClearKeys() == a + b;
    SketchAllSplit(Sketch({}, 0, 0, false), 2, 2, a, b);
    ClearHalves();
    assert LitRow({}, 0, 2) == LitRow({}, 1, 2) == [false, false];
  }

  lemma ClearHalves()
    ensures SketchAll(Sketch({}, 0, 0, false), 2, 2, [Char('f'), Char('l'), Char('f'), Char('j')])
      == Sketch({(0, 0), (0, 1)}, 1, 1, false)
    ensures SketchAll(Sketch({(0, 0), (0, 1)}, 1, 1, false), 2, 2, [Char('d'), Char('h'), Char('d'), Char('c'), Char('q')])
      == Sketch({}, 0, 0, true)
  {
  }

  lemma ClearLines(g: seq<seq<char>>)
    requires WellShaped(g)
    requires RowBits(g, 0, 2) == RowBits(g, 1, 2) == [false, false]
    ensures Render(g, 2, 2, Bin) == ["Glyph (2 x 2)", "Format: bin", "  0b00", "  0b00"]
  {
    assert BinDigits([false, false]) == "00";
    assert Numeral(2, 10) == [DIGITS[2]] == "2";
    assert "Glyph (" + "2" + " x " + "2" + ")" == "Glyph (2 x 2)";
    assert "Format: " + "bin" == "Format: bin";
    assert "  0b" + "00" == "  0b00";
    assert Render(g, 2, 2, Bin) == Header(2, 2, Bin) + [RowLine(RowBits(g, 0, 2), Bin), RowLine(RowBits(g, 1, 2), Bin)];
  }

  /** `-c 4 -r 1 -f h`, keys `l l l f q`: the rightmost cell of a
      one-row glyph. */
  lemma FillRightmost(s0: State)
    requires AtStart(s0, 1, 4)
    ensures var t := Replay(s0, RightmostKeys());
      t.exit && Render(t.grid, 1, 4, Hex) == ["Glyph (4 x 1)", "Format: hex", "  0x1"]
  {
    RightmostSketch();
    SketchedRun(s0, 1, 4, RightmostKeys());
    RightmostLines(Replay(s0, RightmostKeys()).grid);
  }

  function RightmostKeys(): seq<Key>
  {
    [Char('l'), Char('l'), Char('l'), Char('f'), Char('q')]
  }

  lemma RightmostSketch()
    ensures var e := SketchAll(Sketch({}, 0, 0, false), 1, 4, RightmostKeys());
      e.exit && LitRow(e.lit, 0, 4) == [false, false, false, true]
  {
    assert SketchAll(Sketch({}, 0, 0, false), 1, 4, RightmostKeys()) == Sketch({(0, 3)}, 0, 3, true);
    assert LitRow({(0, 3)}, 0, 4) == [false, false, false, true];
  }

  lemma RightmostLines(g: seq<seq<char>>)
    requires WellShaped(g)
    requires RowBits(g, 0, 4) == [false, false, false, true]
    ensures Render(g, 1, 4, Hex) == ["Glyph (4 x 1)", "Format: hex", "  0x1"]
  {
    assert Value([false, false, false, true]) == 1;
    assert Numeral(4, 10) == [DIGITS[4]] == "4";
    assert Numeral(1, 10) == [DIGITS[1]] == "1";
    assert Numeral(1, 16) == [DIGITS[1]] == "1";
    assert "Glyph (" + "4" + " x " + "1" + ")" == "Glyph (4 x 1)";
    assert "Format: " + "hex" == "Format: hex";
    assert "  0x" + "1" == "  0x1";
    assert Render(g, 1, 4, Hex) == Header(1, 4, Hex) + [RowLine(RowBits(g, 0, 4), Hex)];
  }

  /** The whole program with `-c 3 -r 2 -f b` and the keys of FillCorner. */
  lemma FillCornerSession()
    ensures Session([Cols(3), Rows(2), Fmt("b")], [Char('f'), Char('q')]) == Printed(["Glyph (3 x 2)", "Format: bin", "  0b100", "  0b000"])
  {
    OptionsGiven(3, 2, "b");
    assert FormatOf("b") == Bin;
    FillCorner(Initial(2, 3));
  }

  /** The whole program with `-c 3 -r 2 -f h` and the keys of FillTwoHex. */
  lemma FillTwoHexSession()
    ensures Session([Cols(3), Rows(2), Fmt("h")], TwoHexKeys()) == Printed(["Glyph (3 x 2)", "Format: hex", "  0x6", "  0x0"])
  {
    OptionsGiven(3, 2, "h");
    assert FormatOf("h") == Hex;
    FillTwoHex(Initial(2, 3));
  }

  /** The whole program with `-c 5 -r 3 -f b` and the keys of FillTopRow. */
  lemma FillTopRowSession()
    ensures Session([Cols(5), Rows(3), Fmt("b")], TopRowKeys()) == Printed(["Glyph (5 x 3)", "Format: bin", "  0b11111", "  0b00000", "  0b00000"])
  {
    OptionsGiven(5, 3, "b");
    assert FormatOf("b") == Bin;
    FillTopRow(Initial(3, 5));
  }

  /** The whole program with `-c 3 -r 3 -f h` and the keys of FillLeftColumn. */
  lemma FillLeftColumnSession()
    ensures Session([Cols(3), Rows(3), Fmt("h")], LeftColumnKeys()) == Printed(["Glyph (3 x 3)", "Format: hex", "  0x4", "  0x4", "  0x4"])
  {
    OptionsGiven(3, 3, "h");
    assert FormatOf("h") == Hex;
    FillLeftColumn(Initial(3, 3));
  }

  /** The whole program with `-c 2 -r 2 -f b` and the keys of PaintThenClear. */
  lemma PaintThenClearSession()
    ensures Session([Cols(2), Rows(2), Fmt("b")], ClearKeys()) == Printed(["Glyph (2 x 2)", "Format: bin", "  0b00", "  0b00"])
  {
    OptionsGiven(2, 2, "b");
    assert FormatOf("b") == Bin;
    PaintThenClear(Initial(2, 2));
  }

  /** The whole program with `-c 4 -r 1 -f h` and the keys of FillRightmost. */
  lemma FillRightmostSession()
    ensures Session([Cols(4), Rows(1), Fmt("h")], RightmostKeys()) == Printed(["Glyph (4 x 1)", "Format: hex", "  0x1"])
  {
    OptionsGiven(4, 1, "h");
    assert FormatOf("h") == Hex;
    FillRightmost(Initial(1, 4));
  }
}
