# glyphgen: a Dafny model

glyphgen is a terminal editor for small monochrome bitmap glyphs, such as
those in an LCD character generator. The user chooses a grid of up to 5
columns by 10 rows with `-c`, `-r` and `-f`. The keys `h j k l` (or the
arrow keys) move the cursor. `f` fills the cell under the cursor, `d`
deletes it, `c` clears the whole glyph and `q` quits. After `q` the glyph is
printed, one line per row, in BIN (`0b…`) or HEX (`0x…`).

This project models that program in Dafny:

- `parse_options`, after `getopt`, is the `Options` module. `ParseOptions`
  is the loop over the options followed by the clamping. It is proved equal
  to the closed form `Expected`.
- The editor loop of `main` is the `Editing` module:
  - `Editing.Editor` is a class over a `MAX_Y x MAX_X` `array2<char>`, holding
    the loop variables of `main` as fields.
  - Its methods are proved against the pure functions `Transition` (one pass
    of the loop body) and `Replay` (the whole loop).
  - `Consistent` is the loop invariant:
    - the indices are inside the grid;
    - the tracked cursor is the screen position of the current cell;
    - the pixels on the terminal show the matrix.
  - The terminal is a map from positions to lit or dark pixels.
- `disp_row` and `disp_rect` are methods of the `Screen` module. They return
  the positions they draw at, in order.
- `output_glyph` is the `Encoder` module:
  - `BinRow` and `HexRow` are the two halves of the inner loop.
  - `OutputGlyph` is the outer loop.
  - All three are proved against `Render`, which states what is printed.
  - The `%d` and `%x` conversions are the numerals of `Numerals`, proved to
    read back to their values.
- `main` as a whole is `Glyphgen.Glyphgen`.
- `Scenarios` works through six complete runs. Each one has options, keys
  ending in `q`, and the printed glyph: `FillCorner`, `FillTwoHex`,
  `FillTopRow`, `FillLeftColumn`, `PaintThenClear` and `FillRightmost`.
  Each is stated for every starting state of the editor. Each also has a
  `…Session` lemma that states the output of the whole program for those
  options and keys.

Where the usage text and the code disagree, the model follows the code.
The usage message (glyphgen.c:37) says that `h` "or anything else" selects
HEX. The code (glyphgen.c:55-58) selects HEX only for an argument that
starts with `h`, and BIN for anything else. `FormatOf` states the code's
rule.

The source calls the row index `c` and the column index `r`. The model
calls them `row` and `col`.

## Model

| member | source | states |
|---|---|---|
| Options.FormatOf | glyphgen.c:54-59 | `-f` gives HEX if and only if its argument is non-empty and starts with 'h'; BIN otherwise, the empty argument included |
| Options.Clamp | glyphgen.c:73-76 | the result lies in [lo, hi]; it is v when v is already in range, lo below the range and hi above it |
| Options.Expected | glyphgen.c:43-79 | a parsed outcome always has 1 <= rows <= 10 and 1 <= columns <= 5 |
| Options.ParseOptions | glyphgen.c:43-79 | the outcome equals the closed form `Expected`. It is Usage (return -1) exactly when some option is `-h`, lacks its argument or is unknown. Otherwise both sizes are clamped into range, a size given in range is kept, and the format is HEX exactly when the last `-f` (or the default) selects HEX |
| Screen.ProjInjective | glyphgen.c:205-224 | two cells have the same screen position (C_Y + row·D_Y, C_X + col·D_X) only if they are the same cell |
| Screen.OnGridIsProj | glyphgen.c:162-166 | a position is on the nY x nX grid exactly when it is the screen position of a cell in range |
| Screen.OnGridProj | glyphgen.c:162-166 | a cell's screen position is on the grid exactly when the cell is in range |
| Screen.DispRow | glyphgen.c:148-151 | the loop draws exactly `RowPositions`: max(n, 0) pixels, the k-th at (y, x + k·d). The `(d < 1) ? 1 : d` clamps nothing |
| Screen.DispRect | glyphgen.c:162-166 | the loop draws exactly `RectPositions`: its h rows in order, each drawn by `disp_row` |
| Screen.RowCover | glyphgen.c:148-151 | a position is drawn by `disp_row` exactly when it is (y, x + c·d) for some 0 <= c < n |
| Screen.RectCover | glyphgen.c:162-166 | a position is drawn by `disp_rect` exactly when it is (y + r·dy, x + c·dx) for some r < h and c < w |
| Screen.GridCover | glyphgen.c:195 | the grid drawn at the origin covers exactly the screen positions of the nY x nX cells |
| Screen.Draw | glyphgen.c:143 | after drawing, the drawn positions show the new pixel; every other position is unchanged |
| Screen.DrawTwice | glyphgen.c:237 | drawing the same pixel over the same positions twice is the same as drawing it once |
| Screen.DrawGrid | glyphgen.c:195 | drawing the grid keeps every pixel on the grid and makes every cell's pixel the drawn one |
| Numerals.Numeral | glyphgen.c:102-103 | the `%d` / `%x` numeral of n has at least one digit and every digit is a digit of the base. There is no leading zero: a numeral of more than one digit never starts with '0', and a positive n never starts with '0', so 0 prints as the single digit `0` |
| Numerals.NumeralRoundTrip | glyphgen.c:116 | reading the numeral of n back in its base gives n |
| Numerals.NumeralInjective | glyphgen.c:116 | distinct values print as distinct numerals |
| Encoder.ValueBound | glyphgen.c:111 | a row value built from nX bits is below 2^nX |
| Encoder.ValueIsBinary | glyphgen.c:107-116 | the HEX value of a row is the BIN body of that row read in base 2 (column 0 is the most significant bit) |
| Encoder.CStringOfTerminated | glyphgen.c:106-114 | `%s` of a buffer holding text and then a NUL prints exactly that text |
| Encoder.DataLines | glyphgen.c:104-117 | there is one data line per row, and line r is row r's line |
| Encoder.RenderHeader | glyphgen.c:102-103 | the output is nY + 2 lines: "Glyph (X x Y)", then "Format: bin" or "Format: hex", then row r on line r + 2 |
| Encoder.RenderRow | glyphgen.c:104-117 | the line printed for row r is line r + 2 |
| Encoder.RenderBinLine | glyphgen.c:108-114 | a BIN line is "  0b" followed by exactly nX characters, each '0' or '1'; the c-th is '1' exactly when cell (r, c) holds '1' |
| Encoder.RenderHexLine | glyphgen.c:110-116 | a HEX line is "  0x" followed by lower-case hex digits with no leading zero; a row of value 0 prints exactly "  0x0". The digits read back to the row value, which is below 2^nX and equals the BIN body read in base 2 |
| Encoder.HexAgreesWithBin | glyphgen.c:104-117 | the HEX line and the BIN line of any row encode the same number |
| Encoder.BinRow | glyphgen.c:106-114 | the zeroed 8-byte buffer filled by the loop prints as the row's BIN body: nX characters, the c-th '1' exactly when `glyph[r][c] == '1'` |
| Encoder.HexRow | glyphgen.c:105-116 | the accumulated `out` is the row value Σ 2^(nX-1-c) over lit cells, and it is below 2^nX |
| Encoder.EmitRow | glyphgen.c:113-116 | the line printed for row r is that row's line in the chosen format |
| Encoder.OutputGlyph | glyphgen.c:100-118 | the printed lines are exactly `Render` of the array's contents |
| Glyph.Blank | glyphgen.c:176 | the zero-initialised matrix is 10 rows of 5 NUL cells |
| Glyph.Contents | glyphgen.c:176 | the array read row by row: one sequence per row, each as long as a row of the array, cell (i, j) being `glyph[i][j]` |
| Glyph.GridExt | glyphgen.c:176 | two well-shaped matrices with the same cells are equal |
| Editing.Decode | glyphgen.c:204-245 | the key bindings of the `switch`: up is exactly `k` or KEY_UP, down `j` or KEY_DOWN, left `h` or KEY_LEFT, right `l` or KEY_RIGHT; `f`, `d`, `c` and `q` are fill, delete, clear and quit; every other key is ignored |
| Editing.Initial | glyphgen.c:174-197 | before the first key the state is consistent: an all-zero matrix, cell (0, 0), the cursor at (C_Y, C_X), the grid drawn dark, `exit_cond` clear |
| Editing.Paint | glyphgen.c:225-234 | `f` and `d` keep the loop invariant |
| Editing.ClearAll | glyphgen.c:235-241 | `c` keeps the loop invariant |
| Editing.Transition | glyphgen.c:200-246 | one pass of the loop body keeps the loop invariant and the grid size |
| Editing.Apply | glyphgen.c:204-246 | every branch of the `switch` keeps the loop invariant and the grid size |
| Editing.Replay | glyphgen.c:200-252 | the whole loop keeps the loop invariant and the grid size |
| Editing.MoveEffect | glyphgen.c:205-224 | a move changes only its own index, by one cell when the neighbour exists and not at all at an edge. The matrix, the pixels and `exit_cond` are unchanged, and the cursor stays on the current cell. So the source's test on screen coordinates is the test on indices |
| Editing.PaintLocality | glyphgen.c:225-234 | `f` / `d` set exactly the current cell to '1' / '0' and its pixel to lit / dark. Indices, cursor, `exit_cond`, and every other cell and pixel are unchanged |
| Editing.ClearEffect | glyphgen.c:235-241 | `c` returns to cell (0, 0) at (C_Y, C_X), zeroes every cell, darkens every pixel and keeps `exit_cond` |
| Editing.ClearIdempotent | glyphgen.c:235-241 | pressing `c` twice is the same as pressing it once |
| Editing.QuitAndIgnored | glyphgen.c:242-245 | `q` sets `exit_cond` and changes nothing else; any key outside the `switch` changes nothing |
| Editing.ReplayExits | glyphgen.c:200-246 | the loop ends within the given keys exactly when one of them is `q` |
| Editing.ReplayStopsAtQuit | glyphgen.c:200-246 | keys after the first `q` are never read |
| Editing.SketchStep | glyphgen.c:204-246 | on the index level, one command changes the set of lit cells, the indices and `exit_cond` as `Sketched` says |
| Editing.SketchPaint | glyphgen.c:225-234 | `f` adds the current cell to the lit cells and `d` removes it |
| Editing.SketchClear | glyphgen.c:235-241 | after `c` no cell is lit and the indices are (0, 0) |
| Editing.ReplaySketch | glyphgen.c:200-252 | the lit cells, final indices and `exit_cond` of the whole loop are those of the index-level loop `SketchAll` |
| Editing.Editor.constructor | glyphgen.c:174-197 | the set-up of `main` produces the state `Initial`: a fresh zeroed array, the grid drawn dark by `disp_rect`, and the cursor at the origin |
| Editing.Editor.Move | glyphgen.c:205-224 | the four move branches change the object's state as `Apply` says |
| Editing.Editor.PaintCell | glyphgen.c:225-234 | the `f` / `d` branches change only the pixel under the cursor and the current array cell, as `Paint` says |
| Editing.Editor.Clear | glyphgen.c:235-241 | the `c` branch changes the state as `ClearAll` says: the redraw, the `memset` of the whole array and the index reset |
| Editing.Editor.Step | glyphgen.c:200-246 | one pass of the loop body moves the object from state s to `Transition(s, key)` |
| Editing.Editor.Run | glyphgen.c:200-252 | the `while (!exit_cond)` loop over the keys leaves the object in `Replay` of its starting state |
| Glyphgen.Glyphgen | glyphgen.c:174-260 | `main` equals `Session`. The usage message is shown exactly when an option stops parsing. The glyph is printed exactly when parsing succeeds and some key is `q`, and it is then `Render` of the matrix |
| Scenarios.OptionsGiven | glyphgen.c:43-79 | `-c C -r R -f F` with C and R in range selects exactly C columns, R rows and the format of F |
| Scenarios.OptionsClamped | glyphgen.c:73-76 | `-c 0` and `-c 99` give 1 and 5 columns; `-r 0` and `-r 99` give 1 and 10 rows |
| Scenarios.FillCorner | glyphgen.c:174-257 | 3x2 BIN, keys `f q`: prints "Glyph (3 x 2)", "Format: bin", "  0b100", "  0b000" |
| Scenarios.FillTwoHex | glyphgen.c:174-257 | 3x2 HEX, keys `f l f q`: prints "  0x6", "  0x0" |
| Scenarios.FillTopRow | glyphgen.c:174-257 | 5x3 BIN, filling the top row: prints "  0b11111" and then two rows of "  0b00000" |
| Scenarios.FillLeftColumn | glyphgen.c:174-257 | 3x3 HEX, filling the left column: prints "  0x4" three times |
| Scenarios.PaintThenClear | glyphgen.c:174-257 | 2x2 BIN: after painting, `c` leaves every row "  0b00" |
| Scenarios.FillRightmost | glyphgen.c:174-257 | 4x1 HEX, keys `l l l f q`: prints "  0x1" |
| Scenarios.FillCornerSession | glyphgen.c:174-260 | the whole program with `-c 3 -r 2 -f b` and keys `f q` prints exactly "Glyph (3 x 2)", "Format: bin", "  0b100", "  0b000" |
| Scenarios.FillTwoHexSession | glyphgen.c:174-260 | the whole program with `-c 3 -r 2 -f h` and keys `f l f q` prints exactly "Glyph (3 x 2)", "Format: hex", "  0x6", "  0x0" |
| Scenarios.FillTopRowSession | glyphgen.c:174-260 | the whole program with `-c 5 -r 3 -f b` and keys `f l f l f l f l f q` prints exactly "Glyph (5 x 3)", "Format: bin", "  0b11111", "  0b00000", "  0b00000" |
| Scenarios.FillLeftColumnSession | glyphgen.c:174-260 | the whole program with `-c 3 -r 3 -f h` and keys `f j f j f q` prints exactly "Glyph (3 x 3)", "Format: hex", "  0x4", "  0x4", "  0x4" |
| Scenarios.PaintThenClearSession | glyphgen.c:174-260 | the whole program with `-c 2 -r 2 -f b` and keys `f l f j d h d c q` prints exactly "Glyph (2 x 2)", "Format: bin", "  0b00", "  0b00" |
| Scenarios.FillRightmostSession | glyphgen.c:174-260 | the whole program with `-c 4 -r 1 -f h` and keys `l l l f q` prints exactly "Glyph (4 x 1)", "Format: hex", "  0x1" |
| Scenarios.SketchedRun | glyphgen.c:176-252 | from the start of the loop, the loop ends exactly when the index-level loop from the empty glyph does, and every row's bits are the lit cells of that loop |
| Scenarios.SketchAllSplit | glyphgen.c:200-252 | running the index-level loop over a + b is running it over a, then over b |

## Left out

- The terminal itself (ncurses set-up and tear-down, `refresh`, the banner
  and legend text, wide-character pixel glyphs, the locale) is not modelled.
  The screen is a map from positions to lit or dark pixels, changed only by
  the pixel draws.
- The terminal cursor is not modelled. After `f`, `d` and `c` the source
  reads it back with `getyx` into `c_y_prev`/`c_x_prev` (glyphgen.c:227,
  232, 238). Line 248 then moves it back to (`c_y`, `c_x`) whenever it
  differs from the position saved before the key or read back after the
  draw. The model takes the pixel drawn by `f` and `d` to land at
  (`c_y`, `c_x`), which is where the cursor stands before every key.
- `getopt` and `atoi` are not modelled. Options arrive already split, with
  their integers converted. The error messages written to stderr, the usage
  text, and the returned `optind` are not modelled; a successful parse is
  `Parsed(rows, cols, format)`.
- Keys stop when the input sequence ends. The real program would block in
  `getch`; that outcome is `AwaitingKey`, and the glyph is not printed.
- `printf` is modelled as the list of printed lines, without newlines or
  bytes.
- `disp_col` is not modelled: it is never called.
- `disp_str_at`, `move_cursor`, `draw`, `init_screen` and `deinit_screen`
  only talk to the terminal.
- C `int` width is not modelled. The option values arrive as any `int`
  (up to INT_MAX from `atoi`). Before the clamping at glyphgen.c:73-76 they
  are only assigned and compared, never computed with. After it, every
  computed value is small: cursor coordinates are at most 23 (5 + 2·9),
  row values are below 32, and shift amounts are at most 4.
- Signed `%d` output is not modelled. Every printed number (the sizes and
  the row values) is non-negative, so numerals carry no sign.
