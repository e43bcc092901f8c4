/** The editor loop of `main`: one key at a time, moving the cursor over the
    grid, painting the current cell, clearing everything, or quitting.

    The source calls the row index `c` and the column index `r`; here they
    are `row` and `col`. Its bounds checks are made on the screen cursor
    (`c_y`, `c_x`), not on the indices: the state carries both, and
    Consistent says that the cursor is the projection of the indices, which
    is what keeps the indices inside the grid. */
module Editing {
  import opened Glyph
  import opened Screen

  /** A key as `getch` delivers it: a character, or one of the arrow keys. */
  datatype Key = Char(ch: char) | Up | Down | Left | Right

  /** What the `switch` makes of a key. */
  datatype Command = MoveUp | MoveDown | MoveLeft | MoveRight | Fill | Delete | Clear | Quit | Ignore

  /** The case labels of the `switch`: each command has exactly the keys
      listed here, and every other key falls through to the default. */
  function Decode(k: Key): (cmd: Command)
    ensures cmd == MoveUp <==> k == Up || k == Char('k')
    ensures cmd == MoveDown <==> k == Down || k == Char('j')
    ensures cmd == MoveLeft <==> k == Left || k == Char('h')
    ensures cmd == MoveRight <==> k == Right || k == Char('l')
    ensures cmd == Fill <==> k == Char('f')
    ensures cmd == Delete <==> k == Char('d')
    ensures cmd == Clear <==> k == Char('c')
    ensures cmd == Quit <==> k == Char('q')
  {
    match k
    case Up => MoveUp
    case Down => MoveDown
    case Left => MoveLeft
    case Right => MoveRight
    case Char(ch) =>
      if ch == 'k' then MoveUp
      else if ch == 'j' then MoveDown
      else if ch == 'h' then MoveLeft
      else if ch == 'l' then MoveRight
      else if ch == 'f' then Fill
      else if ch == 'd' then Delete
      else if ch == 'c' then Clear
      else if ch == 'q' then Quit
      else Ignore
  }

  /** The loop's variables: the grid size, the glyph matrix, the cell
      indices, the tracked screen cursor, `exit_cond`, and the pixels on the
      terminal. */
  datatype State = State(nY: int, nX: int, grid: seq<seq<char>>,
                         row: int, col: int, cy: int, cx: int,
                         exit: bool, screen: Picture)

  /** The pixel drawn at each cell's position shows whether the cell is lit. */
  ghost predicate Synced(nY: int, nX: int, grid: seq<seq<char>>, screen: Picture)
    requires WellShaped(grid) && nY <= MAX_Y && nX <= MAX_X
  {
    forall r, c {:trigger screen[Proj(r, c)]} :: 0 <= r < nY && 0 <= c < nX ==>
      Proj(r, c) in screen && screen[Proj(r, c)] == Lit(grid[r][c])
  }

  /** The invariant of the editor loop. */
  ghost predicate Consistent(s: State)
  {
    1 <= s.nY <= MAX_Y && 1 <= s.nX <= MAX_X && WellShaped(s.grid) &&
    0 <= s.row < s.nY && 0 <= s.col < s.nX &&
    (s.cy, s.cx) == Proj(s.row, s.col) &&
    (forall p :: p in s.screen ==> OnGrid(p, s.nY, s.nX)) &&
    Synced(s.nY, s.nX, s.grid, s.screen)
  }

  /** A consistent nY x nX state as the loop starts: the matrix all zero,
      the cursor on cell (0, 0), `exit_cond` clear. */
  ghost predicate AtStart(s: State, nY: int, nX: int)
  {
    Consistent(s) && s.nY == nY && s.nX == nX && s.grid == Blank() &&
    s.row == 0 && s.col == 0 && !s.exit
  }

  /** The state before the first key: an all-zero matrix, everything drawn
      dark, the cursor on cell (0, 0). */
  function Initial(nY: int, nX: int): (s: State)
    requires 1 <= nY <= MAX_Y && 1 <= nX <= MAX_X
    ensures AtStart(s, nY, nX)
    ensures (s.cy, s.cx) == (C_Y, C_X)
    ensures forall r, c :: 0 <= r < nY && 0 <= c < nX ==> !Lit(s.grid[r][c]) && Proj(r, c) in s.screen && !s.screen[Proj(r, c)]
  {
    DrawGrid(map[], nY, nX, false);
    State(nY, nX, Blank(), 0, 0, C_Y, C_X, false,
          Draw(map[], RectPositions(C_Y, C_X, nY, nX, D_Y, D_X), false))
  }

  /** `f` and `d`: write v into the current cell and draw its pixel at the
      cursor. */
  function Paint(s: State, v: char): (t: State)
    requires Consistent(s)
    ensures Consistent(t)
  {
    var t := s.(grid := s.grid[s.row := s.grid[s.row][s.col := v]],
                screen := s.screen[(s.cy, s.cx) := Lit(v)]);
    assert WellShaped(t.grid);
    forall r, c | 0 <= r < s.nY && 0 <= c < s.nX
      ensures Proj(r, c) in t.screen && t.screen[Proj(r, c)] == Lit(t.grid[r][c])
    {
      ProjInjective(r, c, s.row, s.col);
    }
    t
  }

  /** `c`: cursor back to the origin, the whole grid redrawn dark, the whole
      matrix zeroed, both indices 0. */
  function ClearAll(s: State): (t: State)
    requires Consistent(s)
    ensures Consistent(t)
  {
    DrawGrid(s.screen, s.nY, s.nX, false);
    s.(cy := C_Y, cx := C_X,
       screen := Draw(s.screen, RectPositions(C_Y, C_X, s.nY, s.nX, D_Y, D_X), false),
       grid := Blank(), row := 0, col := 0)
  }

  /** One pass of the loop body for key k. */
  function Transition(s: State, k: Key): (t: State)
    requires Consistent(s)
    ensures Consistent(t)
    ensures t.nY == s.nY && t.nX == s.nX
  {
    Apply(s, Decode(k))
  }

  /** The effect of one command of the `switch`. */
  function Apply(s: State, cmd: Command): (t: State)
    requires Consistent(s)
    ensures Consistent(t)
    ensures t.nY == s.nY && t.nX == s.nX
  {
    match cmd
    case MoveUp =>
      if s.cy > C_Y then s.(cy := s.cy - D_Y, row := s.row - 1) else s
    case MoveDown =>
      if s.cy < C_Y + D_Y * (s.nY - 1) then s.(cy := s.cy + D_Y, row := s.row + 1) else s
    case MoveLeft =>
      if s.cx > C_X then s.(cx := s.cx - D_X, col := s.col - 1) else s
    case MoveRight =>
      if s.cx < C_X + D_X * (s.nX - 1) then s.(cx := s.cx + D_X, col := s.col + 1) else s
    case Fill => Paint(s, '1')
    case Delete => Paint(s, '0')
    case Clear => ClearAll(s)
    case Quit => s.(exit := true)
    case Ignore => s
  }

  /** The loop over a sequence of keys: it runs until `exit_cond` is set and
      reads no key after that; here it also stops when the keys run out. */
  function Replay(s: State, keys: seq<Key>): (t: State)
    requires Consistent(s)
    ensures Consistent(t)
    ensures t.nY == s.nY && t.nX == s.nX
    decreases |keys|
  {
    if s.exit || keys == [] then s else Replay(Transition(s, keys[0]), keys[1..])
  }

  /** The lit cells of the glyph are exactly `lit`. */
  ghost predicate Shows(s: State, lit: set<(int, int)>)
    requires Consistent(s)
  {
    forall r, c :: 0 <= r < s.nY && 0 <= c < s.nX ==> (Lit(s.grid[r][c]) <==> (r, c) in lit)
  }

  /** The loop seen only through its indices, `exit_cond` and the set of lit
      cells, with the bounds checked on the indices. */
  datatype Sketch = Sketch(lit: set<(int, int)>, row: int, col: int, exit: bool)

  /** One command on the index level: moves stop at the edges of the
      nY x nX grid, `f` adds the current cell, `d` removes it, `c` empties
      the set and returns to cell (0, 0). */
  function Sketched(e: Sketch, nY: int, nX: int, cmd: Command): Sketch
  {
    match cmd
    case MoveUp => if e.row > 0 then e.(row := e.row - 1) else e
    case MoveDown => if e.row < nY - 1 then e.(row := e.row + 1) else e
    case MoveLeft => if e.col > 0 then e.(col := e.col - 1) else e
    case MoveRight => if e.col < nX - 1 then e.(col := e.col + 1) else e
    case Fill => e.(lit := e.lit + {(e.row, e.col)})
    case Delete => e.(lit := e.lit - {(e.row, e.col)})
    case Clear => Sketch({}, 0, 0, e.exit)
    case Quit => e.(exit := true)
    case Ignore => e
  }

  /** The index-level loop over a sequence of keys, stopping at `q`. */
  function SketchAll(e: Sketch, nY: int, nX: int, keys: seq<Key>): Sketch
    decreases |keys|
  {
    if e.exit || keys == [] then e else SketchAll(Sketched(e, nY, nX, Decode(keys[0])), nY, nX, keys[1..])
  }

  /** One command changes the lit cells, the indices and `exit_cond` as the
      index-level loop says. */
  lemma SketchStep(s: State, lit: set<(int, int)>, cmd: Command)
    requires Consistent(s) && Shows(s, lit)
    ensures var t := Apply(s, cmd);
      var e := Sketched(Sketch(lit, s.row, s.col, s.exit), s.nY, s.nX, cmd);
      Shows(t, e.lit) && t.row == e.row && t.col == e.col && t.exit == e.exit
  {
    match cmd
    case Fill => SketchPaint(s, lit, '1');
    case Delete => SketchPaint(s, lit, '0');
    case Clear => SketchClear(s);
    case _ =>
  }

  lemma SketchPaint(s: State, lit: set<(int, int)>, v: char)
    requires Consistent(s) && Shows(s, lit) && (v == '1' || v == '0')
    ensures var t := Paint(s, v);
      Shows(t, if v == '1' then lit + {(s.row, s.col)} else lit - {(s.row, s.col)})
  {
    var t := Paint(s, v);
    assert t.grid == s.grid[s.row := s.grid[s.row][s.col := v]];
  }

  lemma SketchClear(s: State)
    requires Consistent(s)
    ensures var t := ClearAll(s);
      Shows(t, {}) && t.row == 0 && t.col == 0 && t.exit == s.exit
  {
    var t := ClearAll(s);
    assert t.grid == Blank();
  }

  /** The whole loop: what the user sees of the glyph, where the cursor ends
      and whether the loop ended follow the index-level loop. */
  lemma {:induction false} ReplaySketch(s: State, lit: set<(int, int)>, keys: seq<Key>)
    requires Consistent(s) && Shows(s, lit)
    ensures var t := Replay(s, keys);
      var e := SketchAll(Sketch(lit, s.row, s.col, s.exit), s.nY, s.nX, keys);
      Shows(t, e.lit) && t.row == e.row && t.col == e.col && t.exit == e.exit
    decreases |keys|
  {
    if !s.exit && keys != [] {
      SketchStep(s, lit, Decode(keys[0]));
      var t := Transition(s, keys[0]);
      var e := Sketched(Sketch(lit, s.row, s.col, s.exit), s.nY, s.nX, Decode(keys[0]));
      ReplaySketch(t, e.lit, keys[1..]);
    }
  }

  /** A move key changes only the index and cursor coordinate it is about:
      by one cell when the neighbour exists, not at all at an edge. The
      screen-coordinate test of the source is exactly the index test. */
  lemma MoveEffect(s: State, k: Key)
    requires Consistent(s)
    requires Decode(k) in {MoveUp, MoveDown, MoveLeft, MoveRight}
    ensures var t := Transition(s, k);
      t.grid == s.grid && t.screen == s.screen && t.exit == s.exit &&
      (t.cy, t.cx) == Proj(t.row, t.col) &&
      t.row == (match Decode(k)
                case MoveUp => if s.row > 0 then s.row - 1 else s.row
                case MoveDown => if s.row < s.nY - 1 then s.row + 1 else s.row
                case _ => s.row) &&
      t.col == (match Decode(k)
                case MoveLeft => if s.col > 0 then s.col - 1 else s.col
                case MoveRight => if s.col < s.nX - 1 then s.col + 1 else s.col
                case _ => s.col)
  {
  }

  /** `f` and `d` change exactly the current cell, to '1' or '0', and the
      pixel under the cursor; the indices, the cursor, `exit_cond` and every
      other cell keep their values. */
  lemma PaintLocality(s: State, k: Key)
    requires Consistent(s)
    requires Decode(k) == Fill || Decode(k) == Delete
    ensures var t := Transition(s, k);
      var v := if Decode(k) == Fill then '1' else '0';
      t.row == s.row && t.col == s.col && t.cy == s.cy && t.cx == s.cx && t.exit == s.exit &&
      t.grid[s.row][s.col] == v && t.screen[Proj(s.row, s.col)] == Lit(v) &&
      (forall r, c :: 0 <= r < MAX_Y && 0 <= c < MAX_X && (r, c) != (s.row, s.col) ==>
         t.grid[r][c] == s.grid[r][c]) &&
      (forall p :: p in s.screen && p != Proj(s.row, s.col) ==> t.screen[p] == s.screen[p])
  {
  }

  /** After `c` every byte of the matrix is zero (dark), every pixel is
      drawn dark, the indices are (0, 0) and the cursor is at the origin. */
  lemma ClearEffect(s: State, k: Key)
    requires Consistent(s)
    requires Decode(k) == Clear
    ensures var t := Transition(s, k);
      t.row == 0 && t.col == 0 && (t.cy, t.cx) == (C_Y, C_X) && t.exit == s.exit &&
      (forall r, c :: 0 <= r < MAX_Y && 0 <= c < MAX_X ==> t.grid[r][c] == NUL) &&
      (forall p :: p in t.screen ==> !t.screen[p])
  {
    GridCover(s.nY, s.nX);
  }

  /** Clearing twice is the same as clearing once. */
  lemma ClearIdempotent(s: State, k: Key)
    requires Consistent(s)
    requires Decode(k) == Clear
    ensures Transition(Transition(s, k), k) == Transition(s, k)
  {
    DrawTwice(s.screen, RectPositions(C_Y, C_X, s.nY, s.nX, D_Y, D_X), false);
  }

  /** `q` sets `exit_cond` and changes nothing else; every key outside the
      `switch` changes nothing at all. */
  lemma QuitAndIgnored(s: State, k: Key)
    requires Consistent(s)
    requires Decode(k) == Quit || Decode(k) == Ignore
    ensures Transition(s, k) == if Decode(k) == Quit then s.(exit := true) else s
  {
  }

  /** The only keys that end the loop are `q`: the loop ends within the keys
      exactly when one of them is `q`. */
  lemma {:induction false} ReplayExits(s: State, keys: seq<Key>)
    requires Consistent(s) && !s.exit
    ensures Replay(s, keys).exit <==> exists i :: 0 <= i < |keys| && Decode(keys[i]) == Quit
    decreases |keys|
  {
    if keys != [] {
      var t := Transition(s, keys[0]);
      if Decode(keys[0]) == Quit {
        assert t.exit;
      } else {
        assert !t.exit;
        ReplayExits(t, keys[1..]);
        assert forall i :: 1 <= i < |keys| ==> keys[i] == keys[1..][i - 1];
        if exists i :: 0 <= i < |keys| && Decode(keys[i]) == Quit {
          var i :| 0 <= i < |keys| && Decode(keys[i]) == Quit;
          assert Decode(keys[1..][i - 1]) == Quit;
        }
      }
    }
  }

  /** Keys after the first `q` are never read. */
  lemma {:induction false} ReplayStopsAtQuit(s: State, keys: seq<Key>, i: nat)
    requires Consistent(s) && !s.exit
    requires i < |keys| && Decode(keys[i]) == Quit
    requires forall j :: 0 <= j < i ==> Decode(keys[j]) != Quit
    ensures Replay(s, keys) == Replay(s, keys[..i + 1])
    decreases i
  {
    var t := Transition(s, keys[0]);
    if i == 0 {
      assert t.exit;
      assert keys[..1][1..] == [];
    } else {
      assert !t.exit;
      assert keys[..i + 1][1..] == keys[1..][..i];
      ReplayStopsAtQuit(t, keys[1..], i - 1);
    }
  }

  /** The editor of `main`, with the state it keeps in local variables. */
  class Editor {
    const nY: int
    const nX: int
    /** `glyph[MAX_Y][MAX_X]`: row-major, first index the row. */
    const glyph: array2<char>
    /** `c` in the source. */
    var row: int
    /** `r` in the source. */
    var col: int
    var cy: int
    var cx: int
    var exitCond: bool
    var screen: Picture

    ghost function Model(): State
      reads this, glyph
    {
      State(nY, nX, Contents(glyph), row, col, cy, cx, exitCond, screen)
    }

    ghost predicate Valid()
      reads this, glyph
    {
      glyph.Length0 == MAX_Y && glyph.Length1 == MAX_X && Consistent(Model())
    }

    /** The set-up in `main` before the loop: the zeroed matrix, the
        initial indices and cursor, and the grid drawn dark. */
    constructor (nY: int, nX: int)
      requires 1 <= nY <= MAX_Y && 1 <= nX <= MAX_X
      ensures Valid() && fresh(glyph)
      ensures Model() == Initial(nY, nX)
    {
      var g := new char[MAX_Y, MAX_X]((_, _) => NUL);
      var log := DispRect(C_Y, C_X, nY, nX, D_Y, D_X);
      this.nY, this.nX, glyph := nY, nX, g;
      row, col, cy, cx, exitCond := 0, 0, C_Y, C_X, false;
      screen := Draw(map[], log, false);
      new;
      GridExt(Contents(glyph), Blank());
      assert Model() == Initial(nY, nX);
    }

    /** One of the four cursor moves: the bound is checked on the screen
        cursor, which moves by one cell spacing together with its index. */
    method Move(cmd: Command)
      requires Valid() && cmd in {MoveUp, MoveDown, MoveLeft, MoveRight}
      modifies this
      ensures Valid()
      ensures Model() == Apply(old(Model()), cmd)
    {
      ghost var s := Model();
      match cmd {
        case MoveUp =>
          if cy > C_Y {
            cy, row := cy - D_Y, row - 1;
          }
        case MoveDown =>
          if cy < C_Y + D_Y * (nY - 1) {
            cy, row := cy + D_Y, row + 1;
          }
        case MoveLeft =>
          if cx > C_X {
            cx, col := cx - D_X, col - 1;
          }
        case MoveRight =>
          if cx < C_X + D_X * (nX - 1) {
            cx, col := cx + D_X, col + 1;
          }
      }
      assert Model() == Apply(s, cmd);
    }

    /** `f` (v = '1') and `d` (v = '0'): draw the pixel under the cursor and
        store v in the current cell. */
    method PaintCell(v: char)
      requires Valid() && (v == '1' || v == '0')
      modifies this`screen, glyph
      ensures Valid()
      ensures Model() == Paint(old(Model()), v)
    {
      ghost var s := Model();
      ghost var g := s.grid[row := s.grid[row][col := v]];
      screen := screen[(cy, cx) := Lit(v)];
      glyph[row, col] := v;
      forall i, j | 0 <= i < MAX_Y && 0 <= j < MAX_X ensures Contents(glyph)[i][j] == g[i][j] {
      }
      GridExt(Contents(glyph), g);
      assert Model() == Paint(s, v);
    }

    /** `c`: cursor to the origin, redraw the grid dark, `memset` the
        matrix, reset both indices. */
    method Clear()
      requires Valid()
      modifies this, glyph
      ensures Valid()
      ensures Model() == ClearAll(old(Model()))
    {
      ghost var s := Model();
      cy, cx := C_Y, C_X;
      var log := DispRect(cy, cx, nY, nX, D_Y, D_X);
      screen := Draw(screen, log, false);
      forall i, j | 0 <= i < MAX_Y && 0 <= j < MAX_X {
        glyph[i, j] := NUL;
      }
      GridExt(Contents(glyph), Blank());
      row, col := 0, 0;
      assert Model() == ClearAll(s);
    }

    /** One pass of the loop body: dispatch on the key. */
    method Step(k: Key)
      requires Valid()
      modifies this, glyph
      ensures Valid()
      ensures Model() == Transition(old(Model()), k)
    {
      var cmd := Decode(k);
      match cmd {
        case MoveUp => Move(cmd);
        case MoveDown => Move(cmd);
        case MoveLeft => Move(cmd);
        case MoveRight => Move(cmd);
        case Fill => PaintCell('1');
        case Delete => PaintCell('0');
        case Clear => Clear();
        case Quit => exitCond := true;
        case Ignore =>
      }
    }

    /** The `while (!exit_cond)` loop fed with the given keys. */
    method Run(keys: seq<Key>)
      requires Valid()
      modifies this, glyph
      ensures Valid()
      ensures Model() == Replay(old(Model()), keys)
    {
      ghost var s0 := Model();
      var i := 0;
      while !exitCond && i < |keys|
        invariant 0 <= i <= |keys|
        invariant Valid()
        invariant Replay(s0, keys) == Replay(Model(), keys[i..])
      {
        assert keys[i..][1..] == keys[i + 1..];
        Step(keys[i]);
        i := i + 1;
      }
    }
  }
}
