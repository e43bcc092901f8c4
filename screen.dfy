/** The screen layout of the editor: where each cell is drawn, which
    positions the grid-drawing loops visit, and the effect of drawing pixels
    on an abstract picture of the terminal. */
module Screen {
  /** Origin and spacing of the grid on the terminal. */
  const C_X: int := 3
  const C_Y: int := 5
  const D_X: int := 4
  const D_Y: int := 2

  /** A terminal position (y, x). */
  type Pos = (int, int)

  /** The terminal's pixels: for each position where a pixel glyph was
      drawn, whether it is the lit square (true) or the dark square (false). */
  type Picture = map<Pos, bool>

  /** The position r steps of dy down and c steps of dx right of (y, x). */
  function At(y: int, x: int, dy: int, dx: int, r: int, c: int): Pos
  {
    (y + r * dy, x + c * dx)
  }

  /** The screen position of cell (row, col). */
  function Proj(row: int, col: int): Pos
  {
    At(C_Y, C_X, D_Y, D_X, row, col)
  }

  /** Distinct cells are drawn at distinct positions. */
  lemma ProjInjective(r1: int, c1: int, r2: int, c2: int)
    ensures Proj(r1, c1) == Proj(r2, c2) <==> r1 == r2 && c1 == c2
  {
  }

  /** p is the position of one of the cells of an nY x nX grid. */
  predicate OnGrid(p: Pos, nY: int, nX: int)
  {
    (p.0 - C_Y) % D_Y == 0 && 0 <= (p.0 - C_Y) / D_Y < nY &&
    (p.1 - C_X) % D_X == 0 && 0 <= (p.1 - C_X) / D_X < nX
  }

  /** The grid positions are exactly the projections of the cells. */
  lemma OnGridIsProj(p: Pos, nY: int, nX: int)
    ensures OnGrid(p, nY, nX) <==> exists r, c :: 0 <= r < nY && 0 <= c < nX && p == Proj(r, c)
  {
    if OnGrid(p, nY, nX) {
      var r, c := (p.0 - C_Y) / D_Y, (p.1 - C_X) / D_X;
      assert p == Proj(r, c);
    }
  }

  lemma OnGridProj(r: int, c: int, nY: int, nX: int)
    ensures OnGrid(Proj(r, c), nY, nX) <==> 0 <= r < nY && 0 <= c < nX
  {
  }

  /** The positions `disp_row` draws, in order: n pixels from (y, x), d apart. */
  function RowPositions(y: int, x: int, n: int, d: int): seq<Pos>
    decreases n
  {
    if n <= 0 then [] else [(y, x)] + RowPositions(y, x + d, n - 1, d)
  }

  /** The positions `disp_rect` draws, in order: h rows of w pixels. */
  function RectPositions(y: int, x: int, h: int, w: int, dy: int, dx: int): seq<Pos>
    decreases h
  {
    if h <= 0 then [] else RowPositions(y, x, w, dx) + RectPositions(y + dy, x, h - 1, w, dy, dx)
  }

  /** `disp_row`: the counting loop that steps x, recording each position it
      draws at. The `(d < 1) ? 1 : d` of the source is a discarded
      expression and clamps nothing. */
  method DispRow(y: int, x: int, n: int, d: int) returns (log: seq<Pos>)
    ensures log == RowPositions(y, x, n, d)
    ensures |log| == (if n < 0 then 0 else n)
    ensures forall k :: 0 <= k < |log| ==> log[k] == At(y, x, 0, d, 0, k)
  {
    log := [];
    var x', n' := x, n;
    while n' > 0
      invariant 0 <= n' <= n || n' == n
      invariant |log| == n - n'
      invariant x' == x + |log| * d
      invariant forall k :: 0 <= k < |log| ==> log[k] == At(y, x, 0, d, 0, k)
      invariant log + RowPositions(y, x', n', d) == RowPositions(y, x, n, d)
      decreases n'
    {
      log := log + [(y, x')];
      n', x' := n' - 1, x' + d;
    }
  }

  /** `disp_rect`: draws h rows with `disp_row`, stepping y by dy. */
  method DispRect(y: int, x: int, h: int, w: int, dy: int, dx: int) returns (log: seq<Pos>)
    ensures log == RectPositions(y, x, h, w, dy, dx)
  {
    log := [];
    var y', h' := y, h;
    while h' > 0
      invariant log + RectPositions(y', x, h', w, dy, dx) == RectPositions(y, x, h, w, dy, dx)
      decreases h'
    {
      var row := DispRow(y', x, w, dx);
      assert RectPositions(y', x, h', w, dy, dx) == row + RectPositions(y' + dy, x, h' - 1, w, dy, dx);
      log := log + row;
      h', y' := h' - 1, y' + dy;
    }
  }

  lemma {:induction false} RowCover(y: int, x: int, n: int, d: int, p: Pos)
    ensures p in RowPositions(y, x, n, d) <==> exists c :: 0 <= c < n && p == At(y, x, 0, d, 0, c)
    decreases n
  {
    if n > 0 {
      RowCover(y, x + d, n - 1, d, p);
      assert RowPositions(y, x, n, d) == [(y, x)] + RowPositions(y, x + d, n - 1, d);
      forall c | 0 < c < n ensures At(y, x, 0, d, 0, c) == At(y, x + d, 0, d, 0, c - 1) {
        assert c * d == (c - 1) * d + d;
      }
      assert At(y, x, 0, d, 0, 0) == (y, x);
      if p in RowPositions(y, x, n, d) && p != (y, x) {
        var c :| 0 <= c < n - 1 && p == At(y, x + d, 0, d, 0, c);
        assert p == At(y, x, 0, d, 0, c + 1);
      }
    }
  }

  /** The rectangle covers exactly the h x w grid positions from (y, x). */
  lemma {:induction false} RectCover(y: int, x: int, h: int, w: int, dy: int, dx: int)
    ensures forall p :: p in RectPositions(y, x, h, w, dy, dx) <==>
      exists r, c :: 0 <= r < h && 0 <= c < w && p == At(y, x, dy, dx, r, c)
    decreases h
  {
    if h > 0 {
      RectCover(y + dy, x, h - 1, w, dy, dx);
      forall p ensures p in RectPositions(y, x, h, w, dy, dx) <==>
        exists r, c :: 0 <= r < h && 0 <= c < w && p == At(y, x, dy, dx, r, c)
      {
        RectCoverAt(y, x, h, w, dy, dx, y + dy, p);
      }
    }
  }

  /** One step of RectCover, for one position: the first row, then the
      rectangle one row lower. */
  lemma RectCoverAt(y: int, x: int, h: int, w: int, dy: int, dx: int, y': int, p: Pos)
    requires h > 0 && y' == y + dy
    requires p in RectPositions(y', x, h - 1, w, dy, dx) <==>
      exists r, c :: 0 <= r < h - 1 && 0 <= c < w && p == At(y', x, dy, dx, r, c)
    ensures p in RectPositions(y, x, h, w, dy, dx) <==>
      exists r, c :: 0 <= r < h && 0 <= c < w && p == At(y, x, dy, dx, r, c)
  {
    RowCover(y, x, w, dx, p);
    assert RectPositions(y, x, h, w, dy, dx) == RowPositions(y, x, w, dx) + RectPositions(y + dy, x, h - 1, w, dy, dx);
    forall r, c | 0 < r < h ensures At(y, x, dy, dx, r, c) == At(y + dy, x, dy, dx, r - 1, c) {
      assert r * dy == (r - 1) * dy + dy;
    }
    if p in RowPositions(y, x, w, dx) {
      var c :| 0 <= c < w && p == At(y, x, 0, dx, 0, c);
      assert p == At(y, x, dy, dx, 0, c);
    } else if p in RectPositions(y + dy, x, h - 1, w, dy, dx) {
      var r, c :| 0 <= r < h - 1 && 0 <= c < w && p == At(y + dy, x, dy, dx, r, c);
      assert p == At(y, x, dy, dx, r + 1, c);
    } else {
      forall r, c | 0 <= r < h && 0 <= c < w ensures p != At(y, x, dy, dx, r, c) {
        if r == 0 {
          assert At(y, x, dy, dx, r, c) == At(y, x, 0, dx, 0, c);
        }
      }
    }
  }

  /** The grid drawing at the origin covers exactly the projections of all
      nY x nX cells: this is what the initial draw and the clear redraw draw. */
  lemma GridCover(nY: int, nX: int)
    ensures forall p :: p in RectPositions(C_Y, C_X, nY, nX, D_Y, D_X) <==> OnGrid(p, nY, nX)
  {
    RectCover(C_Y, C_X, nY, nX, D_Y, D_X);
    forall p ensures p in RectPositions(C_Y, C_X, nY, nX, D_Y, D_X) <==> OnGrid(p, nY, nX) {
      OnGridIsProj(p, nY, nX);
      if OnGrid(p, nY, nX) {
        var r, c :| 0 <= r < nY && 0 <= c < nX && p == Proj(r, c);
        assert p == At(C_Y, C_X, D_Y, D_X, r, c);
      }
      if p in RectPositions(C_Y, C_X, nY, nX, D_Y, D_X) {
        var r, c :| 0 <= r < nY && 0 <= c < nX && p == At(C_Y, C_X, D_Y, D_X, r, c);
        assert p == Proj(r, c);
      }
    }
  }

  /** The picture after drawing the same glyph at every position of ps. */
  function Draw(pic: Picture, ps: seq<Pos>, lit: bool): (out: Picture)
    ensures out.Keys == pic.Keys + (set p | p in ps)
    ensures forall p :: p in ps ==> out[p] == lit
    ensures forall p :: p in pic && p !in ps ==> out[p] == pic[p]
  {
    map p | p in pic.Keys + (set q | q in ps) :: if p in ps then lit else pic[p]
  }

  /** Drawing the same glyph over the same positions twice is drawing it once. */
  lemma DrawTwice(pic: Picture, ps: seq<Pos>, lit: bool)
    ensures Draw(Draw(pic, ps, lit), ps, lit) == Draw(pic, ps, lit)
  {
  }

  /** Drawing the whole grid with one glyph, over a picture that holds only
      grid positions, leaves only grid positions, every cell showing it. */
  lemma DrawGrid(pic: Picture, nY: int, nX: int, lit: bool)
    requires forall p :: p in pic ==> OnGrid(p, nY, nX)
    ensures var out := Draw(pic, RectPositions(C_Y, C_X, nY, nX, D_Y, D_X), lit);
      (forall p :: p in out ==> OnGrid(p, nY, nX)) &&
      (forall p :: p in out ==> out[p] == lit) &&
      forall r, c :: 0 <= r < nY && 0 <= c < nX ==> Proj(r, c) in out && out[Proj(r, c)] == lit
  {
    var ps := RectPositions(C_Y, C_X, nY, nX, D_Y, D_X);
    GridCover(nY, nX);
    forall r, c | 0 <= r < nY && 0 <= c < nX ensures Proj(r, c) in ps {
      OnGridProj(r, c, nY, nX);
    }
  }
}
