/** Conventions shared by the editor and the encoder: the size of the glyph
    matrix, what a cell holds, and the two output formats. */
module Glyph {
  /** Capacity of the `glyph[MAX_Y][MAX_X]` matrix: 10 rows of 5 columns. */
  const MAX_X: int := 5
  const MAX_Y: int := 10

  /** Default grid size before option processing. */
  const N_X: int := 5
  const N_Y: int := 8

  /** The zero byte that the initialiser and `memset` leave in every cell. */
  const NUL: char := 0 as char

  datatype Format = Bin | Hex

  /** A cell is lit exactly when it holds the character '1'; both the zero
      byte and '0' read as dark. */
  predicate Lit(cell: char) { cell == '1' }

  /** A value of the whole matrix: MAX_Y rows of MAX_X cells. */
  ghost predicate WellShaped(grid: seq<seq<char>>)
  {
    |grid| == MAX_Y && forall r :: 0 <= r < MAX_Y ==> |grid[r]| == MAX_X
  }

  /** The matrix with every byte zero. */
  function Blank(): (grid: seq<seq<char>>)
    ensures WellShaped(grid)
    ensures forall r, c :: 0 <= r < MAX_Y && 0 <= c < MAX_X ==> grid[r][c] == NUL
  {
    seq(MAX_Y, _ => seq(MAX_X, _ => NUL))
  }

  /** The contents of a two-dimensional array, row by row. */
  function Contents(g: array2<char>): (grid: seq<seq<char>>)
    reads g
    ensures |grid| == g.Length0
    ensures forall r :: 0 <= r < g.Length0 ==> |grid[r]| == g.Length1
    ensures forall r, c :: 0 <= r < g.Length0 && 0 <= c < g.Length1 ==> grid[r][c] == g[r, c]
  {
    seq(g.Length0, r requires 0 <= r < g.Length0 reads g =>
      seq(g.Length1, c requires 0 <= c < g.Length1 reads g => g[r, c]))
  }

  /** Two matrices with the same shape and the same cells are equal. */
  lemma GridExt(a: seq<seq<char>>, b: seq<seq<char>>)
    requires WellShaped(a) && WellShaped(b)
    requires forall r, c :: 0 <= r < MAX_Y && 0 <= c < MAX_X ==> a[r][c] == b[r][c]
    ensures a == b
  {
    forall r | 0 <= r < MAX_Y ensures a[r] == b[r] {
      assert forall c :: 0 <= c < MAX_X ==> a[r][c] == b[r][c];
    }
  }
}
