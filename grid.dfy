/**
 * The fixed 80 x 24 character buffer of the board, its box-drawing glyphs,
 * and the bounds-checked cell write that every drawing routine goes through.
 */
module Grid {

  const WIDTH: nat := 80
  const HEIGHT: nat := 24

  // Single-line glyphs
  const HORIZONTAL: char := '\U{2500}'
  const VERTICAL: char := '\U{2502}'
  const UPPER_LEFT: char := '\U{250C}'
  const UPPER_RIGHT: char := '\U{2510}'
  const LOWER_LEFT: char := '\U{2514}'
  const LOWER_RIGHT: char := '\U{2518}'
  const DOWN_HORIZONTAL: char := '\U{252C}'
  const UP_HORIZONTAL: char := '\U{2534}'

  // Double-line glyphs
  const DOUBLE_HORIZONTAL: char := '\U{2550}'
  const DOUBLE_VERTICAL: char := '\U{2551}'
  const DOUBLE_UPPER_LEFT: char := '\U{2554}'
  const DOUBLE_UPPER_RIGHT: char := '\U{2557}'
  const DOUBLE_LOWER_LEFT: char := '\U{255A}'
  const DOUBLE_LOWER_RIGHT: char := '\U{255D}'
  const DOUBLE_DOWN_HORIZONTAL: char := '\U{2566}'
  const DOUBLE_UP_HORIZONTAL: char := '\U{2569}'

  datatype Option<+T> = None | Some(value: T)

  /** Why a drawing call aborts the program. */
  datatype Panic =
    | BoxOutOfBounds      // the explicit "Box out of bounds" check of a box routine
    | SizeZero            // draw_row asked for zero lanes
    | IndexOutOfBounds    // a buffer index past row 23 or column 79
    | SubtractOverflow    // an unsigned subtraction below zero

  datatype Outcome = Ok | Panic(reason: Panic)

  /** A buffer has HEIGHT rows of WIDTH cells: grid[row, column]. */
  predicate IsBuffer(grid: array2<char>) {
    grid.Length0 == HEIGHT && grid.Length1 == WIDTH
  }

  predicate InBuffer(r: int, c: int) {
    0 <= r < HEIGHT && 0 <= c < WIDTH
  }

  /** The cell after a write that may or may not reach it. */
  function Paint(w: Option<char>, under: char): char {
    if w.Some? then w.value else under
  }

  /**
   * `buffer[r][c] = ch` with the bounds check of the indexing operator:
   * the write happens exactly when the cell exists, and nothing else changes.
   */
  method Put(grid: array2<char>, r: nat, c: nat, ch: char) returns (ok: bool)
    requires IsBuffer(grid)
    modifies grid
    ensures ok <==> InBuffer(r, c)
    ensures forall i, j :: InBuffer(i, j) ==>
              grid[i, j] == (if ok && i == r && j == c then ch else old(grid[i, j]))
  {
    ok := r < HEIGHT && c < WIDTH;
    if ok {
      grid[r, c] := ch;
    }
  }
}
