/** An optional value: the game's fruit is undefined until the first game starts. */
module Wrappers {
  datatype Option<+T> = None | Some(value: T)
}

/**
 * The playing field: a cols x rows grid of integer cells. The canvas is
 * divided into 20-pixel squares; the model takes the resulting column and
 * row counts as given positive integers.
 */
module Grid {

  /** A grid cell. The head may lie outside the board for the instant
      between a move and the wall check, so coordinates are unbounded. */
  datatype Cell = Cell(x: int, y: int)

  /** The cell reached from `c` by one step along (dx, dy). */
  function Step(c: Cell, dx: int, dy: int): Cell
  {
    Cell(c.x + dx, c.y + dy)
  }

  predicate InBounds(c: Cell, cols: int, rows: int)
  {
    0 <= c.x < cols && 0 <= c.y < rows
  }

  /** Every cell of the board, as a set. */
  ghost function Board(cols: int, rows: int): set<Cell>
  {
    set x: int, y: int | 0 <= x < cols && 0 <= y < rows :: Cell(x, y)
  }

  lemma OnBoard(c: Cell, cols: int, rows: int)
    ensures c in Board(cols, rows) <==> InBounds(c, cols, rows)
  {
  }

  /** A direction of one step along exactly one axis. */
  predicate IsUnit(dx: int, dy: int)
  {
    (dx == 0 && (dy == 1 || dy == -1)) || (dy == 0 && (dx == 1 || dx == -1))
  }

  /** Two cells that share a side. */
  predicate Adjacent(a: Cell, b: Cell)
  {
    IsUnit(b.x - a.x, b.y - a.y)
  }

  /** Consecutive cells share a side: the body is a connected path. */
  predicate Path(s: seq<Cell>)
  {
    forall i :: 0 <= i < |s| - 1 ==> Adjacent(s[i], s[i + 1])
  }

  /** No cell occurs twice. */
  predicate Distinct(s: seq<Cell>)
  {
    forall i, j :: 0 <= i < j < |s| ==> s[i] != s[j]
  }

  predicate AllInBounds(s: seq<Cell>, cols: int, rows: int)
  {
    forall i :: 0 <= i < |s| ==> InBounds(s[i], cols, rows)
  }
}
