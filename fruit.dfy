/**
 * The fruit: one cell, placed by a rejection loop that draws random cells
 * until one is off the snake's body. The random generator is an input: a
 * sequence of draws, each a pair of values in [0, 1) as Math.random yields
 * them. The loop ends only if some draw lands off the body, so that is what
 * its callers must supply.
 */
module FruitEntity {
  import opened Grid

  /** A value of Math.random. */
  type Random = r: real | 0.0 <= r < 1.0

  /** One pass of the loop draws a column value and then a row value. */
  datatype Draw = Draw(u: Random, v: Random)

  /** Math.floor(r * n): a uniform value in [0, 1) scaled to an index below n. */
  function Scale(r: Random, n: int): (k: int)
    requires n > 0
    ensures 0 <= k < n
  {
    var p := r * n as real;
    assert 0.0 <= p < n as real;
    p.Floor
  }

  /** The cell a draw proposes; it is always on the board. */
  function DrawCell(d: Draw, cols: int, rows: int): (c: Cell)
    requires cols > 0 && rows > 0
    ensures c in Board(cols, rows)
  {
    var c := Cell(Scale(d.u, cols), Scale(d.v, rows));
    OnBoard(c, cols, rows);
    c
  }

  /** Some draw lands off the body, so the rejection loop stops. */
  predicate HasFree(body: seq<Cell>, draws: seq<Draw>, cols: int, rows: int)
    requires cols > 0 && rows > 0
  {
    exists i :: 0 <= i < |draws| && DrawCell(draws[i], cols, rows) !in body
  }

  /** The index of the draw the loop accepts: the first that lands off the body. */
  function FirstFree(body: seq<Cell>, draws: seq<Draw>, cols: int, rows: int): (i: nat)
    requires cols > 0 && rows > 0 && HasFree(body, draws, cols, rows)
    ensures i < |draws| && DrawCell(draws[i], cols, rows) !in body
    ensures forall j :: 0 <= j < i ==> DrawCell(draws[j], cols, rows) in body
    decreases |draws|
  {
    if DrawCell(draws[0], cols, rows) !in body then 0
    else
      assert HasFree(body, draws[1..], cols, rows) by {
        var i :| 0 <= i < |draws| && DrawCell(draws[i], cols, rows) !in body;
        assert draws[1..][i - 1] == draws[i];
      }
      1 + FirstFree(body, draws[1..], cols, rows)
  }

  /** With no body to avoid, the first draw is accepted. */
  lemma {:induction false} FirstFreeOfEmpty(draws: seq<Draw>, cols: int, rows: int)
    requires cols > 0 && rows > 0 && |draws| > 0
    ensures HasFree([], draws, cols, rows) && FirstFree([], draws, cols, rows) == 0
  {
  }

  class Fruit {
    var x: int
    var y: int

    /** A new fruit places itself with no body to avoid, taking the first draw. */
    constructor (draws: seq<Draw>, cols: int, rows: int)
      requires cols > 0 && rows > 0 && |draws| > 0
      ensures Cell(x, y) == DrawCell(draws[0], cols, rows)
    {
      new;
      FirstFreeOfEmpty(draws, cols, rows);
      var used := Randomize([], draws, cols, rows);
    }

    /**
     * Draws cells until one is off `body` and keeps it. Returns how many
     * draws were consumed.
     */
    method Randomize(body: seq<Cell>, draws: seq<Draw>, cols: int, rows: int) returns (used: nat)
      requires cols > 0 && rows > 0 && HasFree(body, draws, cols, rows)
      modifies this
      ensures used == FirstFree(body, draws, cols, rows) + 1
      ensures Cell(x, y) == DrawCell(draws[used - 1], cols, rows)
      ensures Cell(x, y) in Board(cols, rows) && Cell(x, y) !in body
    {
      ghost var k := FirstFree(body, draws, cols, rows);
      var valid := false;
      used := 0;
      while !valid
        invariant !valid ==> used <= k
        invariant valid ==> used == k + 1 && Cell(x, y) == DrawCell(draws[k], cols, rows)
        decreases |draws| - used
      {
        var c := DrawCell(draws[used], cols, rows);
        x := c.x;
        y := c.y;
        used := used + 1;
        if Cell(x, y) !in body {
          valid := true;
        }
      }
    }
  }
}
