/**
 * The snake: an ordered list of cells, head first, and a direction (dx, dy).
 * The class keeps the fields the game updates in place; the functions beside
 * it are the side-effect-free queries on the body and the specifications of
 * the class's methods.
 */
module SnakeEntity {
  import opened Wrappers
  import opened Grid

  /** The body a new snake is given, head first. */
  const StartBody: seq<Cell> := [Cell(5, 5), Cell(4, 5), Cell(3, 5)]

  /** The start body is a connected path of distinct cells, ready to head right. */
  lemma StartBodyShape()
    ensures |StartBody| == 3 && Path(StartBody) && Distinct(StartBody)
    ensures Step(StartBody[0], 1, 0) !in StartBody
  {
  }

  /** A request that exactly negates a nonzero component of the current direction. */
  predicate Reverses(dx: int, dy: int, newDx: int, newDy: int)
  {
    (dx == -newDx && dx != 0) || (dy == -newDy && dy != 0)
  }

  /**
   * The direction after a change request: the request is taken unless it
   * reverses the snake; a refused request leaves the direction as it was.
   */
  function Turn(dx: int, dy: int, newDx: int, newDy: int): (r: (int, int))
    ensures r == (newDx, newDy) || r == (dx, dy)
    ensures r == (newDx, newDy) <==> !Reverses(dx, dy, newDx, newDy)
    ensures IsUnit(dx, dy) && IsUnit(newDx, newDy) ==> IsUnit(r.0, r.1) && r != (-dx, -dy)
  {
    if Reverses(dx, dy, newDx, newDy) then (dx, dy) else (newDx, newDy)
  }

  /** A unit direction never turns into its opposite, whatever is requested. */
  lemma {:induction false} TurnNeverReverses(dx: int, dy: int, newDx: int, newDy: int)
    requires IsUnit(dx, dy)
    ensures Turn(dx, dy, -dx, -dy) == (dx, dy)
    ensures Turn(dx, dy, newDx, newDy) != (-dx, -dy)
  {
  }

  /** The body after a move: a new head one step ahead, nothing removed. */
  function Advance(body: seq<Cell>, dx: int, dy: int): (r: seq<Cell>)
    requires |body| > 0
    ensures |r| == |body| + 1 && r[1..] == body
    ensures r[0] == Step(body[0], dx, dy)
    ensures IsUnit(dx, dy) && Path(body) ==> Path(r)
    ensures Distinct(body) ==> (Distinct(r) <==> !HitsSelf(r))
  {
    [Step(body[0], dx, dy)] + body
  }

  /** The body after the tail is popped; popping an empty body changes nothing. */
  function DropTail(body: seq<Cell>): (r: seq<Cell>)
    ensures |body| > 0 ==> |r| == |body| - 1 && r + [body[|body| - 1]] == body
    ensures |body| == 0 ==> r == []
    ensures Path(body) ==> Path(r)
    ensures Distinct(body) ==> Distinct(r)
  {
    if |body| == 0 then [] else body[..|body| - 1]
  }

  /** The head lies on some other segment. An empty body collides with nothing. */
  function HitsSelf(body: seq<Cell>): (r: bool)
    ensures r <==> exists i :: 1 <= i < |body| && body[i] == body[0]
  {
    |body| > 0 && body[0] in body[1..]
  }

  /** The head has left the board. */
  function HitsWall(body: seq<Cell>, cols: int, rows: int): (r: bool)
    requires |body| > 0
    ensures r <==> body[0] !in Board(cols, rows)
  {
    OnBoard(body[0], cols, rows);
    var head := body[0];
    head.x < 0 || head.x >= cols || head.y < 0 || head.y >= rows
  }

  /** The head is on the fruit; without a fruit nothing is eaten. */
  function Eats(body: seq<Cell>, f: Option<Cell>): (r: bool)
    requires f.Some? ==> |body| > 0
    ensures r <==> f.Some? && f.value == body[0]
  {
    f.Some? && body[0].x == f.value.x && body[0].y == f.value.y
  }

  /**
   * A head that steps onto the cell the tail occupies collides: the check
   * runs after the move and before the tail is popped.
   */
  lemma {:induction false} SteppingOntoTailCollides(body: seq<Cell>, dx: int, dy: int)
    requires |body| > 0 && Step(body[0], dx, dy) == body[|body| - 1]
    ensures HitsSelf(Advance(body, dx, dy))
  {
  }

  class Snake {
    var body: seq<Cell>
    var dx: int
    var dy: int

    constructor ()
      ensures body == StartBody && dx == 1 && dy == 0
    {
      body := StartBody;
      dx := 1;
      dy := 0;
    }

    method ChangeDirection(newDx: int, newDy: int)
      modifies this`dx, this`dy
      ensures (dx, dy) == Turn(old(dx), old(dy), newDx, newDy)
    {
      if dx == -newDx && dx != 0 {
        return;
      }
      if dy == -newDy && dy != 0 {
        return;
      }
      dx := newDx;
      dy := newDy;
    }

    /** Pushes a new head onto the front of the body. */
    method Move()
      requires |body| > 0
      modifies this`body
      ensures body == Advance(old(body), dx, dy)
    {
      var head := Cell(body[0].x + dx, body[0].y + dy);
      body := [head] + body;
    }

    /** Pops the tail. */
    method Shrink()
      modifies this`body
      ensures body == DropTail(old(body))
    {
      if |body| > 0 {
        body := body[..|body| - 1];
      }
    }
  }
}
