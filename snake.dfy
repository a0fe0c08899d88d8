/** The snake: an ordered list of cells, head first, tail last, and a
    heading. Eating keeps or drops the tail in place, moving pushes a new
    head, and the alive scan tests the head against the walls and the body. */
module SnakeBody {
  import opened Geometry

  /** What eating leaves behind: the body and whether the apple was eaten. */
  datatype Meal = Meal(body: seq<Cell>, ate: bool)

  /** Value view of eating: the head on the apple keeps the whole body,
      otherwise the tail cell goes. */
  function EatOrDrop(cells: seq<Cell>, apple: Cell): (m: Meal)
    requires |cells| > 0
    ensures m.ate <==> cells[0] == apple
    ensures m.ate ==> m.body == cells
    ensures !m.ate ==> m.body + [cells[|cells| - 1]] == cells
  {
    if cells[0].x == apple.x && cells[0].y == apple.y then Meal(cells, true)
    else Meal(cells[..|cells| - 1], false)
  }

  /** Value view of moving: a new head one unit ahead in heading `d`, with
      every earlier cell shifted one place back. */
  function Moved(cells: seq<Cell>, d: Direction): (r: seq<Cell>)
    requires |cells| > 0
    ensures |r| == |cells| + 1
    ensures forall i :: 0 <= i < |cells| ==> r[i + 1] == cells[i]
    ensures Adjacent(r[0], cells[0])
    ensures NextHead(r[0], Opposite(d)) == cells[0]
  {
    StepBack(cells[0], d);
    [NextHead(cells[0], d)] + cells
  }

  /** The collision the alive scan looks for: the head's x is -1 or
      CellWidth, or its y is -1 or CellHeight (lines that run on past the
      grid's corners), or the head is on another cell of the body. */
  predicate Collision(cells: seq<Cell>)
    requires |cells| > 0
  {
    HitsWall(cells[0]) || cells[0] in cells[1..]
  }

  class Snake {
    /** The world size given at construction; the alive scan never reads it. */
    var dim: (int, int)
    var cells: seq<Cell>
    var direction: Direction

    constructor (dim: (int, int), cells: seq<Cell>, direction: Direction)
      ensures this.dim == dim && this.cells == cells && this.direction == direction
    {
      this.dim := dim;
      this.cells := cells;
      this.direction := direction;
    }

    /** Eat the apple when the head is on it (the body stays), otherwise
        delete the tail cell in place. */
    method EatApple(apple: Cell) returns (ate: bool)
      requires |cells| > 0
      modifies this`cells
      ensures ate <==> old(cells)[0] == apple
      ensures ate ==> cells == old(cells)
      ensures !ate ==> cells == old(cells)[..|old(cells)| - 1]
      ensures Meal(cells, ate) == EatOrDrop(old(cells), apple)
    {
      if cells[0].x == apple.x && cells[0].y == apple.y {
        ate := true;
      } else {
        cells := cells[..|cells| - 1];
        ate := false;
      }
    }

    /** Insert a new head one unit ahead in the current heading. */
    method Move()
      requires |cells| > 0
      modifies this`cells
      ensures cells == Moved(old(cells), direction)
      ensures cells[0] == NextHead(old(cells)[0], direction) && cells[1..] == old(cells)
    {
      var head := cells[0];
      var newHead;
      match direction {
        case Up => newHead := Cell(head.x, head.y - 1);
        case Down => newHead := Cell(head.x, head.y + 1);
        case Left => newHead := Cell(head.x - 1, head.y);
        case Right => newHead := Cell(head.x + 1, head.y);
      }
      cells := [newHead] + cells;
    }

    /** The alive scan: `gameOver` is what the scan finds. The game loop
        discards it, so a collision never ends a game. */
    method Alive() returns (gameOver: bool)
      requires |cells| > 0
      ensures gameOver == Collision(cells)
    {
      var head := cells[0];
      if head.x == -1 || head.x == CellWidth || head.y == -1 || head.y == CellHeight {
        return true;
      }
      var i := 1;
      while i < |cells|
        invariant 1 <= i <= |cells|
        invariant forall j :: 1 <= j < i ==> cells[j] != head
      {
        if cells[i].x == head.x && cells[i].y == head.y {
          assert cells[1..][i - 1] == head;
          return true;
        }
        i := i + 1;
      }
      assert forall c :: c in cells[1..] ==> c != head;
      return false;
    }
  }
}
