/** The grid of the Wormy game: the fixed world size in cells, the cells
    themselves (unbounded integer coordinates, since the snake may walk off
    the grid) and the four headings with their unit steps. */
module Geometry {

  /** Window size in pixels and the side of one square cell. */
  const WindowWidth: int := 640
  const WindowHeight: int := 480
  const CellSize: int := 20

  /** Number of cells across and down; the window sizes are multiples of
      the cell size, so the divisions are exact. */
  const CellWidth: int := WindowWidth / CellSize
  const CellHeight: int := WindowHeight / CellSize

  /** The world dimensions handed to a snake (equal to the cell counts). */
  const WorldWidth: int := CellWidth
  const WorldHeight: int := CellHeight

  /** One grid cell, column `x` (grows to the right) and row `y` (grows downwards). */
  datatype Cell = Cell(x: int, y: int)

  datatype Direction = Up | Down | Left | Right

  /** The heading whose unit step undoes this one (`StepBack`); the
      pairing is an involution (`OppositeInvolution`). */
  function Opposite(d: Direction): (o: Direction)
    ensures o != d
  {
    match d
    case Up => Down
    case Down => Up
    case Left => Right
    case Right => Left
  }

  lemma OppositeInvolution(d: Direction)
    ensures Opposite(Opposite(d)) == d
  {
  }

  function Abs(n: int): nat {
    if n < 0 then -n else n
  }

  function Manhattan(a: Cell, b: Cell): nat {
    Abs(a.x - b.x) + Abs(a.y - b.y)
  }

  /** The cell one unit away from `c` in heading `d` (up is y - 1, down is
      y + 1, left is x - 1, right is x + 1). */
  function NextHead(c: Cell, d: Direction): (n: Cell)
    ensures Manhattan(c, n) == 1
    ensures n.y < c.y <==> d == Up
    ensures n.y > c.y <==> d == Down
    ensures n.x < c.x <==> d == Left
    ensures n.x > c.x <==> d == Right
  {
    match d
    case Up => Cell(c.x, c.y - 1)
    case Down => Cell(c.x, c.y + 1)
    case Left => Cell(c.x - 1, c.y)
    case Right => Cell(c.x + 1, c.y)
  }

  /** Stepping forward then in the opposite heading returns to the start cell. */
  lemma StepBack(c: Cell, d: Direction)
    ensures NextHead(NextHead(c, d), Opposite(d)) == c
  {
  }

  /** Two different headings never lead to the same cell. */
  lemma NextHeadInjective(c: Cell, d: Direction, e: Direction)
    requires NextHead(c, d) == NextHead(c, e)
    ensures d == e
  {
  }

  predicate InGrid(c: Cell) {
    0 <= c.x < CellWidth && 0 <= c.y < CellHeight
  }

  /** The boundary-line test of the game: x is -1 or CellWidth, or y is -1
      or CellHeight. These four lines run on past the grid's corners, so a
      head walking along one of them stays flagged; a head anywhere else off
      the grid is not flagged. */
  predicate HitsWall(c: Cell) {
    c.x == -1 || c.x == CellWidth || c.y == -1 || c.y == CellHeight
  }

  /** A unit step out of the grid always lands on one of the lines the
      boundary-line test looks at. */
  lemma LeavingGridHitsWall(c: Cell, d: Direction)
    requires InGrid(c)
    ensures InGrid(NextHead(c, d)) || HitsWall(NextHead(c, d))
  {
  }

  /** Two cells are neighbours on the grid. */
  predicate Adjacent(a: Cell, b: Cell) {
    Manhattan(a, b) == 1
  }

  /** Every cell of the body touches the next one. */
  predicate Contiguous(cells: seq<Cell>) {
    forall i :: 0 <= i < |cells| - 1 ==> Adjacent(cells[i], cells[i + 1])
  }

  /** random.randint(a, b): the random source is a parameter `draw`, and the
      value drawn is the one at position `draw` mod the size of [a, b]. */
  function RandInt(a: int, b: int, draw: nat): (v: int)
    requires a <= b
    ensures a <= v <= b
  {
    a + draw % (b - a + 1)
  }

  /** The parameterisation loses no outcome: every value of [a, b] is drawn
      by some `draw`. */
  lemma RandIntCovers(a: int, b: int, v: int)
    requires a <= v <= b
    ensures RandInt(a, b, v - a) == v
  {
  }
}
