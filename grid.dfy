/** Board geometry and the direction encoding of the Snake game. */
module Grid {

  /** The fixed board size and the pixel size of a cell (the `const int` members of `Game`). */
  const GridRows: int := 20
  const GridCols: int := 20
  /** Only the window set-up in `init` and the renderer use the cell size. */
  const CellSize: int := 30

  /** A (row, col) board position. */
  datatype Cell = Cell(row: int, col: int)

  /** The integer codes stored in `Game::direction`. */
  const Up: int := 0
  const Right: int := 1
  const Down: int := 2
  const Left: int := 3

  predicate IsDirection(d: int)
  {
    0 <= d <= 3
  }

  /** The reverse of a direction, computed as `(d + 2) % 4`; it agrees with the lookup table Up/Down, Right/Left. */
  function Opposite(d: int): (r: int)
    requires IsDirection(d)
    ensures IsDirection(r) && r != d
    ensures r == (if d == Up then Down else if d == Down then Up else if d == Right then Left else Right)
  {
    (d + 2) % 4
  }

  /** Two cells that share a side. */
  predicate Adjacent(a: Cell, b: Cell)
  {
    (a.row == b.row && (a.col - b.col == 1 || b.col - a.col == 1)) ||
    (a.col == b.col && (a.row - b.row == 1 || b.row - a.row == 1))
  }

  /** The direction in which one must travel from `a` to reach the neighbouring cell `b`. */
  function Heading(a: Cell, b: Cell): (d: int)
    requires Adjacent(a, b)
  {
    if b.row < a.row then Up
    else if b.col > a.col then Right
    else if b.row > a.row then Down
    else Left
  }

  /**
   * The cell one step from `c` in direction `d`; a code outside 0..3 leaves the cell where it is
   * (the `default` arm of the switch in `Game::update`).
   */
  function Offset(c: Cell, d: int): (r: Cell)
    ensures IsDirection(d) ==> Adjacent(c, r) && Heading(c, r) == d
    ensures !IsDirection(d) ==> r == c
  {
    if d == Up then c.(row := c.row - 1)
    else if d == Right then c.(col := c.col + 1)
    else if d == Down then c.(row := c.row + 1)
    else if d == Left then c.(col := c.col - 1)
    else c
  }

  /** Stepping back in the opposite direction undoes a step. */
  lemma OffsetOppositeUndoes(c: Cell, d: int)
    requires IsDirection(d)
    ensures Offset(Offset(c, d), Opposite(d)) == c
  {
  }

  /** Every neighbour of a cell is reached by stepping in the direction that leads to it. */
  lemma OffsetReachesNeighbour(a: Cell, b: Cell)
    requires Adjacent(a, b)
    ensures Offset(a, Heading(a, b)) == b
  {
  }

  /** The band that `Game::checkCollision` treats as inside the board: rows and columns 1..20 inclusive. */
  predicate InBounds(c: Cell)
  {
    1 <= c.row <= GridRows && 1 <= c.col <= GridCols
  }

  /** The range food is drawn from: rows 1..gridRows-2 and columns 1..gridCols-2. */
  predicate InFoodArea(c: Cell)
  {
    1 <= c.row <= GridRows - 2 && 1 <= c.col <= GridCols - 2
  }

  /** The `any_of` scan over the snake body: does some segment equal `c`? */
  function OnBody(body: seq<Cell>, c: Cell): (hit: bool)
    ensures hit <==> c in body
  {
    if body == [] then false
    else body[0] == c || OnBody(body[1..], c)
  }
}
