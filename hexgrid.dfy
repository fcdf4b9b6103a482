/**
 * The hexagonal bubble field of Puzzle Bobble: its dimensions, the bubbles
 * that sit in it, pixel-to-cell addressing and the six-cell neighbourhood.
 *
 * Rows are 40 px high; even rows are shifted right by one bubble radius
 * (20 px) when drawn and snapped, odd rows are not.
 */
module HexGrid {

  const Radius := 20      // BUBBLE_RADIUS
  const CellSize := 40    // GRID_SIZE
  const Rows := 12        // GRID_ROWS
  const Cols := 16        // GRID_COLS
  const Width := 800      // WIDTH of the play field

  datatype Option<T> = None | Some(value: T)

  /** The "main" colour of a bubble: the seven bubble colours and the gold of a rainbow bubble. */
  datatype Colour = Red | Green | Blue | Yellow | Purple | Cyan | Orange | Gold

  /** A bubble anchored in the grid: colour, rainbow flag, snapped centre and cell address. */
  datatype Bubble = Bubble(colour: Colour, rainbow: bool, x: real, y: real, row: int, col: int)

  /** A (row, col) address, in range or not. */
  type Cell = (int, int)

  /** The 2-D list `grid[row][col]` of optional bubbles. */
  type Grid = seq<seq<Option<Bubble>>>

  predicate InBounds(c: Cell) {
    0 <= c.0 < Rows && 0 <= c.1 < Cols
  }

  ghost predicate Shaped(g: Grid) {
    |g| == Rows && forall r :: 0 <= r < Rows ==> |g[r]| == Cols
  }

  function At(g: Grid, c: Cell): Option<Bubble>
    requires Shaped(g) && InBounds(c)
  {
    g[c.0][c.1]
  }

  predicate Occupied(g: Grid, c: Cell)
    requires Shaped(g)
  {
    InBounds(c) && At(g, c).Some?
  }

  /** `grid[row][col] = v`: one cell changes and every other cell keeps its content. */
  function Put(g: Grid, c: Cell, v: Option<Bubble>): (h: Grid)
    requires Shaped(g) && InBounds(c)
    ensures Shaped(h)
    ensures At(h, c) == v
    ensures forall d :: InBounds(d) && d != c ==> At(h, d) == At(g, d)
  {
    g[c.0 := g[c.0][c.1 := v]]
  }

  /** The empty 12 x 16 grid of `reset_game`. */
  function EmptyGrid(): (g: Grid)
    ensures Shaped(g)
    ensures forall c :: InBounds(c) ==> At(g, c) == None
  {
    seq(Rows, _ => seq(Cols, _ => None))
  }

  /** The set of all in-range cells. */
  function AllCells(): (s: set<Cell>)
    ensures forall c :: c in s <==> InBounds(c)
  {
    var s := set r, k | 0 <= r < Rows && 0 <= k < Cols :: (r, k);
    assert forall c :: InBounds(c) ==> c in s by {
      forall c | InBounds(c)
        ensures c in s
      {
        var (r, k) := c;
        assert (r, k) in s;
      }
    }
    s
  }

  /** Python's `int()` applied to a float: truncation toward zero. */
  function Trunc(v: real): (n: int)
    ensures 0.0 <= v ==> n as real <= v < n as real + 1.0
    ensures v < 0.0 ==> n as real - 1.0 < v <= n as real
  {
    if v >= 0.0 then v.Floor else -((-v).Floor)
  }

  /** Horizontal shift of a row: even rows are drawn one radius to the right. */
  function RowShift(row: int): int {
    if row % 2 == 0 then Radius else 0
  }

  /** Pixel centre of a cell, as `initialize_grid` and `attach_bubble` compute it. */
  function CentreX(row: int, col: int): real {
    (col * CellSize + Radius + RowShift(row)) as real
  }

  function CentreY(row: int): real {
    (row * CellSize + Radius) as real
  }

  /**
   * `find_grid_position`: the row is `int(y / 40)`; on even rows the 20 px
   * shift is taken off x before dividing by 40.  For a point right of the
   * shifted left edge and below the ceiling this is the cell whose 40 x 40
   * box around its centre holds the point; just above the ceiling
   * (-40 < y < 0) truncation still yields row 0.
   */
  function FindGridPosition(x: real, y: real): (cell: Cell)
    ensures 0.0 <= y ==>
      CentreY(cell.0) - 20.0 <= y < CentreY(cell.0) + 20.0
    ensures 0.0 <= x - RowShift(cell.0) as real ==>
      CentreX(cell.0, cell.1) - 20.0 <= x < CentreX(cell.0, cell.1) + 20.0
    ensures -40.0 < y < 40.0 ==> cell.0 == 0
  {
    var row := Trunc(y / 40.0);
    var col := if row % 2 == 0 then Trunc((x - 20.0) / 40.0) else Trunc(x / 40.0);
    (row, col)
  }

  /** Snapping a bubble to a cell's centre and reading its cell back gives that cell. */
  lemma SnapRoundTrip(row: int, col: int)
    requires 0 <= row && 0 <= col
    ensures FindGridPosition(CentreX(row, col), CentreY(row)) == (row, col)
  {
    var y := CentreY(row);
    var r := Trunc(y / 40.0);
    assert y / 40.0 == row as real + 0.5;
    assert r == row;
    var x := CentreX(row, col);
    if row % 2 == 0 {
      assert (x - 20.0) / 40.0 == col as real + 0.5;
    } else {
      assert x / 40.0 == col as real + 0.5;
    }
  }

  /** The six direction offsets of `get_neighbors`, chosen by row parity. */
  function Directions(row: int): seq<Cell> {
    if row % 2 == 0 then
      [(-1, -1), (-1, 0), (0, -1), (0, 1), (1, -1), (1, 0)]
    else
      [(-1, 0), (-1, 1), (0, -1), (0, 1), (1, 0), (1, 1)]
  }

  /**
   * `get_neighbors`: exactly six distinct cells, none of them the cell
   * itself, two in the row above, two beside it and two below; nothing is
   * bounds-checked.
   */
  function Neighbours(row: int, col: int): (ns: seq<Cell>)
    ensures |ns| == 6
  {
    var d := Directions(row);
    [(row + d[0].0, col + d[0].1), (row + d[1].0, col + d[1].1),
     (row + d[2].0, col + d[2].1), (row + d[3].0, col + d[3].1),
     (row + d[4].0, col + d[4].1), (row + d[5].0, col + d[5].1)]
  }

  lemma NeighboursShape(row: int, col: int)
    ensures var ns := Neighbours(row, col);
      (forall i, j :: 0 <= i < j < 6 ==> ns[i] != ns[j]) &&
      ns[0].0 == ns[1].0 == row - 1 && ns[2].0 == ns[3].0 == row && ns[4].0 == ns[5].0 == row + 1 &&
      (forall i :: 0 <= i < 6 ==> ns[i] != (row, col) && -1 <= ns[i].1 - col <= 1)
  {
  }

  /** Adjacency is symmetric: b is among a's neighbours exactly when a is among b's. */
  lemma NeighbourSymmetric(a: Cell, b: Cell)
    ensures b in Neighbours(a.0, a.1) <==> a in Neighbours(b.0, b.1)
  {
    var (r, c) := a;
    var (r2, c2) := b;
    if r % 2 == 0 {
      assert (r - 1) % 2 == 1 && (r + 1) % 2 == 1;
    } else {
      assert (r - 1) % 2 == 0 && (r + 1) % 2 == 0;
    }
  }

  /** Two adjacent bubbles match when they share their main colour or either one is a rainbow bubble. */
  predicate Matches(a: Bubble, b: Bubble) {
    a.rainbow || b.rainbow || a.colour == b.colour
  }

  /** Distinctness of a list's elements. */
  ghost predicate Distinct<T>(s: seq<T>) {
    forall i, j :: 0 <= i < j < |s| ==> s[i] != s[j]
  }
}
