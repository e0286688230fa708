/** The square board of the snake game and the placement of food on it. */
module Board {

  /** Side length of the board (GRID_SIZE). */
  const GridSize: int := 20
  /** Number of cells on the board. */
  const BoardCells: int := GridSize * GridSize

  /** A board coordinate; y grows downwards, as on screen. */
  datatype Cell = Cell(x: int, y: int)

  predicate InBounds(c: Cell) {
    0 <= c.x < GridSize && 0 <= c.y < GridSize
  }

  /** The cells (0, y) .. (n - 1, y). */
  function RowCells(y: int, n: nat): set<Cell> {
    set x | 0 <= x < n :: Cell(x, y)
  }

  lemma {:induction false} RowCellsCount(y: int, n: nat)
    ensures |RowCells(y, n)| == n
  {
    if n > 0 {
      RowCellsCount(y, n - 1);
      assert RowCells(y, n) == RowCells(y, n - 1) + {Cell(n - 1, y)};
      assert RowCells(y, n - 1) * {Cell(n - 1, y)} == {};
    }
  }

  /** The cells of the first h rows of the board. */
  function Rows(h: nat): set<Cell> {
    set x, y | 0 <= x < GridSize && 0 <= y < h :: Cell(x, y)
  }

  lemma {:induction false} RowsCount(h: nat)
    ensures |Rows(h)| == h * GridSize
  {
    if h > 0 {
      RowsCount(h - 1);
      RowCellsCount(h - 1, GridSize);
      assert Rows(h) == Rows(h - 1) + RowCells(h - 1, GridSize);
      assert Rows(h - 1) * RowCells(h - 1, GridSize) == {};
    }
  }

  /** The whole board has BoardCells cells. */
  lemma BoardCount()
    ensures |Rows(GridSize)| == BoardCells
    ensures forall c :: c in Rows(GridSize) <==> InBounds(c)
  {
    RowsCount(GridSize);
    forall c | InBounds(c) ensures c in Rows(GridSize) {
      assert c == Cell(c.x, c.y);
    }
  }

  /** The set of cells a sequence of cells occupies. */
  function CellsOf(cells: seq<Cell>): (r: set<Cell>)
    ensures |r| <= |cells|
    ensures forall c :: c in r <==> c in cells
  {
    if cells == [] then {} else CellsOf(cells[1..]) + {cells[0]}
  }

  /** Pigeonhole: fewer than BoardCells cells cannot cover the board. */
  lemma FreeCellExists(cells: seq<Cell>)
    requires |cells| < BoardCells
    ensures exists c :: InBounds(c) && c !in cells
  {
    BoardCount();
    var board, taken := Rows(GridSize), CellsOf(cells);
    var free := board - taken;
    assert board == free + board * taken;
    assert |board| == |free| + |board * taken| by {
      assert free * (board * taken) == {};
    }
    assert board * taken <= taken;
    SubsetCard(board * taken, taken);
    assert |free| > 0;
    var c :| c in free;
    assert InBounds(c) && c !in cells;
  }

  lemma SubsetCard(a: set<Cell>, b: set<Cell>)
    requires a <= b
    ensures |a| <= |b|
  {
    assert b == a + (b - a);
    assert a * (b - a) == {};
  }

  /**
   * generateFood: the source draws random cells until one misses the
   * snake. The outcome of that retry loop is some free cell of the board;
   * which one depends on the random draws, so it is chosen here without
   * saying which. One exists as long as the cells do not cover the board.
   */
  method GenerateFood(snake: seq<Cell>) returns (food: Cell)
    requires |snake| < BoardCells
    ensures InBounds(food)
    ensures food !in snake
  {
    FreeCellExists(snake);
    BoardCount();
    food :| food in Rows(GridSize) && food !in snake;
  }
}
