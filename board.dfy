/** The playing field: a fixed 30 x 20 grid of integer cells, and the
    snake every session starts from. */
module Board {

  /** A grid cell (column, row); equal by value. */
  type Cell = (int, int)

  const GRID_WIDTH := 30
  const GRID_HEIGHT := 20

  /** The snake a session starts with, head first, facing right. */
  const INITIAL_SNAKE: seq<Cell> := [(5, 5), (4, 5), (3, 5)]

  predicate InGrid(c: Cell) {
    0 <= c.0 < GRID_WIDTH && 0 <= c.1 < GRID_HEIGHT
  }

  predicate AllInGrid(cells: seq<Cell>) {
    forall i :: 0 <= i < |cells| ==> InGrid(cells[i])
  }

  predicate NoDuplicates(cells: seq<Cell>) {
    forall i, j :: 0 <= i < j < |cells| ==> cells[i] != cells[j]
  }

  /** The distinct cells a list of cells covers. */
  function CellsOf(cells: seq<Cell>): set<Cell> {
    set c | c in cells
  }

  /** A list without repeated cells covers exactly as many cells as it has entries. */
  lemma {:induction false} DistinctCellCount(cells: seq<Cell>)
    requires NoDuplicates(cells)
    ensures |CellsOf(cells)| == |cells|
  {
    if cells != [] {
      var rest := cells[1..];
      assert NoDuplicates(rest) by {
        forall i, j | 0 <= i < j < |rest| ensures rest[i] != rest[j] {
          assert rest[i] == cells[i + 1] && rest[j] == cells[j + 1];
        }
      }
      DistinctCellCount(rest);
      assert cells[0] !in CellsOf(rest) by {
        forall c | c in rest ensures c != cells[0] {
          var k :| 0 <= k < |rest| && rest[k] == c;
          assert cells[k + 1] == c;
        }
      }
      assert CellsOf(cells) == {cells[0]} + CellsOf(rest) by {
        assert cells == [cells[0]] + rest;
      }
    }
  }
}
