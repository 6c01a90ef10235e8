/**
 * The C++ Game of Life: a SIZE x SIZE grid of bools held by the program, a glider placed
 * near the centre, and an update that computes the next generation into a copy and then
 * replaces the grid with it.
 */
module LifeCpp {
  import opened Life

  const SIZE: nat := 20

  /** The SIZE x SIZE grid, all dead. */
  function EmptyGrid(): (g: seq<seq<bool>>)
    ensures IsGrid(g, SIZE, SIZE) && forall r, c :: 0 <= r < SIZE && 0 <= c < SIZE ==> !g[r][c]
  {
    seq(SIZE, _ => seq(SIZE, _ => false))
  }

  /** The five cells of the glider, around the centre SIZE / 2. */
  predicate InGlider(r: int, c: int) {
    var m := SIZE / 2;
    (r == m && c == m + 1) || (r == m + 1 && c == m + 2) || (r == m + 2 && c == m) ||
    (r == m + 2 && c == m + 1) || (r == m + 2 && c == m + 2)
  }

  class World {
    /** The grid, row by row. */
    var grid: seq<seq<bool>>

    ghost predicate Valid()
      reads this
    {
      IsGrid(grid, SIZE, SIZE)
    }

    /** The grid starts with every cell dead. */
    constructor()
      ensures Valid() && grid == EmptyGrid()
    {
      grid := EmptyGrid();
    }

    /** Sets the five glider cells to live; every other cell keeps its value. */
    method SetupGlider()
      requires Valid()
      modifies this
      ensures Valid()
      ensures forall r, c :: 0 <= r < SIZE && 0 <= c < SIZE ==>
        grid[r][c] == (InGlider(r, c) || old(grid[r][c]))
    {
      var center := SIZE / 2;
      grid := grid[center := grid[center][center + 1 := true]];
      grid := grid[center + 1 := grid[center + 1][center + 2 := true]];
      grid := grid[center + 2 := grid[center + 2][center := true]];
      grid := grid[center + 2 := grid[center + 2][center + 1 := true]];
      grid := grid[center + 2 := grid[center + 2][center + 2 := true]];
    }

    /** The live cells among the eight neighbours of (x, y), indices wrapped modulo SIZE. */
    method CountNeighbors(x: nat, y: nat) returns (count: int)
      requires Valid() && x < SIZE && y < SIZE
      ensures count == Count(Ints(grid), SIZE, SIZE, x, y)
    {
      var g := grid;
      ghost var n := Ints(g);
      assert IsGrid(n, SIZE, SIZE);
      count := 0;
      for i := -1 to 2
        invariant count == BlockSum(n, SIZE, SIZE, x, y, i)
      {
        for j := -1 to 2
          invariant count == BlockSum(n, SIZE, SIZE, x, y, i) + RowSum(n, SIZE, SIZE, x, y, i, j)
        {
          RowSumStep(g, SIZE, SIZE, x, y, i, j);
          if i != 0 || j != 0 {
            var cell := g[Wrap(x, i, SIZE)][Wrap(y, j, SIZE)];
            count := count + if cell then 1 else 0;
          }
        }
      }
      BlockSumIsCount(n, SIZE, SIZE, x, y);
    }

    /** The next state of cell (i, j), from its neighbour count under B3/S23. */
    method NextCell(i: nat, j: nat) returns (alive: bool)
      requires Valid() && i < SIZE && j < SIZE
      ensures alive == Step(grid, SIZE, SIZE)[i][j]
    {
      var n := CountNeighbors(i, j);
      StepAt(grid, SIZE, SIZE, i, j, n);
      if grid[i][j] {
        alive := n == 2 || n == 3;
      } else {
        alive := n == 3;
      }
    }

    /** The inner loop of update: row i of the copy, cell by cell from the old grid. */
    method UpdateRow(i: nat, row: seq<bool>) returns (newRow: seq<bool>)
      requires Valid() && i < SIZE && |row| == SIZE
      ensures newRow == Step(grid, SIZE, SIZE)[i]
    {
      ghost var next := Step(grid, SIZE, SIZE)[i];
      newRow := row;
      for j := 0 to SIZE
        invariant |newRow| == SIZE
        invariant forall c :: 0 <= c < j ==> newRow[c] == next[c]
      {
        var alive := NextCell(i, j);
        newRow := newRow[j := alive];
      }
    }

    /** One generation: every cell of the copy from the old grid, then the copy replaces it. */
    method Update()
      requires Valid()
      modifies this
      ensures Valid() && grid == Step(old(grid), SIZE, SIZE)
    {
      ghost var next := Step(grid, SIZE, SIZE);
      var newGrid := grid;
      for i := 0 to SIZE
        invariant grid == old(grid) && |newGrid| == SIZE
        invariant forall r :: 0 <= r < i ==> newGrid[r] == next[r]
      {
        var row := UpdateRow(i, grid[i]);
        newGrid := newGrid[i := row];
      }
      grid := newGrid;
    }
  }
}
