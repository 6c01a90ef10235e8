/**
 * The Go Game of Life: a HEIGHT x WIDTH grid of ints, 1 for a live cell, updated in
 * place by computing every cell into a fresh grid and copying its rows back.
 */
module LifeGo {
  import opened Life

  const WIDTH: nat := 40
  const HEIGHT: nat := 20

  /** The Go rule on an int cell: only the value 1 counts as live, and the new cell is
    * always 0 or 1. */
  function GoRule(cell: int, n: int): (r: int)
    ensures r == 0 || r == 1
  {
    if cell == 1 then (if n < 2 || n > 3 then 0 else 1)
    else (if n == 3 then 1 else 0)
  }

  /** The Go rule is B3/S23 on cells read as live when equal to 1. */
  lemma GoRuleIsRule(cell: int, n: int)
    ensures GoRule(cell, n) == if Rule(cell == 1, n) then 1 else 0
  {
  }

  /** The next generation of an int grid, every cell from the old grid only. */
  function GoStep(g: seq<seq<int>>, h: nat, w: nat): (r: seq<seq<int>>)
    requires IsGrid(g, h, w)
    ensures IsGrid(r, h, w)
  {
    seq(h, i requires 0 <= i < h => seq(w, j requires 0 <= j < w => GoRule(g[i][j], Count(g, h, w, i, j))))
  }

  /** Cell (i, j) of the next generation, from the count of its neighbours. */
  lemma GoStepAt(g: seq<seq<int>>, h: nat, w: nat, i: nat, j: nat, n: int)
    requires IsGrid(g, h, w) && i < h && j < w && n == Count(g, h, w, i, j)
    ensures GoStep(g, h, w)[i][j] == if g[i][j] == 1 then (if n < 2 || n > 3 then 0 else 1)
      else (if n == 3 then 1 else 0)
  {
  }

  /** Whatever the old grid holds, the new one holds only 0 and 1. */
  lemma GoStepBinary(g: seq<seq<int>>, h: nat, w: nat)
    requires IsGrid(g, h, w)
    ensures Binary(GoStep(g, h, w))
  {
    var s := GoStep(g, h, w);
    forall r, c | 0 <= r < h && 0 <= c < w ensures s[r][c] == 0 || s[r][c] == 1 {
      assert s[r][c] == GoRule(g[r][c], Count(g, h, w, r, c));
    }
  }

  /** A cell that is not 1 becomes 1 exactly when it has three live neighbours. */
  lemma GoBirth(g: seq<seq<int>>, h: nat, w: nat, i: nat, j: nat)
    requires IsGrid(g, h, w) && i < h && j < w && g[i][j] != 1
    ensures GoStep(g, h, w)[i][j] == 1 <==> Count(g, h, w, i, j) == 3
  {
    GoStepAt(g, h, w, i, j, Count(g, h, w, i, j));
  }

  /** On a grid of 0s and 1s the Go program and the C++ program compute the same
    * generation. */
  lemma GoStepMatchesStep(b: seq<seq<bool>>, h: nat, w: nat)
    requires IsGrid(b, h, w)
    ensures IsGrid(Ints(b), h, w)
    ensures GoStep(Ints(b), h, w) == Ints(Step(b, h, w))
  {
    var g := Ints(b);
    assert IsGrid(g, h, w);
    var l := GoStep(g, h, w);
    var r := Ints(Step(b, h, w));
    forall i, j | 0 <= i < h && 0 <= j < w ensures l[i][j] == r[i][j] {
      var n := Count(g, h, w, i, j);
      GoStepAt(g, h, w, i, j, n);
      StepAt(b, h, w, i, j, n);
      IntsAt(b, i, j);
      IntsAt(Step(b, h, w), i, j);
    }
    GridEq(l, r, h, w);
  }

  /** The live cells among the eight neighbours of (x, y), indices wrapped round the
    * torus; the centre is skipped with a continue. */
  method CountNeighbors(grid: array<seq<int>>, x: nat, y: nat) returns (count: int)
    requires IsGrid(grid[..], HEIGHT, WIDTH) && x < HEIGHT && y < WIDTH
    ensures count == Count(grid[..], HEIGHT, WIDTH, x, y)
  {
    ghost var g := grid[..];
    count := 0;
    for dx := -1 to 2
      invariant count == BlockSum(g, HEIGHT, WIDTH, x, y, dx)
    {
      for dy := -1 to 2
        invariant count == BlockSum(g, HEIGHT, WIDTH, x, y, dx) + RowSum(g, HEIGHT, WIDTH, x, y, dx, dy)
      {
        if dx == 0 && dy == 0 {
          continue;
        }
        var nx := (x + dx + HEIGHT) % HEIGHT;
        var ny := (y + dy + WIDTH) % WIDTH;
        assert grid[nx] == g[nx];
        count := count + grid[nx][ny];
      }
    }
    BlockSumIsCount(g, HEIGHT, WIDTH, x, y);
  }

  /** The new value of cell (i, j). */
  method NextCell(grid: array<seq<int>>, i: nat, j: nat) returns (cell: int)
    requires IsGrid(grid[..], HEIGHT, WIDTH) && i < HEIGHT && j < WIDTH
    ensures cell == GoStep(grid[..], HEIGHT, WIDTH)[i][j]
  {
    var nNeighbors := CountNeighbors(grid, i, j);
    GoStepAt(grid[..], HEIGHT, WIDTH, i, j, nNeighbors);
    assert grid[i] == grid[..][i];
    if grid[i][j] == 1 {
      if nNeighbors < 2 || nNeighbors > 3 {
        cell := 0;
      } else {
        cell := 1;
      }
    } else {
      if nNeighbors == 3 {
        cell := 1;
      } else {
        cell := 0;
      }
    }
  }

  /** The inner loop of updateGrid: row i of the new grid, cell by cell. */
  method UpdateRow(grid: array<seq<int>>, i: nat, row: seq<int>) returns (newRow: seq<int>)
    requires IsGrid(grid[..], HEIGHT, WIDTH) && i < HEIGHT && |row| == WIDTH
    ensures newRow == GoStep(grid[..], HEIGHT, WIDTH)[i]
  {
    ghost var next := GoStep(grid[..], HEIGHT, WIDTH)[i];
    newRow := row;
    for j := 0 to WIDTH
      invariant |newRow| == WIDTH
      invariant forall c :: 0 <= c < j ==> newRow[c] == next[c]
    {
      var cell := NextCell(grid, i, j);
      newRow := newRow[j := cell];
    }
  }

  /** Copies the rows of src into grid, as Go's copy does for two slices of equal length. */
  method CopyRows(grid: array<seq<int>>, src: seq<seq<int>>)
    requires grid.Length == |src|
    modifies grid
    ensures grid[..] == src
  {
    for i := 0 to grid.Length
      invariant forall k :: 0 <= k < i ==> grid[k] == src[k]
    {
      grid[i] := src[i];
    }
  }

  /** One generation in place: grid becomes the next generation of its old contents. */
  method UpdateGrid(grid: array<seq<int>>)
    requires IsGrid(grid[..], HEIGHT, WIDTH)
    modifies grid
    ensures grid[..] == GoStep(old(grid[..]), HEIGHT, WIDTH)
  {
    ghost var next := GoStep(grid[..], HEIGHT, WIDTH);
    var newGrid := seq(HEIGHT, _ => seq(WIDTH, _ => 0));
    for i := 0 to HEIGHT
      invariant |newGrid| == HEIGHT && grid[..] == old(grid[..])
      invariant forall r :: 0 <= r < i ==> newGrid[r] == next[r]
      invariant forall r :: i <= r < HEIGHT ==> |newGrid[r]| == WIDTH
    {
      var row := UpdateRow(grid, i, newGrid[i]);
      newGrid := newGrid[i := row];
    }
    CopyRows(grid, newGrid);
  }
}
