/**
 * Conway's Game of Life on a torus: the neighbour count of a cell and the B3/S23 rule,
 * shared by the C++ and Go programs.
 *
 * A grid is a sequence of rows; the row index wraps modulo the height and the column
 * index modulo the width. The count visits the 3x3 neighbourhood row by row from
 * offset (-1, -1) to (1, 1), as both programs' loops do, and skips the centre.
 */
module Life {
  /** h rows of w cells each. */
  ghost predicate IsGrid<T>(g: seq<seq<T>>, h: nat, w: nat) {
    |g| == h && forall r :: 0 <= r < h ==> |g[r]| == w
  }

  /** Two grids of the same shape with the same cells are equal. */
  lemma GridEq<T>(a: seq<seq<T>>, b: seq<seq<T>>, h: nat, w: nat)
    requires IsGrid(a, h, w) && IsGrid(b, h, w)
    requires forall r, c :: 0 <= r < h && 0 <= c < w ==> a[r][c] == b[r][c]
    ensures a == b
  {
    forall r | 0 <= r < h ensures a[r] == b[r] {
    }
  }

  /** Every cell is 0 or 1. */
  ghost predicate Binary(g: seq<seq<int>>) {
    forall r, c :: 0 <= r < |g| && 0 <= c < |g[r]| ==> g[r][c] == 0 || g[r][c] == 1
  }

  /** Index i + d wrapped round a dimension of size n. */
  function Wrap(i: int, d: int, n: nat): nat
    requires n > 0
  {
    (i + d + n) % n
  }

  /** The cell at offset (i, j) from (x, y), wrapped round the torus; 0 for the cell itself. */
  function Neighbour(g: seq<seq<int>>, h: nat, w: nat, x: nat, y: nat, i: int, j: int): int
    requires IsGrid(g, h, w) && x < h && y < w
  {
    if i == 0 && j == 0 then 0 else g[Wrap(x, i, h)][Wrap(y, j, w)]
  }

  /** The neighbours at row offset i and column offsets -1 up to j - 1. */
  function RowSum(g: seq<seq<int>>, h: nat, w: nat, x: nat, y: nat, i: int, j: int): int
    requires IsGrid(g, h, w) && x < h && y < w && -1 <= j
    decreases j + 1
  {
    if j == -1 then 0 else RowSum(g, h, w, x, y, i, j - 1) + Neighbour(g, h, w, x, y, i, j - 1)
  }

  /** The neighbours at row offsets -1 up to i - 1, each row through column offset 1. */
  function BlockSum(g: seq<seq<int>>, h: nat, w: nat, x: nat, y: nat, i: int): int
    requires IsGrid(g, h, w) && x < h && y < w && -1 <= i
    decreases i + 1
  {
    if i == -1 then 0 else BlockSum(g, h, w, x, y, i - 1) + RowSum(g, h, w, x, y, i - 1, 2)
  }

  /** The number of live neighbours of (x, y): the eight cells around it. */
  function Count(g: seq<seq<int>>, h: nat, w: nat, x: nat, y: nat): int
    requires IsGrid(g, h, w) && x < h && y < w
  {
    Neighbour(g, h, w, x, y, -1, -1) + Neighbour(g, h, w, x, y, -1, 0) + Neighbour(g, h, w, x, y, -1, 1) +
    Neighbour(g, h, w, x, y, 0, -1) + Neighbour(g, h, w, x, y, 0, 1) +
    Neighbour(g, h, w, x, y, 1, -1) + Neighbour(g, h, w, x, y, 1, 0) + Neighbour(g, h, w, x, y, 1, 1)
  }

  /** The loops' row-by-row sum over the whole neighbourhood is the count. */
  lemma BlockSumIsCount(g: seq<seq<int>>, h: nat, w: nat, x: nat, y: nat)
    requires IsGrid(g, h, w) && x < h && y < w
    ensures BlockSum(g, h, w, x, y, 2) == Count(g, h, w, x, y)
  {
    assert BlockSum(g, h, w, x, y, 0) == RowSum(g, h, w, x, y, -1, 2);
    assert BlockSum(g, h, w, x, y, 1) == BlockSum(g, h, w, x, y, 0) + RowSum(g, h, w, x, y, 0, 2);
  }

  /** B3/S23: a live cell survives with two or three live neighbours, a dead cell is born
    * with exactly three. */
  predicate Rule(alive: bool, n: int) {
    if alive then n == 2 || n == 3 else n == 3
  }

  /** A bool grid read as 0/1 cells. */
  function Ints(g: seq<seq<bool>>): (r: seq<seq<int>>)
    ensures |r| == |g| && forall i :: 0 <= i < |g| ==> |r[i]| == |g[i]|
    ensures Binary(r)
    ensures forall i, j :: 0 <= i < |g| && 0 <= j < |g[i]| ==> r[i][j] == if g[i][j] then 1 else 0
  {
    seq(|g|, i requires 0 <= i < |g| => seq(|g[i]|, j requires 0 <= j < |g[i]| => if g[i][j] then 1 else 0))
  }

  /** One step of the column loop over a bool grid: the cell at offset (i, j) is added,
    * unless it is the centre. */
  lemma RowSumStep(g: seq<seq<bool>>, h: nat, w: nat, x: nat, y: nat, i: int, j: int)
    requires IsGrid(g, h, w) && x < h && y < w && -1 <= j
    ensures IsGrid(Ints(g), h, w)
    ensures RowSum(Ints(g), h, w, x, y, i, j + 1) == RowSum(Ints(g), h, w, x, y, i, j) +
      if i == 0 && j == 0 then 0 else if g[Wrap(x, i, h)][Wrap(y, j, w)] then 1 else 0
  {
    if i != 0 || j != 0 {
      IntsAt(g, Wrap(x, i, h), Wrap(y, j, w));
    }
  }

  lemma IntsAt(g: seq<seq<bool>>, r: nat, c: nat)
    requires r < |g| && c < |g[r]|
    ensures |Ints(g)| == |g| && |Ints(g)[r]| == |g[r]|
    ensures Ints(g)[r][c] == if g[r][c] then 1 else 0
  {
  }

  /** The next generation of a bool grid: every cell from the old grid only. */
  function Step(g: seq<seq<bool>>, h: nat, w: nat): (r: seq<seq<bool>>)
    requires IsGrid(g, h, w)
    ensures IsGrid(r, h, w)
  {
    var n := Ints(g);
    seq(h, i requires 0 <= i < h => seq(w, j requires 0 <= j < w => Rule(g[i][j], Count(n, h, w, i, j))))
  }

  /** Cell (i, j) of the next generation, from the count of its neighbours. */
  lemma StepAt(g: seq<seq<bool>>, h: nat, w: nat, i: nat, j: nat, n: int)
    requires IsGrid(g, h, w) && i < h && j < w && n == Count(Ints(g), h, w, i, j)
    ensures Step(g, h, w)[i][j] == if g[i][j] then n == 2 || n == 3 else n == 3
  {
  }

  /** On a 0/1 grid a row of offsets contributes between 0 and j + 1, the cell itself
    * nothing. */
  lemma {:induction false} RowSumBounds(g: seq<seq<int>>, h: nat, w: nat, x: nat, y: nat, i: int, j: int)
    requires IsGrid(g, h, w) && x < h && y < w && -1 <= j <= 2 && Binary(g)
    ensures 0 <= RowSum(g, h, w, x, y, i, j) <= (if i == 0 && j >= 1 then j else j + 1)
    decreases j + 1
  {
    if j > -1 {
      RowSumBounds(g, h, w, x, y, i, j - 1);
    }
  }

  lemma {:induction false} BlockSumBounds(g: seq<seq<int>>, h: nat, w: nat, x: nat, y: nat, i: int)
    requires IsGrid(g, h, w) && x < h && y < w && -1 <= i <= 2 && Binary(g)
    ensures 0 <= BlockSum(g, h, w, x, y, i) <= (if i >= 1 then 3 * (i + 1) - 1 else 3 * (i + 1))
    decreases i + 1
  {
    if i > -1 {
      BlockSumBounds(g, h, w, x, y, i - 1);
      RowSumBounds(g, h, w, x, y, i - 1, 2);
    }
  }

  /** A cell has between 0 and 8 live neighbours. */
  lemma CountBounds(g: seq<seq<int>>, h: nat, w: nat, x: nat, y: nat)
    requires IsGrid(g, h, w) && x < h && y < w && Binary(g)
    ensures 0 <= Count(g, h, w, x, y) <= 8
  {
    BlockSumBounds(g, h, w, x, y, 2);
    BlockSumIsCount(g, h, w, x, y);
  }

  /** With at least three rows and columns, no offset other than 0 wraps round onto the
    * index itself. */
  lemma WrapMoves(i: nat, d: int, n: nat)
    requires i < n && 3 <= n && -1 <= d <= 1
    ensures Wrap(i, d, n) == i <==> d == 0
  {
    var q := i + d + n;
    if q < n {
      assert q % n == q;
    } else if q < 2 * n {
      assert q % n == q - n by {
        assert q == n * 1 + (q - n);
      }
    } else {
      assert q % n == q - 2 * n by {
        assert q == n * 2 + (q - 2 * n);
      }
    }
  }

  /** The neighbour at an offset other than (0, 0) is another cell. */
  lemma NeighbourIgnoresSelf(g: seq<seq<int>>, h: nat, w: nat, x: nat, y: nat, v: int, i: int, j: int)
    requires IsGrid(g, h, w) && x < h && y < w && 3 <= h && 3 <= w && -1 <= i <= 1 && -1 <= j <= 1
    ensures IsGrid(g[x := g[x][y := v]], h, w)
    ensures Neighbour(g[x := g[x][y := v]], h, w, x, y, i, j) == Neighbour(g, h, w, x, y, i, j)
  {
    if i != 0 || j != 0 {
      WrapMoves(x, i, h);
      WrapMoves(y, j, w);
    }
  }

  lemma {:induction false} RowSumIgnoresSelf(g: seq<seq<int>>, h: nat, w: nat, x: nat, y: nat, v: int, i: int, j: int)
    requires IsGrid(g, h, w) && x < h && y < w && 3 <= h && 3 <= w && -1 <= i <= 1 && -1 <= j <= 2
    ensures IsGrid(g[x := g[x][y := v]], h, w)
    ensures RowSum(g[x := g[x][y := v]], h, w, x, y, i, j) == RowSum(g, h, w, x, y, i, j)
    decreases j + 1
  {
    if j > -1 {
      RowSumIgnoresSelf(g, h, w, x, y, v, i, j - 1);
      NeighbourIgnoresSelf(g, h, w, x, y, v, i, j - 1);
    }
  }

  lemma {:induction false} BlockSumIgnoresSelf(g: seq<seq<int>>, h: nat, w: nat, x: nat, y: nat, v: int, i: int)
    requires IsGrid(g, h, w) && x < h && y < w && 3 <= h && 3 <= w && -1 <= i <= 2
    ensures IsGrid(g[x := g[x][y := v]], h, w)
    ensures BlockSum(g[x := g[x][y := v]], h, w, x, y, i) == BlockSum(g, h, w, x, y, i)
    decreases i + 1
  {
    if i > -1 {
      BlockSumIgnoresSelf(g, h, w, x, y, v, i - 1);
      RowSumIgnoresSelf(g, h, w, x, y, v, i - 1, 2);
    }
  }

  /** The count at (x, y) does not depend on the cell (x, y) itself. */
  lemma CountIgnoresSelf(g: seq<seq<int>>, h: nat, w: nat, x: nat, y: nat, v: int)
    requires IsGrid(g, h, w) && x < h && y < w && 3 <= h && 3 <= w
    ensures IsGrid(g[x := g[x][y := v]], h, w)
    ensures Count(g[x := g[x][y := v]], h, w, x, y) == Count(g, h, w, x, y)
  {
    BlockSumIgnoresSelf(g, h, w, x, y, v, 2);
    BlockSumIsCount(g, h, w, x, y);
    BlockSumIsCount(g[x := g[x][y := v]], h, w, x, y);
  }

  /** On an all-zero grid every sum is 0. */
  lemma {:induction false} RowSumEmpty(g: seq<seq<int>>, h: nat, w: nat, x: nat, y: nat, i: int, j: int)
    requires IsGrid(g, h, w) && x < h && y < w && -1 <= j
    requires forall r, c :: 0 <= r < h && 0 <= c < w ==> g[r][c] == 0
    ensures RowSum(g, h, w, x, y, i, j) == 0
    decreases j + 1
  {
    if j > -1 {
      RowSumEmpty(g, h, w, x, y, i, j - 1);
    }
  }

  lemma {:induction false} BlockSumEmpty(g: seq<seq<int>>, h: nat, w: nat, x: nat, y: nat, i: int)
    requires IsGrid(g, h, w) && x < h && y < w && -1 <= i
    requires forall r, c :: 0 <= r < h && 0 <= c < w ==> g[r][c] == 0
    ensures BlockSum(g, h, w, x, y, i) == 0
    decreases i + 1
  {
    if i > -1 {
      BlockSumEmpty(g, h, w, x, y, i - 1);
      RowSumEmpty(g, h, w, x, y, i - 1, 2);
    }
  }

  /** The empty grid is a still life: nothing is born where nothing lives. */
  lemma EmptyStaysEmpty(g: seq<seq<bool>>, h: nat, w: nat)
    requires IsGrid(g, h, w) && forall r, c :: 0 <= r < h && 0 <= c < w ==> !g[r][c]
    ensures Step(g, h, w) == g
  {
    var n := Ints(g);
    forall i, j | 0 <= i < h && 0 <= j < w ensures !Step(g, h, w)[i][j] {
      BlockSumEmpty(n, h, w, i, j, 2);
      BlockSumIsCount(n, h, w, i, j);
    }
    var s := Step(g, h, w);
    forall i | 0 <= i < h ensures s[i] == g[i] {
    }
  }
}
