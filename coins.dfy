/**
 * The coin puzzle: a rectangular board of coins, 0 or 1, is to be turned into a chessboard
 * pattern. A move flips a coin together with its right neighbour or, in the last column,
 * the coin below it. The solver runs a greedy pass in row-major order for each of the two
 * patterns on a copy of the board and reports the smaller number of moves, or -1 when
 * neither pass can finish.
 *
 * The C++ and the Go program run the same algorithm; the board is an array2, one coin per
 * cell, and the pass is specified by the recursive function Run, which visits the cells in
 * the order the loops do.
 */
module Coins {
  /** INT_MAX in C++, 1<<31 - 1 in Go: the flip count of a pass that cannot finish. */
  const INT_MAX: int := 0x7fff_ffff

  /** The coin cell (i, j) shows in the pattern: (i + j + pattern) % 2. */
  function Expected(i: nat, j: nat, pattern: nat): int {
    (i + j + pattern) % 2
  }

  /** x ^ 1 on a two's-complement int: the lowest bit flipped. */
  function Flip(x: int): int {
    if x % 2 == 0 then x + 1 else x - 1
  }

  /** Flipping twice gives the coin back. */
  lemma FlipFlip(x: int)
    ensures Flip(Flip(x)) == x
  {
  }

  /** On a coin, flipping turns 0 into 1 and 1 into 0. */
  lemma FlipCoinValue(x: int)
    requires x == 0 || x == 1
    ensures Flip(x) == 1 - x
  {
  }

  /** n rows of m cells each. */
  ghost predicate IsRect(g: seq<seq<int>>, n: nat, m: nat) {
    |g| == n && forall r :: 0 <= r < n ==> |g[r]| == m
  }

  /** Every cell is a coin, 0 or 1. */
  ghost predicate Binary(g: seq<seq<int>>) {
    forall r, c :: 0 <= r < |g| && 0 <= c < |g[r]| ==> g[r][c] == 0 || g[r][c] == 1
  }

  /** Every cell shows the coin the pattern asks for. */
  ghost predicate IsPattern(g: seq<seq<int>>, pattern: nat) {
    forall r, c :: 0 <= r < |g| && 0 <= c < |g[r]| ==> g[r][c] == Expected(r, c, pattern)
  }

  /** Two boards of the same shape with the same cells are equal. */
  lemma RectEq(a: seq<seq<int>>, b: seq<seq<int>>, n: nat, m: nat)
    requires IsRect(a, n, m) && IsRect(b, n, m)
    requires forall r, c :: 0 <= r < n && 0 <= c < m ==> a[r][c] == b[r][c]
    ensures a == b
  {
    forall r | 0 <= r < n ensures a[r] == b[r] {
    }
  }

  /** The board held by an array2, row by row. */
  ghost function Contents(a: array2<int>): (g: seq<seq<int>>)
    reads a
    ensures IsRect(g, a.Length0, a.Length1)
    ensures forall r, c :: 0 <= r < a.Length0 && 0 <= c < a.Length1 ==> g[r][c] == a[r, c]
  {
    seq(a.Length0, r requires 0 <= r < a.Length0 reads a => seq(a.Length1, c requires 0 <= c < a.Length1 reads a => a[r, c]))
  }

  /** The board with coin (i, j) flipped when it lies on the board, unchanged otherwise. */
  function Toggle(g: seq<seq<int>>, n: nat, m: nat, i: int, j: int): (r: seq<seq<int>>)
    requires IsRect(g, n, m)
    ensures IsRect(r, n, m)
  {
    if 0 <= i < n && 0 <= j < m then g[i := g[i][j := Flip(g[i][j])]] else g
  }

  /** What a pass ends with: the finished board and its move count, or a mismatch at a
    * cell with no neighbour to the right or below. */
  datatype Outcome = Done(board: seq<seq<int>>, flips: nat) | Stuck

  /** The greedy pass from cell (i, j) on, with f moves made so far. */
  function Run(g: seq<seq<int>>, n: nat, m: nat, pattern: nat, i: nat, j: nat, f: nat): Outcome
    requires IsRect(g, n, m) && i <= n && j <= m
    decreases n - i, m - j
  {
    if i == n then Done(g, f)
    else if j == m then Run(g, n, m, pattern, i + 1, 0, f)
    else if g[i][j] == Expected(i, j, pattern) then Run(g, n, m, pattern, i, j + 1, f)
    else if j + 1 < m then Run(Toggle(Toggle(g, n, m, i, j), n, m, i, j + 1), n, m, pattern, i, j + 1, f + 1)
    else if i + 1 < n then Run(Toggle(Toggle(g, n, m, i, j), n, m, i + 1, j), n, m, pattern, i, j + 1, f + 1)
    else Stuck
  }

  /** The whole pass for one pattern. */
  function Greedy(g: seq<seq<int>>, n: nat, m: nat, pattern: nat): Outcome
    requires IsRect(g, n, m)
  {
    Run(g, n, m, pattern, 0, 0, 0)
  }

  /** The flip count a pass leaves in the program's counter. */
  function Counter(o: Outcome): int {
    if o.Stuck? then INT_MAX else o.flips
  }

  /** The program's answer from the outcomes of the two passes. */
  function Best(a: Outcome, b: Outcome): int {
    match (a, b)
    case (Stuck, Stuck) => -1
    case (Done(_, f), Stuck) => f
    case (Stuck, Done(_, f)) => f
    case (Done(_, f), Done(_, f')) => if f <= f' then f else f'
  }

  function Min(a: int, b: int): int {
    if a <= b then a else b
  }

  /** The number of cells after (i, j) in row-major order, (i, j) included, counted row
    * by row. */
  function Remaining(n: nat, m: nat, i: nat, j: nat): int
    decreases n - i
  {
    if i >= n then -(j as int) else Remaining(n, m, i + 1, 0) + m - j
  }

  lemma {:induction false} RemainingCells(n: nat, m: nat, i: nat, j: nat)
    requires i <= n
    ensures Remaining(n, m, i, j) == (n - i) * m - j
    decreases n - i
  {
    if i < n {
      RemainingCells(n, m, i + 1, 0);
      assert (n - i) * m == (n - (i + 1)) * m + m;
    }
  }

  /** A pass makes at most one move per cell it visits. */
  lemma {:induction false} RunFlipsBound(g: seq<seq<int>>, n: nat, m: nat, pattern: nat, i: nat, j: nat, f: nat)
    requires IsRect(g, n, m) && i <= n && j <= m && (i == n ==> j == 0)
    ensures Run(g, n, m, pattern, i, j, f).Done? ==> f <= Run(g, n, m, pattern, i, j, f).flips <= f + Remaining(n, m, i, j)
    decreases n - i, m - j
  {
    if i == n {
    } else if j == m {
      RunFlipsBound(g, n, m, pattern, i + 1, 0, f);
    } else if g[i][j] == Expected(i, j, pattern) {
      RunFlipsBound(g, n, m, pattern, i, j + 1, f);
    } else if j + 1 < m {
      RunFlipsBound(Toggle(Toggle(g, n, m, i, j), n, m, i, j + 1), n, m, pattern, i, j + 1, f + 1);
    } else if i + 1 < n {
      RunFlipsBound(Toggle(Toggle(g, n, m, i, j), n, m, i + 1, j), n, m, pattern, i, j + 1, f + 1);
    }
  }

  /** Every cell before (i, j) in row-major order shows its pattern coin. */
  ghost predicate MatchedBefore(g: seq<seq<int>>, n: nat, m: nat, pattern: nat, i: nat, j: nat)
    requires IsRect(g, n, m)
  {
    forall r, c :: 0 <= r < n && 0 <= c < m && (r < i || (r == i && c < j)) ==> g[r][c] == Expected(r, c, pattern)
  }

  /** The move at (i, j) keeps a coin board a coin board, fixes (i, j), and touches
    * nothing before it. */
  lemma MoveKeepsPrefix(g: seq<seq<int>>, n: nat, m: nat, pattern: nat, i: nat, j: nat, i': nat, j': nat)
    requires IsRect(g, n, m) && Binary(g) && i < n && j < m
    requires MatchedBefore(g, n, m, pattern, i, j) && g[i][j] != Expected(i, j, pattern)
    requires (i' == i && j' == j + 1) || (i' == i + 1 && j' == j)
    ensures Binary(Toggle(Toggle(g, n, m, i, j), n, m, i', j'))
    ensures MatchedBefore(Toggle(Toggle(g, n, m, i, j), n, m, i', j'), n, m, pattern, i, j + 1)
  {
    var g1 := Toggle(g, n, m, i, j);
    var g2 := Toggle(g1, n, m, i', j');
    FlipCoinValue(g[i][j]);
    assert g1[i][j] == Expected(i, j, pattern);
    forall r, c | 0 <= r < n && 0 <= c < m ensures g2[r][c] == 0 || g2[r][c] == 1 {
      if r == i' && c == j' {
        FlipCoinValue(g1[r][c]);
      }
    }
  }

  /** A board matching its pattern before row n matches it everywhere. */
  lemma MatchedAll(g: seq<seq<int>>, n: nat, m: nat, pattern: nat, j: nat)
    requires IsRect(g, n, m) && MatchedBefore(g, n, m, pattern, n, j)
    ensures IsPattern(g, pattern)
  {
  }

  /** A pass over a coin board that finishes leaves the board in the pattern. */
  lemma {:induction false} RunReachesPattern(g: seq<seq<int>>, n: nat, m: nat, pattern: nat, i: nat, j: nat, f: nat)
    requires IsRect(g, n, m) && i <= n && j <= m && Binary(g)
    requires MatchedBefore(g, n, m, pattern, i, j)
    ensures Run(g, n, m, pattern, i, j, f).Done? ==> IsPattern(Run(g, n, m, pattern, i, j, f).board, pattern)
    decreases n - i, m - j
  {
    if i == n {
      MatchedAll(g, n, m, pattern, j);
    } else if j == m {
      RunReachesPattern(g, n, m, pattern, i + 1, 0, f);
    } else if g[i][j] == Expected(i, j, pattern) {
      RunReachesPattern(g, n, m, pattern, i, j + 1, f);
    } else if j + 1 < m {
      MoveKeepsPrefix(g, n, m, pattern, i, j, i, j + 1);
      RunReachesPattern(Toggle(Toggle(g, n, m, i, j), n, m, i, j + 1), n, m, pattern, i, j + 1, f + 1);
    } else if i + 1 < n {
      MoveKeepsPrefix(g, n, m, pattern, i, j, i + 1, j);
      RunReachesPattern(Toggle(Toggle(g, n, m, i, j), n, m, i + 1, j), n, m, pattern, i, j + 1, f + 1);
    }
  }

  /** 1 when the coin differs from the pattern's. */
  function Miss(v: int, r: nat, c: nat, pattern: nat): nat {
    if v == Expected(r, c, pattern) then 0 else 1
  }

  /** Mismatched cells among the first k of row r. */
  function RowMismatches(row: seq<int>, r: nat, pattern: nat, k: nat): nat
    requires k <= |row|
  {
    if k == 0 then 0 else RowMismatches(row, r, pattern, k - 1) + Miss(row[k - 1], r, k - 1, pattern)
  }

  /** Mismatched cells in the first k rows. */
  function Mismatches(g: seq<seq<int>>, pattern: nat, k: nat): nat
    requires k <= |g|
  {
    if k == 0 then 0 else Mismatches(g, pattern, k - 1) + RowMismatches(g[k - 1], k - 1, pattern, |g[k - 1]|)
  }

  /** Changing cell c of a row changes its count by the change at c alone. */
  lemma {:induction false} RowMismatchesUpdate(row: seq<int>, r: nat, pattern: nat, k: nat, c: nat, v: int)
    requires k <= |row| && c < |row|
    ensures RowMismatches(row[c := v], r, pattern, k) + (if c < k then Miss(row[c], r, c, pattern) else 0)
      == RowMismatches(row, r, pattern, k) + (if c < k then Miss(v, r, c, pattern) else 0)
  {
    if k > 0 {
      RowMismatchesUpdate(row, r, pattern, k - 1, c, v);
    }
  }

  /** Changing row r of the board changes the count by the change in that row alone. */
  lemma {:induction false} MismatchesUpdate(g: seq<seq<int>>, pattern: nat, k: nat, r: nat, row: seq<int>)
    requires k <= |g| && r < |g|
    ensures Mismatches(g[r := row], pattern, k) + (if r < k then RowMismatches(g[r], r, pattern, |g[r]|) else 0)
      == Mismatches(g, pattern, k) + (if r < k then RowMismatches(row, r, pattern, |row|) else 0)
  {
    if k > 0 {
      MismatchesUpdate(g, pattern, k - 1, r, row);
    }
  }

  /** Flipping one coin moves the mismatch count by exactly one. */
  lemma ToggleMismatches(g: seq<seq<int>>, n: nat, m: nat, pattern: nat, i: nat, j: nat)
    requires IsRect(g, n, m) && Binary(g) && i < n && j < m
    ensures Mismatches(Toggle(g, n, m, i, j), pattern, n) + Miss(g[i][j], i, j, pattern)
      == Mismatches(g, pattern, n) + 1 - Miss(g[i][j], i, j, pattern)
  {
    var row := g[i][j := Flip(g[i][j])];
    FlipCoinValue(g[i][j]);
    RowMismatchesUpdate(g[i], i, pattern, m, j, Flip(g[i][j]));
    MismatchesUpdate(g, pattern, n, i, row);
  }

  /** A row that matches its pattern up to k has no mismatch there. */
  lemma {:induction false} RowMismatchesNone(row: seq<int>, r: nat, pattern: nat, k: nat)
    requires k <= |row| && forall c :: 0 <= c < k ==> row[c] == Expected(r, c, pattern)
    ensures RowMismatches(row, r, pattern, k) == 0
  {
    if k > 0 {
      RowMismatchesNone(row, r, pattern, k - 1);
    }
  }

  /** A board that matches in all rows but the last, and in the last row up to its
    * last cell, has as many mismatches as that cell. */
  lemma {:induction false} MismatchesOfPrefix(g: seq<seq<int>>, n: nat, m: nat, pattern: nat, k: nat)
    requires IsRect(g, n, m) && 0 < n && 0 < m && k <= n
    requires MatchedBefore(g, n, m, pattern, n - 1, m - 1)
    ensures Mismatches(g, pattern, k) == if k == n then Miss(g[n - 1][m - 1], n - 1, m - 1, pattern) else 0
  {
    if k > 0 {
      MismatchesOfPrefix(g, n, m, pattern, k - 1);
      RowMismatchesNone(g[k - 1], k - 1, pattern, m - 1);
      if k < n {
        RowMismatchesNone(g[k - 1], k - 1, pattern, m);
      }
    }
  }

  /** On a coin board a pass gets stuck exactly when the board has an odd number of
    * mismatched coins: each move flips two coins, so the parity never changes. */
  lemma {:induction false} RunStuckParity(g: seq<seq<int>>, n: nat, m: nat, pattern: nat, i: nat, j: nat, f: nat)
    requires IsRect(g, n, m) && i <= n && j <= m && Binary(g) && (i == n ==> j == 0)
    requires MatchedBefore(g, n, m, pattern, i, j)
    ensures Run(g, n, m, pattern, i, j, f).Stuck? <==> Mismatches(g, pattern, n) % 2 == 1
    decreases n - i, m - j
  {
    if i == n {
      EndParity(g, n, m, pattern);
    } else if j == m {
      RunStuckParity(g, n, m, pattern, i + 1, 0, f);
    } else if g[i][j] == Expected(i, j, pattern) {
      RunStuckParity(g, n, m, pattern, i, j + 1, f);
    } else if j + 1 < m {
      MoveParity(g, n, m, pattern, i, j, i, j + 1);
      RunStuckParity(Toggle(Toggle(g, n, m, i, j), n, m, i, j + 1), n, m, pattern, i, j + 1, f + 1);
    } else if i + 1 < n {
      MoveParity(g, n, m, pattern, i, j, i + 1, j);
      RunStuckParity(Toggle(Toggle(g, n, m, i, j), n, m, i + 1, j), n, m, pattern, i, j + 1, f + 1);
    } else {
      LastCellParity(g, n, m, pattern);
    }
  }

  /** A board matching its pattern everywhere has no mismatch. */
  lemma EndParity(g: seq<seq<int>>, n: nat, m: nat, pattern: nat)
    requires IsRect(g, n, m) && MatchedBefore(g, n, m, pattern, n, 0)
    ensures Mismatches(g, pattern, n) == 0
  {
    if n == 0 {
    } else if m == 0 {
      MismatchesZeroWidth(g, n, pattern, n);
    } else {
      assert MatchedBefore(g, n, m, pattern, n - 1, m - 1);
      MismatchesOfPrefix(g, n, m, pattern, n);
    }
  }

  /** A board matching its pattern everywhere but the last cell has one mismatch. */
  lemma LastCellParity(g: seq<seq<int>>, n: nat, m: nat, pattern: nat)
    requires IsRect(g, n, m) && 0 < n && 0 < m
    requires MatchedBefore(g, n, m, pattern, n - 1, m - 1) && g[n - 1][m - 1] != Expected(n - 1, m - 1, pattern)
    ensures Mismatches(g, pattern, n) == 1
  {
    MismatchesOfPrefix(g, n, m, pattern, n);
  }

  /** A move flips two coins, so it keeps the parity of the mismatch count. */
  lemma MoveParity(g: seq<seq<int>>, n: nat, m: nat, pattern: nat, i: nat, j: nat, i': nat, j': nat)
    requires IsRect(g, n, m) && Binary(g) && i < n && j < m
    requires MatchedBefore(g, n, m, pattern, i, j) && g[i][j] != Expected(i, j, pattern)
    requires (i' == i && j' == j + 1 < m) || (i' == i + 1 < n && j' == j)
    ensures Binary(Toggle(Toggle(g, n, m, i, j), n, m, i', j'))
    ensures MatchedBefore(Toggle(Toggle(g, n, m, i, j), n, m, i', j'), n, m, pattern, i, j + 1)
    ensures Mismatches(Toggle(Toggle(g, n, m, i, j), n, m, i', j'), pattern, n) % 2 == Mismatches(g, pattern, n) % 2
  {
    var g1 := Toggle(g, n, m, i, j);
    ToggleMismatches(g, n, m, pattern, i, j);
    MoveKeepsPrefix(g, n, m, pattern, i, j, i', j');
    MoveKeepsPrefixFirst(g, n, m, i, j);
    ToggleMismatches(g1, n, m, pattern, i', j');
  }

  /** Flipping one coin of a coin board leaves a coin board. */
  lemma MoveKeepsPrefixFirst(g: seq<seq<int>>, n: nat, m: nat, i: nat, j: nat)
    requires IsRect(g, n, m) && Binary(g) && i < n && j < m
    ensures Binary(Toggle(g, n, m, i, j))
  {
    FlipCoinValue(g[i][j]);
  }

  /** A board with empty rows has no mismatch. */
  lemma {:induction false} MismatchesZeroWidth(g: seq<seq<int>>, n: nat, pattern: nat, k: nat)
    requires IsRect(g, n, 0) && k <= n
    ensures Mismatches(g, pattern, k) == 0
  {
    if k > 0 {
      MismatchesZeroWidth(g, n, pattern, k - 1);
    }
  }

  /** Each coin of a coin board misses exactly one of the two patterns. */
  lemma {:induction false} RowMismatchesBoth(row: seq<int>, r: nat, k: nat)
    requires k <= |row| && forall c :: 0 <= c < |row| ==> row[c] == 0 || row[c] == 1
    ensures RowMismatches(row, r, 0, k) + RowMismatches(row, r, 1, k) == k
  {
    if k > 0 {
      RowMismatchesBoth(row, r, k - 1);
    }
  }

  lemma {:induction false} MismatchesBoth(g: seq<seq<int>>, n: nat, m: nat, k: nat)
    requires IsRect(g, n, m) && Binary(g) && k <= n
    ensures Mismatches(g, 0, k) + Mismatches(g, 1, k) == k * m
  {
    if k > 0 {
      MismatchesBoth(g, n, m, k - 1);
      RowMismatchesBoth(g[k - 1], k - 1, m);
      assert k * m == (k - 1) * m + m;
    }
  }

  /** On a coin board the answer is -1 exactly when both patterns leave an odd number of
    * coins to fix; otherwise it is the move count of a pass that reaches its pattern. */
  lemma AnswerMeaning(g: seq<seq<int>>, n: nat, m: nat)
    requires IsRect(g, n, m) && Binary(g)
    ensures var a := Best(Greedy(g, n, m, 0), Greedy(g, n, m, 1));
      (a == -1 <==> Mismatches(g, 0, n) % 2 == 1 && Mismatches(g, 1, n) % 2 == 1) &&
      (a != -1 ==> exists p :: 0 <= p < 2 && Greedy(g, n, m, p).Done? &&
                               Greedy(g, n, m, p).flips == a && IsPattern(Greedy(g, n, m, p).board, p))
  {
    RunStuckParity(g, n, m, 0, 0, 0, 0);
    RunStuckParity(g, n, m, 1, 0, 0, 0);
    RunReachesPattern(g, n, m, 0, 0, 0, 0);
    RunReachesPattern(g, n, m, 1, 0, 0, 0);
  }

  /** A coin board with an odd number of cells can always be solved: its mismatches for the
    * two patterns add up to the number of cells, so one of them is even. */
  lemma OddBoardSolvable(g: seq<seq<int>>, n: nat, m: nat)
    requires IsRect(g, n, m) && Binary(g) && (n * m) % 2 == 1
    ensures Best(Greedy(g, n, m, 0), Greedy(g, n, m, 1)) >= 0
  {
    MismatchesBoth(g, n, m, n);
    OneEven(Mismatches(g, 0, n), Mismatches(g, 1, n), n * m);
    RunStuckParity(g, n, m, 0, 0, 0, 0);
    RunStuckParity(g, n, m, 1, 0, 0, 0);
  }

  /** Two counts with an odd total: one of them is even. */
  lemma OneEven(a: int, b: int, total: int)
    requires a + b == total && total % 2 == 1
    ensures a % 2 == 0 || b % 2 == 0
  {
  }

  /** isChessboard: every cell shows its pattern coin; the first mismatch ends the scan. */
  method IsChessboard(board: array2<int>, pattern: nat) returns (r: bool)
    ensures r == IsPattern(Contents(board), pattern)
  {
    for i := 0 to board.Length0
      invariant forall r, c :: 0 <= r < i && 0 <= c < board.Length1 ==> board[r, c] == Expected(r, c, pattern)
    {
      for j := 0 to board.Length1
        invariant forall c :: 0 <= c < j ==> board[i, c] == Expected(i, c, pattern)
      {
        var expected := (i + j + pattern) % 2;
        if board[i, j] != expected {
          assert Contents(board)[i][j] != Expected(i, j, pattern);
          return false;
        }
      }
    }
    return true;
  }

  /** flipCoin: flips the coin at (i, j) when it lies on the board; otherwise nothing
    * changes. */
  method FlipCoin(board: array2<int>, i: int, j: int)
    modifies board
    ensures Contents(board) == Toggle(old(Contents(board)), board.Length0, board.Length1, i, j)
  {
    if 0 <= i < board.Length0 && 0 <= j < board.Length1 {
      board[i, j] := Flip(board[i, j]);
    }
    RectEq(Contents(board), Toggle(old(Contents(board)), board.Length0, board.Length1, i, j), board.Length0, board.Length1);
  }

  /** The copy of the board each pass works on. */
  method CopyBoard(board: array2<int>) returns (temp: array2<int>)
    ensures fresh(temp) && Contents(temp) == Contents(board)
  {
    temp := new int[board.Length0, board.Length1];
    for i := 0 to board.Length0
      invariant forall r, c :: 0 <= r < i && 0 <= c < board.Length1 ==> temp[r, c] == board[r, c]
    {
      for j := 0 to board.Length1
        invariant forall r, c :: 0 <= r < i && 0 <= c < board.Length1 ==> temp[r, c] == board[r, c]
        invariant forall c :: 0 <= c < j ==> temp[i, c] == board[i, c]
      {
        temp[i, j] := board[i, j];
      }
    }
    RectEq(Contents(temp), Contents(board), board.Length0, board.Length1);
  }

  /** The inner loop of a pass: row i of temp, cell by cell. The counter ends at INT_MAX
    * when the pass gets stuck in this row; otherwise the pass goes on from the next row as
    * it would have from this one. */
  method PassRow(temp: array2<int>, pattern: nat, i: nat, flips0: nat) returns (flips: int)
    requires i < temp.Length0 && flips0 + temp.Length1 < INT_MAX
    modifies temp
    ensures flips == INT_MAX || flips0 <= flips <= flips0 + temp.Length1
    ensures var before := Run(old(Contents(temp)), temp.Length0, temp.Length1, pattern, i, 0, flips0);
      if flips == INT_MAX then before == Stuck
      else before == Run(Contents(temp), temp.Length0, temp.Length1, pattern, i + 1, 0, flips)
  {
    var n, m := temp.Length0, temp.Length1;
    ghost var outcome := Run(Contents(temp), n, m, pattern, i, 0, flips0);
    flips := flips0;
    for j := 0 to m
      invariant flips0 <= flips <= flips0 + j
      invariant Run(Contents(temp), n, m, pattern, i, j, flips) == outcome
    {
      var expected := (i + j + pattern) % 2;
      if temp[i, j] != expected {
        FlipCoin(temp, i, j);
        if j + 1 < m {
          FlipCoin(temp, i, j + 1);
        } else if i + 1 < n {
          FlipCoin(temp, i + 1, j);
        } else {
          assert outcome == Stuck;
          flips := INT_MAX;
          break;
        }
        flips := flips + 1;
      }
    }
  }

  /** The rows up to and including row i have no more cells than the board. */
  lemma RowsBound(i: nat, n: nat, m: nat)
    requires i < n
    ensures (i + 1) * m == i * m + m <= n * m
  {
    var k := n - i - 1;
    assert n * m == (i + 1) * m + k * m;
  }

  /** One greedy pass over temp toward the pattern. The counter ends at INT_MAX when the
    * pass gets stuck and at the number of moves otherwise, and a finished pass leaves temp
    * as Run does. */
  method Pass(temp: array2<int>, pattern: nat) returns (flips: int)
    requires temp.Length0 * temp.Length1 < INT_MAX
    modifies temp
    ensures flips == Counter(Greedy(old(Contents(temp)), temp.Length0, temp.Length1, pattern))
    ensures Greedy(old(Contents(temp)), temp.Length0, temp.Length1, pattern).Done? ==>
      Contents(temp) == Greedy(old(Contents(temp)), temp.Length0, temp.Length1, pattern).board
  {
    var n, m := temp.Length0, temp.Length1;
    ghost var outcome := Greedy(Contents(temp), n, m, pattern);
    flips := 0;
    for i := 0 to n
      invariant 0 <= flips <= i * m
      invariant Run(Contents(temp), n, m, pattern, i, 0, flips) == outcome
    {
      RowsBound(i, n, m);
      flips := PassRow(temp, pattern, i, flips);
      if flips == INT_MAX {
        break;
      }
    }
  }

  /** minFlips: the fewer moves of the two passes, each on its own copy of the board, or
    * -1 when both get stuck. The caller's board is not changed. */
  method MinFlips(board: array2<int>) returns (result: int)
    requires board.Length0 * board.Length1 < INT_MAX
    ensures result == Best(Greedy(Contents(board), board.Length0, board.Length1, 0),
                           Greedy(Contents(board), board.Length0, board.Length1, 1))
  {
    var n := board.Length0;
    if n == 0 {
      return 0;
    }
    ghost var g := Contents(board);
    RunFlipsBound(g, n, board.Length1, 0, 0, 0, 0);
    RunFlipsBound(g, n, board.Length1, 1, 0, 0, 0);
    RemainingCells(n, board.Length1, 0, 0);
    var minFlips := INT_MAX;
    for pattern := 0 to 2
      invariant minFlips == if pattern == 0 then INT_MAX
        else if pattern == 1 then Counter(Greedy(g, n, board.Length1, 0))
        else Min(Counter(Greedy(g, n, board.Length1, 0)), Counter(Greedy(g, n, board.Length1, 1)))
    {
      var temp := CopyBoard(board);
      var flips := Pass(temp, pattern);
      if flips < minFlips {
        minFlips := flips;
      }
    }
    result := if minFlips == INT_MAX then -1 else minFlips;
  }
}
