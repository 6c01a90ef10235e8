/**
 * laba6_11: an N x N matrix of integers, and the row with the most strictly positive
 * entries, the first such row on a tie. The matrix is filled at random by the programs;
 * here it is a parameter.
 */
module PositiveRows {
  import opened Tokens

  /** Why the order N was rejected. */
  datatype Error = ReadFailed | NotPositive

  datatype OrderResult = Order(n: nat) | Rejected(error: Error)

  /** What the program prints after the search. */
  datatype Report = NoPositiveRow | BestRow(count: nat, row: seq<int>)

  /** Reading N: a number that is positive. */
  function CheckOrder(token: Token): (r: OrderResult)
    ensures r.Order? <==> token.Number? && token.value > 0
    ensures r.Order? ==> r.n == token.value
    ensures r == Rejected(ReadFailed) <==> token.NotANumber?
  {
    match token
    case NotANumber => Rejected(ReadFailed)
    case Number(n) => if n <= 0 then Rejected(NotPositive) else Order(n)
  }

  /** The positions of the strictly positive entries among the first k of row. */
  ghost function PositiveAt(row: seq<int>, k: nat): set<nat>
    requires k <= |row|
  {
    set c: nat | c < k && row[c] > 0
  }

  /** The number of strictly positive entries of a row; zeros do not count. */
  ghost function Positives(row: seq<int>): nat {
    |PositiveAt(row, |row|)|
  }

  /** countPos: one pass over the row. */
  method CountPositive(row: seq<int>) returns (countPos: nat)
    ensures countPos == Positives(row)
  {
    countPos := 0;
    for j := 0 to |row|
      invariant countPos == |PositiveAt(row, j)|
    {
      if row[j] > 0 {
        assert PositiveAt(row, j + 1) == PositiveAt(row, j) + {j};
        countPos := countPos + 1;
      } else {
        assert PositiveAt(row, j + 1) == PositiveAt(row, j);
      }
    }
  }

  /** The search over the rows with the strict comparison against a running maximum that
    * starts at -1: the chosen row has the most positive entries, and every earlier row
    * has fewer. */
  method FindRow(matrix: seq<seq<int>>) returns (maxPosCount: int, indexOfMaxRow: int)
    ensures |matrix| == 0 ==> maxPosCount == -1 && indexOfMaxRow == -1
    ensures |matrix| > 0 ==> 0 <= indexOfMaxRow < |matrix| && maxPosCount == Positives(matrix[indexOfMaxRow])
    ensures forall r :: 0 <= r < |matrix| ==> Positives(matrix[r]) <= maxPosCount
    ensures forall r :: 0 <= r < indexOfMaxRow ==> Positives(matrix[r]) < maxPosCount
  {
    maxPosCount := -1;
    indexOfMaxRow := -1;
    for i := 0 to |matrix|
      invariant i == 0 ==> maxPosCount == -1 && indexOfMaxRow == -1
      invariant i > 0 ==> 0 <= indexOfMaxRow < i && maxPosCount == Positives(matrix[indexOfMaxRow])
      invariant forall r :: 0 <= r < i ==> Positives(matrix[r]) <= maxPosCount
      invariant forall r :: 0 <= r < indexOfMaxRow ==> Positives(matrix[r]) < maxPosCount
    {
      var countPos := CountPositive(matrix[i]);
      if countPos > maxPosCount {
        maxPosCount := countPos;
        indexOfMaxRow := i;
      }
    }
  }

  /** A row has no positive entry exactly when every entry is at most 0. */
  lemma NoPositives(row: seq<int>)
    ensures Positives(row) == 0 <==> forall c :: 0 <= c < |row| ==> row[c] <= 0
  {
    if exists c :: 0 <= c < |row| && row[c] > 0 {
      var c :| 0 <= c < |row| && row[c] > 0;
      assert c in PositiveAt(row, |row|);
    } else {
      assert PositiveAt(row, |row|) == {};
    }
  }

  /** The whole program after N is accepted: the search, then the report. "No positive
    * row" is printed exactly when no entry of the matrix is positive. */
  method Analyse(matrix: seq<seq<int>>) returns (report: Report)
    ensures report == NoPositiveRow <==> forall r, c :: 0 <= r < |matrix| && 0 <= c < |matrix[r]| ==> matrix[r][c] <= 0
    ensures report.BestRow? ==>
      exists i :: (0 <= i < |matrix| && report.row == matrix[i] &&
                   report.count == Positives(matrix[i]) > 0 &&
                   (forall r :: 0 <= r < |matrix| ==> Positives(matrix[r]) <= report.count) &&
                   (forall r :: 0 <= r < i ==> Positives(matrix[r]) < report.count))
  {
    var maxPosCount, indexOfMaxRow := FindRow(matrix);
    if indexOfMaxRow == -1 || maxPosCount == 0 {
      forall r | 0 <= r < |matrix| ensures forall c :: 0 <= c < |matrix[r]| ==> matrix[r][c] <= 0 {
        NoPositives(matrix[r]);
      }
      return NoPositiveRow;
    }
    NoPositives(matrix[indexOfMaxRow]);
    report := BestRow(maxPosCount, matrix[indexOfMaxRow]);
  }
}
