/**
 * The snake game of laba6_4: K target cells, read in increasing order, are visited by a
 * counter that starts on cell 1 at speed 0. Before each move the speed is adjusted by one
 * toward the distance left to the current target, then the counter moves by its speed;
 * the program prints the number of moves.
 *
 * Input is a stream of integer tokens; running out of tokens is a read failure. The C++
 * program stores 0 for a failed read and checks the stream only after all cells, the Go
 * program stops at the first failed read.
 */
module Snake {
  /** The largest K and the largest cell number the programs accept. */
  const LIMIT: int := 10000

  /** Why the input was rejected, one kind per message of the programs. */
  datatype Error = ReadFailed | CountNotPositive | CountTooLarge | CellTooSmall | CellTooLarge | NotIncreasing

  datatype Result = Ok(cells: seq<int>) | Err(error: Error)

  /** Cell i is in range and above the cell before it. */
  ghost predicate CellOk(cells: seq<int>, i: nat)
    requires i < |cells|
  {
    1 <= cells[i] <= LIMIT && (i > 0 ==> cells[i - 1] < cells[i])
  }

  /** The message for a cell that is not OK: range first, then order. */
  function CellError(cells: seq<int>, i: nat): Error
    requires i < |cells|
  {
    if cells[i] < 1 then CellTooSmall else if cells[i] > LIMIT then CellTooLarge else NotIncreasing
  }

  /** Accepted input: between 1 and 10000 cells, each between 1 and 10000, strictly
    * increasing. */
  ghost predicate ValidCells(cells: seq<int>) {
    1 <= |cells| <= LIMIT && forall i :: 0 <= i < |cells| ==> CellOk(cells, i)
  }

  /** The cells are rejected at i: every cell before it is OK, cell i is not. */
  ghost predicate FirstBad(cells: seq<int>, i: nat) {
    i < |cells| && (forall k :: 0 <= k < i ==> CellOk(cells, k)) && !CellOk(cells, i)
  }

  /** An accepted sequence is strictly increasing throughout. */
  lemma {:induction false} ValidIncreasing(cells: seq<int>, i: nat, j: nat)
    requires ValidCells(cells) && i < j < |cells|
    ensures cells[i] < cells[j]
    decreases j - i
  {
    assert CellOk(cells, j);
    if i + 1 < j {
      ValidIncreasing(cells, i, j - 1);
    }
  }

  /** Token k as C++ reads it: 0 once the input has run out. */
  function CppToken(input: seq<int>, k: nat): int {
    if k < |input| then input[k] else 0
  }

  /** The K cells the C++ program reads after K. */
  function CppCells(input: seq<int>, count: nat): (cells: seq<int>)
    ensures |cells| == count && forall i :: 0 <= i < count ==> cells[i] == CppToken(input, i + 1)
  {
    seq(count, i requires 0 <= i < count => CppToken(input, i + 1))
  }

  /** The C++ input phase: K, then K cells, each checked as it is read, then the stream. */
  method ReadCpp(input: seq<int>) returns (r: Result)
    ensures var k := CppToken(input, 0);
      && (r == Err(CountNotPositive) <==> k <= 0)
      && (r == Err(CountTooLarge) <==> k > LIMIT)
      && (r.Ok? <==> 1 <= k <= LIMIT && ValidCells(CppCells(input, k)))
      && (r.Ok? ==> 1 <= k && r.cells == CppCells(input, k))
      && (r.Err? && 1 <= k <= LIMIT ==> exists i: nat :: FirstBad(CppCells(input, k), i) && r.error == CellError(CppCells(input, k), i))
      && r != Err(ReadFailed)
  {
    var failed := |input| < 1;
    var k := CppToken(input, 0);
    if k <= 0 {
      return Err(CountNotPositive);
    }
    if k > LIMIT {
      return Err(CountTooLarge);
    }
    ghost var all := CppCells(input, k);
    var cells := seq(k, _ => 0);
    for i := 0 to k
      invariant |cells| == k
      invariant forall j :: 0 <= j < i ==> cells[j] == all[j] && CellOk(all, j)
      invariant !failed
    {
      failed := failed || |input| <= i + 1;
      cells := cells[i := CppToken(input, i + 1)];
      if cells[i] < 1 {
        assert FirstBad(all, i);
        return Err(CellTooSmall);
      }
      if cells[i] > LIMIT {
        assert FirstBad(all, i);
        return Err(CellTooLarge);
      }
      if i > 0 && cells[i] <= cells[i - 1] {
        assert FirstBad(all, i);
        return Err(NotIncreasing);
      }
    }
    assert cells == all;
    r := if failed then Err(ReadFailed) else Ok(cells);
  }

  /** The Go program accepts the stream: K in range, and K cells, each OK. */
  ghost predicate GoAccepts(input: seq<int>) {
    |input| > 0 && 1 <= input[0] <= LIMIT && |input| > input[0] &&
    forall i :: 0 <= i < input[0] ==> CellOk(input[1..], i)
  }

  /** The stream runs out after a valid K and before the K-th cell, every cell read being
    * OK. */
  ghost predicate GoRunsOut(input: seq<int>) {
    |input| == 0 || (1 <= input[0] <= LIMIT && |input| <= input[0] &&
      forall i :: 0 <= i < |input| - 1 ==> CellOk(input[1..], i))
  }

  /** What the Go program accepts is exactly K valid cells after K. */
  lemma GoAcceptsValid(input: seq<int>)
    requires |input| > 0 && 1 <= input[0] <= LIMIT && |input| > input[0]
    ensures GoAccepts(input) <==> ValidCells(input[1..input[0] + 1])
  {
    var cells := input[1..input[0] + 1];
    assert forall i :: 0 <= i < input[0] ==> (CellOk(input[1..], i) <==> CellOk(cells, i));
  }

  /** The Go input phase: K, then K cells, stopping at the first failed read or rejected
    * value. */
  method ReadGo(input: seq<int>) returns (r: Result)
    ensures r == Err(ReadFailed) <==> GoRunsOut(input)
    ensures |input| > 0 ==> (r == Err(CountNotPositive) <==> input[0] <= 0)
    ensures |input| > 0 ==> (r == Err(CountTooLarge) <==> input[0] > LIMIT)
    ensures r.Ok? <==> GoAccepts(input)
    ensures r.Ok? ==> r.cells == input[1..input[0] + 1]
    ensures r.Err? && r.error in {CellTooSmall, CellTooLarge, NotIncreasing} ==>
      |input| > 0 && exists i: nat :: FirstBad(input[1..], i) && i < input[0] && r.error == CellError(input[1..], i)
  {
    if |input| == 0 {
      return Err(ReadFailed);
    }
    var k := input[0];
    if k <= 0 {
      return Err(CountNotPositive);
    }
    if k > LIMIT {
      return Err(CountTooLarge);
    }
    ghost var rest := input[1..];
    var cells := seq(k, _ => 0);
    for i := 0 to k
      invariant |cells| == k && i < |input|
      invariant forall j :: 0 <= j < i ==> cells[j] == rest[j] && CellOk(rest, j)
    {
      if |input| <= i + 1 {
        return Err(ReadFailed);
      }
      cells := cells[i := input[i + 1]];
      if cells[i] < 1 {
        assert FirstBad(rest, i);
        return Err(CellTooSmall);
      }
      if cells[i] > LIMIT {
        assert FirstBad(rest, i);
        return Err(CellTooLarge);
      }
      if i > 0 && cells[i] <= cells[i - 1] {
        assert FirstBad(rest, i);
        return Err(NotIncreasing);
      }
    }
    assert cells == input[1..k + 1];
    return Ok(cells);
  }

  /** Go's max. */
  function Max(a: int, b: int): (r: int)
    ensures r >= a && r >= b && (r == a || r == b)
  {
    if a > b then a else b
  }

  /** The counter: its cell, its speed, and the moves made. */
  datatype State = State(position: int, speed: int, moves: nat)

  /** One move toward target: the speed goes up by one below the distance left, down by
    * one (never under 1) above it, then the counter moves by the new speed. */
  function Move(s: State, target: int): (r: State)
    requires 0 <= s.speed && s.position < target
    ensures r.speed >= 1 && r.position > s.position && r.moves == s.moves + 1
  {
    var required := target - s.position;
    var speed := if s.speed < required then s.speed + 1
      else if s.speed > required then Max(s.speed - 1, 1)
      else s.speed;
    State(s.position + speed, speed, s.moves + 1)
  }

  /** The inner loop: moves until the counter is on or past target. */
  function Chase(s: State, target: int): (r: State)
    requires 0 <= s.speed
    ensures 0 <= r.speed
    decreases target - s.position
  {
    if s.position < target then Chase(Move(s, target), target) else s
  }

  /** The outer loop: every target in turn. */
  function Play(s: State, cells: seq<int>): (r: State)
    requires 0 <= s.speed
    ensures 0 <= r.speed
    decreases |cells|
  {
    if cells == [] then s else Play(Chase(s, cells[0]), cells[1..])
  }

  /** Where the program starts: cell 1, speed 0, no moves. */
  const Start := State(1, 0, 0)

  /** Each move changes the speed by at most one, keeps it at least 1, never passes the
    * target unless it slows down, and lands on the target when the speed already matches
    * the distance. The floor of 1 in the slowing branch never applies. */
  lemma MoveFacts(s: State, target: int)
    requires 0 <= s.speed && s.position < target
    ensures var r := Move(s, target); var required := target - s.position;
      && s.speed - 1 <= r.speed <= s.speed + 1
      && (s.speed <= required ==> r.position <= target)
      && (s.speed == required ==> r.position == target)
      && (s.speed > required ==> r.speed == s.speed - 1 && r.position >= target)
  {
  }

  /** After the inner loop the counter is on or past the target, and less than one speed
    * step past it; at least one move was made when it started short of it. */
  lemma {:induction false} ChaseReaches(s: State, target: int)
    requires 0 <= s.speed
    ensures var r := Chase(s, target);
      && r.position >= target && r.position >= s.position
      && r.moves - s.moves <= r.position - s.position
      && (s.position < target ==> r.moves > s.moves && r.position < target + r.speed)
    decreases target - s.position
  {
    if s.position < target {
      var s' := Move(s, target);
      ChaseReaches(s', target);
      if s'.position >= target {
        MoveFacts(s, target);
      }
    }
  }

  /** After all targets the counter is on or past each of them, and it has moved at least
    * one cell per move. */
  lemma {:induction false} PlayReaches(s: State, cells: seq<int>)
    requires 0 <= s.speed
    ensures var r := Play(s, cells);
      && (forall i :: 0 <= i < |cells| ==> r.position >= cells[i])
      && r.position >= s.position && r.moves - s.moves <= r.position - s.position
    decreases |cells|
  {
    if cells != [] {
      var s' := Chase(s, cells[0]);
      ChaseReaches(s, cells[0]);
      PlayReaches(s', cells[1..]);
      assert forall i :: 1 <= i < |cells| ==> cells[i] == cells[1..][i - 1];
    }
  }

  /** For the single target 5 the counter goes 1, 2, 4, 5: three moves. */
  lemma FiveTakesThree()
    ensures Play(Start, [5]).moves == 3
  {
    assert Move(Start, 5) == State(2, 1, 1);
    assert Move(State(2, 1, 1), 5) == State(4, 2, 2);
    assert Move(State(4, 2, 2), 5) == State(5, 1, 3);
    assert Chase(Start, 5) == State(5, 1, 3);
    assert [5][1..] == [];
  }

  /** The simulation of both programs' main loop. */
  method Simulate(cells: seq<int>) returns (moves: int)
    ensures moves == Play(Start, cells).moves
  {
    var position := 1;
    var speed := 0;
    moves := 0;
    for t := 0 to |cells|
      invariant 0 <= speed && 0 <= moves
      invariant Play(State(position, speed, moves), cells[t..]) == Play(Start, cells)
    {
      var target := cells[t];
      assert cells[t..][1..] == cells[t + 1..];
      while position < target
        invariant 0 <= speed && 0 <= moves
        invariant Play(Chase(State(position, speed, moves), target), cells[t + 1..]) == Play(Start, cells)
        decreases target - position
      {
        var requiredSpeed := target - position;
        if speed < requiredSpeed {
          speed := speed + 1;
        } else if speed > requiredSpeed {
          speed := Max(speed - 1, 1);
        }
        position := position + speed;
        moves := moves + 1;
      }
    }
  }
}
