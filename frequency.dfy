/**
 * laba6_12: an M x N matrix of integers, the number of times each value occurs, and a
 * value that occurs most often. The matrix is filled at random by the programs; here it
 * is a parameter. Both programs scan a hash map whose iteration order is unspecified, so
 * which of several most frequent values is reported is left open: the search picks the
 * next key with `:|`.
 */
module Frequency {
  import opened Tokens

  /** Why the sizes were rejected: the C++ read failing, or, in Go, fewer than two
    * fields, M or N not a number, and in both a size that is not positive. */
  datatype Error = ReadFailed | TooFewFields | BadM | BadN | NotPositive

  datatype SizeResult = Sizes(m: nat, n: nat) | Rejected(error: Error)

  /** What the program prints. */
  datatype Report = NoRepeat | MostFrequent(number: int, count: int)

  /** C++: `cin >> M >> N` fails unless the first two tokens are numbers. */
  function CheckSizesCpp(tokens: seq<Token>): (r: SizeResult)
    ensures r.Sizes? <==> (|tokens| >= 2 && tokens[0].Number? && tokens[1].Number? &&
                           tokens[0].value > 0 && tokens[1].value > 0)
    ensures r.Sizes? ==> r.m == tokens[0].value && r.n == tokens[1].value
    ensures r == Rejected(ReadFailed) <==> !(|tokens| >= 2 && tokens[0].Number? && tokens[1].Number?)
  {
    if |tokens| < 2 || tokens[0].NotANumber? || tokens[1].NotANumber? then Rejected(ReadFailed)
    else if tokens[0].value <= 0 || tokens[1].value <= 0 then Rejected(NotPositive)
    else Sizes(tokens[0].value, tokens[1].value)
  }

  /** Go: the fields of one line; at least two, both numbers, both positive, checked in
    * that order. */
  function CheckSizesGo(fields: seq<Token>): (r: SizeResult)
    ensures r.Sizes? <==> (|fields| >= 2 && fields[0].Number? && fields[1].Number? &&
                           fields[0].value > 0 && fields[1].value > 0)
    ensures r.Sizes? ==> r.m == fields[0].value && r.n == fields[1].value
    ensures r == Rejected(TooFewFields) <==> |fields| < 2
    ensures r == Rejected(BadM) <==> |fields| >= 2 && fields[0].NotANumber?
    ensures r == Rejected(BadN) <==> |fields| >= 2 && fields[0].Number? && fields[1].NotANumber?
  {
    if |fields| < 2 then Rejected(TooFewFields)
    else if fields[0].NotANumber? then Rejected(BadM)
    else if fields[1].NotANumber? then Rejected(BadN)
    else if fields[0].value <= 0 || fields[1].value <= 0 then Rejected(NotPositive)
    else Sizes(fields[0].value, fields[1].value)
  }

  /** The entries of the first k rows, with their multiplicities. */
  ghost function Entries(matrix: seq<seq<int>>, k: nat): multiset<int>
    requires k <= |matrix|
  {
    if k == 0 then multiset{} else Entries(matrix, k - 1) + multiset(matrix[k - 1])
  }

  /** An M x N matrix has M * N entries. */
  lemma {:induction false} EntriesSize(matrix: seq<seq<int>>, n: nat, k: nat)
    requires k <= |matrix| && forall r :: 0 <= r < |matrix| ==> |matrix[r]| == n
    ensures |Entries(matrix, k)| == k * n
  {
    if k > 0 {
      EntriesSize(matrix, n, k - 1);
      assert k * n == (k - 1) * n + n;
    }
  }

  /** The map agrees with the multiset: its keys are the values present, each mapped to
    * its count. */
  ghost predicate Counts(frequency: map<int, int>, entries: multiset<int>) {
    (forall v :: v in frequency <==> v in entries) &&
    (forall v :: v in frequency ==> frequency[v] == entries[v])
  }

  /** `++frequency[val]`: a missing key starts at 0. */
  function Bump(frequency: map<int, int>, val: int): (r: map<int, int>)
    ensures forall e :: Counts(frequency, e) ==> Counts(r, e + multiset{val})
  {
    frequency[val := (if val in frequency then frequency[val] else 0) + 1]
  }

  /** The counting loops: every entry of every row, one increment each. */
  method CountFrequencies(matrix: seq<seq<int>>) returns (frequency: map<int, int>)
    ensures Counts(frequency, Entries(matrix, |matrix|))
  {
    frequency := map[];
    for i := 0 to |matrix|
      invariant Counts(frequency, Entries(matrix, i))
    {
      var row := matrix[i];
      for j := 0 to |row|
        invariant Counts(frequency, Entries(matrix, i) + multiset(row[..j]))
      {
        assert row[..j + 1] == row[..j] + [row[j]];
        frequency := Bump(frequency, row[j]);
      }
      assert row[..|row|] == row;
    }
  }

  /** The search over the map in whatever order it yields its keys: a strict comparison
    * against a running maximum that starts at 0. */
  method MaxFrequency(frequency: map<int, int>) returns (maxCount: int, numberWithMaxCount: int)
    ensures maxCount >= 0 && forall v :: v in frequency ==> frequency[v] <= maxCount
    ensures maxCount > 0 ==> numberWithMaxCount in frequency && frequency[numberWithMaxCount] == maxCount
    ensures maxCount == 0 ==> numberWithMaxCount == 0
  {
    maxCount := 0;
    numberWithMaxCount := 0;
    var keys := frequency.Keys;
    while keys != {}
      invariant keys <= frequency.Keys && maxCount >= 0
      invariant forall v :: v in frequency && v !in keys ==> frequency[v] <= maxCount
      invariant maxCount > 0 ==> numberWithMaxCount in frequency && frequency[numberWithMaxCount] == maxCount
      invariant maxCount == 0 ==> numberWithMaxCount == 0
      decreases keys
    {
      if forall k :: k !in keys {
        assert false;
      }
      var num :| num in keys;
      var count := frequency[num];
      if count > maxCount {
        maxCount := count;
        numberWithMaxCount := num;
      }
      keys := keys - {num};
    }
  }

  /** The largest multiplicity of a non-empty multiset is at least 1, and it is 1 exactly
    * when no value repeats. */
  lemma MaxOfCounts(frequency: map<int, int>, entries: multiset<int>, maxCount: int)
    requires Counts(frequency, entries) && |entries| > 0
    requires forall v :: v in frequency ==> frequency[v] <= maxCount
    requires exists v :: v in frequency && frequency[v] == maxCount
    ensures maxCount >= 1
    ensures maxCount == 1 <==> forall v :: entries[v] <= 1
  {
    var x :| x in entries;
    assert frequency[x] >= 1;
    if maxCount == 1 {
      forall v ensures entries[v] <= 1 {
        if v in entries {
          assert frequency[v] <= maxCount;
        }
      }
    }
  }

  /** The whole program after the sizes are accepted: count, search, report. "No
    * repeated number" is printed exactly when every value of a non-empty matrix occurs
    * once; otherwise the value printed occurs most often. */
  method Analyse(matrix: seq<seq<int>>) returns (report: Report)
    ensures |Entries(matrix, |matrix|)| > 0 ==>
      (report == NoRepeat <==> forall v :: Entries(matrix, |matrix|)[v] <= 1)
    ensures report.MostFrequent? ==>
      (forall v :: Entries(matrix, |matrix|)[v] <= report.count) &&
      (report.count > 0 ==> Entries(matrix, |matrix|)[report.number] == report.count)
  {
    var frequency := CountFrequencies(matrix);
    var maxCount, numberWithMaxCount := MaxFrequency(frequency);
    ghost var entries := Entries(matrix, |matrix|);
    if |entries| > 0 {
      if forall k :: k !in entries {
        assert false;
      }
      ghost var x :| x in entries;
      assert x in frequency;
      MaxOfCounts(frequency, entries, maxCount);
    }
    forall v ensures entries[v] <= maxCount {
      if v in entries {
        assert v in frequency;
      }
    }
    if maxCount == 1 {
      report := NoRepeat;
    } else {
      report := MostFrequent(numberWithMaxCount, maxCount);
    }
  }
}
