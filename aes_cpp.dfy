/**
 * The C++ AES-128 program.  A `Block` there is a 4x4 array of bytes indexed
 * [row][col]; the transformations update it in place.  Here a block the program passes
 * by value is a `Block` of the specification (byte (row, col) at index row + 4 * col, the
 * same mapping), and a block the program updates in place is a 4x4 `array2`.
 */
module AesCpp {
  import GF = GaloisField
  import opened AesTables
  import opened Blocks
  import opened Rounds
  import Cbc
  import Spec = AesSpec

  /** A 4x4 state array. */
  predicate IsState(a: array2<bv8>) {
    a.Length0 == 4 && a.Length1 == 4
  }

  /** The block held by a state array, column by column. */
  function Cells(a: array2<bv8>): Block
    requires IsState(a)
    reads a
  {
    [
      a[0, 0], a[1, 0], a[2, 0], a[3, 0],
      a[0, 1], a[1, 1], a[2, 1], a[3, 1],
      a[0, 2], a[1, 2], a[2, 2], a[3, 2],
      a[0, 3], a[1, 3], a[2, 3], a[3, 3]
    ]
  }

  /** A state array holds `t` when every cell (row, col) holds byte (row, col) of `t`. */
  lemma CellsEq(a: array2<bv8>, t: Block)
    requires IsState(a)
    requires forall r, c :: 0 <= r < 4 && 0 <= c < 4 ==> a[r, c] == At(t, r, c)
    ensures Cells(a) == t
  {
    assert a[0, 0] == At(t, 0, 0) && a[1, 0] == At(t, 1, 0) && a[2, 0] == At(t, 2, 0) && a[3, 0] == At(t, 3, 0);
    assert a[0, 1] == At(t, 0, 1) && a[1, 1] == At(t, 1, 1) && a[2, 1] == At(t, 2, 1) && a[3, 1] == At(t, 3, 1);
    assert a[0, 2] == At(t, 0, 2) && a[1, 2] == At(t, 1, 2) && a[2, 2] == At(t, 2, 2) && a[3, 2] == At(t, 3, 2);
    assert a[0, 3] == At(t, 0, 3) && a[1, 3] == At(t, 1, 3) && a[2, 3] == At(t, 2, 3) && a[3, 3] == At(t, 3, 3);
    Split(t);
  }

  /** Cell (row, col) of a state array is byte (row, col) of the block it holds. */
  lemma CellsAt(a: array2<bv8>, r: nat, c: nat)
    requires IsState(a) && r < 4 && c < 4
    ensures At(Cells(a), r, c) == a[r, c]
  {
  }

  /** k % 4 for k < 8, without the division. */
  function Wrap(k: nat): nat
    requires k < 8
  {
    if k < 4 then k else k - 4
  }

  lemma WrapMod(k: nat)
    requires k < 8
    ensures Wrap(k) == k % 4
  {
  }

  /** A state array whose cell (r, c) holds cell (r, (c + r) % 4) of `a` holds ShiftRows of `a`. */
  lemma ShiftRowsCells(a: array2<bv8>, b: array2<bv8>)
    requires IsState(a) && IsState(b)
    requires forall r, c {:trigger b[r, c]} :: 0 <= r < 4 && 0 <= c < 4 ==> b[r, c] == a[r, Wrap(c + r)]
    ensures Cells(b) == Spec.ShiftRows(Cells(a))
  {
    assert b[0, 0] == a[0, 0] && b[1, 0] == a[1, 1] && b[2, 0] == a[2, 2] && b[3, 0] == a[3, 3];
    assert b[0, 1] == a[0, 1] && b[1, 1] == a[1, 2] && b[2, 1] == a[2, 3] && b[3, 1] == a[3, 0];
    assert b[0, 2] == a[0, 2] && b[1, 2] == a[1, 3] && b[2, 2] == a[2, 0] && b[3, 2] == a[3, 1];
    assert b[0, 3] == a[0, 3] && b[1, 3] == a[1, 0] && b[2, 3] == a[2, 1] && b[3, 3] == a[3, 2];
  }

  /** A state array whose cell (r, c) holds cell (r, (c - r + 4) % 4) of `a` holds InvShiftRows of `a`. */
  lemma InvShiftRowsCells(a: array2<bv8>, b: array2<bv8>)
    requires IsState(a) && IsState(b)
    requires forall r, c {:trigger b[r, c]} :: 0 <= r < 4 && 0 <= c < 4 ==> b[r, c] == a[r, Wrap(c + 4 - r)]
    ensures Cells(b) == Spec.InvShiftRows(Cells(a))
  {
    assert b[0, 0] == a[0, 0] && b[1, 0] == a[1, 3] && b[2, 0] == a[2, 2] && b[3, 0] == a[3, 1];
    assert b[0, 1] == a[0, 1] && b[1, 1] == a[1, 0] && b[2, 1] == a[2, 3] && b[3, 1] == a[3, 2];
    assert b[0, 2] == a[0, 2] && b[1, 2] == a[1, 1] && b[2, 2] == a[2, 0] && b[3, 2] == a[3, 3];
    assert b[0, 3] == a[0, 3] && b[1, 3] == a[1, 2] && b[2, 3] == a[2, 1] && b[3, 3] == a[3, 0];
  }

  /** Row 0 of `mixColumns`, `gmul(s0, 2) ^ gmul(s1, 3) ^ s2 ^ s3`, is byte 0 of the mixed column. */
  lemma MixRow0(s0: bv8, s1: bv8, s2: bv8, s3: bv8, p: bv8, q: bv8)
    requires p == GF.FieldMul(s0, 2) && q == GF.FieldMul(s1, 3)
    ensures p ^ q ^ s2 ^ s3 == GF.MixCell(s0, s1, s2, s3)
  {
    GF.Commutative(s0, 2);
    GF.Commutative(s1, 3);
    GF.XorRotations(p, q, s2, s3);
  }

  /** Row 1 of `mixColumns`, `s0 ^ gmul(s1, 2) ^ gmul(s2, 3) ^ s3`, is byte 1 of the mixed column. */
  lemma MixRow1(s0: bv8, s1: bv8, s2: bv8, s3: bv8, p: bv8, q: bv8)
    requires p == GF.FieldMul(s1, 2) && q == GF.FieldMul(s2, 3)
    ensures s0 ^ p ^ q ^ s3 == GF.MixCell(s1, s2, s3, s0)
  {
    GF.Commutative(s1, 2);
    GF.Commutative(s2, 3);
    GF.XorRotations(s0, p, q, s3);
  }

  /** Row 2 of `mixColumns`, `s0 ^ s1 ^ gmul(s2, 2) ^ gmul(s3, 3)`, is byte 2 of the mixed column. */
  lemma MixRow2(s0: bv8, s1: bv8, s2: bv8, s3: bv8, p: bv8, q: bv8)
    requires p == GF.FieldMul(s2, 2) && q == GF.FieldMul(s3, 3)
    ensures s0 ^ s1 ^ p ^ q == GF.MixCell(s2, s3, s0, s1)
  {
    GF.Commutative(s2, 2);
    GF.Commutative(s3, 3);
    GF.XorRotations(s0, s1, p, q);
  }

  /** Row 3 of `mixColumns`, `gmul(s0, 3) ^ s1 ^ s2 ^ gmul(s3, 2)`, is byte 3 of the mixed column. */
  lemma MixRow3(s0: bv8, s1: bv8, s2: bv8, s3: bv8, p: bv8, q: bv8)
    requires p == GF.FieldMul(s0, 3) && q == GF.FieldMul(s3, 2)
    ensures p ^ s1 ^ s2 ^ q == GF.MixCell(s3, s0, s1, s2)
  {
    GF.Commutative(s0, 3);
    GF.Commutative(s3, 2);
    GF.XorRotations(p, s1, s2, q);
  }

  /** Row 0 of `invMixColumns`, `gmul(s0, 0x0e) ^ gmul(s1, 0x0b) ^ gmul(s2, 0x0d) ^ gmul(s3, 0x09)`, is byte 0 of the unmixed column. */
  lemma InvMixRow0(s0: bv8, s1: bv8, s2: bv8, s3: bv8, p0: bv8, p1: bv8, p2: bv8, p3: bv8)
    requires p0 == GF.FieldMul(s0, 0x0e) && p1 == GF.FieldMul(s1, 0x0b) && p2 == GF.FieldMul(s2, 0x0d) && p3 == GF.FieldMul(s3, 0x09)
    ensures p0 ^ p1 ^ p2 ^ p3 == GF.InvMixCell(s0, s1, s2, s3)
  {
    GF.Commutative(s0, 0x0e);
    GF.Commutative(s1, 0x0b);
    GF.Commutative(s2, 0x0d);
    GF.Commutative(s3, 0x09);
    GF.XorRotations(p0, p1, p2, p3);
  }

  /** Row 1 of `invMixColumns`, `gmul(s0, 0x09) ^ gmul(s1, 0x0e) ^ gmul(s2, 0x0b) ^ gmul(s3, 0x0d)`, is byte 1 of the unmixed column. */
  lemma InvMixRow1(s0: bv8, s1: bv8, s2: bv8, s3: bv8, p0: bv8, p1: bv8, p2: bv8, p3: bv8)
    requires p0 == GF.FieldMul(s0, 0x09) && p1 == GF.FieldMul(s1, 0x0e) && p2 == GF.FieldMul(s2, 0x0b) && p3 == GF.FieldMul(s3, 0x0d)
    ensures p0 ^ p1 ^ p2 ^ p3 == GF.InvMixCell(s1, s2, s3, s0)
  {
    GF.Commutative(s0, 0x09);
    GF.Commutative(s1, 0x0e);
    GF.Commutative(s2, 0x0b);
    GF.Commutative(s3, 0x0d);
    GF.XorRotations(p0, p1, p2, p3);
  }

  /** Row 2 of `invMixColumns`, `gmul(s0, 0x0d) ^ gmul(s1, 0x09) ^ gmul(s2, 0x0e) ^ gmul(s3, 0x0b)`, is byte 2 of the unmixed column. */
  lemma InvMixRow2(s0: bv8, s1: bv8, s2: bv8, s3: bv8, p0: bv8, p1: bv8, p2: bv8, p3: bv8)
    requires p0 == GF.FieldMul(s0, 0x0d) && p1 == GF.FieldMul(s1, 0x09) && p2 == GF.FieldMul(s2, 0x0e) && p3 == GF.FieldMul(s3, 0x0b)
    ensures p0 ^ p1 ^ p2 ^ p3 == GF.InvMixCell(s2, s3, s0, s1)
  {
    GF.Commutative(s0, 0x0d);
    GF.Commutative(s1, 0x09);
    GF.Commutative(s2, 0x0e);
    GF.Commutative(s3, 0x0b);
    GF.XorRotations(p0, p1, p2, p3);
  }

  /** Row 3 of `invMixColumns`, `gmul(s0, 0x0b) ^ gmul(s1, 0x0d) ^ gmul(s2, 0x09) ^ gmul(s3, 0x0e)`, is byte 3 of the unmixed column. */
  lemma InvMixRow3(s0: bv8, s1: bv8, s2: bv8, s3: bv8, p0: bv8, p1: bv8, p2: bv8, p3: bv8)
    requires p0 == GF.FieldMul(s0, 0x0b) && p1 == GF.FieldMul(s1, 0x0d) && p2 == GF.FieldMul(s2, 0x09) && p3 == GF.FieldMul(s3, 0x0e)
    ensures p0 ^ p1 ^ p2 ^ p3 == GF.InvMixCell(s3, s0, s1, s2)
  {
    GF.Commutative(s0, 0x0b);
    GF.Commutative(s1, 0x0d);
    GF.Commutative(s2, 0x09);
    GF.Commutative(s3, 0x0e);
    GF.XorRotations(p0, p1, p2, p3);
  }

  /** Every cell of the state through the byte map `f`, row by row: the loop of `subBytes`
    * and of `invSubBytes`, which differ only in the table they look the bytes up in. */
  method MapCells(state: array2<bv8>, f: bv8 -> bv8)
    requires IsState(state)
    modifies state
    ensures Cells(state) == Bytewise(f, old(Cells(state)))
  {
    ghost var s := Cells(state);
    forall r, c | 0 <= r < 4 && 0 <= c < 4 ensures state[r, c] == At(s, r, c) {
      CellsAt(state, r, c);
    }
    for i := 0 to 4
      invariant forall r, c :: 0 <= r < 4 && 0 <= c < 4 ==>
        state[r, c] == if r < i then f(At(s, r, c)) else At(s, r, c)
    {
      for j := 0 to 4
        invariant forall r, c :: 0 <= r < 4 && 0 <= c < 4 ==>
          state[r, c] == if r < i || (r == i && c < j) then f(At(s, r, c)) else At(s, r, c)
      {
        state[i, j] := f(state[i, j]);
      }
    }
    forall r, c | 0 <= r < 4 && 0 <= c < 4 ensures state[r, c] == At(Bytewise(f, s), r, c) {
      BytewiseAt(f, s, r, c);
    }
    CellsEq(state, Bytewise(f, s));
  }

  /** `subBytes`: every cell through the S-box. */
  method SubBytes(state: array2<bv8>)
    requires IsState(state)
    modifies state
    ensures Cells(state) == Spec.SubBytes(old(Cells(state)))
  {
    MapCells(state, SBox);
  }

  /** `invSubBytes`: every cell through the inverse S-box. */
  method InvSubBytes(state: array2<bv8>)
    requires IsState(state)
    modifies state
    ensures Cells(state) == Spec.InvSubBytes(old(Cells(state)))
  {
    MapCells(state, InvSBox);
  }

  /** The inner loop of `shiftRows` for row i: cell (i, j) takes cell (i, (j + i) % 4) of the copy. */
  method ShiftRow(state: array2<bv8>, temp: array2<bv8>, i: nat)
    requires IsState(state) && IsState(temp) && state != temp && 1 <= i < 4
    modifies state
    ensures forall c {:trigger state[i, c]} :: 0 <= c < 4 ==> state[i, c] == temp[i, Wrap(c + i)]
    ensures forall r, c {:trigger state[r, c]} :: 0 <= r < 4 && r != i && 0 <= c < 4 ==> state[r, c] == old(state[r, c])
  {
    for j := 0 to 4
      invariant forall c {:trigger state[i, c]} :: 0 <= c < j ==> state[i, c] == temp[i, Wrap(c + i)]
      invariant forall r, c {:trigger state[r, c]} :: 0 <= r < 4 && r != i && 0 <= c < 4 ==> state[r, c] == old(state[r, c])
    {
      WrapMod(j + i);
      state[i, j] := temp[i, (j + i) % 4];
    }
  }

  /** `shiftRows`: from a copy of the state, cell (i, j) of rows 1 to 3 takes cell
    * (i, (j + i) % 4). */
  method ShiftRows(state: array2<bv8>)
    requires IsState(state)
    modifies state
    ensures Cells(state) == Spec.ShiftRows(old(Cells(state)))
  {
    var temp := new bv8[4, 4];
    forall r, c | 0 <= r < 4 && 0 <= c < 4 {
      temp[r, c] := state[r, c];
    }
    for i := 1 to 4
      modifies state
      invariant forall r, c {:trigger state[r, c]} :: 1 <= r < i && 0 <= c < 4 ==> state[r, c] == temp[r, Wrap(c + r)]
      invariant forall r, c {:trigger state[r, c]} :: (r == 0 || i <= r < 4) && 0 <= c < 4 ==> state[r, c] == temp[r, c]
    {
      ShiftRow(state, temp, i);
    }
    ShiftRowsCells(temp, state);
    assert Cells(temp) == old(Cells(state));
  }

  /** The inner loop of `invShiftRows` for row i: cell (i, j) takes cell (i, (j - i + 4) % 4) of the copy. */
  method InvShiftRow(state: array2<bv8>, temp: array2<bv8>, i: nat)
    requires IsState(state) && IsState(temp) && state != temp && 1 <= i < 4
    modifies state
    ensures forall c {:trigger state[i, c]} :: 0 <= c < 4 ==> state[i, c] == temp[i, Wrap(c + 4 - i)]
    ensures forall r, c {:trigger state[r, c]} :: 0 <= r < 4 && r != i && 0 <= c < 4 ==> state[r, c] == old(state[r, c])
  {
    for j := 0 to 4
      invariant forall c {:trigger state[i, c]} :: 0 <= c < j ==> state[i, c] == temp[i, Wrap(c + 4 - i)]
      invariant forall r, c {:trigger state[r, c]} :: 0 <= r < 4 && r != i && 0 <= c < 4 ==> state[r, c] == old(state[r, c])
    {
      WrapMod(j + 4 - i);
      state[i, j] := temp[i, (j - i + 4) % 4];
    }
  }

  /** `invShiftRows`: cell (i, j) of rows 1 to 3 takes cell (i, (j - i + 4) % 4) of the copy. */
  method InvShiftRows(state: array2<bv8>)
    requires IsState(state)
    modifies state
    ensures Cells(state) == Spec.InvShiftRows(old(Cells(state)))
  {
    var temp := new bv8[4, 4];
    forall r, c | 0 <= r < 4 && 0 <= c < 4 {
      temp[r, c] := state[r, c];
    }
    for i := 1 to 4
      modifies state
      invariant forall r, c {:trigger state[r, c]} :: 1 <= r < i && 0 <= c < 4 ==> state[r, c] == temp[r, Wrap(c + 4 - r)]
      invariant forall r, c {:trigger state[r, c]} :: (r == 0 || i <= r < 4) && 0 <= c < 4 ==> state[r, c] == temp[r, c]
    {
      InvShiftRow(state, temp, i);
    }
    InvShiftRowsCells(temp, state);
    assert Cells(temp) == old(Cells(state));
  }

  /** The body of the column loop of `mixColumns`: column `col` is read into s0 .. s3 and
    * overwritten with its product by the MixColumns matrix, using `gmul`. */
  method MixColumn(state: array2<bv8>, col: nat)
    requires IsState(state) && col < 4
    modifies state
    ensures forall r, c :: 0 <= r < 4 && 0 <= c < 4 && c != col ==> state[r, c] == old(state[r, c])
    ensures state[0, col] == GF.MixCell(old(state[0, col]), old(state[1, col]), old(state[2, col]), old(state[3, col]))
    ensures state[1, col] == GF.MixCell(old(state[1, col]), old(state[2, col]), old(state[3, col]), old(state[0, col]))
    ensures state[2, col] == GF.MixCell(old(state[2, col]), old(state[3, col]), old(state[0, col]), old(state[1, col]))
    ensures state[3, col] == GF.MixCell(old(state[3, col]), old(state[0, col]), old(state[1, col]), old(state[2, col]))
  {
    var s0, s1, s2, s3 := state[0, col], state[1, col], state[2, col], state[3, col];
    var s0x2 := GF.GMul(s0, 2);
    var s1x3 := GF.GMul(s1, 3);
    MixRow0(s0, s1, s2, s3, s0x2, s1x3);
    state[0, col] := s0x2 ^ s1x3 ^ s2 ^ s3;
    var s1x2 := GF.GMul(s1, 2);
    var s2x3 := GF.GMul(s2, 3);
    MixRow1(s0, s1, s2, s3, s1x2, s2x3);
    state[1, col] := s0 ^ s1x2 ^ s2x3 ^ s3;
    var s2x2 := GF.GMul(s2, 2);
    var s3x3 := GF.GMul(s3, 3);
    MixRow2(s0, s1, s2, s3, s2x2, s3x3);
    state[2, col] := s0 ^ s1 ^ s2x2 ^ s3x3;
    var s0x3 := GF.GMul(s0, 3);
    var s3x2 := GF.GMul(s3, 2);
    MixRow3(s0, s1, s2, s3, s0x3, s3x2);
    state[3, col] := s0x3 ^ s1 ^ s2 ^ s3x2;
  }

  /** Column `col` of a state array holding the column of block `s` after `MixColumn`
    * holds the same column of MixColumns(s). */
  method MixColumnOf(state: array2<bv8>, col: nat, ghost s: Block)
    requires IsState(state) && col < 4
    requires forall r :: 0 <= r < 4 ==> state[r, col] == At(s, r, col)
    modifies state
    ensures forall r, c :: 0 <= r < 4 && 0 <= c < 4 && c != col ==> state[r, c] == old(state[r, c])
    ensures forall r :: 0 <= r < 4 ==> state[r, col] == At(Spec.MixColumns(s), r, col)
  {
    MixColumn(state, col);
    ColumnUpdated(GF.MixCell, s, col, state[0, col], state[1, col], state[2, col], state[3, col]);
    forall r | 0 <= r < 4 ensures state[r, col] == At(Spec.MixColumns(s), r, col) {
      if r == 0 {
      } else if r == 1 {
      } else if r == 2 {
      } else {
      }
    }
  }

  /** `mixColumns`: the columns mixed one by one, left to right. */
  method MixColumns(state: array2<bv8>)
    requires IsState(state)
    modifies state
    ensures Cells(state) == Spec.MixColumns(old(Cells(state)))
  {
    ghost var s := Cells(state);
    forall r, c | 0 <= r < 4 && 0 <= c < 4 ensures state[r, c] == At(s, r, c) {
      CellsAt(state, r, c);
    }
    for col := 0 to 4
      invariant forall r, c :: 0 <= r < 4 && 0 <= c < 4 ==>
        state[r, c] == if c < col then At(Spec.MixColumns(s), r, c) else At(s, r, c)
    {
      MixColumnOf(state, col, s);
    }
    CellsEq(state, Spec.MixColumns(s));
  }

  /** The body of the column loop of `invMixColumns`: column `col` is read into s0 .. s3
    * and overwritten with its product by the InvMixColumns matrix, using `gmul`. */
  method InvMixColumn(state: array2<bv8>, col: nat)
    requires IsState(state) && col < 4
    modifies state
    ensures forall r, c :: 0 <= r < 4 && 0 <= c < 4 && c != col ==> state[r, c] == old(state[r, c])
    ensures state[0, col] == GF.InvMixCell(old(state[0, col]), old(state[1, col]), old(state[2, col]), old(state[3, col]))
    ensures state[1, col] == GF.InvMixCell(old(state[1, col]), old(state[2, col]), old(state[3, col]), old(state[0, col]))
    ensures state[2, col] == GF.InvMixCell(old(state[2, col]), old(state[3, col]), old(state[0, col]), old(state[1, col]))
    ensures state[3, col] == GF.InvMixCell(old(state[3, col]), old(state[0, col]), old(state[1, col]), old(state[2, col]))
  {
    var s0, s1, s2, s3 := state[0, col], state[1, col], state[2, col], state[3, col];
    var p0 := GF.GMul(s0, 0x0e);
    var p1 := GF.GMul(s1, 0x0b);
    var p2 := GF.GMul(s2, 0x0d);
    var p3 := GF.GMul(s3, 0x09);
    InvMixRow0(s0, s1, s2, s3, p0, p1, p2, p3);
    state[0, col] := p0 ^ p1 ^ p2 ^ p3;
    p0 := GF.GMul(s0, 0x09);
    p1 := GF.GMul(s1, 0x0e);
    p2 := GF.GMul(s2, 0x0b);
    p3 := GF.GMul(s3, 0x0d);
    InvMixRow1(s0, s1, s2, s3, p0, p1, p2, p3);
    state[1, col] := p0 ^ p1 ^ p2 ^ p3;
    p0 := GF.GMul(s0, 0x0d);
    p1 := GF.GMul(s1, 0x09);
    p2 := GF.GMul(s2, 0x0e);
    p3 := GF.GMul(s3, 0x0b);
    InvMixRow2(s0, s1, s2, s3, p0, p1, p2, p3);
    state[2, col] := p0 ^ p1 ^ p2 ^ p3;
    p0 := GF.GMul(s0, 0x0b);
    p1 := GF.GMul(s1, 0x0d);
    p2 := GF.GMul(s2, 0x09);
    p3 := GF.GMul(s3, 0x0e);
    InvMixRow3(s0, s1, s2, s3, p0, p1, p2, p3);
    state[3, col] := p0 ^ p1 ^ p2 ^ p3;
  }

  /** Column `col` of a state array holding the column of block `s` after `InvMixColumn`
    * holds the same column of InvMixColumns(s). */
  method InvMixColumnOf(state: array2<bv8>, col: nat, ghost s: Block)
    requires IsState(state) && col < 4
    requires forall r :: 0 <= r < 4 ==> state[r, col] == At(s, r, col)
    modifies state
    ensures forall r, c :: 0 <= r < 4 && 0 <= c < 4 && c != col ==> state[r, c] == old(state[r, c])
    ensures forall r :: 0 <= r < 4 ==> state[r, col] == At(Spec.InvMixColumns(s), r, col)
  {
    InvMixColumn(state, col);
    ColumnUpdated(GF.InvMixCell, s, col, state[0, col], state[1, col], state[2, col], state[3, col]);
    forall r | 0 <= r < 4 ensures state[r, col] == At(Spec.InvMixColumns(s), r, col) {
      if r == 0 {
      } else if r == 1 {
      } else if r == 2 {
      } else {
      }
    }
  }

  /** `invMixColumns`: the columns unmixed one by one, left to right. */
  method InvMixColumns(state: array2<bv8>)
    requires IsState(state)
    modifies state
    ensures Cells(state) == Spec.InvMixColumns(old(Cells(state)))
  {
    ghost var s := Cells(state);
    forall r, c | 0 <= r < 4 && 0 <= c < 4 ensures state[r, c] == At(s, r, c) {
      CellsAt(state, r, c);
    }
    for col := 0 to 4
      invariant forall r, c :: 0 <= r < 4 && 0 <= c < 4 ==>
        state[r, c] == if c < col then At(Spec.InvMixColumns(s), r, c) else At(s, r, c)
    {
      InvMixColumnOf(state, col, s);
    }
    CellsEq(state, Spec.InvMixColumns(s));
  }

  /** `xorBlocks`: a new block whose cell (i, j) is the sum of cells (i, j) of `a` and `b`
    * (AddRoundKey, and the chaining step of CBC). */
  method XorBlocks(a: Block, b: Block) returns (result: array2<bv8>)
    ensures fresh(result) && IsState(result)
    ensures Cells(result) == Xor(a, b)
  {
    result := new bv8[4, 4];
    for i := 0 to 4
      invariant forall r, c :: 0 <= r < i && 0 <= c < 4 ==> result[r, c] == GF.Add(At(a, r, c), At(b, r, c))
    {
      for j := 0 to 4
        invariant forall r, c :: 0 <= r < 4 && 0 <= c < 4 && (r < i || (r == i && c < j)) ==>
          result[r, c] == GF.Add(At(a, r, c), At(b, r, c))
      {
        result[i, j] := At(a, i, j) ^ At(b, i, j);
      }
    }
    forall r, c | 0 <= r < 4 && 0 <= c < 4 ensures result[r, c] == At(Xor(a, b), r, c) {
      XorAt(a, b, r, c);
    }
    CellsEq(result, Xor(a, b));
  }

  /** The body of the round loop of `encryptBlock`: SubBytes, ShiftRows and MixColumns on
    * the state in place, then the round key added into a new block. */
  method CipherRound(state: array2<bv8>, key: Block) returns (next: array2<bv8>)
    requires IsState(state)
    modifies state
    ensures fresh(next) && IsState(next)
    ensures Cells(next) == Spec.Round(old(Cells(state)), key)
  {
    SubBytes(state);
    ShiftRows(state);
    MixColumns(state);
    next := XorBlocks(Cells(state), key);
  }


  /** `encryptBlock`: round key 0, rounds 1 to 9 (SubBytes, ShiftRows, MixColumns and the
    * round key), then SubBytes, ShiftRows and round key 10: the AES-128 cipher under the
    * first eleven round keys. */
  method EncryptBlock(input: Block, roundKeys: seq<Block>) returns (output: Block)
    requires |roundKeys| >= 11
    ensures output == Spec.Cipher(input, roundKeys[..11])
  {
    ghost var keys: Spec.RoundKeySet := roundKeys[..11];
    var state := XorBlocks(input, roundKeys[0]);
    ghost var first := Cells(state);
    var round := 1;
    while round < 10
      invariant 1 <= round <= 10
      invariant fresh(state) && IsState(state)
      invariant Cells(state) == Forward(Spec.Round, first, keys[1..round])
    {
      state := CipherRound(state, roundKeys[round]);
      ForwardStep(Spec.Round, first, keys, 1, round);
      round := round + 1;
    }
    SubBytes(state);
    ShiftRows(state);
    state := XorBlocks(Cells(state), roundKeys[10]);
    output := Cells(state);
  }

  /** The body of the round loop of `decryptBlock`: InvShiftRows and InvSubBytes on the state
    * in place, the round key added into a new block, then InvMixColumns on that block. */
  method InvCipherRound(state: array2<bv8>, key: Block) returns (next: array2<bv8>)
    requires IsState(state)
    modifies state
    ensures fresh(next) && IsState(next)
    ensures Cells(next) == Spec.InvRound(old(Cells(state)), key)
  {
    InvShiftRows(state);
    InvSubBytes(state);
    next := XorBlocks(Cells(state), key);
    InvMixColumns(next);
  }


  /** `decryptBlock`: round key 10, inverse rounds 9 down to 1 (InvShiftRows, InvSubBytes,
    * the round key, InvMixColumns), then InvShiftRows, InvSubBytes and round key 0: the
    * AES-128 inverse cipher under the first eleven round keys. */
  method DecryptBlock(input: Block, roundKeys: seq<Block>) returns (output: Block)
    requires |roundKeys| >= 11
    ensures output == Spec.InvCipher(input, roundKeys[..11])
  {
    ghost var keys: Spec.RoundKeySet := roundKeys[..11];
    var state := XorBlocks(input, roundKeys[10]);
    ghost var first := Cells(state);
    for round := 10 downto 1
      invariant fresh(state) && IsState(state)
      invariant Cells(state) == Backward(Spec.InvRound, first, keys[round..10])
    {
      state := InvCipherRound(state, roundKeys[round]);
      BackwardStep(Spec.InvRound, first, keys, round, 10);
    }
    InvShiftRows(state);
    InvSubBytes(state);
    state := XorBlocks(Cells(state), roundKeys[0]);
    output := Cells(state);
  }
}
