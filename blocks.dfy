/**
 * Blocks of 16 bytes -- the AES state and the unit of CBC -- and the byte-wise and
 * column-wise ways in which the AES transformations act on them.
 *
 * Byte (r, c) of a state -- row r, column c -- is at index r + 4 * c, the mapping of
 * section 3.4 of FIPS-197.
 */
module Blocks {
  import GF = GaloisField

  /** A 16-byte block or state. */
  type Block = s: seq<bv8> | |s| == 16
    witness [0, 0, 0, 0, 0, 0, 0, 0, 0, 0, 0, 0, 0, 0, 0, 0]

  /** The all-zero block. */
  const Zero: Block := [0, 0, 0, 0, 0, 0, 0, 0, 0, 0, 0, 0, 0, 0, 0, 0]

  /** Byte (r, c) of a state. */
  function At(s: Block, r: nat, c: nat): bv8
    requires r < 4 && c < 4
  {
    s[r + 4 * c]
  }

  /** Byte i of the result is `f` of the bytes i of `a` and `b`. */
  function Zip(f: (bv8, bv8) -> bv8, a: Block, b: Block): Block {
    seq(16, i requires 0 <= i < 16 => f(a[i], b[i]))
  }

  lemma ZipIndex(f: (bv8, bv8) -> bv8, a: Block, b: Block, i: nat)
    requires i < 16
    ensures Zip(f, a, b)[i] == f(a[i], b[i])
  {
  }

  /** Byte-wise addition of two blocks: AddRoundKey (section 5.1.4 of FIPS-197) and the CBC
    * chaining step. */
  function Xor(a: Block, b: Block): Block {
    Zip(GF.Add, a, b)
  }

  /** Adding the same block twice changes nothing. */
  lemma XorTwice(s: Block, k: Block)
    ensures Xor(Xor(s, k), k) == s
  {
    forall x, y ensures GF.Add(GF.Add(x, y), y) == x {
      GF.AddCancel(x, y);
    }
    ZipTwice(GF.Add, s, k);
  }

  /** A byte operation that `y` undoes twice over is undone on whole blocks. */
  lemma ZipTwice(f: (bv8, bv8) -> bv8, s: Block, k: Block)
    requires forall x, y :: f(f(x, y), y) == x
    ensures Zip(f, Zip(f, s, k), k) == s
  {
    ZipUndoneAt(f, s[0], k[0]);
    ZipUndoneAt(f, s[1], k[1]);
    ZipUndoneAt(f, s[2], k[2]);
    ZipUndoneAt(f, s[3], k[3]);
    ZipUndoneAt(f, s[4], k[4]);
    ZipUndoneAt(f, s[5], k[5]);
    ZipUndoneAt(f, s[6], k[6]);
    ZipUndoneAt(f, s[7], k[7]);
    ZipUndoneAt(f, s[8], k[8]);
    ZipUndoneAt(f, s[9], k[9]);
    ZipUndoneAt(f, s[10], k[10]);
    ZipUndoneAt(f, s[11], k[11]);
    ZipUndoneAt(f, s[12], k[12]);
    ZipUndoneAt(f, s[13], k[13]);
    ZipUndoneAt(f, s[14], k[14]);
    ZipUndoneAt(f, s[15], k[15]);
    Split(s);
  }

  lemma ZipUndoneAt(f: (bv8, bv8) -> bv8, x: bv8, y: bv8)
    requires forall x, y :: f(f(x, y), y) == x
    ensures f(f(x, y), y) == x
  {
  }

  /** Every byte of `s` through `f`. */
  function Bytewise(f: bv8 -> bv8, s: Block): Block {
    seq(16, i requires 0 <= i < 16 => f(s[i]))
  }

  /** Byte (r, c) of a byte-wise map is the map of byte (r, c). */
  lemma BytewiseAt(f: bv8 -> bv8, s: Block, r: nat, c: nat)
    requires r < 4 && c < 4
    ensures At(Bytewise(f, s), r, c) == f(At(s, r, c))
  {
  }

  /** Byte (r, c) of a sum is the sum of the bytes (r, c). */
  lemma XorAt(a: Block, b: Block, r: nat, c: nat)
    requires r < 4 && c < 4
    ensures At(Xor(a, b), r, c) == GF.Add(At(a, r, c), At(b, r, c))
  {
    XorIndex(a, b, r + 4 * c);
  }

  /** Byte i of a sum is the sum of the bytes i. */
  lemma XorIndex(a: Block, b: Block, i: nat)
    requires i < 16
    ensures Xor(a, b)[i] == GF.Add(a[i], b[i])
  {
    ZipIndex(GF.Add, a, b, i);
  }

  lemma UndoneAt(f: bv8 -> bv8, g: bv8 -> bv8, x: bv8)
    requires forall y :: g(f(y)) == y
    ensures g(f(x)) == x
  {
  }

  /** A byte map undone byte by byte is undone on whole blocks. */
  lemma BytewiseUndone(f: bv8 -> bv8, g: bv8 -> bv8, s: Block)
    requires forall y :: g(f(y)) == y
    ensures Bytewise(g, Bytewise(f, s)) == s
  {
    UndoneAt(f, g, s[0]);
    UndoneAt(f, g, s[1]);
    UndoneAt(f, g, s[2]);
    UndoneAt(f, g, s[3]);
    UndoneAt(f, g, s[4]);
    UndoneAt(f, g, s[5]);
    UndoneAt(f, g, s[6]);
    UndoneAt(f, g, s[7]);
    UndoneAt(f, g, s[8]);
    UndoneAt(f, g, s[9]);
    UndoneAt(f, g, s[10]);
    UndoneAt(f, g, s[11]);
    UndoneAt(f, g, s[12]);
    UndoneAt(f, g, s[13]);
    UndoneAt(f, g, s[14]);
    UndoneAt(f, g, s[15]);
    Split(s);
  }

  /** Blocks that agree in every row and column are equal. */
  lemma BlockEq(t: Block, u: Block)
    requires forall r, c :: 0 <= r < 4 && 0 <= c < 4 ==> At(t, r, c) == At(u, r, c)
    ensures t == u
  {
    assert At(t, 0, 0) == At(u, 0, 0) && At(t, 1, 0) == At(u, 1, 0) && At(t, 2, 0) == At(u, 2, 0) && At(t, 3, 0) == At(u, 3, 0);
    assert At(t, 0, 1) == At(u, 0, 1) && At(t, 1, 1) == At(u, 1, 1) && At(t, 2, 1) == At(u, 2, 1) && At(t, 3, 1) == At(u, 3, 1);
    assert At(t, 0, 2) == At(u, 0, 2) && At(t, 1, 2) == At(u, 1, 2) && At(t, 2, 2) == At(u, 2, 2) && At(t, 3, 2) == At(u, 3, 2);
    assert At(t, 0, 3) == At(u, 0, 3) && At(t, 1, 3) == At(u, 1, 3) && At(t, 2, 3) == At(u, 2, 3) && At(t, 3, 3) == At(u, 3, 3);
    Split(t);
    Split(u);
  }

  lemma Split(s: Block)
    ensures s == [s[0], s[1], s[2], s[3], s[4], s[5], s[6], s[7], s[8], s[9], s[10], s[11], s[12], s[13], s[14], s[15]]
  {
  }

  /** A function of one column: the value of the top cell given the column read downwards. */
  type Cell = (bv8, bv8, bv8, bv8) -> bv8

  /** Byte i of Columnwise(f, s): `f` applied to the column of byte i read downwards from
    * its row, wrapping round to the top. */
  function ColumnCell(f: Cell, s: Block, i: nat): bv8
    requires i < 16
  {
    var r, c := i % 4, i / 4;
    f(At(s, r, c), At(s, (r + 1) % 4, c), At(s, (r + 2) % 4, c), At(s, (r + 3) % 4, c))
  }

  /** Every byte of `s` through ColumnCell. */
  function Columnwise(f: Cell, s: Block): Block {
    seq(16, i requires 0 <= i < 16 => ColumnCell(f, s, i))
  }

  /** Byte (r, c) of the result is `f` of column c read downwards from row r. */
  lemma ColumnwiseAt(f: Cell, s: Block, r: nat, c: nat)
    requires r < 4 && c < 4
    ensures At(Columnwise(f, s), r, c)
         == f(At(s, r, c), At(s, (r + 1) % 4, c), At(s, (r + 2) % 4, c), At(s, (r + 3) % 4, c))
  {
    assert (r + 4 * c) % 4 == r && (r + 4 * c) / 4 == c;
  }

  /** Column c of the result, row by row. */
  lemma ColumnwiseColumn(f: Cell, s: Block, c: nat)
    requires c < 4
    ensures var t := Columnwise(f, s);
      && At(t, 0, c) == f(At(s, 0, c), At(s, 1, c), At(s, 2, c), At(s, 3, c))
      && At(t, 1, c) == f(At(s, 1, c), At(s, 2, c), At(s, 3, c), At(s, 0, c))
      && At(t, 2, c) == f(At(s, 2, c), At(s, 3, c), At(s, 0, c), At(s, 1, c))
      && At(t, 3, c) == f(At(s, 3, c), At(s, 0, c), At(s, 1, c), At(s, 2, c))
  {
    ColumnwiseRow(f, s, 0, 1, 2, 3, c);
    ColumnwiseRow(f, s, 1, 2, 3, 0, c);
    ColumnwiseRow(f, s, 2, 3, 0, 1, c);
    ColumnwiseRow(f, s, 3, 0, 1, 2, c);
  }

  /** ColumnwiseAt with the rows below r, wrapping round, named by the caller. */
  lemma ColumnwiseRow(f: Cell, s: Block, r: nat, r1: nat, r2: nat, r3: nat, c: nat)
    requires r < 4 && c < 4
    requires r1 == (r + 1) % 4 && r2 == (r + 2) % 4 && r3 == (r + 3) % 4
    ensures At(Columnwise(f, s), r, c) == f(At(s, r, c), At(s, r1, c), At(s, r2, c), At(s, r3, c))
  {
    ColumnwiseAt(f, s, r, c);
  }

  /** Bytes n0 .. n3 computed by `f` from column c of `s` are column c of Columnwise(f, s). */
  lemma ColumnUpdated(f: Cell, s: Block, c: nat, n0: bv8, n1: bv8, n2: bv8, n3: bv8)
    requires c < 4
    requires n0 == f(At(s, 0, c), At(s, 1, c), At(s, 2, c), At(s, 3, c))
    requires n1 == f(At(s, 1, c), At(s, 2, c), At(s, 3, c), At(s, 0, c))
    requires n2 == f(At(s, 2, c), At(s, 3, c), At(s, 0, c), At(s, 1, c))
    requires n3 == f(At(s, 3, c), At(s, 0, c), At(s, 1, c), At(s, 2, c))
    ensures var t := Columnwise(f, s);
      n0 == At(t, 0, c) && n1 == At(t, 1, c) && n2 == At(t, 2, c) && n3 == At(t, 3, c)
  {
    ColumnwiseColumn(f, s, c);
  }

  /** `g` recovers the top cell of every column that went through `f`. */
  ghost predicate UndoesColumn(g: Cell, f: Cell) {
    forall a, b, c, d :: g(f(a, b, c, d), f(b, c, d, a), f(c, d, a, b), f(d, a, b, c)) == a
  }

  lemma UndoesColumnAt(g: Cell, f: Cell, a: bv8, b: bv8, c: bv8, d: bv8)
    requires UndoesColumn(g, f)
    ensures g(f(a, b, c, d), f(b, c, d, a), f(c, d, a, b), f(d, a, b, c)) == a
  {
  }

  /** Column c survives `f` followed by `g`, both taken column by column. */
  lemma ColumnUndone(f: Cell, g: Cell, s: Block, c: nat)
    requires UndoesColumn(g, f)
    requires c < 4
    ensures var u := Columnwise(g, Columnwise(f, s));
      && At(u, 0, c) == At(s, 0, c) && At(u, 1, c) == At(s, 1, c)
      && At(u, 2, c) == At(s, 2, c) && At(u, 3, c) == At(s, 3, c)
  {
    var a, b, x, d := At(s, 0, c), At(s, 1, c), At(s, 2, c), At(s, 3, c);
    ColumnwiseColumn(f, s, c);
    ColumnwiseColumn(g, Columnwise(f, s), c);
    UndoesColumnAt(g, f, a, b, x, d);
    UndoesColumnAt(g, f, b, x, d, a);
    UndoesColumnAt(g, f, x, d, a, b);
    UndoesColumnAt(g, f, d, a, b, x);
  }

  /** A column map undone column by column is undone on whole blocks. */
  lemma ColumnwiseUndone(f: Cell, g: Cell, s: Block)
    requires UndoesColumn(g, f)
    ensures Columnwise(g, Columnwise(f, s)) == s
  {
    var u := Columnwise(g, Columnwise(f, s));
    ColumnUndone(f, g, s, 0);
    ColumnUndone(f, g, s, 1);
    ColumnUndone(f, g, s, 2);
    ColumnUndone(f, g, s, 3);
    Split(s);
    Split(u);
  }

  // Sequences of blocks.

  /** Bytes cut into blocks of sixteen, in order. */
  function Chunks(bytes: seq<bv8>): (blocks: seq<Block>)
    requires |bytes| % 16 == 0
    ensures |blocks| == |bytes| / 16
  {
    seq(|bytes| / 16, i requires 0 <= i < |bytes| / 16 => bytes[16 * i .. 16 * i + 16])
  }

  lemma ChunksIndex(bytes: seq<bv8>, i: nat)
    requires |bytes| % 16 == 0 && i < |bytes| / 16
    ensures Chunks(bytes)[i] == bytes[16 * i .. 16 * i + 16]
  {
  }

  /** Blocks written out one after the other. */
  function Flatten(blocks: seq<Block>): (bytes: seq<bv8>)
    ensures |bytes| == 16 * |blocks|
  {
    if blocks == [] then [] else Flatten(blocks[..|blocks| - 1]) + blocks[|blocks| - 1]
  }

  /** Byte j of block i lands at 16i + j. */
  lemma {:induction false} FlattenIndex(blocks: seq<Block>, i: nat, j: nat)
    requires i < |blocks| && j < 16
    ensures Flatten(blocks)[16 * i + j] == blocks[i][j]
    decreases |blocks|
  {
    var init := blocks[..|blocks| - 1];
    if i < |init| {
      FlattenIndex(init, i, j);
      assert init[i] == blocks[i];
    }
  }

  /** Cutting and writing out are inverse. */
  lemma FlattenChunks(bytes: seq<bv8>)
    requires |bytes| % 16 == 0
    ensures Flatten(Chunks(bytes)) == bytes
  {
    var blocks := Chunks(bytes);
    forall k | 0 <= k < |bytes| ensures Flatten(blocks)[k] == bytes[k] {
      var i, j := k / 16, k % 16;
      FlattenIndex(blocks, i, j);
      ChunksIndex(bytes, i);
    }
  }

  lemma ChunksFlatten(blocks: seq<Block>)
    ensures Chunks(Flatten(blocks)) == blocks
  {
    var bytes := Flatten(blocks);
    forall i | 0 <= i < |blocks| ensures Chunks(bytes)[i] == blocks[i] {
      ChunksIndex(bytes, i);
      forall j | 0 <= j < 16 ensures bytes[16 * i + j] == blocks[i][j] {
        FlattenIndex(blocks, i, j);
      }
    }
  }

  /** Writing out one more block appends its bytes. */
  lemma FlattenSnoc(blocks: seq<Block>, b: Block)
    ensures Flatten(blocks + [b]) == Flatten(blocks) + b
  {
    assert (blocks + [b])[..|blocks|] == blocks;
  }
}
