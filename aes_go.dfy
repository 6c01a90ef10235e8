/**
 * The Go AES-128 program.  A state is a slice of sixteen bytes, byte (row, col) at index
 * row + 4 * col, which the transformations change in place; the key schedule is one slice
 * of 176 bytes whose round key r is bytes 16r .. 16r + 15.  Slices become arrays; Go's
 * `make` is an array of zeros and Go's `copy` is `Copy`.
 */
module AesGo {
  import GF = GaloisField
  import opened AesTables
  import opened Blocks
  import opened Rounds
  import Cbc
  import Pkcs7
  import Spec = AesSpec

  datatype Result<T> = Success(value: T) | Failure(error: string)

  /** What `copy(dst, src)` leaves in a slice of n zeros: the first n bytes of `src`,
    * with zeros after them when `src` is shorter. */
  function Fit(src: seq<bv8>, n: nat): (r: seq<bv8>)
    ensures |r| == n
    ensures n <= |src| ==> r == src[..n]
    ensures |src| <= n ==> r[..|src|] == src && forall i :: |src| <= i < n ==> r[i] == 0
  {
    seq(n, i requires 0 <= i < n => if i < |src| then src[i] else 0)
  }

  /** Go's `copy(dst, src)`: as many bytes as both have, from the front. */
  method Copy(dst: array<bv8>, src: seq<bv8>) returns (copied: nat)
    modifies dst
    ensures copied == if |src| < dst.Length then |src| else dst.Length
    ensures dst[..copied] == src[..copied] && dst[copied..] == old(dst[copied..])
  {
    copied := if |src| < dst.Length then |src| else dst.Length;
    for i := 0 to copied
      invariant forall k :: 0 <= k < i ==> dst[k] == src[k]
      invariant forall k :: i <= k < dst.Length ==> dst[k] == old(dst[k])
    {
      dst[i] := src[i];
    }
  }

  /** `make` followed by `copy`: a fresh slice of n bytes holding Fit(src, n). */
  method MakeCopy(src: seq<bv8>, n: nat) returns (dst: array<bv8>)
    ensures fresh(dst) && dst[..] == Fit(src, n)
  {
    dst := new bv8[n](_ => 0);
    var copied := Copy(dst, src);
    assert dst[copied..] == seq(n - copied, _ => 0);
    forall i | 0 <= i < n ensures dst[i] == Fit(src, n)[i] {
      if i >= copied {
        assert dst[i] == dst[copied..][i - copied];
      } else {
        assert dst[i] == dst[..copied][i];
      }
    }
  }

  // The round transformations, on a state of sixteen bytes.

  /** `addRoundKey`: the first sixteen bytes of the round key added into the state. */
  method AddRoundKey(state: array<bv8>, roundKey: seq<bv8>)
    requires state.Length == 16 && |roundKey| >= 16
    modifies state
    ensures state[..] == Xor(old(state[..]), roundKey[..16])
  {
    ghost var s: Block := state[..];
    ghost var k: Block := roundKey[..16];
    for i := 0 to 16
      invariant forall j :: 0 <= j < 16 ==> state[j] == if j < i then GF.Add(s[j], k[j]) else s[j]
    {
      state[i] := state[i] ^ roundKey[i];
    }
    forall j | 0 <= j < 16 ensures state[j] == Xor(s, k)[j] {
      XorIndex(s, k, j);
    }
  }

  /** Every byte of the state replaced by its image under `f`, in index order. */
  method MapBytes(state: array<bv8>, f: bv8 -> bv8)
    requires state.Length == 16
    modifies state
    ensures state[..] == Bytewise(f, old(state[..]))
  {
    ghost var s: Block := state[..];
    for i := 0 to 16
      invariant forall j :: 0 <= j < 16 ==> state[j] == if j < i then f(s[j]) else s[j]
    {
      state[i] := f(state[i]);
    }
  }

  /** `subBytes`: the S-box looked up for every byte. */
  method SubBytes(state: array<bv8>)
    requires state.Length == 16
    modifies state
    ensures state[..] == Spec.SubBytes(old(state[..]))
  {
    MapBytes(state, SBox);
  }

  /** `invSubBytes`: the inverse S-box looked up for every byte. */
  method InvSubBytes(state: array<bv8>)
    requires state.Length == 16
    modifies state
    ensures state[..] == Spec.InvSubBytes(old(state[..]))
  {
    MapBytes(state, InvSBox);
  }

  /** `shiftRows`: row r rotated left by r places, by swaps through a temporary. */
  method ShiftRows(state: array<bv8>)
    requires state.Length == 16
    modifies state
    ensures state[..] == Spec.ShiftRows(old(state[..]))
  {
    ghost var s: Block := state[..];
    // Row 1: one place left.
    var temp := state[1];
    state[1] := state[5];
    state[5] := state[9];
    state[9] := state[13];
    state[13] := temp;
    // Row 2: two places.
    state[2], state[10] := state[10], state[2];
    state[6], state[14] := state[14], state[6];
    // Row 3: three places left.
    temp := state[15];
    state[15] := state[11];
    state[11] := state[7];
    state[7] := state[3];
    state[3] := temp;
    Shifted(state[..], s);
  }

  /** A block whose byte (r, c) is byte (r, (c + r) % 4) of `s` is ShiftRows(s). */
  lemma Shifted(t: Block, s: Block)
    requires t[0] == s[0] && t[4] == s[4] && t[8] == s[8] && t[12] == s[12]
    requires t[1] == s[5] && t[5] == s[9] && t[9] == s[13] && t[13] == s[1]
    requires t[2] == s[10] && t[6] == s[14] && t[10] == s[2] && t[14] == s[6]
    requires t[3] == s[15] && t[7] == s[3] && t[11] == s[7] && t[15] == s[11]
    ensures t == Spec.ShiftRows(s)
  {
    Split(t);
  }

  /** `invShiftRows`: row r rotated right by r places. */
  method InvShiftRows(state: array<bv8>)
    requires state.Length == 16
    modifies state
    ensures state[..] == Spec.InvShiftRows(old(state[..]))
  {
    ghost var s: Block := state[..];
    // Row 1: one place right.
    var temp := state[13];
    state[13] := state[9];
    state[9] := state[5];
    state[5] := state[1];
    state[1] := temp;
    // Row 2: two places.
    state[2], state[10] := state[10], state[2];
    state[6], state[14] := state[14], state[6];
    // Row 3: three places right.
    temp := state[3];
    state[3] := state[7];
    state[7] := state[11];
    state[11] := state[15];
    state[15] := temp;
    Unshifted(state[..], s);
  }

  /** A block whose byte (r, c) is byte (r, (c - r) % 4) of `s` is InvShiftRows(s). */
  lemma Unshifted(t: Block, s: Block)
    requires t[0] == s[0] && t[4] == s[4] && t[8] == s[8] && t[12] == s[12]
    requires t[1] == s[13] && t[5] == s[1] && t[9] == s[5] && t[13] == s[9]
    requires t[2] == s[10] && t[6] == s[14] && t[10] == s[2] && t[14] == s[6]
    requires t[3] == s[7] && t[7] == s[11] && t[11] == s[15] && t[15] == s[3]
    ensures t == Spec.InvShiftRows(s)
  {
    Split(t);
  }

  /** The right-hand sides of the loop body of `mixColumns`, from the column s0 .. s3:
    * line r is 2 s_r + 3 s_(r+1) + s_(r+2) + s_(r+3), its terms in Go's order in MixLine. */
  method MixWords(s0: bv8, s1: bv8, s2: bv8, s3: bv8) returns (n0: bv8, n1: bv8, n2: bv8, n3: bv8)
    ensures n0 == GF.MixCell(s0, s1, s2, s3) && n1 == GF.MixCell(s1, s2, s3, s0)
    ensures n2 == GF.MixCell(s2, s3, s0, s1) && n3 == GF.MixCell(s3, s0, s1, s2)
  {
    n0 := MixLine(s0, s1, s2, s3, 0);
    n1 := MixLine(s1, s2, s3, s0, 1);
    n2 := MixLine(s2, s3, s0, s1, 2);
    n3 := MixLine(s3, s0, s1, s2, 3);
  }

  /** Line r of the body of `mixColumns`, given the column rotated to start at row r:
    * a0 = s_r, a1 = s_(r+1) and so on.  Go writes the four terms starting from s0. */
  method MixLine(a0: bv8, a1: bv8, a2: bv8, a3: bv8, r: nat) returns (n: bv8)
    requires r < 4
    ensures n == GF.MixCell(a0, a1, a2, a3)
  {
    var p, q := Products(0x02, a0, 0x03, a1);
    if r == 0 {
      n := Xor4(p, q, a2, a3);
    } else if r == 1 {
      n := Xor4(a3, p, q, a2);
    } else if r == 2 {
      n := Xor4(a2, a3, p, q);
    } else {
      n := Xor4(q, a2, a3, p);
    }
  }

  /** The right-hand sides of the loop body of `invMixColumns`. */
  method InvMixWords(s0: bv8, s1: bv8, s2: bv8, s3: bv8) returns (n0: bv8, n1: bv8, n2: bv8, n3: bv8)
    ensures n0 == GF.InvMixCell(s0, s1, s2, s3) && n1 == GF.InvMixCell(s1, s2, s3, s0)
    ensures n2 == GF.InvMixCell(s2, s3, s0, s1) && n3 == GF.InvMixCell(s3, s0, s1, s2)
  {
    n0 := InvMixLine(s0, s1, s2, s3, 0);
    n1 := InvMixLine(s1, s2, s3, s0, 1);
    n2 := InvMixLine(s2, s3, s0, s1, 2);
    n3 := InvMixLine(s3, s0, s1, s2, 3);
  }

  /** Line r of the body of `invMixColumns`: 0e a0 + 0b a1 + 0d a2 + 09 a3 for the column
    * rotated to start at row r, its terms in Go's order. */
  method InvMixLine(a0: bv8, a1: bv8, a2: bv8, a3: bv8, r: nat) returns (n: bv8)
    requires r < 4
    ensures n == GF.InvMixCell(a0, a1, a2, a3)
  {
    var p0, p1, p2, p3 := InvMixProducts(0x0e, 0x0b, 0x0d, 0x09, a0, a1, a2, a3);
    if r == 0 {
      n := Xor4(p0, p1, p2, p3);
    } else if r == 1 {
      n := Xor4(p3, p0, p1, p2);
    } else if r == 2 {
      n := Xor4(p2, p3, p0, p1);
    } else {
      n := Xor4(p1, p2, p3, p0);
    }
  }

  /** The sum `a ^ b ^ c ^ d` of one line of `mixColumns` or `invMixColumns`, which is the
    * same in every rotation of its terms. */
  method Xor4(a: bv8, b: bv8, c: bv8, d: bv8) returns (n: bv8)
    ensures n == GF.Sum4(a, b, c, d) && n == GF.Sum4(b, c, d, a)
    ensures n == GF.Sum4(c, d, a, b) && n == GF.Sum4(d, a, b, c)
  {
    n := a ^ b ^ c ^ d;
    GF.XorRotations(a, b, c, d);
  }

  /** The two `gmul` calls of one line of `mixColumns`. */
  method Products(c0: bv8, s0: bv8, c1: bv8, s1: bv8) returns (p0: bv8, p1: bv8)
    ensures p0 == GF.FieldMul(c0, s0) && p1 == GF.FieldMul(c1, s1)
  {
    p0 := GF.GMul(c0, s0);
    p1 := GF.GMul(c1, s1);
  }

  /** The four `gmul` calls of one line of `invMixColumns`. */
  method InvMixProducts(c0: bv8, c1: bv8, c2: bv8, c3: bv8, s0: bv8, s1: bv8, s2: bv8, s3: bv8)
    returns (p0: bv8, p1: bv8, p2: bv8, p3: bv8)
    ensures p0 == GF.FieldMul(c0, s0) && p1 == GF.FieldMul(c1, s1)
    ensures p2 == GF.FieldMul(c2, s2) && p3 == GF.FieldMul(c3, s3)
  {
    p0 := GF.GMul(c0, s0);
    p1 := GF.GMul(c1, s1);
    p2 := GF.GMul(c2, s2);
    p3 := GF.GMul(c3, s3);
  }

  /** The stores of a column loop body: bytes 4i .. 4i + 3 take n0 .. n3, column i of the
    * block `t`. */
  method StoreColumn(state: array<bv8>, i: nat, n0: bv8, n1: bv8, n2: bv8, n3: bv8, ghost t: Block)
    requires state.Length == 16 && i < 4
    requires n0 == At(t, 0, i) && n1 == At(t, 1, i) && n2 == At(t, 2, i) && n3 == At(t, 3, i)
    modifies state
    ensures forall k :: 0 <= k < 16 && (k < 4 * i || 4 * i + 4 <= k) ==> state[k] == old(state[k])
    ensures forall r :: 0 <= r < 4 ==> state[r + 4 * i] == At(t, r, i)
  {
    state[i * 4] := n0;
    state[i * 4 + 1] := n1;
    state[i * 4 + 2] := n2;
    state[i * 4 + 3] := n3;
  }

  /** The body of the loop of `mixColumns` for column i: column i of a state holding
    * column i of block `s` becomes column i of MixColumns(s). */
  method MixColumn(state: array<bv8>, i: nat, ghost s: Block)
    requires state.Length == 16 && i < 4
    requires forall r :: 0 <= r < 4 ==> state[r + 4 * i] == At(s, r, i)
    modifies state
    ensures forall k :: 0 <= k < 16 && (k < 4 * i || 4 * i + 4 <= k) ==> state[k] == old(state[k])
    ensures forall r :: 0 <= r < 4 ==> state[r + 4 * i] == At(Spec.MixColumns(s), r, i)
  {
    var s0, s1, s2, s3 := state[i * 4], state[i * 4 + 1], state[i * 4 + 2], state[i * 4 + 3];
    assert s0 == At(s, 0, i) && s1 == At(s, 1, i) && s2 == At(s, 2, i) && s3 == At(s, 3, i);
    var n0, n1, n2, n3 := MixWords(s0, s1, s2, s3);
    ColumnUpdated(GF.MixCell, s, i, n0, n1, n2, n3);
    StoreColumn(state, i, n0, n1, n2, n3, Spec.MixColumns(s));
  }

  /** `mixColumns`: the columns mixed one by one, left to right. */
  method MixColumns(state: array<bv8>)
    requires state.Length == 16
    modifies state
    ensures state[..] == Spec.MixColumns(old(state[..]))
  {
    ghost var s: Block := state[..];
    for i := 0 to 4
      invariant forall r, c :: 0 <= r < 4 && 0 <= c < 4 ==>
        state[r + 4 * c] == if c < i then At(Spec.MixColumns(s), r, c) else At(s, r, c)
    {
      MixColumn(state, i, s);
    }
    BlockEq(state[..], Spec.MixColumns(s));
  }

  /** The body of the loop of `invMixColumns` for column i. */
  method InvMixColumn(state: array<bv8>, i: nat, ghost s: Block)
    requires state.Length == 16 && i < 4
    requires forall r :: 0 <= r < 4 ==> state[r + 4 * i] == At(s, r, i)
    modifies state
    ensures forall k :: 0 <= k < 16 && (k < 4 * i || 4 * i + 4 <= k) ==> state[k] == old(state[k])
    ensures forall r :: 0 <= r < 4 ==> state[r + 4 * i] == At(Spec.InvMixColumns(s), r, i)
  {
    var s0, s1, s2, s3 := state[i * 4], state[i * 4 + 1], state[i * 4 + 2], state[i * 4 + 3];
    assert s0 == At(s, 0, i) && s1 == At(s, 1, i) && s2 == At(s, 2, i) && s3 == At(s, 3, i);
    var n0, n1, n2, n3 := InvMixWords(s0, s1, s2, s3);
    ColumnUpdated(GF.InvMixCell, s, i, n0, n1, n2, n3);
    StoreColumn(state, i, n0, n1, n2, n3, Spec.InvMixColumns(s));
  }

  /** `invMixColumns`: the columns unmixed one by one, left to right. */
  method InvMixColumns(state: array<bv8>)
    requires state.Length == 16
    modifies state
    ensures state[..] == Spec.InvMixColumns(old(state[..]))
  {
    ghost var s: Block := state[..];
    for i := 0 to 4
      invariant forall r, c :: 0 <= r < 4 && 0 <= c < 4 ==>
        state[r + 4 * c] == if c < i then At(Spec.InvMixColumns(s), r, c) else At(s, r, c)
    {
      InvMixColumn(state, i, s);
    }
    BlockEq(state[..], Spec.InvMixColumns(s));
  }

  // The block cipher.

  /** The slice the block functions take for round r is round key r. */
  lemma RoundKeySlice(ek: seq<bv8>, r: nat)
    requires |ek| >= 176 && r < 11
    ensures ek[r * 16 .. (r + 1) * 16] == Spec.RoundKeys(ek)[r]
  {
    assert r * 16 == 16 * r && (r + 1) * 16 == 16 * r + 16;
  }

  /** A pass of the round loop of `encryptBlock`: SubBytes, ShiftRows, MixColumns and the
    * round key. */
  method CipherRound(state: array<bv8>, roundKey: seq<bv8>)
    requires state.Length == 16 && |roundKey| == 16
    modifies state
    ensures state[..] == Spec.Round(old(state[..]), roundKey)
  {
    SubBytes(state);
    ShiftRows(state);
    MixColumns(state);
    AddRoundKey(state, roundKey);
    assert roundKey[..16] == roundKey;
  }

  /** `encryptBlock`: the block as `copy` leaves it in sixteen zeros, round key 0, rounds
    * 1 to 9, then SubBytes, ShiftRows and round key 10: the AES-128 cipher under the round
    * keys of the schedule. */
  method EncryptBlock(block: seq<bv8>, expandedKey: seq<bv8>) returns (output: seq<bv8>)
    requires |expandedKey| >= 176
    ensures output == Spec.Cipher(Fit(block, 16), Spec.RoundKeys(expandedKey))
  {
    ghost var keys := Spec.RoundKeys(expandedKey);
    var state := MakeCopy(block, 16);
    ghost var input: Block := state[..];
    AddRoundKey(state, expandedKey[0..16]);
    assert expandedKey[0..16][..16] == keys[0];
    ghost var first: Block := state[..];
    assert first == Xor(input, keys[0]);
    CipherRounds(state, expandedKey);
    FinalRound(state, expandedKey);
    output := state[..];
  }

  /** The last round of `encryptBlock`: SubBytes, ShiftRows and round key 10. */
  method FinalRound(state: array<bv8>, expandedKey: seq<bv8>)
    requires state.Length == 16 && |expandedKey| >= 176
    modifies state
    ensures state[..] == Xor(Spec.SubShift(old(state[..])), Spec.RoundKeys(expandedKey)[10])
  {
    SubBytes(state);
    ShiftRows(state);
    RoundKeySlice(expandedKey, 10);
    AddRoundKey(state, expandedKey[10 * 16 .. 11 * 16]);
  }

  /** The round loop of `encryptBlock`: rounds 1 to 9. */
  method CipherRounds(state: array<bv8>, expandedKey: seq<bv8>)
    requires state.Length == 16 && |expandedKey| >= 176
    modifies state
    ensures state[..] == Forward(Spec.Round, old(state[..]), Spec.RoundKeys(expandedKey)[1..10])
  {
    ghost var keys := Spec.RoundKeys(expandedKey);
    ghost var first: Block := state[..];
    var round := 1;
    while round < 10
      invariant 1 <= round <= 10
      invariant state[..] == Forward(Spec.Round, first, keys[1..round])
    {
      RoundKeySlice(expandedKey, round);
      CipherRound(state, expandedKey[round * 16 .. (round + 1) * 16]);
      ForwardStep(Spec.Round, first, keys, 1, round);
      round := round + 1;
    }
  }

  /** A pass of the round loop of `decryptBlock`: the round key, InvMixColumns,
    * InvShiftRows, InvSubBytes. */
  function DecryptRound(s: Block, k: Block): Block {
    Spec.InvSubBytes(Spec.InvShiftRows(Spec.InvMixColumns(Xor(s, k))))
  }

  /** InvShiftRows then InvSubBytes, which `decryptBlock` does before its round loop. */
  function Unshift(s: Block): Block {
    Spec.InvSubBytes(Spec.InvShiftRows(s))
  }

  /** `decryptBlock` starts every round one step later than the inverse cipher of
    * section 5.3 of FIPS-197: a pass of its loop on Unshift(s) is Unshift of an inverse round. */
  lemma DecryptRoundShifted(s: Block, k: Block)
    ensures DecryptRound(Unshift(s), k) == Unshift(Spec.InvRound(s, k))
  {
  }

  /** So its whole round loop on Unshift(s) is Unshift of the inverse rounds. */
  lemma DecryptRounds(s: Block, ks: seq<Block>)
    ensures Backward(DecryptRound, Unshift(s), ks) == Unshift(Backward(Spec.InvRound, s, ks))
  {
    forall x, k ensures DecryptRound(Unshift(x), k) == Unshift(Spec.InvRound(x, k)) {
      DecryptRoundShifted(x, k);
    }
    BackwardThrough(Spec.InvRound, DecryptRound, Unshift, s, ks);
  }

  /** The body of the round loop of `decryptBlock`. */
  method DecipherRound(state: array<bv8>, roundKey: seq<bv8>)
    requires state.Length == 16 && |roundKey| == 16
    modifies state
    ensures state[..] == DecryptRound(old(state[..]), roundKey)
  {
    AddRoundKey(state, roundKey);
    assert roundKey[..16] == roundKey;
    InvMixColumns(state);
    InvShiftRows(state);
    InvSubBytes(state);
  }

  /** `decryptBlock`: round key 10, InvShiftRows and InvSubBytes, rounds 9 down to 1 (round
    * key, InvMixColumns, InvShiftRows, InvSubBytes), then round key 0: the AES-128 inverse
    * cipher under the round keys of the schedule. */
  method DecryptBlock(block: seq<bv8>, expandedKey: seq<bv8>) returns (output: seq<bv8>)
    requires |expandedKey| >= 176
    ensures output == Spec.InvCipher(Fit(block, 16), Spec.RoundKeys(expandedKey))
  {
    ghost var keys := Spec.RoundKeys(expandedKey);
    var state := MakeCopy(block, 16);
    ghost var input: Block := state[..];
    AddRoundKey(state, expandedKey[10 * 16 .. 11 * 16]);
    assert expandedKey[10 * 16 .. 11 * 16][..16] == keys[10];
    ghost var x: Block := state[..];
    assert x == Xor(input, keys[10]);
    InvShiftRows(state);
    InvSubBytes(state);
    ghost var first: Block := state[..];
    assert first == Unshift(x);
    DecipherRounds(state, expandedKey);
    ghost var last: Block := state[..];
    DecryptRounds(x, keys[1..10]);
    assert last == Unshift(Backward(Spec.InvRound, x, keys[1..10]));
    AddRoundKey(state, expandedKey[0..16]);
    assert expandedKey[0..16][..16] == keys[0];
    output := state[..];
  }

  /** The round loop of `decryptBlock`: rounds 9 down to 1. */
  method DecipherRounds(state: array<bv8>, expandedKey: seq<bv8>)
    requires state.Length == 16 && |expandedKey| >= 176
    modifies state
    ensures state[..] == Backward(DecryptRound, old(state[..]), Spec.RoundKeys(expandedKey)[1..10])
  {
    ghost var keys := Spec.RoundKeys(expandedKey);
    ghost var first: Block := state[..];
    for round := 10 downto 1
      invariant state[..] == Backward(DecryptRound, first, keys[round..10])
    {
      RoundKeySlice(expandedKey, round);
      DecipherRound(state, expandedKey[round * 16 .. (round + 1) * 16]);
      BackwardStep(DecryptRound, first, keys, round, 10);
    }
  }

  // The key schedule.

  /** A shorter fit is a prefix of a longer one. */
  lemma FitPrefix(src: seq<bv8>, m: nat, n: nat)
    requires m <= n
    ensures Fit(src, n)[..m] == Fit(src, m)
  {
  }

  /** `keyExpansion`: the key as `copy` leaves it in 176 zeros, then words 4 to 43, word i
    * being word i - 4 plus Temp of word i - 1: the AES-128 key expansion of the first
    * sixteen key bytes, zeros standing in for missing ones. */
  method KeyExpansion(key: seq<bv8>) returns (expandedKey: seq<bv8>)
    ensures expandedKey == Spec.KeyExpansion(Fit(key, 16))
  {
    var ek := MakeCopy(key, 176);
    ghost var k: Block := Fit(key, 16);
    ghost var spec := Spec.KeyExpansion(k);
    Spec.KeyExpansionKey(k);
    FitPrefix(key, 16, 176);
    for i := 4 to 44
      invariant ek[..4 * i] == spec[..4 * i]
    {
      Spec.KeyExpansionWord(k, i);
      ExpandWord(ek, i, spec);
    }
    assert ek[..] == ek[..176];
    expandedKey := ek[..];
  }

  /** The body of the loop of `keyExpansion` for word i: Temp of the previous word added
    * to word i - 4.  Given the first i words of a schedule `spec` in which word i is
    * made that way, it leaves the first i + 1 words. */
  method ExpandWord(expandedKey: array<bv8>, i: nat, ghost spec: seq<bv8>)
    requires expandedKey.Length == 176 && 4 <= i < 44 && |spec| == 176
    requires Spec.Word(spec, i) == Spec.AddWord(Spec.Word(spec, i - 4), Spec.Temp(Spec.Word(spec, i - 1), i))
    requires expandedKey[..4 * i] == spec[..4 * i]
    modifies expandedKey
    ensures expandedKey[..4 * i + 4] == spec[..4 * i + 4]
  {
    var temp := WordTemp(expandedKey, i);
    AddPrevious(expandedKey, i, temp);
    Spec.WordOfPrefix(spec, 4 * i, i - 1);
    Spec.WordOfPrefix(spec, 4 * i, i - 4);
    Spec.PrefixWord(spec, i);
  }

  /** The first part of the loop body: `temp` takes word i - 1 and, at the start of a round
    * key, is rotated, substituted and given round constant i / 4. */
  method WordTemp(expandedKey: array<bv8>, i: nat) returns (temp: array<bv8>)
    requires expandedKey.Length == 176 && 4 <= i < 44
    ensures fresh(temp) && temp.Length == 4
    ensures temp[..] == Spec.Temp(Spec.Word(expandedKey[..4 * i], i - 1), i)
  {
    ghost var w := Spec.Word(expandedKey[..4 * i], i - 1);
    temp := MakeCopy(expandedKey[(i - 1) * 4 .. i * 4], 4);
    assert temp[..] == w;
    if i % 4 == 0 {
      temp := StartTemp(temp, i);
    }
  }

  /** The branch of the loop body at the start of a round key: RotWord by `append`, the
    * SubWord loop, then round constant i / 4 added to the first byte. */
  method StartTemp(temp: array<bv8>, i: nat) returns (next: array<bv8>)
    requires temp.Length == 4 && 4 <= i < 44 && i % 4 == 0
    ensures fresh(next) && next.Length == 4 && next[..] == Spec.Temp(temp[..], i)
  {
    ghost var u := Spec.SubWord(Spec.RotWord(temp[..]));
    StartTempValue(temp[..], i);
    next := Rotated(temp);
    SubWord(next);
    assert next[..] == u;
    AddToFirst(next, Rcon[i / 4]);
  }

  /** `temp[0] ^= c`. */
  method AddToFirst(temp: array<bv8>, c: bv8)
    requires temp.Length == 4
    modifies temp
    ensures temp[..] == old(temp[..])[0 := GF.Add(old(temp[0]), c)]
  {
    temp[0] := temp[0] ^ c;
  }

  /** Temp at the start of a round key, as the three steps of the branch compute it. */
  lemma StartTempValue(w: seq<bv8>, i: nat)
    requires |w| == 4 && 4 <= i < 44 && i % 4 == 0
    ensures var u := Spec.SubWord(Spec.RotWord(w));
      Spec.Temp(w, i) == u[0 := GF.Add(u[0], Rcon[i / 4])]
  {
  }

  /** `append(temp[1:], temp[0])`: a new slice, the word rotated left by one byte. */
  method Rotated(temp: array<bv8>) returns (rotated: array<bv8>)
    requires temp.Length == 4
    ensures fresh(rotated) && rotated[..] == Spec.RotWord(temp[..])
  {
    rotated := new bv8[4];
    rotated[0], rotated[1], rotated[2], rotated[3] := temp[1], temp[2], temp[3], temp[0];
  }

  /** The SubWord loop of `keyExpansion`: the S-box looked up for every byte of the word. */
  method SubWord(temp: array<bv8>)
    requires temp.Length == 4
    modifies temp
    ensures temp[..] == Spec.SubWord(old(temp[..]))
  {
    MapWord(temp, SBox);
  }

  /** The loop of the SubWord step, for any byte table `f`: every byte of the word through `f`. */
  method MapWord(temp: array<bv8>, f: bv8 -> bv8)
    requires temp.Length == 4
    modifies temp
    ensures temp[..] == [f(old(temp[0])), f(old(temp[1])), f(old(temp[2])), f(old(temp[3]))]
  {
    ghost var w := temp[..];
    for j := 0 to 4
      invariant forall m :: 0 <= m < j ==> temp[m] == f(w[m])
      invariant forall m :: j <= m < 4 ==> temp[m] == w[m]
    {
      temp[j] := f(temp[j]);
    }
  }

  /** The last loop of the body: word i is word i - 4 plus `temp`, and the words before it
    * stay as they were. */
  method AddPrevious(expandedKey: array<bv8>, i: nat, temp: array<bv8>)
    requires expandedKey.Length == 176 && temp.Length == 4 && expandedKey != temp && 4 <= i < 44
    modifies expandedKey
    ensures var ks := old(expandedKey[..4 * i]);
      expandedKey[..4 * i + 4] == ks + Spec.AddWord(Spec.Word(ks, i - 4), temp[..])
  {
    ghost var ks := expandedKey[..4 * i];
    for j := 0 to 4
      invariant expandedKey[..4 * i] == ks
      invariant forall m :: 0 <= m < j ==> expandedKey[4 * i + m] == GF.Add(ks[4 * i - 16 + m], temp[m])
    {
      expandedKey[i * 4 + j] := expandedKey[(i - 4) * 4 + j] ^ temp[j];
    }
    assert expandedKey[..4 * i + 4] == ks + Spec.AddWord(Spec.Word(ks, i - 4), temp[..]);
  }

  // CBC mode with PKCS#7 padding.

  /** The round keys of the schedule `keyExpansion` makes from `key`. */
  function KeysOf(key: seq<bv8>): Spec.RoundKeySet {
    Spec.RoundKeys(Spec.KeyExpansion(Fit(key, 16)))
  }

  /** What `encryptAES_CBC` returns: the plaintext padded to whole blocks by PKCS#7, in CBC
    * mode under the round keys of `key` with the first sixteen bytes of `iv`. */
  function CbcEncryption(plaintext: seq<bv8>, key: seq<bv8>, iv: seq<bv8>): (c: seq<bv8>)
    ensures |c| == |plaintext| + Pkcs7.PadLength(|plaintext|, 16)
    ensures |plaintext| < |c| <= |plaintext| + 16 && |c| % 16 == 0
  {
    PaddedLength(|plaintext|);
    var padded := Pkcs7.Pad(plaintext, 16);
    var blocks := Chunks(padded);
    assert 16 * |blocks| == |padded|;
    Flatten(Cbc.Encrypt(Spec.Encipher(KeysOf(key)), blocks, Fit(iv, 16)))
  }

  /** What `decryptAES_CBC` returns: an error for a ciphertext that is not whole blocks,
    * otherwise the CBC decryption with the lenient PKCS#7 unpadding. */
  function CbcDecryption(ciphertext: seq<bv8>, key: seq<bv8>, iv: seq<bv8>): (r: Result<seq<bv8>>)
    ensures r.Failure? <==> |ciphertext| % 16 != 0
    ensures r.Success? ==> |r.value| <= |ciphertext|
  {
    if |ciphertext| % 16 != 0 then Failure("invalid ciphertext size")
    else Success(Pkcs7.Unpad(Flatten(Cbc.Decrypt(Spec.Decipher(KeysOf(key)), Chunks(ciphertext), Fit(iv, 16)))))
  }

  /** Decrypting what encryption returned gives back the plaintext, for every plaintext,
    * key and IV. */
  lemma CbcRoundTrip(plaintext: seq<bv8>, key: seq<bv8>, iv: seq<bv8>)
    ensures CbcDecryption(CbcEncryption(plaintext, key, iv), key, iv) == Success(plaintext)
  {
    var keys, iv16 := KeysOf(key), Fit(iv, 16);
    var padded := Pkcs7.Pad(plaintext, 16);
    var blocks := Cbc.Encrypt(Spec.Encipher(keys), Chunks(padded), iv16);
    ChunksFlatten(blocks);
    Spec.CbcRoundTrip(Chunks(padded), keys, iv16);
    FlattenChunks(padded);
    Pkcs7.RoundTrip(plaintext, 16);
  }

  /** The XOR loop of `encryptAES_CBC`: a new block, the plaintext block at offset i plus
    * the previous block. */
  method ChainedBlock(padded: seq<bv8>, i: nat, prevBlock: seq<bv8>) returns (block: array<bv8>)
    requires i + 16 <= |padded| && |prevBlock| >= 16
    ensures fresh(block) && block[..] == Xor(padded[i .. i + 16], prevBlock[..16])
  {
    ghost var p: Block := padded[i .. i + 16];
    ghost var q: Block := prevBlock[..16];
    block := new bv8[16](_ => 0);
    for j := 0 to 16
      invariant forall m :: 0 <= m < j ==> block[m] == GF.Add(p[m], q[m])
    {
      block[j] := padded[i + j] ^ prevBlock[j];
    }
    forall m | 0 <= m < 16 ensures block[m] == Xor(p, q)[m] {
      XorIndex(p, q, m);
    }
  }

  /** `copy(ciphertext[i:], encrypted)`: sixteen bytes stored at offset i. */
  method Store(out: array<bv8>, i: nat, bytes: seq<bv8>)
    requires |bytes| == 16 && i + 16 <= out.Length
    modifies out
    ensures out[..i + 16] == old(out[..i]) + bytes
  {
    for j := 0 to 16
      invariant out[..i] == old(out[..i])
      invariant forall m :: 0 <= m < j ==> out[i + m] == bytes[m]
    {
      out[i + j] := bytes[j];
    }
    assert out[..i + 16] == old(out[..i]) + bytes;
  }

  /** The bytes `PadLength` adds bring the length to whole blocks. */
  lemma PaddedLength(len: nat)
    ensures len < len + Pkcs7.PadLength(len, 16) <= len + 16
    ensures (len + Pkcs7.PadLength(len, 16)) % 16 == 0
  {
    var q := len / 16;
    assert len + Pkcs7.PadLength(len, 16) == 16 * q + 16;
  }

  /** One more block of CBC encryption: the block enciphered after the chained block, which
    * it then becomes. */
  lemma EncryptNext(e: Block -> Block, blocks: seq<Block>, iv16: Block, n: nat, prev: Block, encrypted: Block)
    requires n < |blocks| && prev == Cbc.Chain(Cbc.Encrypt(e, blocks[..n], iv16), iv16)
    requires encrypted == e(Xor(blocks[n], prev))
    ensures encrypted == Cbc.Chain(Cbc.Encrypt(e, blocks[..n + 1], iv16), iv16)
    ensures Flatten(Cbc.Encrypt(e, blocks[..n + 1], iv16)) == Flatten(Cbc.Encrypt(e, blocks[..n], iv16)) + encrypted
  {
    Cbc.EncryptSnoc(e, blocks, iv16, n);
    FlattenSnoc(Cbc.Encrypt(e, blocks[..n], iv16), encrypted);
  }

  /** One more block of CBC decryption: the deciphered block plus the block before it. */
  lemma DecryptNext(d: Block -> Block, blocks: seq<Block>, iv16: Block, n: nat, prev: Block)
    requires n < |blocks| && prev == if n == 0 then iv16 else blocks[n - 1]
    ensures Flatten(Cbc.Decrypt(d, blocks[..n + 1], iv16)) == Flatten(Cbc.Decrypt(d, blocks[..n], iv16)) + Xor(d(blocks[n]), prev)
  {
    Cbc.DecryptSnoc(d, blocks, iv16, n);
    FlattenSnoc(Cbc.Decrypt(d, blocks[..n], iv16), Xor(d(blocks[n]), prev));
  }

  /** `e` is the block cipher under the key schedule `ek`. */
  ghost predicate Enciphers(e: Block -> Block, ek: seq<bv8>) {
    |ek| >= 176 && forall x {:trigger Spec.Cipher(x, Spec.RoundKeys(ek))} :: e(x) == Spec.Cipher(x, Spec.RoundKeys(ek))
  }

  /** `d` is the inverse cipher under the key schedule `ek`. */
  ghost predicate Deciphers(d: Block -> Block, ek: seq<bv8>) {
    |ek| >= 176 && forall x {:trigger Spec.InvCipher(x, Spec.RoundKeys(ek))} :: d(x) == Spec.InvCipher(x, Spec.RoundKeys(ek))
  }

  /** EncryptBlock on a whole block, seen through the cipher `e` it computes. */
  method EncipherBlock(block: seq<bv8>, expandedKey: seq<bv8>, ghost e: Block -> Block) returns (output: seq<bv8>)
    requires |block| == 16 && Enciphers(e, expandedKey)
    ensures output == e(block)
  {
    assert Fit(block, 16) == block[..16] == block;
    output := EncryptBlock(block, expandedKey);
  }

  /** DecryptBlock on a whole block, seen through the inverse cipher `d` it computes. */
  method DecipherBlock(block: seq<bv8>, expandedKey: seq<bv8>, ghost d: Block -> Block) returns (output: seq<bv8>)
    requires |block| == 16 && Deciphers(d, expandedKey)
    ensures output == d(block)
  {
    assert Fit(block, 16) == block[..16] == block;
    output := DecryptBlock(block, expandedKey);
  }

  /** `blocks` are the bytes cut into sixteen-byte blocks, in order. */
  ghost predicate BlocksOf(bytes: seq<bv8>, blocks: seq<Block>) {
    |bytes| == 16 * |blocks| && forall k :: 0 <= k < |blocks| ==> blocks[k] == bytes[16 * k .. 16 * k + 16]
  }

  lemma ChunksAreBlocks(bytes: seq<bv8>)
    requires |bytes| % 16 == 0
    ensures BlocksOf(bytes, Chunks(bytes))
  {
    forall k | 0 <= k < |bytes| / 16 ensures Chunks(bytes)[k] == bytes[16 * k .. 16 * k + 16] {
      ChunksIndex(bytes, k);
    }
  }

  /** `encryptAES_CBC`, without its error result, which is always nil.  An IV shorter than
    * a block makes the program fail on its first block. */
  method EncryptCbc(plaintext: seq<bv8>, key: seq<bv8>, iv: seq<bv8>) returns (ciphertext: seq<bv8>)
    requires |iv| >= 16
    ensures ciphertext == CbcEncryption(plaintext, key, iv)
  {
    var padded := Pkcs7.Pad(plaintext, 16);
    PaddedLength(|plaintext|);
    var expandedKey := KeyExpansion(key);
    ChunksAreBlocks(padded);
    ghost var e := Spec.Encipher(Spec.RoundKeys(expandedKey));
    ciphertext := EncryptBlocks(padded, expandedKey, iv, Chunks(padded), e);
  }

  /** The block loop of `encryptAES_CBC` over the padded plaintext. */
  method EncryptBlocks(padded: seq<bv8>, expandedKey: seq<bv8>, iv: seq<bv8>, ghost blocks: seq<Block>, ghost e: Block -> Block)
    returns (ciphertext: seq<bv8>)
    requires BlocksOf(padded, blocks) && |expandedKey| >= 176 && |iv| >= 16
    requires Enciphers(e, expandedKey)
    ensures ciphertext == Flatten(Cbc.Encrypt(e, blocks, Fit(iv, 16)))
  {
    var out := new bv8[|padded|](_ => 0);
    var prevBlock := iv;
    var i := 0;
    ghost var n := 0;
    while i < |padded|
      invariant i == 16 * n && n <= |blocks|
      invariant prevBlock == if n == 0 then iv else Cbc.Chain(Cbc.Encrypt(e, blocks[..n], Fit(iv, 16)), Fit(iv, 16))
      invariant out[..i] == Flatten(Cbc.Encrypt(e, blocks[..n], Fit(iv, 16)))
    {
      prevBlock := EncryptStep(padded, expandedKey, iv, out, i, prevBlock, blocks, e, n);
      i := i + 16;
      n := n + 1;
    }
    assert blocks[..n] == blocks;
    assert out[..] == out[..i];
    ciphertext := out[..];
  }


  /** A pass of the block loop of `encryptAES_CBC`: the plaintext block at offset i plus the
    * previous block, enciphered and stored at offset i. */
  method EncryptStep(padded: seq<bv8>, expandedKey: seq<bv8>, iv: seq<bv8>, out: array<bv8>, i: nat,
                     prevBlock: seq<bv8>, ghost blocks: seq<Block>, ghost e: Block -> Block, ghost n: nat)
    returns (encrypted: seq<bv8>)
    requires BlocksOf(padded, blocks) && i == 16 * n && n < |blocks| && i + 16 <= |padded| == out.Length
    requires |expandedKey| >= 176 && |iv| >= 16
    requires Enciphers(e, expandedKey)
    requires prevBlock == if n == 0 then iv else Cbc.Chain(Cbc.Encrypt(e, blocks[..n], Fit(iv, 16)), Fit(iv, 16))
    requires out[..i] == Flatten(Cbc.Encrypt(e, blocks[..n], Fit(iv, 16)))
    modifies out
    ensures encrypted == e(Xor(blocks[n], prevBlock[..16]))
    ensures encrypted == Cbc.Chain(Cbc.Encrypt(e, blocks[..n + 1], Fit(iv, 16)), Fit(iv, 16))
    ensures out[..i + 16] == Flatten(Cbc.Encrypt(e, blocks[..n + 1], Fit(iv, 16)))
  {
    assert blocks[n] == padded[i .. i + 16];
    assert prevBlock[..16] == Cbc.Chain(Cbc.Encrypt(e, blocks[..n], Fit(iv, 16)), Fit(iv, 16));
    var block := ChainedBlock(padded, i, prevBlock);
    encrypted := EncipherBlock(block[..], expandedKey, e);
    Store(out, i, encrypted);
    EncryptNext(e, blocks, Fit(iv, 16), n, prevBlock[..16], encrypted);
  }


  /** The XOR loop of `decryptAES_CBC`: the deciphered block plus the previous block,
    * stored at offset i. */
  method StoreChained(plaintext: array<bv8>, i: nat, decrypted: seq<bv8>, prevBlock: seq<bv8>)
    requires |decrypted| == 16 && |prevBlock| >= 16 && i + 16 <= plaintext.Length
    modifies plaintext
    ensures plaintext[..i + 16] == old(plaintext[..i]) + Xor(decrypted, prevBlock[..16])
  {
    ghost var p: Block := decrypted;
    ghost var q: Block := prevBlock[..16];
    for j := 0 to 16
      invariant plaintext[..i] == old(plaintext[..i])
      invariant forall m :: 0 <= m < j ==> plaintext[i + m] == GF.Add(p[m], q[m])
    {
      plaintext[i + j] := decrypted[j] ^ prevBlock[j];
    }
    forall m | 0 <= m < 16 ensures plaintext[i + m] == Xor(p, q)[m] {
      XorIndex(p, q, m);
    }
    assert plaintext[..i + 16] == old(plaintext[..i]) + Xor(p, q);
  }

  /** `decryptAES_CBC`.  The IV is read only when there is a block to decrypt; a shorter
    * one then makes the program fail. */
  method DecryptCbc(ciphertext: seq<bv8>, key: seq<bv8>, iv: seq<bv8>) returns (r: Result<seq<bv8>>)
    requires |iv| >= 16 || |ciphertext| % 16 != 0 || ciphertext == []
    ensures r == CbcDecryption(ciphertext, key, iv)
  {
    if |ciphertext| % 16 != 0 {
      return Failure("invalid ciphertext size");
    }
    var expandedKey := KeyExpansion(key);
    ChunksAreBlocks(ciphertext);
    ghost var d := Spec.Decipher(Spec.RoundKeys(expandedKey));
    var plaintext := DecryptBlocks(ciphertext, expandedKey, iv, Chunks(ciphertext), d);
    r := Success(Pkcs7.Unpad(plaintext));
  }

  /** The block loop of `decryptAES_CBC`, before the padding is removed. */
  method DecryptBlocks(ciphertext: seq<bv8>, expandedKey: seq<bv8>, iv: seq<bv8>, ghost blocks: seq<Block>, ghost d: Block -> Block)
    returns (plaintext: seq<bv8>)
    requires BlocksOf(ciphertext, blocks) && |expandedKey| >= 176 && (|iv| >= 16 || ciphertext == [])
    requires Deciphers(d, expandedKey)
    ensures plaintext == Flatten(Cbc.Decrypt(d, blocks, Fit(iv, 16)))
  {
    var out := new bv8[|ciphertext|](_ => 0);
    var prevBlock := iv;
    var i := 0;
    ghost var n := 0;
    while i < |ciphertext|
      invariant i == 16 * n && n <= |blocks|
      invariant prevBlock == if n == 0 then iv else blocks[n - 1]
      invariant out[..i] == Flatten(Cbc.Decrypt(d, blocks[..n], Fit(iv, 16)))
    {
      prevBlock := DecryptStep(ciphertext, expandedKey, iv, out, i, prevBlock, blocks, d, n);
      i := i + 16;
      n := n + 1;
    }
    assert blocks[..n] == blocks;
    assert out[..] == out[..i];
    plaintext := out[..];
  }


  /** A pass of the block loop of `decryptAES_CBC`: the ciphertext block at offset i
    * deciphered, added to the previous block and stored at offset i. */
  method DecryptStep(ciphertext: seq<bv8>, expandedKey: seq<bv8>, iv: seq<bv8>, plaintext: array<bv8>, i: nat,
                     prevBlock: seq<bv8>, ghost blocks: seq<Block>, ghost d: Block -> Block, ghost n: nat)
    returns (block: seq<bv8>)
    requires BlocksOf(ciphertext, blocks) && i == 16 * n && n < |blocks| && i + 16 <= |ciphertext| == plaintext.Length
    requires |expandedKey| >= 176 && (|iv| >= 16 || ciphertext == [])
    requires Deciphers(d, expandedKey)
    requires prevBlock == if n == 0 then iv else blocks[n - 1]
    requires plaintext[..i] == Flatten(Cbc.Decrypt(d, blocks[..n], Fit(iv, 16)))
    modifies plaintext
    ensures block == blocks[n]
    ensures plaintext[..i + 16] == old(plaintext[..i]) + Xor(d(block), prevBlock[..16])
    ensures plaintext[..i + 16] == Flatten(Cbc.Decrypt(d, blocks[..n + 1], Fit(iv, 16)))
  {
    block := ciphertext[i .. i + 16];
    assert blocks[n] == block;
    var decrypted := DecipherBlock(block, expandedKey, d);
    ghost var before := plaintext[..i];
    StoreChained(plaintext, i, decrypted, prevBlock);
    assert prevBlock[..16] == if n == 0 then Fit(iv, 16) else blocks[n - 1];
    ChainedPrefix(d, blocks, Fit(iv, 16), n, prevBlock[..16], before, plaintext[..i + 16], decrypted);
  }

  /** Appending block n of the chain to the first n decrypted blocks gives the first n + 1. */
  lemma ChainedPrefix(d: Block -> Block, blocks: seq<Block>, iv16: Block, n: nat, prev: Block,
                      before: seq<bv8>, after: seq<bv8>, decrypted: Block)
    requires n < |blocks| && prev == (if n == 0 then iv16 else blocks[n - 1])
    requires before == Flatten(Cbc.Decrypt(d, blocks[..n], iv16)) && decrypted == d(blocks[n])
    requires after == before + Xor(decrypted, prev)
    ensures after == Flatten(Cbc.Decrypt(d, blocks[..n + 1], iv16))
  {
    DecryptNext(d, blocks, iv16, n, prev);
  }


}
