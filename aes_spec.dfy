/**
 * AES-128 as specified by FIPS-197: the four state transformations and their inverses,
 * the key schedule, the cipher and the inverse cipher, and the cipher in CBC mode.
 * Both programs are proved against the functions of this module.
 */
module AesSpec {
  import GF = GaloisField
  import opened AesTables
  import opened Blocks
  import opened Rounds
  import Cbc

  // The state transformations (section 5.1) and their inverses (section 5.3).

  /** SubBytes (section 5.1.1): every byte through the S-box. */
  function SubBytes(s: Block): Block {
    Bytewise(SBox, s)
  }

  /** InvSubBytes (section 5.3.2). */
  function InvSubBytes(s: Block): Block {
    Bytewise(InvSBox, s)
  }

  /** ShiftRows (section 5.1.2), written out column by column; ShiftRowsAt states the rule. */
  function ShiftRows(s: Block): Block {
    [
      s[0], s[5], s[10], s[15],
      s[4], s[9], s[14], s[3],
      s[8], s[13], s[2], s[7],
      s[12], s[1], s[6], s[11]
    ]
  }

  /** InvShiftRows (section 5.3.1); InvShiftRowsAt states the rule. */
  function InvShiftRows(s: Block): Block {
    [
      s[0], s[13], s[10], s[7],
      s[4], s[1], s[14], s[11],
      s[8], s[5], s[2], s[15],
      s[12], s[9], s[6], s[3]
    ]
  }

  /** MixColumns (section 5.1.3): every column multiplied by the matrix whose rows are
    * 02 03 01 01 rotated right once per row. */
  function MixColumns(s: Block): Block {
    Columnwise(GF.MixCell, s)
  }

  /** InvMixColumns (section 5.3.3): the matrix with rows 0e 0b 0d 09. */
  function InvMixColumns(s: Block): Block {
    Columnwise(GF.InvMixCell, s)
  }

  /** Row r of the state is rotated left by r places. */
  lemma ShiftRowsAt(s: Block, r: nat, c: nat)
    requires r < 4 && c < 4
    ensures At(ShiftRows(s), r, c) == At(s, r, (c + r) % 4)
  {
  }

  /** Row r of the state is rotated right by r places. */
  lemma InvShiftRowsAt(s: Block, r: nat, c: nat)
    requires r < 4 && c < 4
    ensures At(InvShiftRows(s), r, c) == At(s, r, (c + 4 - r) % 4)
  {
  }

  /** Byte (r, c) of MixColumns is the product of row r of the matrix with column c. */
  lemma MixColumnsAt(s: Block, r: nat, c: nat)
    requires r < 4 && c < 4
    ensures At(MixColumns(s), r, c)
         == GF.MixCell(At(s, r, c), At(s, (r + 1) % 4, c), At(s, (r + 2) % 4, c), At(s, (r + 3) % 4, c))
  {
    ColumnwiseAt(GF.MixCell, s, r, c);
  }

  lemma InvSubBytesUndoes(s: Block)
    ensures InvSubBytes(SubBytes(s)) == s
  {
    forall y: bv8 ensures InvSBox(SBox(y)) == y {
      SBoxInverse(y);
    }
    BytewiseUndone(SBox, InvSBox, s);
  }

  lemma InvShiftRowsUndoes(s: Block)
    ensures InvShiftRows(ShiftRows(s)) == s
  {
  }

  lemma InvMixColumnsUndoes(s: Block)
    ensures InvMixColumns(MixColumns(s)) == s
  {
    forall a, b, c, d
      ensures GF.InvMixCell(GF.MixCell(a, b, c, d), GF.MixCell(b, c, d, a), GF.MixCell(c, d, a, b), GF.MixCell(d, a, b, c)) == a
    {
      GF.InvMixRow(a, b, c, d);
    }
    ColumnwiseUndone(GF.MixCell, GF.InvMixCell, s);
  }

  // Key expansion (section 5.2), word by word: word i occupies bytes 4i .. 4i+3.

  /** RotWord: the cyclic left rotation of a word. */
  function RotWord(w: seq<bv8>): seq<bv8>
    requires |w| == 4
  {
    [w[1], w[2], w[3], w[0]]
  }

  /** SubWord: the S-box applied to each byte of a word. */
  function SubWord(w: seq<bv8>): seq<bv8>
    requires |w| == 4
  {
    [SBox(w[0]), SBox(w[1]), SBox(w[2]), SBox(w[3])]
  }

  /** The word added to word i - 4 to give word i, computed from the previous word `w`:
    * at the start of every round key it is rotated, substituted and given the round constant. */
  function Temp(w: seq<bv8>, i: nat): (t: seq<bv8>)
    requires |w| == 4 && i < 44
    ensures |t| == 4
  {
    if i % 4 == 0 then
      var u := SubWord(RotWord(w));
      [GF.Add(u[0], Rcon[i / 4]), u[1], u[2], u[3]]
    else
      w
  }

  /** Word i of a schedule: bytes 4i .. 4i+3. */
  function Word(ks: seq<bv8>, i: nat): (w: seq<bv8>)
    requires 4 * i + 4 <= |ks|
    ensures |w| == 4
  {
    ks[4 * i .. 4 * i + 4]
  }

  /** The byte-wise sum of two words. */
  function AddWord(u: seq<bv8>, v: seq<bv8>): seq<bv8>
    requires |u| == 4 && |v| == 4
  {
    [GF.Add(u[0], v[0]), GF.Add(u[1], v[1]), GF.Add(u[2], v[2]), GF.Add(u[3], v[3])]
  }

  /** Word i of the schedule, given the first i words `ks`. */
  function NextWord(ks: seq<bv8>, i: nat): seq<bv8>
    requires 4 <= i < 44 && |ks| == 4 * i
  {
    AddWord(Word(ks, i - 4), Temp(Word(ks, i - 1), i))
  }

  /** The first n words of the schedule of `key`, as 4n bytes. */
  function Schedule(key: Block, n: nat): (ks: seq<bv8>)
    requires n <= 44
    ensures |ks| == 4 * n
    decreases n, key
  {
    if n <= 4 then key[..4 * n]
    else
      var ks := Schedule(key, n - 1);
      ks + NextWord(ks, n - 1)
  }

  /** KeyExpansion: the 176-byte schedule of a 16-byte key. */
  function KeyExpansion(key: Block): (ek: seq<bv8>)
    ensures |ek| == 176
  {
    Schedule(key, 44)
  }

  /** A shorter schedule is a prefix of a longer one. */
  lemma {:induction false} SchedulePrefix(key: Block, m: nat, n: nat)
    requires m <= n <= 44
    ensures Schedule(key, n)[..4 * m] == Schedule(key, m)
    decreases n
  {
    if n > m {
      SchedulePrefix(key, m, n - 1);
      if n > 4 {
        var ks := Schedule(key, n - 1);
        assert Schedule(key, n) == ks + NextWord(ks, n - 1);
        assert Schedule(key, n)[..4 * (n - 1)] == ks;
      } else {
        assert key[..4 * n][..4 * m] == key[..4 * m];
      }
    }
  }

  lemma WordOfPrefix(ks: seq<bv8>, n: nat, i: nat)
    requires 4 * i + 4 <= n <= |ks|
    ensures Word(ks[..n], i) == Word(ks, i)
  {
  }

  lemma WordAppend(ks: seq<bv8>, w: seq<bv8>, i: nat)
    requires |ks| == 4 * i && |w| == 4
    ensures Word(ks + w, i) == w
  {
  }

  /** The first i + 1 words are the first i words and word i. */
  lemma PrefixWord(ks: seq<bv8>, i: nat)
    requires 4 * i + 4 <= |ks|
    ensures ks[..4 * i + 4] == ks[..4 * i] + Word(ks, i)
  {
  }

  /** The schedule as section 5.2 states it: it starts with the key ... */
  lemma KeyExpansionKey(key: Block)
    ensures KeyExpansion(key)[..16] == key
  {
    SchedulePrefix(key, 4, 44);
  }

  /** The word added at the start of round key r, r >= 1: the previous word rotated,
    * substituted and given round constant r. */
  lemma TempAtStart(w: seq<bv8>, r: nat)
    requires |w| == 4 && 1 <= r < 11
    ensures Temp(w, 4 * r) == [GF.Add(SBox(w[1]), Rcon[r]), SBox(w[2]), SBox(w[3]), SBox(w[0])]
  {
    assert (4 * r) % 4 == 0 && (4 * r) / 4 == r;
  }

  /** Word j of a partial schedule is word j of the whole schedule. */
  lemma ScheduleWord(key: Block, n: nat, j: nat)
    requires j < n <= 44
    ensures Word(Schedule(key, n), j) == Word(KeyExpansion(key), j)
  {
    SchedulePrefix(key, n, 44);
    WordOfPrefix(KeyExpansion(key), 4 * n, j);
  }

  /** Word i of the schedule is NextWord of the first i words. */
  lemma ScheduleNextWord(key: Block, i: nat)
    requires 4 <= i < 44
    ensures Word(KeyExpansion(key), i) == NextWord(Schedule(key, i), i)
  {
    var ks := Schedule(key, i);
    WordAppend(ks, NextWord(ks, i), i);
    ScheduleWord(key, i + 1, i);
  }

  /** NextWord reads only words i - 4 and i - 1, which a partial schedule shares with the whole. */
  lemma NextWordOfSchedule(key: Block, i: nat)
    requires 4 <= i < 44
    ensures var ek := KeyExpansion(key);
      NextWord(Schedule(key, i), i) == AddWord(Word(ek, i - 4), Temp(Word(ek, i - 1), i))
  {
    ScheduleWord(key, i, i - 4);
    ScheduleWord(key, i, i - 1);
  }

  /** ... and every later word i is word i - 4 plus Temp of word i - 1. */
  lemma KeyExpansionWord(key: Block, i: nat)
    requires 4 <= i < 44
    ensures var ek := KeyExpansion(key);
      Word(ek, i) == AddWord(Word(ek, i - 4), Temp(Word(ek, i - 1), i))
  {
    ScheduleNextWord(key, i);
    NextWordOfSchedule(key, i);
  }

  // The cipher (section 5.1) and the inverse cipher (section 5.3).

  /** The eleven round keys. */
  type RoundKeySet = keys: seq<Block> | |keys| == 11
    witness [Zero, Zero, Zero, Zero, Zero, Zero, Zero, Zero, Zero, Zero, Zero]

  /** The round keys of a schedule: round key r is bytes 16r .. 16r+15. */
  function RoundKeys(ek: seq<bv8>): (keys: RoundKeySet)
    requires |ek| >= 176
    ensures forall r :: 0 <= r < 11 ==> keys[r] == ek[16 * r .. 16 * r + 16]
  {
    seq(11, r requires 0 <= r < 11 => ek[16 * r .. 16 * r + 16])
  }

  /** A full round of the cipher: SubBytes, ShiftRows, MixColumns, AddRoundKey. */
  function Round(s: Block, k: Block): Block {
    Xor(MixColumns(ShiftRows(SubBytes(s))), k)
  }

  /** SubBytes then ShiftRows: the final round before its AddRoundKey. */
  function SubShift(s: Block): Block {
    ShiftRows(SubBytes(s))
  }

  /** Cipher (section 5.1): round key 0, nine full rounds with round keys 1 .. 9, then a
    * final round without MixColumns with round key 10. */
  function Cipher(b: Block, keys: RoundKeySet): Block {
    Xor(SubShift(Forward(Round, Xor(b, keys[0]), keys[1..10])), keys[10])
  }

  /** A round of the inverse cipher (section 5.3): InvShiftRows, InvSubBytes,
    * AddRoundKey, InvMixColumns. */
  function InvRound(s: Block, k: Block): Block {
    InvMixColumns(Xor(InvSubBytes(InvShiftRows(s)), k))
  }

  /** InvCipher (section 5.3): round key 10, inverse rounds with round keys 9 down to 1,
    * then InvShiftRows, InvSubBytes and round key 0. */
  function InvCipher(c: Block, keys: RoundKeySet): Block {
    Xor(InvSubBytes(InvShiftRows(Backward(InvRound, Xor(c, keys[10]), keys[1..10]))), keys[0])
  }

  /** An inverse round undoes a full round, seen after SubBytes and ShiftRows. */
  lemma InvRoundUndoes(x: Block, k: Block)
    ensures InvRound(SubShift(Round(x, k)), k) == SubShift(x)
  {
    var y := ShiftRows(SubBytes(x));
    InvShiftRowsUndoes(SubBytes(Round(x, k)));
    InvSubBytesUndoes(Round(x, k));
    XorTwice(MixColumns(y), k);
    InvMixColumnsUndoes(y);
  }

  /** The inverse cipher undoes the cipher under every set of round keys. */
  lemma InvCipherUndoes(b: Block, keys: RoundKeySet)
    ensures InvCipher(Cipher(b, keys), keys) == b
  {
    var x := Xor(b, keys[0]);
    var y := SubShift(Forward(Round, x, keys[1..10]));
    XorTwice(y, keys[10]);
    forall x', k ensures InvRound(SubShift(Round(x', k)), k) == SubShift(x') {
      InvRoundUndoes(x', k);
    }
    BackwardUndoesForward(Round, InvRound, SubShift, x, keys[1..10]);
    InvShiftRowsUndoes(SubBytes(x));
    InvSubBytesUndoes(x);
    XorTwice(b, keys[0]);
  }

  // AES in CBC mode.

  /** The cipher under fixed round keys, as a block function for the CBC mode. */
  function Encipher(keys: RoundKeySet): Block -> Block {
    b => Cipher(b, keys)
  }

  function Decipher(keys: RoundKeySet): Block -> Block {
    c => InvCipher(c, keys)
  }

  /** AES-CBC decryption undoes AES-CBC encryption under the same round keys and IV. */
  lemma CbcRoundTrip(p: seq<Block>, keys: RoundKeySet, iv: Block)
    ensures Cbc.Decrypt(Decipher(keys), Cbc.Encrypt(Encipher(keys), p, iv), iv) == p
  {
    forall x ensures Decipher(keys)(Encipher(keys)(x)) == x {
      InvCipherUndoes(x, keys);
    }
    Cbc.RoundTrip(Encipher(keys), Decipher(keys), p, iv);
  }
}
