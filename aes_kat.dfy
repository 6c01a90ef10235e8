/**
 * Known answers from FIPS-197: the cipher example of Appendix C.1 (every intermediate state
 * of Appendix C.1 is checked round by round) and the key expansion example of Appendix A.1.
 *
 * The specification functions are checked on concrete values one transformation at a time:
 * the generic lemmas at the top (BytewiseIs, ColumnwiseIs, XorIs, WordStep) turn a whole-block
 * equation into sixteen byte equations, which the verifier evaluates on literal bytes.
 * Both programs' block ciphers are proved equal to AesSpec.Cipher, so the vector applies to them.
 */
module AesKnownAnswer {
  import GF = GaloisField
  import opened AesTables
  import opened Blocks
  import Rounds
  import opened AesSpec

  // Evaluation helpers: statements about arbitrary blocks, used on literal ones.

  /** Multiplication by 02 is XTime (section 4.2.1). */
  lemma Times02(a: bv8)
    ensures GF.FieldMul(0x02, a) == GF.XTime(a)
  {
    GF.Commutative(0x02, a);
    GF.BasisRight02(a);
  }

  /** Multiplication by 03 is XTime plus the byte itself. */
  lemma Times03(a: bv8)
    ensures GF.FieldMul(0x03, a) == GF.Add(GF.XTime(a), a)
  {
    GF.Commutative(0x03, a);
    GF.BasisRight02(a);
    GF.BasisRight01(a);
    assert GF.Add(0x02, 0x01) == 0x03;
    GF.LinearRight(a, 0x02, 0x01);
  }

  /** A MixColumns output byte without field multiplications. */
  lemma MixCellByXTime(a0: bv8, a1: bv8, a2: bv8, a3: bv8)
    ensures GF.MixCell(a0, a1, a2, a3) == GF.Sum4(GF.XTime(a0), GF.Add(GF.XTime(a1), a1), a2, a3)
  {
    Times02(a0);
    Times03(a1);
  }
  /** Bytewise(f, s) is the block of the sixteen values f(s[i]). */
  lemma BytewiseIs(f: bv8 -> bv8, s: Block, t: Block)
    requires t == [f(s[0]), f(s[1]), f(s[2]), f(s[3]),
                  f(s[4]), f(s[5]), f(s[6]), f(s[7]),
                  f(s[8]), f(s[9]), f(s[10]), f(s[11]),
                  f(s[12]), f(s[13]), f(s[14]), f(s[15])]
    ensures Bytewise(f, s) == t
  {
  }

  /** SubBytes byte by byte. */
  lemma SubBytesIs(s: Block, t: Block)
    requires t == [SBox(s[0]), SBox(s[1]), SBox(s[2]), SBox(s[3]),
                  SBox(s[4]), SBox(s[5]), SBox(s[6]), SBox(s[7]),
                  SBox(s[8]), SBox(s[9]), SBox(s[10]), SBox(s[11]),
                  SBox(s[12]), SBox(s[13]), SBox(s[14]), SBox(s[15])]
    ensures SubBytes(s) == t
  {
    BytewiseIs(SBox, s, t);
  }

  /** Columnwise(f, s) cell by cell: byte r + 4c is f of column c read downwards from row r. */
  lemma ColumnwiseIs(f: Cell, s: Block, t: Block)
    requires t == [f(s[0], s[1], s[2], s[3]), f(s[1], s[2], s[3], s[0]), f(s[2], s[3], s[0], s[1]), f(s[3], s[0], s[1], s[2]),
                  f(s[4], s[5], s[6], s[7]), f(s[5], s[6], s[7], s[4]), f(s[6], s[7], s[4], s[5]), f(s[7], s[4], s[5], s[6]),
                  f(s[8], s[9], s[10], s[11]), f(s[9], s[10], s[11], s[8]), f(s[10], s[11], s[8], s[9]), f(s[11], s[8], s[9], s[10]),
                  f(s[12], s[13], s[14], s[15]), f(s[13], s[14], s[15], s[12]), f(s[14], s[15], s[12], s[13]), f(s[15], s[12], s[13], s[14])]
    ensures Columnwise(f, s) == t
  {
  }

  /** MixColumns byte by byte, each byte 02 times the first plus 03 times the second plus the
    * other two bytes of its rotated column. */
  lemma MixColumnsIs(s: Block, t: Block)
    requires t == [GF.Sum4(GF.XTime(s[0]), GF.Add(GF.XTime(s[1]), s[1]), s[2], s[3]),
                  GF.Sum4(GF.XTime(s[1]), GF.Add(GF.XTime(s[2]), s[2]), s[3], s[0]),
                  GF.Sum4(GF.XTime(s[2]), GF.Add(GF.XTime(s[3]), s[3]), s[0], s[1]),
                  GF.Sum4(GF.XTime(s[3]), GF.Add(GF.XTime(s[0]), s[0]), s[1], s[2]),
                  GF.Sum4(GF.XTime(s[4]), GF.Add(GF.XTime(s[5]), s[5]), s[6], s[7]),
                  GF.Sum4(GF.XTime(s[5]), GF.Add(GF.XTime(s[6]), s[6]), s[7], s[4]),
                  GF.Sum4(GF.XTime(s[6]), GF.Add(GF.XTime(s[7]), s[7]), s[4], s[5]),
                  GF.Sum4(GF.XTime(s[7]), GF.Add(GF.XTime(s[4]), s[4]), s[5], s[6]),
                  GF.Sum4(GF.XTime(s[8]), GF.Add(GF.XTime(s[9]), s[9]), s[10], s[11]),
                  GF.Sum4(GF.XTime(s[9]), GF.Add(GF.XTime(s[10]), s[10]), s[11], s[8]),
                  GF.Sum4(GF.XTime(s[10]), GF.Add(GF.XTime(s[11]), s[11]), s[8], s[9]),
                  GF.Sum4(GF.XTime(s[11]), GF.Add(GF.XTime(s[8]), s[8]), s[9], s[10]),
                  GF.Sum4(GF.XTime(s[12]), GF.Add(GF.XTime(s[13]), s[13]), s[14], s[15]),
                  GF.Sum4(GF.XTime(s[13]), GF.Add(GF.XTime(s[14]), s[14]), s[15], s[12]),
                  GF.Sum4(GF.XTime(s[14]), GF.Add(GF.XTime(s[15]), s[15]), s[12], s[13]),
                  GF.Sum4(GF.XTime(s[15]), GF.Add(GF.XTime(s[12]), s[12]), s[13], s[14])]
    ensures MixColumns(s) == t
  {
    MixCellByXTime(s[0], s[1], s[2], s[3]);
    MixCellByXTime(s[1], s[2], s[3], s[0]);
    MixCellByXTime(s[2], s[3], s[0], s[1]);
    MixCellByXTime(s[3], s[0], s[1], s[2]);
    MixCellByXTime(s[4], s[5], s[6], s[7]);
    MixCellByXTime(s[5], s[6], s[7], s[4]);
    MixCellByXTime(s[6], s[7], s[4], s[5]);
    MixCellByXTime(s[7], s[4], s[5], s[6]);
    MixCellByXTime(s[8], s[9], s[10], s[11]);
    MixCellByXTime(s[9], s[10], s[11], s[8]);
    MixCellByXTime(s[10], s[11], s[8], s[9]);
    MixCellByXTime(s[11], s[8], s[9], s[10]);
    MixCellByXTime(s[12], s[13], s[14], s[15]);
    MixCellByXTime(s[13], s[14], s[15], s[12]);
    MixCellByXTime(s[14], s[15], s[12], s[13]);
    MixCellByXTime(s[15], s[12], s[13], s[14]);
    ColumnwiseIs(GF.MixCell, s, t);
  }

  /** Zip(f, a, b) is the block of the sixteen values f(a[i], b[i]). */
  lemma ZipIs(f: (bv8, bv8) -> bv8, a: Block, b: Block, t: Block)
    requires t == [f(a[0], b[0]), f(a[1], b[1]), f(a[2], b[2]), f(a[3], b[3]),
                  f(a[4], b[4]), f(a[5], b[5]), f(a[6], b[6]), f(a[7], b[7]),
                  f(a[8], b[8]), f(a[9], b[9]), f(a[10], b[10]), f(a[11], b[11]),
                  f(a[12], b[12]), f(a[13], b[13]), f(a[14], b[14]), f(a[15], b[15])]
    ensures Zip(f, a, b) == t
  {
  }

  /** Xor byte by byte. */
  lemma XorIs(a: Block, b: Block, t: Block)
    requires t == [a[0] ^ b[0], a[1] ^ b[1], a[2] ^ b[2], a[3] ^ b[3],
                  a[4] ^ b[4], a[5] ^ b[5], a[6] ^ b[6], a[7] ^ b[7],
                  a[8] ^ b[8], a[9] ^ b[9], a[10] ^ b[10], a[11] ^ b[11],
                  a[12] ^ b[12], a[13] ^ b[13], a[14] ^ b[14], a[15] ^ b[15]]
    ensures Xor(a, b) == t
  {
    ZipIs(GF.Add, a, b, t);
  }

  /** `ek` satisfies the recurrence of section 5.2 for the key `key`. */
  ghost predicate Expands(key: Block, ek: seq<bv8>) {
    |ek| == 176 && ek[..16] == key && forall i :: 4 <= i < 44 ==> ExpandsAt(ek, i)
  }

  /** Word i of `ek` is word i - 4 plus Temp of word i - 1. */
  ghost predicate ExpandsAt(ek: seq<bv8>, i: nat)
    requires |ek| == 176 && 4 <= i < 44
  {
    Word(ek, i) == AddWord(Word(ek, i - 4), Temp(Word(ek, i - 1), i))
  }

  /** KeyExpansion satisfies the recurrence. */
  lemma KeyExpansionExpands(key: Block)
    ensures Expands(key, KeyExpansion(key))
  {
    KeyExpansionKey(key);
    forall i | 4 <= i < 44
      ensures ExpandsAt(KeyExpansion(key), i)
    {
      KeyExpansionWord(key, i);
    }
  }

  /** One word of a schedule from the two words it depends on. */
  lemma WordStep(key: Block, ek: seq<bv8>, i: nat, w4: seq<bv8>, w1: seq<bv8>, w: seq<bv8>)
    requires Expands(key, ek) && 4 <= i < 44 && |w4| == 4 && |w1| == 4
    requires Word(ek, i - 4) == w4 && Word(ek, i - 1) == w1 && w == AddWord(w4, Temp(w1, i))
    ensures Word(ek, i) == w
  {
    assert ExpandsAt(ek, i);
  }

  /** Rounds driven by all of ks[0..|ks|] are rounds driven by ks. */
  lemma ForwardWhole(f: Rounds.Round, s: Block, ks: seq<Block>)
    ensures Rounds.Forward(f, s, ks[0..|ks|]) == Rounds.Forward(f, s, ks)
  {
    assert ks[0..|ks|] == ks;
  }

  /** Round key r is words 4r .. 4r + 3. */
  lemma RoundKeyWords(ek: seq<bv8>, r: nat, k: Block)
    requires |ek| == 176 && r < 11
    requires k[0..4] == Word(ek, 4 * r) && k[4..8] == Word(ek, 4 * r + 1)
    requires k[8..12] == Word(ek, 4 * r + 2) && k[12..16] == Word(ek, 4 * r + 3)
    ensures ek[16 * r .. 16 * r + 16] == k
  {
    forall j | 0 <= j < 16
      ensures ek[16 * r .. 16 * r + 16][j] == k[j]
    {
      if j < 4 {
        assert k[0..4][j] == Word(ek, 4 * r)[j];
      } else if j < 8 {
        assert k[4..8][j - 4] == Word(ek, 4 * r + 1)[j - 4];
      } else if j < 12 {
        assert k[8..12][j - 8] == Word(ek, 4 * r + 2)[j - 8];
      } else {
        assert k[12..16][j - 12] == Word(ek, 4 * r + 3)[j - 12];
      }
    }
  }

  // Appendix C.1 (AES-128)

  /** The cipher key of Appendix C.1 (AES-128). */
  const C1Key: Block := [0x00, 0x01, 0x02, 0x03, 0x04, 0x05, 0x06, 0x07, 0x08, 0x09, 0x0a, 0x0b, 0x0c, 0x0d, 0x0e, 0x0f]

  /** Words 0 .. 3 of the schedule: the key itself. */
  lemma C1Words0(ek: seq<bv8>)
    requires Expands(C1Key, ek)
    ensures Word(ek, 0) == [0x00, 0x01, 0x02, 0x03] && Word(ek, 1) == [0x04, 0x05, 0x06, 0x07]
    ensures Word(ek, 2) == [0x08, 0x09, 0x0a, 0x0b] && Word(ek, 3) == [0x0c, 0x0d, 0x0e, 0x0f]
  {
    assert Word(ek, 0) == ek[..16][0..4] && Word(ek, 1) == ek[..16][4..8];
    assert Word(ek, 2) == ek[..16][8..12] && Word(ek, 3) == ek[..16][12..16];
  }

  /** Words 4 .. 7 of the schedule: round key 1 is d6aa74fdd2af72fadaa678f1d6ab76fe. */
  lemma C1Words1(ek: seq<bv8>)
    requires Expands(C1Key, ek)
    ensures Word(ek, 4) == [0xd6, 0xaa, 0x74, 0xfd] && Word(ek, 5) == [0xd2, 0xaf, 0x72, 0xfa]
    ensures Word(ek, 6) == [0xda, 0xa6, 0x78, 0xf1] && Word(ek, 7) == [0xd6, 0xab, 0x76, 0xfe]
  {
    C1Words0(ek);
    WordStep(C1Key, ek, 4, [0x00, 0x01, 0x02, 0x03], [0x0c, 0x0d, 0x0e, 0x0f], [0xd6, 0xaa, 0x74, 0xfd]);
    WordStep(C1Key, ek, 5, [0x04, 0x05, 0x06, 0x07], [0xd6, 0xaa, 0x74, 0xfd], [0xd2, 0xaf, 0x72, 0xfa]);
    WordStep(C1Key, ek, 6, [0x08, 0x09, 0x0a, 0x0b], [0xd2, 0xaf, 0x72, 0xfa], [0xda, 0xa6, 0x78, 0xf1]);
    WordStep(C1Key, ek, 7, [0x0c, 0x0d, 0x0e, 0x0f], [0xda, 0xa6, 0x78, 0xf1], [0xd6, 0xab, 0x76, 0xfe]);
  }

  /** Words 8 .. 11 of the schedule: round key 2 is b692cf0b643dbdf1be9bc5006830b3fe. */
  lemma C1Words2(ek: seq<bv8>)
    requires Expands(C1Key, ek)
    ensures Word(ek, 8) == [0xb6, 0x92, 0xcf, 0x0b] && Word(ek, 9) == [0x64, 0x3d, 0xbd, 0xf1]
    ensures Word(ek, 10) == [0xbe, 0x9b, 0xc5, 0x00] && Word(ek, 11) == [0x68, 0x30, 0xb3, 0xfe]
  {
    C1Words1(ek);
    WordStep(C1Key, ek, 8, [0xd6, 0xaa, 0x74, 0xfd], [0xd6, 0xab, 0x76, 0xfe], [0xb6, 0x92, 0xcf, 0x0b]);
    WordStep(C1Key, ek, 9, [0xd2, 0xaf, 0x72, 0xfa], [0xb6, 0x92, 0xcf, 0x0b], [0x64, 0x3d, 0xbd, 0xf1]);
    WordStep(C1Key, ek, 10, [0xda, 0xa6, 0x78, 0xf1], [0x64, 0x3d, 0xbd, 0xf1], [0xbe, 0x9b, 0xc5, 0x00]);
    WordStep(C1Key, ek, 11, [0xd6, 0xab, 0x76, 0xfe], [0xbe, 0x9b, 0xc5, 0x00], [0x68, 0x30, 0xb3, 0xfe]);
  }

  /** Words 12 .. 15 of the schedule: round key 3 is b6ff744ed2c2c9bf6c590cbf0469bf41. */
  lemma C1Words3(ek: seq<bv8>)
    requires Expands(C1Key, ek)
    ensures Word(ek, 12) == [0xb6, 0xff, 0x74, 0x4e] && Word(ek, 13) == [0xd2, 0xc2, 0xc9, 0xbf]
    ensures Word(ek, 14) == [0x6c, 0x59, 0x0c, 0xbf] && Word(ek, 15) == [0x04, 0x69, 0xbf, 0x41]
  {
    C1Words2(ek);
    WordStep(C1Key, ek, 12, [0xb6, 0x92, 0xcf, 0x0b], [0x68, 0x30, 0xb3, 0xfe], [0xb6, 0xff, 0x74, 0x4e]);
    WordStep(C1Key, ek, 13, [0x64, 0x3d, 0xbd, 0xf1], [0xb6, 0xff, 0x74, 0x4e], [0xd2, 0xc2, 0xc9, 0xbf]);
    WordStep(C1Key, ek, 14, [0xbe, 0x9b, 0xc5, 0x00], [0xd2, 0xc2, 0xc9, 0xbf], [0x6c, 0x59, 0x0c, 0xbf]);
    WordStep(C1Key, ek, 15, [0x68, 0x30, 0xb3, 0xfe], [0x6c, 0x59, 0x0c, 0xbf], [0x04, 0x69, 0xbf, 0x41]);
  }

  /** Words 16 .. 19 of the schedule: round key 4 is 47f7f7bc95353e03f96c32bcfd058dfd. */
  lemma C1Words4(ek: seq<bv8>)
    requires Expands(C1Key, ek)
    ensures Word(ek, 16) == [0x47, 0xf7, 0xf7, 0xbc] && Word(ek, 17) == [0x95, 0x35, 0x3e, 0x03]
    ensures Word(ek, 18) == [0xf9, 0x6c, 0x32, 0xbc] && Word(ek, 19) == [0xfd, 0x05, 0x8d, 0xfd]
  {
    C1Words3(ek);
    WordStep(C1Key, ek, 16, [0xb6, 0xff, 0x74, 0x4e], [0x04, 0x69, 0xbf, 0x41], [0x47, 0xf7, 0xf7, 0xbc]);
    WordStep(C1Key, ek, 17, [0xd2, 0xc2, 0xc9, 0xbf], [0x47, 0xf7, 0xf7, 0xbc], [0x95, 0x35, 0x3e, 0x03]);
    WordStep(C1Key, ek, 18, [0x6c, 0x59, 0x0c, 0xbf], [0x95, 0x35, 0x3e, 0x03], [0xf9, 0x6c, 0x32, 0xbc]);
    WordStep(C1Key, ek, 19, [0x04, 0x69, 0xbf, 0x41], [0xf9, 0x6c, 0x32, 0xbc], [0xfd, 0x05, 0x8d, 0xfd]);
  }

  /** Words 20 .. 23 of the schedule: round key 5 is 3caaa3e8a99f9deb50f3af57adf622aa. */
  lemma C1Words5(ek: seq<bv8>)
    requires Expands(C1Key, ek)
    ensures Word(ek, 20) == [0x3c, 0xaa, 0xa3, 0xe8] && Word(ek, 21) == [0xa9, 0x9f, 0x9d, 0xeb]
    ensures Word(ek, 22) == [0x50, 0xf3, 0xaf, 0x57] && Word(ek, 23) == [0xad, 0xf6, 0x22, 0xaa]
  {
    C1Words4(ek);
    WordStep(C1Key, ek, 20, [0x47, 0xf7, 0xf7, 0xbc], [0xfd, 0x05, 0x8d, 0xfd], [0x3c, 0xaa, 0xa3, 0xe8]);
    WordStep(C1Key, ek, 21, [0x95, 0x35, 0x3e, 0x03], [0x3c, 0xaa, 0xa3, 0xe8], [0xa9, 0x9f, 0x9d, 0xeb]);
    WordStep(C1Key, ek, 22, [0xf9, 0x6c, 0x32, 0xbc], [0xa9, 0x9f, 0x9d, 0xeb], [0x50, 0xf3, 0xaf, 0x57]);
    WordStep(C1Key, ek, 23, [0xfd, 0x05, 0x8d, 0xfd], [0x50, 0xf3, 0xaf, 0x57], [0xad, 0xf6, 0x22, 0xaa]);
  }

  /** Words 24 .. 27 of the schedule: round key 6 is 5e390f7df7a69296a7553dc10aa31f6b. */
  lemma C1Words6(ek: seq<bv8>)
    requires Expands(C1Key, ek)
    ensures Word(ek, 24) == [0x5e, 0x39, 0x0f, 0x7d] && Word(ek, 25) == [0xf7, 0xa6, 0x92, 0x96]
    ensures Word(ek, 26) == [0xa7, 0x55, 0x3d, 0xc1] && Word(ek, 27) == [0x0a, 0xa3, 0x1f, 0x6b]
  {
    C1Words5(ek);
    WordStep(C1Key, ek, 24, [0x3c, 0xaa, 0xa3, 0xe8], [0xad, 0xf6, 0x22, 0xaa], [0x5e, 0x39, 0x0f, 0x7d]);
    WordStep(C1Key, ek, 25, [0xa9, 0x9f, 0x9d, 0xeb], [0x5e, 0x39, 0x0f, 0x7d], [0xf7, 0xa6, 0x92, 0x96]);
    WordStep(C1Key, ek, 26, [0x50, 0xf3, 0xaf, 0x57], [0xf7, 0xa6, 0x92, 0x96], [0xa7, 0x55, 0x3d, 0xc1]);
    WordStep(C1Key, ek, 27, [0xad, 0xf6, 0x22, 0xaa], [0xa7, 0x55, 0x3d, 0xc1], [0x0a, 0xa3, 0x1f, 0x6b]);
  }

  /** Words 28 .. 31 of the schedule: round key 7 is 14f9701ae35fe28c440adf4d4ea9c026. */
  lemma C1Words7(ek: seq<bv8>)
    requires Expands(C1Key, ek)
    ensures Word(ek, 28) == [0x14, 0xf9, 0x70, 0x1a] && Word(ek, 29) == [0xe3, 0x5f, 0xe2, 0x8c]
    ensures Word(ek, 30) == [0x44, 0x0a, 0xdf, 0x4d] && Word(ek, 31) == [0x4e, 0xa9, 0xc0, 0x26]
  {
    C1Words6(ek);
    WordStep(C1Key, ek, 28, [0x5e, 0x39, 0x0f, 0x7d], [0x0a, 0xa3, 0x1f, 0x6b], [0x14, 0xf9, 0x70, 0x1a]);
    WordStep(C1Key, ek, 29, [0xf7, 0xa6, 0x92, 0x96], [0x14, 0xf9, 0x70, 0x1a], [0xe3, 0x5f, 0xe2, 0x8c]);
    WordStep(C1Key, ek, 30, [0xa7, 0x55, 0x3d, 0xc1], [0xe3, 0x5f, 0xe2, 0x8c], [0x44, 0x0a, 0xdf, 0x4d]);
    WordStep(C1Key, ek, 31, [0x0a, 0xa3, 0x1f, 0x6b], [0x44, 0x0a, 0xdf, 0x4d], [0x4e, 0xa9, 0xc0, 0x26]);
  }

  /** Words 32 .. 35 of the schedule: round key 8 is 47438735a41c65b9e016baf4aebf7ad2. */
  lemma C1Words8(ek: seq<bv8>)
    requires Expands(C1Key, ek)
    ensures Word(ek, 32) == [0x47, 0x43, 0x87, 0x35] && Word(ek, 33) == [0xa4, 0x1c, 0x65, 0xb9]
    ensures Word(ek, 34) == [0xe0, 0x16, 0xba, 0xf4] && Word(ek, 35) == [0xae, 0xbf, 0x7a, 0xd2]
  {
    C1Words7(ek);
    WordStep(C1Key, ek, 32, [0x14, 0xf9, 0x70, 0x1a], [0x4e, 0xa9, 0xc0, 0x26], [0x47, 0x43, 0x87, 0x35]);
    WordStep(C1Key, ek, 33, [0xe3, 0x5f, 0xe2, 0x8c], [0x47, 0x43, 0x87, 0x35], [0xa4, 0x1c, 0x65, 0xb9]);
    WordStep(C1Key, ek, 34, [0x44, 0x0a, 0xdf, 0x4d], [0xa4, 0x1c, 0x65, 0xb9], [0xe0, 0x16, 0xba, 0xf4]);
    WordStep(C1Key, ek, 35, [0x4e, 0xa9, 0xc0, 0x26], [0xe0, 0x16, 0xba, 0xf4], [0xae, 0xbf, 0x7a, 0xd2]);
  }

  /** Words 36 .. 39 of the schedule: round key 9 is 549932d1f08557681093ed9cbe2c974e. */
  lemma C1Words9(ek: seq<bv8>)
    requires Expands(C1Key, ek)
    ensures Word(ek, 36) == [0x54, 0x99, 0x32, 0xd1] && Word(ek, 37) == [0xf0, 0x85, 0x57, 0x68]
    ensures Word(ek, 38) == [0x10, 0x93, 0xed, 0x9c] && Word(ek, 39) == [0xbe, 0x2c, 0x97, 0x4e]
  {
    C1Words8(ek);
    WordStep(C1Key, ek, 36, [0x47, 0x43, 0x87, 0x35], [0xae, 0xbf, 0x7a, 0xd2], [0x54, 0x99, 0x32, 0xd1]);
    WordStep(C1Key, ek, 37, [0xa4, 0x1c, 0x65, 0xb9], [0x54, 0x99, 0x32, 0xd1], [0xf0, 0x85, 0x57, 0x68]);
    WordStep(C1Key, ek, 38, [0xe0, 0x16, 0xba, 0xf4], [0xf0, 0x85, 0x57, 0x68], [0x10, 0x93, 0xed, 0x9c]);
    WordStep(C1Key, ek, 39, [0xae, 0xbf, 0x7a, 0xd2], [0x10, 0x93, 0xed, 0x9c], [0xbe, 0x2c, 0x97, 0x4e]);
  }

  /** Words 40 .. 43 of the schedule: round key 10 is 13111d7fe3944a17f307a78b4d2b30c5. */
  lemma C1Words10(ek: seq<bv8>)
    requires Expands(C1Key, ek)
    ensures Word(ek, 40) == [0x13, 0x11, 0x1d, 0x7f] && Word(ek, 41) == [0xe3, 0x94, 0x4a, 0x17]
    ensures Word(ek, 42) == [0xf3, 0x07, 0xa7, 0x8b] && Word(ek, 43) == [0x4d, 0x2b, 0x30, 0xc5]
  {
    C1Words9(ek);
    WordStep(C1Key, ek, 40, [0x54, 0x99, 0x32, 0xd1], [0xbe, 0x2c, 0x97, 0x4e], [0x13, 0x11, 0x1d, 0x7f]);
    WordStep(C1Key, ek, 41, [0xf0, 0x85, 0x57, 0x68], [0x13, 0x11, 0x1d, 0x7f], [0xe3, 0x94, 0x4a, 0x17]);
    WordStep(C1Key, ek, 42, [0x10, 0x93, 0xed, 0x9c], [0xe3, 0x94, 0x4a, 0x17], [0xf3, 0x07, 0xa7, 0x8b]);
    WordStep(C1Key, ek, 43, [0xbe, 0x2c, 0x97, 0x4e], [0xf3, 0x07, 0xa7, 0x8b], [0x4d, 0x2b, 0x30, 0xc5]);
  }

  /** Round key 0 of the Appendix C.1 key, round[ 0].k_sch. */
  lemma C1RoundKey0(ek: seq<bv8>)
    requires Expands(C1Key, ek)
    ensures ek[0..16] == [0x00, 0x01, 0x02, 0x03, 0x04, 0x05, 0x06, 0x07, 0x08, 0x09, 0x0a, 0x0b, 0x0c, 0x0d, 0x0e, 0x0f]
  {
    C1Words0(ek);
    RoundKeyWords(ek, 0, [0x00, 0x01, 0x02, 0x03, 0x04, 0x05, 0x06, 0x07, 0x08, 0x09, 0x0a, 0x0b, 0x0c, 0x0d, 0x0e, 0x0f]);
  }

  /** Round key 1 of the Appendix C.1 key, round[ 1].k_sch. */
  lemma C1RoundKey1(ek: seq<bv8>)
    requires Expands(C1Key, ek)
    ensures ek[16..32] == [0xd6, 0xaa, 0x74, 0xfd, 0xd2, 0xaf, 0x72, 0xfa, 0xda, 0xa6, 0x78, 0xf1, 0xd6, 0xab, 0x76, 0xfe]
  {
    C1Words1(ek);
    RoundKeyWords(ek, 1, [0xd6, 0xaa, 0x74, 0xfd, 0xd2, 0xaf, 0x72, 0xfa, 0xda, 0xa6, 0x78, 0xf1, 0xd6, 0xab, 0x76, 0xfe]);
  }

  /** Round key 2 of the Appendix C.1 key, round[ 2].k_sch. */
  lemma C1RoundKey2(ek: seq<bv8>)
    requires Expands(C1Key, ek)
    ensures ek[32..48] == [0xb6, 0x92, 0xcf, 0x0b, 0x64, 0x3d, 0xbd, 0xf1, 0xbe, 0x9b, 0xc5, 0x00, 0x68, 0x30, 0xb3, 0xfe]
  {
    C1Words2(ek);
    RoundKeyWords(ek, 2, [0xb6, 0x92, 0xcf, 0x0b, 0x64, 0x3d, 0xbd, 0xf1, 0xbe, 0x9b, 0xc5, 0x00, 0x68, 0x30, 0xb3, 0xfe]);
  }

  /** Round key 3 of the Appendix C.1 key, round[ 3].k_sch. */
  lemma C1RoundKey3(ek: seq<bv8>)
    requires Expands(C1Key, ek)
    ensures ek[48..64] == [0xb6, 0xff, 0x74, 0x4e, 0xd2, 0xc2, 0xc9, 0xbf, 0x6c, 0x59, 0x0c, 0xbf, 0x04, 0x69, 0xbf, 0x41]
  {
    C1Words3(ek);
    RoundKeyWords(ek, 3, [0xb6, 0xff, 0x74, 0x4e, 0xd2, 0xc2, 0xc9, 0xbf, 0x6c, 0x59, 0x0c, 0xbf, 0x04, 0x69, 0xbf, 0x41]);
  }

  /** Round key 4 of the Appendix C.1 key, round[ 4].k_sch. */
  lemma C1RoundKey4(ek: seq<bv8>)
    requires Expands(C1Key, ek)
    ensures ek[64..80] == [0x47, 0xf7, 0xf7, 0xbc, 0x95, 0x35, 0x3e, 0x03, 0xf9, 0x6c, 0x32, 0xbc, 0xfd, 0x05, 0x8d, 0xfd]
  {
    C1Words4(ek);
    RoundKeyWords(ek, 4, [0x47, 0xf7, 0xf7, 0xbc, 0x95, 0x35, 0x3e, 0x03, 0xf9, 0x6c, 0x32, 0xbc, 0xfd, 0x05, 0x8d, 0xfd]);
  }

  /** Round key 5 of the Appendix C.1 key, round[ 5].k_sch. */
  lemma C1RoundKey5(ek: seq<bv8>)
    requires Expands(C1Key, ek)
    ensures ek[80..96] == [0x3c, 0xaa, 0xa3, 0xe8, 0xa9, 0x9f, 0x9d, 0xeb, 0x50, 0xf3, 0xaf, 0x57, 0xad, 0xf6, 0x22, 0xaa]
  {
    C1Words5(ek);
    RoundKeyWords(ek, 5, [0x3c, 0xaa, 0xa3, 0xe8, 0xa9, 0x9f, 0x9d, 0xeb, 0x50, 0xf3, 0xaf, 0x57, 0xad, 0xf6, 0x22, 0xaa]);
  }

  /** Round key 6 of the Appendix C.1 key, round[ 6].k_sch. */
  lemma C1RoundKey6(ek: seq<bv8>)
    requires Expands(C1Key, ek)
    ensures ek[96..112] == [0x5e, 0x39, 0x0f, 0x7d, 0xf7, 0xa6, 0x92, 0x96, 0xa7, 0x55, 0x3d, 0xc1, 0x0a, 0xa3, 0x1f, 0x6b]
  {
    C1Words6(ek);
    RoundKeyWords(ek, 6, [0x5e, 0x39, 0x0f, 0x7d, 0xf7, 0xa6, 0x92, 0x96, 0xa7, 0x55, 0x3d, 0xc1, 0x0a, 0xa3, 0x1f, 0x6b]);
  }

  /** Round key 7 of the Appendix C.1 key, round[ 7].k_sch. */
  lemma C1RoundKey7(ek: seq<bv8>)
    requires Expands(C1Key, ek)
    ensures ek[112..128] == [0x14, 0xf9, 0x70, 0x1a, 0xe3, 0x5f, 0xe2, 0x8c, 0x44, 0x0a, 0xdf, 0x4d, 0x4e, 0xa9, 0xc0, 0x26]
  {
    C1Words7(ek);
    RoundKeyWords(ek, 7, [0x14, 0xf9, 0x70, 0x1a, 0xe3, 0x5f, 0xe2, 0x8c, 0x44, 0x0a, 0xdf, 0x4d, 0x4e, 0xa9, 0xc0, 0x26]);
  }

  /** Round key 8 of the Appendix C.1 key, round[ 8].k_sch. */
  lemma C1RoundKey8(ek: seq<bv8>)
    requires Expands(C1Key, ek)
    ensures ek[128..144] == [0x47, 0x43, 0x87, 0x35, 0xa4, 0x1c, 0x65, 0xb9, 0xe0, 0x16, 0xba, 0xf4, 0xae, 0xbf, 0x7a, 0xd2]
  {
    C1Words8(ek);
    RoundKeyWords(ek, 8, [0x47, 0x43, 0x87, 0x35, 0xa4, 0x1c, 0x65, 0xb9, 0xe0, 0x16, 0xba, 0xf4, 0xae, 0xbf, 0x7a, 0xd2]);
  }

  /** Round key 9 of the Appendix C.1 key, round[ 9].k_sch. */
  lemma C1RoundKey9(ek: seq<bv8>)
    requires Expands(C1Key, ek)
    ensures ek[144..160] == [0x54, 0x99, 0x32, 0xd1, 0xf0, 0x85, 0x57, 0x68, 0x10, 0x93, 0xed, 0x9c, 0xbe, 0x2c, 0x97, 0x4e]
  {
    C1Words9(ek);
    RoundKeyWords(ek, 9, [0x54, 0x99, 0x32, 0xd1, 0xf0, 0x85, 0x57, 0x68, 0x10, 0x93, 0xed, 0x9c, 0xbe, 0x2c, 0x97, 0x4e]);
  }

  /** Round key 10 of the Appendix C.1 key, round[10].k_sch. */
  lemma C1RoundKey10(ek: seq<bv8>)
    requires Expands(C1Key, ek)
    ensures ek[160..176] == [0x13, 0x11, 0x1d, 0x7f, 0xe3, 0x94, 0x4a, 0x17, 0xf3, 0x07, 0xa7, 0x8b, 0x4d, 0x2b, 0x30, 0xc5]
  {
    C1Words10(ek);
    RoundKeyWords(ek, 10, [0x13, 0x11, 0x1d, 0x7f, 0xe3, 0x94, 0x4a, 0x17, 0xf3, 0x07, 0xa7, 0x8b, 0x4d, 0x2b, 0x30, 0xc5]);
  }

  // The cipher example of Appendix C.1, round by round.

  /** The plaintext of Appendix C.1. */
  const C1Input: Block := [0x00, 0x11, 0x22, 0x33, 0x44, 0x55, 0x66, 0x77, 0x88, 0x99, 0xaa, 0xbb, 0xcc, 0xdd, 0xee, 0xff]

  /** The ciphertext of Appendix C.1. */
  const C1Output: Block := [0x69, 0xc4, 0xe0, 0xd8, 0x6a, 0x7b, 0x04, 0x30, 0xd8, 0xcd, 0xb7, 0x80, 0x70, 0xb4, 0xc5, 0x5a]

  /** round[ 1].start: the input plus round key 0. */
  lemma C1Start()
    ensures Xor([0x00, 0x11, 0x22, 0x33, 0x44, 0x55, 0x66, 0x77, 0x88, 0x99, 0xaa, 0xbb, 0xcc, 0xdd, 0xee, 0xff], [0x00, 0x01, 0x02, 0x03, 0x04, 0x05, 0x06, 0x07, 0x08, 0x09, 0x0a, 0x0b, 0x0c, 0x0d, 0x0e, 0x0f]) == [0x00, 0x10, 0x20, 0x30, 0x40, 0x50, 0x60, 0x70, 0x80, 0x90, 0xa0, 0xb0, 0xc0, 0xd0, 0xe0, 0xf0]
  {
    XorIs([0x00, 0x11, 0x22, 0x33, 0x44, 0x55, 0x66, 0x77, 0x88, 0x99, 0xaa, 0xbb, 0xcc, 0xdd, 0xee, 0xff], [0x00, 0x01, 0x02, 0x03, 0x04, 0x05, 0x06, 0x07, 0x08, 0x09, 0x0a, 0x0b, 0x0c, 0x0d, 0x0e, 0x0f], [0x00, 0x10, 0x20, 0x30, 0x40, 0x50, 0x60, 0x70, 0x80, 0x90, 0xa0, 0xb0, 0xc0, 0xd0, 0xe0, 0xf0]);
  }
  /** round[ 1].s_box. */
  lemma C1SubBytes1()
    ensures SubBytes([0x00, 0x10, 0x20, 0x30, 0x40, 0x50, 0x60, 0x70, 0x80, 0x90, 0xa0, 0xb0, 0xc0, 0xd0, 0xe0, 0xf0]) == [0x63, 0xca, 0xb7, 0x04, 0x09, 0x53, 0xd0, 0x51, 0xcd, 0x60, 0xe0, 0xe7, 0xba, 0x70, 0xe1, 0x8c]
  {
    SubBytesIs([0x00, 0x10, 0x20, 0x30, 0x40, 0x50, 0x60, 0x70, 0x80, 0x90, 0xa0, 0xb0, 0xc0, 0xd0, 0xe0, 0xf0], [0x63, 0xca, 0xb7, 0x04, 0x09, 0x53, 0xd0, 0x51, 0xcd, 0x60, 0xe0, 0xe7, 0xba, 0x70, 0xe1, 0x8c]);
  }

  /** round[ 1].s_row and round[ 1].m_col. */
  lemma C1MixColumns1()
    ensures MixColumns(ShiftRows([0x63, 0xca, 0xb7, 0x04, 0x09, 0x53, 0xd0, 0x51, 0xcd, 0x60, 0xe0, 0xe7, 0xba, 0x70, 0xe1, 0x8c])) == [0x5f, 0x72, 0x64, 0x15, 0x57, 0xf5, 0xbc, 0x92, 0xf7, 0xbe, 0x3b, 0x29, 0x1d, 0xb9, 0xf9, 0x1a]
  {
    assert ShiftRows([0x63, 0xca, 0xb7, 0x04, 0x09, 0x53, 0xd0, 0x51, 0xcd, 0x60, 0xe0, 0xe7, 0xba, 0x70, 0xe1, 0x8c]) == [0x63, 0x53, 0xe0, 0x8c, 0x09, 0x60, 0xe1, 0x04, 0xcd, 0x70, 0xb7, 0x51, 0xba, 0xca, 0xd0, 0xe7];
    MixColumnsIs([0x63, 0x53, 0xe0, 0x8c, 0x09, 0x60, 0xe1, 0x04, 0xcd, 0x70, 0xb7, 0x51, 0xba, 0xca, 0xd0, 0xe7], [0x5f, 0x72, 0x64, 0x15, 0x57, 0xf5, 0xbc, 0x92, 0xf7, 0xbe, 0x3b, 0x29, 0x1d, 0xb9, 0xf9, 0x1a]);
  }

  /** Round 1 takes round[ 1].start to round[ 2].start. */
  lemma C1Round1()
    ensures Round([0x00, 0x10, 0x20, 0x30, 0x40, 0x50, 0x60, 0x70, 0x80, 0x90, 0xa0, 0xb0, 0xc0, 0xd0, 0xe0, 0xf0], [0xd6, 0xaa, 0x74, 0xfd, 0xd2, 0xaf, 0x72, 0xfa, 0xda, 0xa6, 0x78, 0xf1, 0xd6, 0xab, 0x76, 0xfe]) == [0x89, 0xd8, 0x10, 0xe8, 0x85, 0x5a, 0xce, 0x68, 0x2d, 0x18, 0x43, 0xd8, 0xcb, 0x12, 0x8f, 0xe4]
  {
    C1SubBytes1();
    C1MixColumns1();
    XorIs([0x5f, 0x72, 0x64, 0x15, 0x57, 0xf5, 0xbc, 0x92, 0xf7, 0xbe, 0x3b, 0x29, 0x1d, 0xb9, 0xf9, 0x1a], [0xd6, 0xaa, 0x74, 0xfd, 0xd2, 0xaf, 0x72, 0xfa, 0xda, 0xa6, 0x78, 0xf1, 0xd6, 0xab, 0x76, 0xfe], [0x89, 0xd8, 0x10, 0xe8, 0x85, 0x5a, 0xce, 0x68, 0x2d, 0x18, 0x43, 0xd8, 0xcb, 0x12, 0x8f, 0xe4]);
  }
  /** round[ 2].s_box. */
  lemma C1SubBytes2()
    ensures SubBytes([0x89, 0xd8, 0x10, 0xe8, 0x85, 0x5a, 0xce, 0x68, 0x2d, 0x18, 0x43, 0xd8, 0xcb, 0x12, 0x8f, 0xe4]) == [0xa7, 0x61, 0xca, 0x9b, 0x97, 0xbe, 0x8b, 0x45, 0xd8, 0xad, 0x1a, 0x61, 0x1f, 0xc9, 0x73, 0x69]
  {
    SubBytesIs([0x89, 0xd8, 0x10, 0xe8, 0x85, 0x5a, 0xce, 0x68, 0x2d, 0x18, 0x43, 0xd8, 0xcb, 0x12, 0x8f, 0xe4], [0xa7, 0x61, 0xca, 0x9b, 0x97, 0xbe, 0x8b, 0x45, 0xd8, 0xad, 0x1a, 0x61, 0x1f, 0xc9, 0x73, 0x69]);
  }

  /** round[ 2].s_row and round[ 2].m_col. */
  lemma C1MixColumns2()
    ensures MixColumns(ShiftRows([0xa7, 0x61, 0xca, 0x9b, 0x97, 0xbe, 0x8b, 0x45, 0xd8, 0xad, 0x1a, 0x61, 0x1f, 0xc9, 0x73, 0x69])) == [0xff, 0x87, 0x96, 0x84, 0x31, 0xd8, 0x6a, 0x51, 0x64, 0x51, 0x51, 0xfa, 0x77, 0x3a, 0xd0, 0x09]
  {
    assert ShiftRows([0xa7, 0x61, 0xca, 0x9b, 0x97, 0xbe, 0x8b, 0x45, 0xd8, 0xad, 0x1a, 0x61, 0x1f, 0xc9, 0x73, 0x69]) == [0xa7, 0xbe, 0x1a, 0x69, 0x97, 0xad, 0x73, 0x9b, 0xd8, 0xc9, 0xca, 0x45, 0x1f, 0x61, 0x8b, 0x61];
    MixColumnsIs([0xa7, 0xbe, 0x1a, 0x69, 0x97, 0xad, 0x73, 0x9b, 0xd8, 0xc9, 0xca, 0x45, 0x1f, 0x61, 0x8b, 0x61], [0xff, 0x87, 0x96, 0x84, 0x31, 0xd8, 0x6a, 0x51, 0x64, 0x51, 0x51, 0xfa, 0x77, 0x3a, 0xd0, 0x09]);
  }

  /** Round 2 takes round[ 2].start to round[ 3].start. */
  lemma C1Round2()
    ensures Round([0x89, 0xd8, 0x10, 0xe8, 0x85, 0x5a, 0xce, 0x68, 0x2d, 0x18, 0x43, 0xd8, 0xcb, 0x12, 0x8f, 0xe4], [0xb6, 0x92, 0xcf, 0x0b, 0x64, 0x3d, 0xbd, 0xf1, 0xbe, 0x9b, 0xc5, 0x00, 0x68, 0x30, 0xb3, 0xfe]) == [0x49, 0x15, 0x59, 0x8f, 0x55, 0xe5, 0xd7, 0xa0, 0xda, 0xca, 0x94, 0xfa, 0x1f, 0x0a, 0x63, 0xf7]
  {
    C1SubBytes2();
    C1MixColumns2();
    XorIs([0xff, 0x87, 0x96, 0x84, 0x31, 0xd8, 0x6a, 0x51, 0x64, 0x51, 0x51, 0xfa, 0x77, 0x3a, 0xd0, 0x09], [0xb6, 0x92, 0xcf, 0x0b, 0x64, 0x3d, 0xbd, 0xf1, 0xbe, 0x9b, 0xc5, 0x00, 0x68, 0x30, 0xb3, 0xfe], [0x49, 0x15, 0x59, 0x8f, 0x55, 0xe5, 0xd7, 0xa0, 0xda, 0xca, 0x94, 0xfa, 0x1f, 0x0a, 0x63, 0xf7]);
  }
  /** round[ 3].s_box. */
  lemma C1SubBytes3()
    ensures SubBytes([0x49, 0x15, 0x59, 0x8f, 0x55, 0xe5, 0xd7, 0xa0, 0xda, 0xca, 0x94, 0xfa, 0x1f, 0x0a, 0x63, 0xf7]) == [0x3b, 0x59, 0xcb, 0x73, 0xfc, 0xd9, 0x0e, 0xe0, 0x57, 0x74, 0x22, 0x2d, 0xc0, 0x67, 0xfb, 0x68]
  {
    SubBytesIs([0x49, 0x15, 0x59, 0x8f, 0x55, 0xe5, 0xd7, 0xa0, 0xda, 0xca, 0x94, 0xfa, 0x1f, 0x0a, 0x63, 0xf7], [0x3b, 0x59, 0xcb, 0x73, 0xfc, 0xd9, 0x0e, 0xe0, 0x57, 0x74, 0x22, 0x2d, 0xc0, 0x67, 0xfb, 0x68]);
  }

  /** round[ 3].s_row and round[ 3].m_col. */
  lemma C1MixColumns3()
    ensures MixColumns(ShiftRows([0x3b, 0x59, 0xcb, 0x73, 0xfc, 0xd9, 0x0e, 0xe0, 0x57, 0x74, 0x22, 0x2d, 0xc0, 0x67, 0xfb, 0x68])) == [0x4c, 0x9c, 0x1e, 0x66, 0xf7, 0x71, 0xf0, 0x76, 0x2c, 0x3f, 0x86, 0x8e, 0x53, 0x4d, 0xf2, 0x56]
  {
    assert ShiftRows([0x3b, 0x59, 0xcb, 0x73, 0xfc, 0xd9, 0x0e, 0xe0, 0x57, 0x74, 0x22, 0x2d, 0xc0, 0x67, 0xfb, 0x68]) == [0x3b, 0xd9, 0x22, 0x68, 0xfc, 0x74, 0xfb, 0x73, 0x57, 0x67, 0xcb, 0xe0, 0xc0, 0x59, 0x0e, 0x2d];
    MixColumnsIs([0x3b, 0xd9, 0x22, 0x68, 0xfc, 0x74, 0xfb, 0x73, 0x57, 0x67, 0xcb, 0xe0, 0xc0, 0x59, 0x0e, 0x2d], [0x4c, 0x9c, 0x1e, 0x66, 0xf7, 0x71, 0xf0, 0x76, 0x2c, 0x3f, 0x86, 0x8e, 0x53, 0x4d, 0xf2, 0x56]);
  }

  /** Round 3 takes round[ 3].start to round[ 4].start. */
  lemma C1Round3()
    ensures Round([0x49, 0x15, 0x59, 0x8f, 0x55, 0xe5, 0xd7, 0xa0, 0xda, 0xca, 0x94, 0xfa, 0x1f, 0x0a, 0x63, 0xf7], [0xb6, 0xff, 0x74, 0x4e, 0xd2, 0xc2, 0xc9, 0xbf, 0x6c, 0x59, 0x0c, 0xbf, 0x04, 0x69, 0xbf, 0x41]) == [0xfa, 0x63, 0x6a, 0x28, 0x25, 0xb3, 0x39, 0xc9, 0x40, 0x66, 0x8a, 0x31, 0x57, 0x24, 0x4d, 0x17]
  {
    C1SubBytes3();
    C1MixColumns3();
    XorIs([0x4c, 0x9c, 0x1e, 0x66, 0xf7, 0x71, 0xf0, 0x76, 0x2c, 0x3f, 0x86, 0x8e, 0x53, 0x4d, 0xf2, 0x56], [0xb6, 0xff, 0x74, 0x4e, 0xd2, 0xc2, 0xc9, 0xbf, 0x6c, 0x59, 0x0c, 0xbf, 0x04, 0x69, 0xbf, 0x41], [0xfa, 0x63, 0x6a, 0x28, 0x25, 0xb3, 0x39, 0xc9, 0x40, 0x66, 0x8a, 0x31, 0x57, 0x24, 0x4d, 0x17]);
  }
  /** round[ 4].s_box. */
  lemma C1SubBytes4()
    ensures SubBytes([0xfa, 0x63, 0x6a, 0x28, 0x25, 0xb3, 0x39, 0xc9, 0x40, 0x66, 0x8a, 0x31, 0x57, 0x24, 0x4d, 0x17]) == [0x2d, 0xfb, 0x02, 0x34, 0x3f, 0x6d, 0x12, 0xdd, 0x09, 0x33, 0x7e, 0xc7, 0x5b, 0x36, 0xe3, 0xf0]
  {
    SubBytesIs([0xfa, 0x63, 0x6a, 0x28, 0x25, 0xb3, 0x39, 0xc9, 0x40, 0x66, 0x8a, 0x31, 0x57, 0x24, 0x4d, 0x17], [0x2d, 0xfb, 0x02, 0x34, 0x3f, 0x6d, 0x12, 0xdd, 0x09, 0x33, 0x7e, 0xc7, 0x5b, 0x36, 0xe3, 0xf0]);
  }

  /** round[ 4].s_row and round[ 4].m_col. */
  lemma C1MixColumns4()
    ensures MixColumns(ShiftRows([0x2d, 0xfb, 0x02, 0x34, 0x3f, 0x6d, 0x12, 0xdd, 0x09, 0x33, 0x7e, 0xc7, 0x5b, 0x36, 0xe3, 0xf0])) == [0x63, 0x85, 0xb7, 0x9f, 0xfc, 0x53, 0x8d, 0xf9, 0x97, 0xbe, 0x47, 0x8e, 0x75, 0x47, 0xd6, 0x91]
  {
    assert ShiftRows([0x2d, 0xfb, 0x02, 0x34, 0x3f, 0x6d, 0x12, 0xdd, 0x09, 0x33, 0x7e, 0xc7, 0x5b, 0x36, 0xe3, 0xf0]) == [0x2d, 0x6d, 0x7e, 0xf0, 0x3f, 0x33, 0xe3, 0x34, 0x09, 0x36, 0x02, 0xdd, 0x5b, 0xfb, 0x12, 0xc7];
    MixColumnsIs([0x2d, 0x6d, 0x7e, 0xf0, 0x3f, 0x33, 0xe3, 0x34, 0x09, 0x36, 0x02, 0xdd, 0x5b, 0xfb, 0x12, 0xc7], [0x63, 0x85, 0xb7, 0x9f, 0xfc, 0x53, 0x8d, 0xf9, 0x97, 0xbe, 0x47, 0x8e, 0x75, 0x47, 0xd6, 0x91]);
  }

  /** Round 4 takes round[ 4].start to round[ 5].start. */
  lemma C1Round4()
    ensures Round([0xfa, 0x63, 0x6a, 0x28, 0x25, 0xb3, 0x39, 0xc9, 0x40, 0x66, 0x8a, 0x31, 0x57, 0x24, 0x4d, 0x17], [0x47, 0xf7, 0xf7, 0xbc, 0x95, 0x35, 0x3e, 0x03, 0xf9, 0x6c, 0x32, 0xbc, 0xfd, 0x05, 0x8d, 0xfd]) == [0x24, 0x72, 0x40, 0x23, 0x69, 0x66, 0xb3, 0xfa, 0x6e, 0xd2, 0x75, 0x32, 0x88, 0x42, 0x5b, 0x6c]
  {
    C1SubBytes4();
    C1MixColumns4();
    XorIs([0x63, 0x85, 0xb7, 0x9f, 0xfc, 0x53, 0x8d, 0xf9, 0x97, 0xbe, 0x47, 0x8e, 0x75, 0x47, 0xd6, 0x91], [0x47, 0xf7, 0xf7, 0xbc, 0x95, 0x35, 0x3e, 0x03, 0xf9, 0x6c, 0x32, 0xbc, 0xfd, 0x05, 0x8d, 0xfd], [0x24, 0x72, 0x40, 0x23, 0x69, 0x66, 0xb3, 0xfa, 0x6e, 0xd2, 0x75, 0x32, 0x88, 0x42, 0x5b, 0x6c]);
  }
  /** round[ 5].s_box. */
  lemma C1SubBytes5()
    ensures SubBytes([0x24, 0x72, 0x40, 0x23, 0x69, 0x66, 0xb3, 0xfa, 0x6e, 0xd2, 0x75, 0x32, 0x88, 0x42, 0x5b, 0x6c]) == [0x36, 0x40, 0x09, 0x26, 0xf9, 0x33, 0x6d, 0x2d, 0x9f, 0xb5, 0x9d, 0x23, 0xc4, 0x2c, 0x39, 0x50]
  {
    SubBytesIs([0x24, 0x72, 0x40, 0x23, 0x69, 0x66, 0xb3, 0xfa, 0x6e, 0xd2, 0x75, 0x32, 0x88, 0x42, 0x5b, 0x6c], [0x36, 0x40, 0x09, 0x26, 0xf9, 0x33, 0x6d, 0x2d, 0x9f, 0xb5, 0x9d, 0x23, 0xc4, 0x2c, 0x39, 0x50]);
  }

  /** round[ 5].s_row and round[ 5].m_col. */
  lemma C1MixColumns5()
    ensures MixColumns(ShiftRows([0x36, 0x40, 0x09, 0x26, 0xf9, 0x33, 0x6d, 0x2d, 0x9f, 0xb5, 0x9d, 0x23, 0xc4, 0x2c, 0x39, 0x50])) == [0xf4, 0xbc, 0xd4, 0x54, 0x32, 0xe5, 0x54, 0xd0, 0x75, 0xf1, 0xd6, 0xc5, 0x1d, 0xd0, 0x3b, 0x3c]
  {
    assert ShiftRows([0x36, 0x40, 0x09, 0x26, 0xf9, 0x33, 0x6d, 0x2d, 0x9f, 0xb5, 0x9d, 0x23, 0xc4, 0x2c, 0x39, 0x50]) == [0x36, 0x33, 0x9d, 0x50, 0xf9, 0xb5, 0x39, 0x26, 0x9f, 0x2c, 0x09, 0x2d, 0xc4, 0x40, 0x6d, 0x23];
    MixColumnsIs([0x36, 0x33, 0x9d, 0x50, 0xf9, 0xb5, 0x39, 0x26, 0x9f, 0x2c, 0x09, 0x2d, 0xc4, 0x40, 0x6d, 0x23], [0xf4, 0xbc, 0xd4, 0x54, 0x32, 0xe5, 0x54, 0xd0, 0x75, 0xf1, 0xd6, 0xc5, 0x1d, 0xd0, 0x3b, 0x3c]);
  }

  /** Round 5 takes round[ 5].start to round[ 6].start. */
  lemma C1Round5()
    ensures Round([0x24, 0x72, 0x40, 0x23, 0x69, 0x66, 0xb3, 0xfa, 0x6e, 0xd2, 0x75, 0x32, 0x88, 0x42, 0x5b, 0x6c], [0x3c, 0xaa, 0xa3, 0xe8, 0xa9, 0x9f, 0x9d, 0xeb, 0x50, 0xf3, 0xaf, 0x57, 0xad, 0xf6, 0x22, 0xaa]) == [0xc8, 0x16, 0x77, 0xbc, 0x9b, 0x7a, 0xc9, 0x3b, 0x25, 0x02, 0x79, 0x92, 0xb0, 0x26, 0x19, 0x96]
  {
    C1SubBytes5();
    C1MixColumns5();
    XorIs([0xf4, 0xbc, 0xd4, 0x54, 0x32, 0xe5, 0x54, 0xd0, 0x75, 0xf1, 0xd6, 0xc5, 0x1d, 0xd0, 0x3b, 0x3c], [0x3c, 0xaa, 0xa3, 0xe8, 0xa9, 0x9f, 0x9d, 0xeb, 0x50, 0xf3, 0xaf, 0x57, 0xad, 0xf6, 0x22, 0xaa], [0xc8, 0x16, 0x77, 0xbc, 0x9b, 0x7a, 0xc9, 0x3b, 0x25, 0x02, 0x79, 0x92, 0xb0, 0x26, 0x19, 0x96]);
  }
  /** round[ 6].s_box. */
  lemma C1SubBytes6()
    ensures SubBytes([0xc8, 0x16, 0x77, 0xbc, 0x9b, 0x7a, 0xc9, 0x3b, 0x25, 0x02, 0x79, 0x92, 0xb0, 0x26, 0x19, 0x96]) == [0xe8, 0x47, 0xf5, 0x65, 0x14, 0xda, 0xdd, 0xe2, 0x3f, 0x77, 0xb6, 0x4f, 0xe7, 0xf7, 0xd4, 0x90]
  {
    SubBytesIs([0xc8, 0x16, 0x77, 0xbc, 0x9b, 0x7a, 0xc9, 0x3b, 0x25, 0x02, 0x79, 0x92, 0xb0, 0x26, 0x19, 0x96], [0xe8, 0x47, 0xf5, 0x65, 0x14, 0xda, 0xdd, 0xe2, 0x3f, 0x77, 0xb6, 0x4f, 0xe7, 0xf7, 0xd4, 0x90]);
  }

  /** round[ 6].s_row and round[ 6].m_col. */
  lemma C1MixColumns6()
    ensures MixColumns(ShiftRows([0xe8, 0x47, 0xf5, 0x65, 0x14, 0xda, 0xdd, 0xe2, 0x3f, 0x77, 0xb6, 0x4f, 0xe7, 0xf7, 0xd4, 0x90])) == [0x98, 0x16, 0xee, 0x74, 0x00, 0xf8, 0x7f, 0x55, 0x6b, 0x2c, 0x04, 0x9c, 0x8e, 0x5a, 0xd0, 0x36]
  {
    assert ShiftRows([0xe8, 0x47, 0xf5, 0x65, 0x14, 0xda, 0xdd, 0xe2, 0x3f, 0x77, 0xb6, 0x4f, 0xe7, 0xf7, 0xd4, 0x90]) == [0xe8, 0xda, 0xb6, 0x90, 0x14, 0x77, 0xd4, 0x65, 0x3f, 0xf7, 0xf5, 0xe2, 0xe7, 0x47, 0xdd, 0x4f];
    MixColumnsIs([0xe8, 0xda, 0xb6, 0x90, 0x14, 0x77, 0xd4, 0x65, 0x3f, 0xf7, 0xf5, 0xe2, 0xe7, 0x47, 0xdd, 0x4f], [0x98, 0x16, 0xee, 0x74, 0x00, 0xf8, 0x7f, 0x55, 0x6b, 0x2c, 0x04, 0x9c, 0x8e, 0x5a, 0xd0, 0x36]);
  }

  /** Round 6 takes round[ 6].start to round[ 7].start. */
  lemma C1Round6()
    ensures Round([0xc8, 0x16, 0x77, 0xbc, 0x9b, 0x7a, 0xc9, 0x3b, 0x25, 0x02, 0x79, 0x92, 0xb0, 0x26, 0x19, 0x96], [0x5e, 0x39, 0x0f, 0x7d, 0xf7, 0xa6, 0x92, 0x96, 0xa7, 0x55, 0x3d, 0xc1, 0x0a, 0xa3, 0x1f, 0x6b]) == [0xc6, 0x2f, 0xe1, 0x09, 0xf7, 0x5e, 0xed, 0xc3, 0xcc, 0x79, 0x39, 0x5d, 0x84, 0xf9, 0xcf, 0x5d]
  {
    C1SubBytes6();
    C1MixColumns6();
    XorIs([0x98, 0x16, 0xee, 0x74, 0x00, 0xf8, 0x7f, 0x55, 0x6b, 0x2c, 0x04, 0x9c, 0x8e, 0x5a, 0xd0, 0x36], [0x5e, 0x39, 0x0f, 0x7d, 0xf7, 0xa6, 0x92, 0x96, 0xa7, 0x55, 0x3d, 0xc1, 0x0a, 0xa3, 0x1f, 0x6b], [0xc6, 0x2f, 0xe1, 0x09, 0xf7, 0x5e, 0xed, 0xc3, 0xcc, 0x79, 0x39, 0x5d, 0x84, 0xf9, 0xcf, 0x5d]);
  }
  /** round[ 7].s_box. */
  lemma C1SubBytes7()
    ensures SubBytes([0xc6, 0x2f, 0xe1, 0x09, 0xf7, 0x5e, 0xed, 0xc3, 0xcc, 0x79, 0x39, 0x5d, 0x84, 0xf9, 0xcf, 0x5d]) == [0xb4, 0x15, 0xf8, 0x01, 0x68, 0x58, 0x55, 0x2e, 0x4b, 0xb6, 0x12, 0x4c, 0x5f, 0x99, 0x8a, 0x4c]
  {
    SubBytesIs([0xc6, 0x2f, 0xe1, 0x09, 0xf7, 0x5e, 0xed, 0xc3, 0xcc, 0x79, 0x39, 0x5d, 0x84, 0xf9, 0xcf, 0x5d], [0xb4, 0x15, 0xf8, 0x01, 0x68, 0x58, 0x55, 0x2e, 0x4b, 0xb6, 0x12, 0x4c, 0x5f, 0x99, 0x8a, 0x4c]);
  }

  /** round[ 7].s_row and round[ 7].m_col. */
  lemma C1MixColumns7()
    ensures MixColumns(ShiftRows([0xb4, 0x15, 0xf8, 0x01, 0x68, 0x58, 0x55, 0x2e, 0x4b, 0xb6, 0x12, 0x4c, 0x5f, 0x99, 0x8a, 0x4c])) == [0xc5, 0x7e, 0x1c, 0x15, 0x9a, 0x9b, 0xd2, 0x86, 0xf0, 0x5f, 0x4b, 0xe0, 0x98, 0xc6, 0x34, 0x39]
  {
    assert ShiftRows([0xb4, 0x15, 0xf8, 0x01, 0x68, 0x58, 0x55, 0x2e, 0x4b, 0xb6, 0x12, 0x4c, 0x5f, 0x99, 0x8a, 0x4c]) == [0xb4, 0x58, 0x12, 0x4c, 0x68, 0xb6, 0x8a, 0x01, 0x4b, 0x99, 0xf8, 0x2e, 0x5f, 0x15, 0x55, 0x4c];
    MixColumnsIs([0xb4, 0x58, 0x12, 0x4c, 0x68, 0xb6, 0x8a, 0x01, 0x4b, 0x99, 0xf8, 0x2e, 0x5f, 0x15, 0x55, 0x4c], [0xc5, 0x7e, 0x1c, 0x15, 0x9a, 0x9b, 0xd2, 0x86, 0xf0, 0x5f, 0x4b, 0xe0, 0x98, 0xc6, 0x34, 0x39]);
  }

  /** Round 7 takes round[ 7].start to round[ 8].start. */
  lemma C1Round7()
    ensures Round([0xc6, 0x2f, 0xe1, 0x09, 0xf7, 0x5e, 0xed, 0xc3, 0xcc, 0x79, 0x39, 0x5d, 0x84, 0xf9, 0xcf, 0x5d], [0x14, 0xf9, 0x70, 0x1a, 0xe3, 0x5f, 0xe2, 0x8c, 0x44, 0x0a, 0xdf, 0x4d, 0x4e, 0xa9, 0xc0, 0x26]) == [0xd1, 0x87, 0x6c, 0x0f, 0x79, 0xc4, 0x30, 0x0a, 0xb4, 0x55, 0x94, 0xad, 0xd6, 0x6f, 0xf4, 0x1f]
  {
    C1SubBytes7();
    C1MixColumns7();
    XorIs([0xc5, 0x7e, 0x1c, 0x15, 0x9a, 0x9b, 0xd2, 0x86, 0xf0, 0x5f, 0x4b, 0xe0, 0x98, 0xc6, 0x34, 0x39], [0x14, 0xf9, 0x70, 0x1a, 0xe3, 0x5f, 0xe2, 0x8c, 0x44, 0x0a, 0xdf, 0x4d, 0x4e, 0xa9, 0xc0, 0x26], [0xd1, 0x87, 0x6c, 0x0f, 0x79, 0xc4, 0x30, 0x0a, 0xb4, 0x55, 0x94, 0xad, 0xd6, 0x6f, 0xf4, 0x1f]);
  }
  /** round[ 8].s_box. */
  lemma C1SubBytes8()
    ensures SubBytes([0xd1, 0x87, 0x6c, 0x0f, 0x79, 0xc4, 0x30, 0x0a, 0xb4, 0x55, 0x94, 0xad, 0xd6, 0x6f, 0xf4, 0x1f]) == [0x3e, 0x17, 0x50, 0x76, 0xb6, 0x1c, 0x04, 0x67, 0x8d, 0xfc, 0x22, 0x95, 0xf6, 0xa8, 0xbf, 0xc0]
  {
    SubBytesIs([0xd1, 0x87, 0x6c, 0x0f, 0x79, 0xc4, 0x30, 0x0a, 0xb4, 0x55, 0x94, 0xad, 0xd6, 0x6f, 0xf4, 0x1f], [0x3e, 0x17, 0x50, 0x76, 0xb6, 0x1c, 0x04, 0x67, 0x8d, 0xfc, 0x22, 0x95, 0xf6, 0xa8, 0xbf, 0xc0]);
  }

  /** round[ 8].s_row and round[ 8].m_col. */
  lemma C1MixColumns8()
    ensures MixColumns(ShiftRows([0x3e, 0x17, 0x50, 0x76, 0xb6, 0x1c, 0x04, 0x67, 0x8d, 0xfc, 0x22, 0x95, 0xf6, 0xa8, 0xbf, 0xc0])) == [0xba, 0xa0, 0x3d, 0xe7, 0xa1, 0xf9, 0xb5, 0x6e, 0xd5, 0x51, 0x2c, 0xba, 0x5f, 0x41, 0x4d, 0x23]
  {
    assert ShiftRows([0x3e, 0x17, 0x50, 0x76, 0xb6, 0x1c, 0x04, 0x67, 0x8d, 0xfc, 0x22, 0x95, 0xf6, 0xa8, 0xbf, 0xc0]) == [0x3e, 0x1c, 0x22, 0xc0, 0xb6, 0xfc, 0xbf, 0x76, 0x8d, 0xa8, 0x50, 0x67, 0xf6, 0x17, 0x04, 0x95];
    MixColumnsIs([0x3e, 0x1c, 0x22, 0xc0, 0xb6, 0xfc, 0xbf, 0x76, 0x8d, 0xa8, 0x50, 0x67, 0xf6, 0x17, 0x04, 0x95], [0xba, 0xa0, 0x3d, 0xe7, 0xa1, 0xf9, 0xb5, 0x6e, 0xd5, 0x51, 0x2c, 0xba, 0x5f, 0x41, 0x4d, 0x23]);
  }

  /** Round 8 takes round[ 8].start to round[ 9].start. */
  lemma C1Round8()
    ensures Round([0xd1, 0x87, 0x6c, 0x0f, 0x79, 0xc4, 0x30, 0x0a, 0xb4, 0x55, 0x94, 0xad, 0xd6, 0x6f, 0xf4, 0x1f], [0x47, 0x43, 0x87, 0x35, 0xa4, 0x1c, 0x65, 0xb9, 0xe0, 0x16, 0xba, 0xf4, 0xae, 0xbf, 0x7a, 0xd2]) == [0xfd, 0xe3, 0xba, 0xd2, 0x05, 0xe5, 0xd0, 0xd7, 0x35, 0x47, 0x96, 0x4e, 0xf1, 0xfe, 0x37, 0xf1]
  {
    C1SubBytes8();
    C1MixColumns8();
    XorIs([0xba, 0xa0, 0x3d, 0xe7, 0xa1, 0xf9, 0xb5, 0x6e, 0xd5, 0x51, 0x2c, 0xba, 0x5f, 0x41, 0x4d, 0x23], [0x47, 0x43, 0x87, 0x35, 0xa4, 0x1c, 0x65, 0xb9, 0xe0, 0x16, 0xba, 0xf4, 0xae, 0xbf, 0x7a, 0xd2], [0xfd, 0xe3, 0xba, 0xd2, 0x05, 0xe5, 0xd0, 0xd7, 0x35, 0x47, 0x96, 0x4e, 0xf1, 0xfe, 0x37, 0xf1]);
  }
  /** round[ 9].s_box. */
  lemma C1SubBytes9()
    ensures SubBytes([0xfd, 0xe3, 0xba, 0xd2, 0x05, 0xe5, 0xd0, 0xd7, 0x35, 0x47, 0x96, 0x4e, 0xf1, 0xfe, 0x37, 0xf1]) == [0x54, 0x11, 0xf4, 0xb5, 0x6b, 0xd9, 0x70, 0x0e, 0x96, 0xa0, 0x90, 0x2f, 0xa1, 0xbb, 0x9a, 0xa1]
  {
    SubBytesIs([0xfd, 0xe3, 0xba, 0xd2, 0x05, 0xe5, 0xd0, 0xd7, 0x35, 0x47, 0x96, 0x4e, 0xf1, 0xfe, 0x37, 0xf1], [0x54, 0x11, 0xf4, 0xb5, 0x6b, 0xd9, 0x70, 0x0e, 0x96, 0xa0, 0x90, 0x2f, 0xa1, 0xbb, 0x9a, 0xa1]);
  }

  /** round[ 9].s_row and round[ 9].m_col. */
  lemma C1MixColumns9()
    ensures MixColumns(ShiftRows([0x54, 0x11, 0xf4, 0xb5, 0x6b, 0xd9, 0x70, 0x0e, 0x96, 0xa0, 0x90, 0x2f, 0xa1, 0xbb, 0x9a, 0xa1])) == [0xe9, 0xf7, 0x4e, 0xec, 0x02, 0x30, 0x20, 0xf6, 0x1b, 0xf2, 0xcc, 0xf2, 0x35, 0x3c, 0x21, 0xc7]
  {
    assert ShiftRows([0x54, 0x11, 0xf4, 0xb5, 0x6b, 0xd9, 0x70, 0x0e, 0x96, 0xa0, 0x90, 0x2f, 0xa1, 0xbb, 0x9a, 0xa1]) == [0x54, 0xd9, 0x90, 0xa1, 0x6b, 0xa0, 0x9a, 0xb5, 0x96, 0xbb, 0xf4, 0x0e, 0xa1, 0x11, 0x70, 0x2f];
    MixColumnsIs([0x54, 0xd9, 0x90, 0xa1, 0x6b, 0xa0, 0x9a, 0xb5, 0x96, 0xbb, 0xf4, 0x0e, 0xa1, 0x11, 0x70, 0x2f], [0xe9, 0xf7, 0x4e, 0xec, 0x02, 0x30, 0x20, 0xf6, 0x1b, 0xf2, 0xcc, 0xf2, 0x35, 0x3c, 0x21, 0xc7]);
  }

  /** Round 9 takes round[ 9].start to round[10].start. */
  lemma C1Round9()
    ensures Round([0xfd, 0xe3, 0xba, 0xd2, 0x05, 0xe5, 0xd0, 0xd7, 0x35, 0x47, 0x96, 0x4e, 0xf1, 0xfe, 0x37, 0xf1], [0x54, 0x99, 0x32, 0xd1, 0xf0, 0x85, 0x57, 0x68, 0x10, 0x93, 0xed, 0x9c, 0xbe, 0x2c, 0x97, 0x4e]) == [0xbd, 0x6e, 0x7c, 0x3d, 0xf2, 0xb5, 0x77, 0x9e, 0x0b, 0x61, 0x21, 0x6e, 0x8b, 0x10, 0xb6, 0x89]
  {
    C1SubBytes9();
    C1MixColumns9();
    XorIs([0xe9, 0xf7, 0x4e, 0xec, 0x02, 0x30, 0x20, 0xf6, 0x1b, 0xf2, 0xcc, 0xf2, 0x35, 0x3c, 0x21, 0xc7], [0x54, 0x99, 0x32, 0xd1, 0xf0, 0x85, 0x57, 0x68, 0x10, 0x93, 0xed, 0x9c, 0xbe, 0x2c, 0x97, 0x4e], [0xbd, 0x6e, 0x7c, 0x3d, 0xf2, 0xb5, 0x77, 0x9e, 0x0b, 0x61, 0x21, 0x6e, 0x8b, 0x10, 0xb6, 0x89]);
  }
  /** round[10].s_box. */
  lemma C1SubBytes10()
    ensures SubBytes([0xbd, 0x6e, 0x7c, 0x3d, 0xf2, 0xb5, 0x77, 0x9e, 0x0b, 0x61, 0x21, 0x6e, 0x8b, 0x10, 0xb6, 0x89]) == [0x7a, 0x9f, 0x10, 0x27, 0x89, 0xd5, 0xf5, 0x0b, 0x2b, 0xef, 0xfd, 0x9f, 0x3d, 0xca, 0x4e, 0xa7]
  {
    SubBytesIs([0xbd, 0x6e, 0x7c, 0x3d, 0xf2, 0xb5, 0x77, 0x9e, 0x0b, 0x61, 0x21, 0x6e, 0x8b, 0x10, 0xb6, 0x89], [0x7a, 0x9f, 0x10, 0x27, 0x89, 0xd5, 0xf5, 0x0b, 0x2b, 0xef, 0xfd, 0x9f, 0x3d, 0xca, 0x4e, 0xa7]);
  }

  /** round[10].s_row. */
  lemma C1SubShift10()
    ensures SubShift([0xbd, 0x6e, 0x7c, 0x3d, 0xf2, 0xb5, 0x77, 0x9e, 0x0b, 0x61, 0x21, 0x6e, 0x8b, 0x10, 0xb6, 0x89]) == [0x7a, 0xd5, 0xfd, 0xa7, 0x89, 0xef, 0x4e, 0x27, 0x2b, 0xca, 0x10, 0x0b, 0x3d, 0x9f, 0xf5, 0x9f]
  {
    C1SubBytes10();
    assert ShiftRows([0x7a, 0x9f, 0x10, 0x27, 0x89, 0xd5, 0xf5, 0x0b, 0x2b, 0xef, 0xfd, 0x9f, 0x3d, 0xca, 0x4e, 0xa7]) == [0x7a, 0xd5, 0xfd, 0xa7, 0x89, 0xef, 0x4e, 0x27, 0x2b, 0xca, 0x10, 0x0b, 0x3d, 0x9f, 0xf5, 0x9f];
  }

  /** round[10]: the last round key gives the output. */
  lemma C1AddRoundKey10()
    ensures Xor([0x7a, 0xd5, 0xfd, 0xa7, 0x89, 0xef, 0x4e, 0x27, 0x2b, 0xca, 0x10, 0x0b, 0x3d, 0x9f, 0xf5, 0x9f], [0x13, 0x11, 0x1d, 0x7f, 0xe3, 0x94, 0x4a, 0x17, 0xf3, 0x07, 0xa7, 0x8b, 0x4d, 0x2b, 0x30, 0xc5]) == [0x69, 0xc4, 0xe0, 0xd8, 0x6a, 0x7b, 0x04, 0x30, 0xd8, 0xcd, 0xb7, 0x80, 0x70, 0xb4, 0xc5, 0x5a]
  {
    XorIs([0x7a, 0xd5, 0xfd, 0xa7, 0x89, 0xef, 0x4e, 0x27, 0x2b, 0xca, 0x10, 0x0b, 0x3d, 0x9f, 0xf5, 0x9f], [0x13, 0x11, 0x1d, 0x7f, 0xe3, 0x94, 0x4a, 0x17, 0xf3, 0x07, 0xa7, 0x8b, 0x4d, 0x2b, 0x30, 0xc5], [0x69, 0xc4, 0xe0, 0xd8, 0x6a, 0x7b, 0x04, 0x30, 0xd8, 0xcd, 0xb7, 0x80, 0x70, 0xb4, 0xc5, 0x5a]);
  }

  /** Round 10 under the Appendix C.1 key takes round[10].start to the output. */
  lemma C1LastRound(ek: seq<bv8>, x: Block)
    requires Expands(C1Key, ek) && x == [0xbd, 0x6e, 0x7c, 0x3d, 0xf2, 0xb5, 0x77, 0x9e, 0x0b, 0x61, 0x21, 0x6e, 0x8b, 0x10, 0xb6, 0x89]
    ensures Xor(SubShift(x), RoundKeys(ek)[10]) == C1Output
  {
    C1RoundKey10(ek);
    C1SubShift10();
    C1AddRoundKey10();
  }

  /** Rounds 1 .. 3 under the Appendix C.1 key reach round[ 4].start. */
  lemma C1Rounds1To3(ek: seq<bv8>)
    requires Expands(C1Key, ek)
    ensures Rounds.Forward(Round, Xor(C1Input, RoundKeys(ek)[0]), RoundKeys(ek)[1..10][0..3]) == [0xfa, 0x63, 0x6a, 0x28, 0x25, 0xb3, 0x39, 0xc9, 0x40, 0x66, 0x8a, 0x31, 0x57, 0x24, 0x4d, 0x17]
  {
    var keys := RoundKeys(ek);
    var x := Xor(C1Input, keys[0]);
    var ks := keys[1..10];
    C1RoundKey0(ek);
    C1Start();
    assert ks[0..0] == [];
    C1RoundKey1(ek);
    C1Round1();
    Rounds.ForwardStep(Round, x, ks, 0, 0);
    C1RoundKey2(ek);
    C1Round2();
    Rounds.ForwardStep(Round, x, ks, 0, 1);
    C1RoundKey3(ek);
    C1Round3();
    Rounds.ForwardStep(Round, x, ks, 0, 2);
  }

  /** Rounds 1 .. 6 under the Appendix C.1 key reach round[ 7].start. */
  lemma C1Rounds4To6(ek: seq<bv8>)
    requires Expands(C1Key, ek)
    ensures Rounds.Forward(Round, Xor(C1Input, RoundKeys(ek)[0]), RoundKeys(ek)[1..10][0..6]) == [0xc6, 0x2f, 0xe1, 0x09, 0xf7, 0x5e, 0xed, 0xc3, 0xcc, 0x79, 0x39, 0x5d, 0x84, 0xf9, 0xcf, 0x5d]
  {
    var keys := RoundKeys(ek);
    var x := Xor(C1Input, keys[0]);
    var ks := keys[1..10];
    C1Rounds1To3(ek);
    C1RoundKey4(ek);
    C1Round4();
    Rounds.ForwardStep(Round, x, ks, 0, 3);
    C1RoundKey5(ek);
    C1Round5();
    Rounds.ForwardStep(Round, x, ks, 0, 4);
    C1RoundKey6(ek);
    C1Round6();
    Rounds.ForwardStep(Round, x, ks, 0, 5);
  }

  /** Rounds 1 .. 9 under the Appendix C.1 key reach round[10].start. */
  lemma C1Rounds7To9(ek: seq<bv8>)
    requires Expands(C1Key, ek)
    ensures Rounds.Forward(Round, Xor(C1Input, RoundKeys(ek)[0]), RoundKeys(ek)[1..10][0..9]) == [0xbd, 0x6e, 0x7c, 0x3d, 0xf2, 0xb5, 0x77, 0x9e, 0x0b, 0x61, 0x21, 0x6e, 0x8b, 0x10, 0xb6, 0x89]
  {
    var keys := RoundKeys(ek);
    var x := Xor(C1Input, keys[0]);
    var ks := keys[1..10];
    C1Rounds4To6(ek);
    C1RoundKey7(ek);
    C1Round7();
    Rounds.ForwardStep(Round, x, ks, 0, 6);
    C1RoundKey8(ek);
    C1Round8();
    Rounds.ForwardStep(Round, x, ks, 0, 7);
    C1RoundKey9(ek);
    C1Round9();
    Rounds.ForwardStep(Round, x, ks, 0, 8);
  }

  /** All nine full rounds under the Appendix C.1 key reach round[10].start. */
  lemma C1Rounds1To9(ek: seq<bv8>)
    requires Expands(C1Key, ek)
    ensures Rounds.Forward(Round, Xor(C1Input, RoundKeys(ek)[0]), RoundKeys(ek)[1..10]) == [0xbd, 0x6e, 0x7c, 0x3d, 0xf2, 0xb5, 0x77, 0x9e, 0x0b, 0x61, 0x21, 0x6e, 0x8b, 0x10, 0xb6, 0x89]
  {
    C1Rounds7To9(ek);
    ForwardWhole(Round, Xor(C1Input, RoundKeys(ek)[0]), RoundKeys(ek)[1..10]);
  }

  /** The Appendix C.1 vector: the cipher takes 00112233..ff under the key 00010203..0f to
    * 69c4e0d8..c55a. */
  lemma C1Cipher()
    ensures Cipher(C1Input, RoundKeys(KeyExpansion(C1Key))) == C1Output
  {
    KeyExpansionExpands(C1Key);
    C1CipherOf(KeyExpansion(C1Key));
  }

  /** The vector for any schedule that satisfies the recurrence for the Appendix C.1 key. */
  lemma C1CipherOf(ek: seq<bv8>)
    requires Expands(C1Key, ek)
    ensures Cipher(C1Input, RoundKeys(ek)) == C1Output
  {
    var keys := RoundKeys(ek);
    C1Rounds1To9(ek);
    C1LastRound(ek, Rounds.Forward(Round, Xor(C1Input, keys[0]), keys[1..10]));
  }

  /** ... and the inverse cipher takes it back. */
  lemma C1InvCipher()
    ensures InvCipher(C1Output, RoundKeys(KeyExpansion(C1Key))) == C1Input
  {
    C1Cipher();
    InvCipherUndoes(C1Input, RoundKeys(KeyExpansion(C1Key)));
  }

  // Appendix A.1 (expansion of a 128-bit cipher key)

  /** The cipher key of Appendix A.1 (expansion of a 128-bit cipher key). */
  const A1Key: Block := [0x2b, 0x7e, 0x15, 0x16, 0x28, 0xae, 0xd2, 0xa6, 0xab, 0xf7, 0x15, 0x88, 0x09, 0xcf, 0x4f, 0x3c]

  /** Words 0 .. 3 of the schedule: the key itself. */
  lemma A1Words0(ek: seq<bv8>)
    requires Expands(A1Key, ek)
    ensures Word(ek, 0) == [0x2b, 0x7e, 0x15, 0x16] && Word(ek, 1) == [0x28, 0xae, 0xd2, 0xa6]
    ensures Word(ek, 2) == [0xab, 0xf7, 0x15, 0x88] && Word(ek, 3) == [0x09, 0xcf, 0x4f, 0x3c]
  {
    assert Word(ek, 0) == ek[..16][0..4] && Word(ek, 1) == ek[..16][4..8];
    assert Word(ek, 2) == ek[..16][8..12] && Word(ek, 3) == ek[..16][12..16];
  }

  /** Words 4 .. 7 of the schedule: round key 1 is a0fafe1788542cb123a339392a6c7605. */
  lemma A1Words1(ek: seq<bv8>)
    requires Expands(A1Key, ek)
    ensures Word(ek, 4) == [0xa0, 0xfa, 0xfe, 0x17] && Word(ek, 5) == [0x88, 0x54, 0x2c, 0xb1]
    ensures Word(ek, 6) == [0x23, 0xa3, 0x39, 0x39] && Word(ek, 7) == [0x2a, 0x6c, 0x76, 0x05]
  {
    A1Words0(ek);
    WordStep(A1Key, ek, 4, [0x2b, 0x7e, 0x15, 0x16], [0x09, 0xcf, 0x4f, 0x3c], [0xa0, 0xfa, 0xfe, 0x17]);
    WordStep(A1Key, ek, 5, [0x28, 0xae, 0xd2, 0xa6], [0xa0, 0xfa, 0xfe, 0x17], [0x88, 0x54, 0x2c, 0xb1]);
    WordStep(A1Key, ek, 6, [0xab, 0xf7, 0x15, 0x88], [0x88, 0x54, 0x2c, 0xb1], [0x23, 0xa3, 0x39, 0x39]);
    WordStep(A1Key, ek, 7, [0x09, 0xcf, 0x4f, 0x3c], [0x23, 0xa3, 0x39, 0x39], [0x2a, 0x6c, 0x76, 0x05]);
  }

  /** Words 8 .. 11 of the schedule: round key 2 is f2c295f27a96b9435935807a7359f67f. */
  lemma A1Words2(ek: seq<bv8>)
    requires Expands(A1Key, ek)
    ensures Word(ek, 8) == [0xf2, 0xc2, 0x95, 0xf2] && Word(ek, 9) == [0x7a, 0x96, 0xb9, 0x43]
    ensures Word(ek, 10) == [0x59, 0x35, 0x80, 0x7a] && Word(ek, 11) == [0x73, 0x59, 0xf6, 0x7f]
  {
    A1Words1(ek);
    WordStep(A1Key, ek, 8, [0xa0, 0xfa, 0xfe, 0x17], [0x2a, 0x6c, 0x76, 0x05], [0xf2, 0xc2, 0x95, 0xf2]);
    WordStep(A1Key, ek, 9, [0x88, 0x54, 0x2c, 0xb1], [0xf2, 0xc2, 0x95, 0xf2], [0x7a, 0x96, 0xb9, 0x43]);
    WordStep(A1Key, ek, 10, [0x23, 0xa3, 0x39, 0x39], [0x7a, 0x96, 0xb9, 0x43], [0x59, 0x35, 0x80, 0x7a]);
    WordStep(A1Key, ek, 11, [0x2a, 0x6c, 0x76, 0x05], [0x59, 0x35, 0x80, 0x7a], [0x73, 0x59, 0xf6, 0x7f]);
  }

  /** Words 12 .. 15 of the schedule: round key 3 is 3d80477d4716fe3e1e237e446d7a883b. */
  lemma A1Words3(ek: seq<bv8>)
    requires Expands(A1Key, ek)
    ensures Word(ek, 12) == [0x3d, 0x80, 0x47, 0x7d] && Word(ek, 13) == [0x47, 0x16, 0xfe, 0x3e]
    ensures Word(ek, 14) == [0x1e, 0x23, 0x7e, 0x44] && Word(ek, 15) == [0x6d, 0x7a, 0x88, 0x3b]
  {
    A1Words2(ek);
    WordStep(A1Key, ek, 12, [0xf2, 0xc2, 0x95, 0xf2], [0x73, 0x59, 0xf6, 0x7f], [0x3d, 0x80, 0x47, 0x7d]);
    WordStep(A1Key, ek, 13, [0x7a, 0x96, 0xb9, 0x43], [0x3d, 0x80, 0x47, 0x7d], [0x47, 0x16, 0xfe, 0x3e]);
    WordStep(A1Key, ek, 14, [0x59, 0x35, 0x80, 0x7a], [0x47, 0x16, 0xfe, 0x3e], [0x1e, 0x23, 0x7e, 0x44]);
    WordStep(A1Key, ek, 15, [0x73, 0x59, 0xf6, 0x7f], [0x1e, 0x23, 0x7e, 0x44], [0x6d, 0x7a, 0x88, 0x3b]);
  }

  /** Words 16 .. 19 of the schedule: round key 4 is ef44a541a8525b7fb671253bdb0bad00. */
  lemma A1Words4(ek: seq<bv8>)
    requires Expands(A1Key, ek)
    ensures Word(ek, 16) == [0xef, 0x44, 0xa5, 0x41] && Word(ek, 17) == [0xa8, 0x52, 0x5b, 0x7f]
    ensures Word(ek, 18) == [0xb6, 0x71, 0x25, 0x3b] && Word(ek, 19) == [0xdb, 0x0b, 0xad, 0x00]
  {
    A1Words3(ek);
    WordStep(A1Key, ek, 16, [0x3d, 0x80, 0x47, 0x7d], [0x6d, 0x7a, 0x88, 0x3b], [0xef, 0x44, 0xa5, 0x41]);
    WordStep(A1Key, ek, 17, [0x47, 0x16, 0xfe, 0x3e], [0xef, 0x44, 0xa5, 0x41], [0xa8, 0x52, 0x5b, 0x7f]);
    WordStep(A1Key, ek, 18, [0x1e, 0x23, 0x7e, 0x44], [0xa8, 0x52, 0x5b, 0x7f], [0xb6, 0x71, 0x25, 0x3b]);
    WordStep(A1Key, ek, 19, [0x6d, 0x7a, 0x88, 0x3b], [0xb6, 0x71, 0x25, 0x3b], [0xdb, 0x0b, 0xad, 0x00]);
  }

  /** Words 20 .. 23 of the schedule: round key 5 is d4d1c6f87c839d87caf2b8bc11f915bc. */
  lemma A1Words5(ek: seq<bv8>)
    requires Expands(A1Key, ek)
    ensures Word(ek, 20) == [0xd4, 0xd1, 0xc6, 0xf8] && Word(ek, 21) == [0x7c, 0x83, 0x9d, 0x87]
    ensures Word(ek, 22) == [0xca, 0xf2, 0xb8, 0xbc] && Word(ek, 23) == [0x11, 0xf9, 0x15, 0xbc]
  {
    A1Words4(ek);
    WordStep(A1Key, ek, 20, [0xef, 0x44, 0xa5, 0x41], [0xdb, 0x0b, 0xad, 0x00], [0xd4, 0xd1, 0xc6, 0xf8]);
    WordStep(A1Key, ek, 21, [0xa8, 0x52, 0x5b, 0x7f], [0xd4, 0xd1, 0xc6, 0xf8], [0x7c, 0x83, 0x9d, 0x87]);
    WordStep(A1Key, ek, 22, [0xb6, 0x71, 0x25, 0x3b], [0x7c, 0x83, 0x9d, 0x87], [0xca, 0xf2, 0xb8, 0xbc]);
    WordStep(A1Key, ek, 23, [0xdb, 0x0b, 0xad, 0x00], [0xca, 0xf2, 0xb8, 0xbc], [0x11, 0xf9, 0x15, 0xbc]);
  }

  /** Words 24 .. 27 of the schedule: round key 6 is 6d88a37a110b3efddbf98641ca0093fd. */
  lemma A1Words6(ek: seq<bv8>)
    requires Expands(A1Key, ek)
    ensures Word(ek, 24) == [0x6d, 0x88, 0xa3, 0x7a] && Word(ek, 25) == [0x11, 0x0b, 0x3e, 0xfd]
    ensures Word(ek, 26) == [0xdb, 0xf9, 0x86, 0x41] && Word(ek, 27) == [0xca, 0x00, 0x93, 0xfd]
  {
    A1Words5(ek);
    WordStep(A1Key, ek, 24, [0xd4, 0xd1, 0xc6, 0xf8], [0x11, 0xf9, 0x15, 0xbc], [0x6d, 0x88, 0xa3, 0x7a]);
    WordStep(A1Key, ek, 25, [0x7c, 0x83, 0x9d, 0x87], [0x6d, 0x88, 0xa3, 0x7a], [0x11, 0x0b, 0x3e, 0xfd]);
    WordStep(A1Key, ek, 26, [0xca, 0xf2, 0xb8, 0xbc], [0x11, 0x0b, 0x3e, 0xfd], [0xdb, 0xf9, 0x86, 0x41]);
    WordStep(A1Key, ek, 27, [0x11, 0xf9, 0x15, 0xbc], [0xdb, 0xf9, 0x86, 0x41], [0xca, 0x00, 0x93, 0xfd]);
  }

  /** Words 28 .. 31 of the schedule: round key 7 is 4e54f70e5f5fc9f384a64fb24ea6dc4f. */
  lemma A1Words7(ek: seq<bv8>)
    requires Expands(A1Key, ek)
    ensures Word(ek, 28) == [0x4e, 0x54, 0xf7, 0x0e] && Word(ek, 29) == [0x5f, 0x5f, 0xc9, 0xf3]
    ensures Word(ek, 30) == [0x84, 0xa6, 0x4f, 0xb2] && Word(ek, 31) == [0x4e, 0xa6, 0xdc, 0x4f]
  {
    A1Words6(ek);
    WordStep(A1Key, ek, 28, [0x6d, 0x88, 0xa3, 0x7a], [0xca, 0x00, 0x93, 0xfd], [0x4e, 0x54, 0xf7, 0x0e]);
    WordStep(A1Key, ek, 29, [0x11, 0x0b, 0x3e, 0xfd], [0x4e, 0x54, 0xf7, 0x0e], [0x5f, 0x5f, 0xc9, 0xf3]);
    WordStep(A1Key, ek, 30, [0xdb, 0xf9, 0x86, 0x41], [0x5f, 0x5f, 0xc9, 0xf3], [0x84, 0xa6, 0x4f, 0xb2]);
    WordStep(A1Key, ek, 31, [0xca, 0x00, 0x93, 0xfd], [0x84, 0xa6, 0x4f, 0xb2], [0x4e, 0xa6, 0xdc, 0x4f]);
  }

  /** Words 32 .. 35 of the schedule: round key 8 is ead27321b58dbad2312bf5607f8d292f. */
  lemma A1Words8(ek: seq<bv8>)
    requires Expands(A1Key, ek)
    ensures Word(ek, 32) == [0xea, 0xd2, 0x73, 0x21] && Word(ek, 33) == [0xb5, 0x8d, 0xba, 0xd2]
    ensures Word(ek, 34) == [0x31, 0x2b, 0xf5, 0x60] && Word(ek, 35) == [0x7f, 0x8d, 0x29, 0x2f]
  {
    A1Words7(ek);
    WordStep(A1Key, ek, 32, [0x4e, 0x54, 0xf7, 0x0e], [0x4e, 0xa6, 0xdc, 0x4f], [0xea, 0xd2, 0x73, 0x21]);
    WordStep(A1Key, ek, 33, [0x5f, 0x5f, 0xc9, 0xf3], [0xea, 0xd2, 0x73, 0x21], [0xb5, 0x8d, 0xba, 0xd2]);
    WordStep(A1Key, ek, 34, [0x84, 0xa6, 0x4f, 0xb2], [0xb5, 0x8d, 0xba, 0xd2], [0x31, 0x2b, 0xf5, 0x60]);
    WordStep(A1Key, ek, 35, [0x4e, 0xa6, 0xdc, 0x4f], [0x31, 0x2b, 0xf5, 0x60], [0x7f, 0x8d, 0x29, 0x2f]);
  }

  /** Words 36 .. 39 of the schedule: round key 9 is ac7766f319fadc2128d12941575c006e. */
  lemma A1Words9(ek: seq<bv8>)
    requires Expands(A1Key, ek)
    ensures Word(ek, 36) == [0xac, 0x77, 0x66, 0xf3] && Word(ek, 37) == [0x19, 0xfa, 0xdc, 0x21]
    ensures Word(ek, 38) == [0x28, 0xd1, 0x29, 0x41] && Word(ek, 39) == [0x57, 0x5c, 0x00, 0x6e]
  {
    A1Words8(ek);
    WordStep(A1Key, ek, 36, [0xea, 0xd2, 0x73, 0x21], [0x7f, 0x8d, 0x29, 0x2f], [0xac, 0x77, 0x66, 0xf3]);
    WordStep(A1Key, ek, 37, [0xb5, 0x8d, 0xba, 0xd2], [0xac, 0x77, 0x66, 0xf3], [0x19, 0xfa, 0xdc, 0x21]);
    WordStep(A1Key, ek, 38, [0x31, 0x2b, 0xf5, 0x60], [0x19, 0xfa, 0xdc, 0x21], [0x28, 0xd1, 0x29, 0x41]);
    WordStep(A1Key, ek, 39, [0x7f, 0x8d, 0x29, 0x2f], [0x28, 0xd1, 0x29, 0x41], [0x57, 0x5c, 0x00, 0x6e]);
  }

  /** Words 40 .. 43 of the schedule: round key 10 is d014f9a8c9ee2589e13f0cc8b6630ca6. */
  lemma A1Words10(ek: seq<bv8>)
    requires Expands(A1Key, ek)
    ensures Word(ek, 40) == [0xd0, 0x14, 0xf9, 0xa8] && Word(ek, 41) == [0xc9, 0xee, 0x25, 0x89]
    ensures Word(ek, 42) == [0xe1, 0x3f, 0x0c, 0xc8] && Word(ek, 43) == [0xb6, 0x63, 0x0c, 0xa6]
  {
    A1Words9(ek);
    WordStep(A1Key, ek, 40, [0xac, 0x77, 0x66, 0xf3], [0x57, 0x5c, 0x00, 0x6e], [0xd0, 0x14, 0xf9, 0xa8]);
    WordStep(A1Key, ek, 41, [0x19, 0xfa, 0xdc, 0x21], [0xd0, 0x14, 0xf9, 0xa8], [0xc9, 0xee, 0x25, 0x89]);
    WordStep(A1Key, ek, 42, [0x28, 0xd1, 0x29, 0x41], [0xc9, 0xee, 0x25, 0x89], [0xe1, 0x3f, 0x0c, 0xc8]);
    WordStep(A1Key, ek, 43, [0x57, 0x5c, 0x00, 0x6e], [0xe1, 0x3f, 0x0c, 0xc8], [0xb6, 0x63, 0x0c, 0xa6]);
  }

  /** The last word of the Appendix A.1 expansion, w43, is b6630ca6. */
  lemma A1LastWord()
    ensures KeyExpansion(A1Key)[172..176] == [0xb6, 0x63, 0x0c, 0xa6]
  {
    var ek := KeyExpansion(A1Key);
    KeyExpansionExpands(A1Key);
    A1Words10(ek);
  }
}
