/**
 * The rest of the C++ AES-128 program: the key schedule, the CBC mode over vectors of
 * blocks, and the conversion between text and blocks.
 */
module AesCppModes {
  import GF = GaloisField
  import opened AesTables
  import opened Blocks
  import Cbc
  import Spec = AesSpec
  import opened AesCpp
  import Pkcs7

  /** `expandKey`: the 176-byte schedule of the first sixteen key bytes, four bytes at a
    * time, cut into eleven round keys. */
  method ExpandKey(key: seq<bv8>) returns (roundKeys: seq<Block>)
    requires |key| >= 16
    ensures roundKeys == Spec.RoundKeys(Spec.KeyExpansion(key[..16]))
  {
    var expandedKey := ScheduleBytes(key);
    roundKeys := CutRoundKeys(expandedKey);
  }

  /** The first part of `expandKey`: the key bytes, then one word at a time until all 176
    * bytes of the schedule are there. */
  method ScheduleBytes(key: seq<bv8>) returns (expandedKey: array<bv8>)
    requires |key| >= 16
    ensures fresh(expandedKey) && expandedKey.Length == 176
    ensures expandedKey[..] == Spec.KeyExpansion(key[..16])
  {
    ghost var k: Block := key[..16];
    ghost var ek := Spec.KeyExpansion(k);
    expandedKey := new bv8[176];
    CopyKey(expandedKey, key);
    Spec.KeyExpansionKey(k);
    var bytesGenerated := 16;
    var rconIndex := 1;
    var temp := new bv8[4];
    ghost var n := 4;
    while bytesGenerated < 176
      invariant 4 <= n <= 44 && bytesGenerated == 4 * n
      invariant RconFor(rconIndex, n)
      invariant expandedKey[..bytesGenerated] == ek[..bytesGenerated]
    {
      Spec.KeyExpansionWord(k, n);
      bytesGenerated, rconIndex := ScheduleStep(expandedKey, bytesGenerated, temp, rconIndex, ek, n);
      n := n + 1;
    }
    assert expandedKey[..] == expandedKey[..bytesGenerated];
  }

  /** The start of `expandKey`: the first sixteen key bytes are the first sixteen bytes of
    * the schedule. */
  method CopyKey(expandedKey: array<bv8>, key: seq<bv8>)
    requires expandedKey.Length == 176 && |key| >= 16
    modifies expandedKey
    ensures expandedKey[..16] == key[..16]
  {
    for i := 0 to 16
      invariant expandedKey[..i] == key[..i]
    {
      expandedKey[i] := key[i];
    }
  }

  /** One step of the loop of `expandKey`: `temp` from the last word, then the next word. */
  method ScheduleStep(expandedKey: array<bv8>, bytesGenerated: nat, temp: array<bv8>, rconIndex: nat,
                      ghost ek: seq<bv8>, ghost n: nat)
    returns (next: nat, nextIndex: nat)
    requires expandedKey.Length == 176 && temp.Length == 4 && expandedKey != temp
    requires 4 <= n < 44 && bytesGenerated == 4 * n && RconFor(rconIndex, n) && |ek| == 176
    requires Spec.Word(ek, n) == Spec.AddWord(Spec.Word(ek, n - 4), Spec.Temp(Spec.Word(ek, n - 1), n))
    requires expandedKey[..bytesGenerated] == ek[..bytesGenerated]
    modifies expandedKey, temp
    ensures next == bytesGenerated + 4 && RconFor(nextIndex, n + 1)
    ensures expandedKey[..next] == ek[..next]
  {
    nextIndex := NextTemp(expandedKey, bytesGenerated, temp, rconIndex, n);
    next := AppendWord(expandedKey, bytesGenerated, temp, n);
    Spec.WordOfPrefix(ek, bytesGenerated, n - 1);
    Spec.WordOfPrefix(ek, bytesGenerated, n - 4);
    Spec.PrefixWord(ek, n);
  }

  /** The second part of `expandKey`: round key i is schedule bytes 16i .. 16i + 15. */
  method CutRoundKeys(expandedKey: array<bv8>) returns (roundKeys: seq<Block>)
    requires expandedKey.Length == 176
    ensures roundKeys == Spec.RoundKeys(expandedKey[..])
  {
    roundKeys := [];
    for i := 0 to 11
      invariant |roundKeys| == i
      invariant forall j :: 0 <= j < i ==> roundKeys[j] == expandedKey[16 * j .. 16 * j + 16]
    {
      var block := RoundKeyBlock(expandedKey, i);
      roundKeys := roundKeys + [block];
    }
  }

  /** The end of a step of `expandKey`: four new schedule bytes, each the byte sixteen
    * places back plus the matching byte of `temp`. */
  method AppendWord(expandedKey: array<bv8>, bytesGenerated: nat, temp: array<bv8>, ghost n: nat)
    returns (next: nat)
    requires expandedKey.Length == 176 && temp.Length == 4 && expandedKey != temp
    requires 4 <= n < 44 && bytesGenerated == 4 * n
    modifies expandedKey
    ensures next == bytesGenerated + 4
    ensures var ks := old(expandedKey[..bytesGenerated]);
      expandedKey[..next] == ks + Spec.AddWord(Spec.Word(ks, n - 4), temp[..])
  {
    ghost var ks := expandedKey[..bytesGenerated];
    next := bytesGenerated;
    for i := 0 to 4
      invariant next == bytesGenerated + i
      invariant expandedKey[..bytesGenerated] == ks
      invariant forall j :: 0 <= j < i ==> expandedKey[bytesGenerated + j] == GF.Add(ks[bytesGenerated - 16 + j], temp[j])
    {
      expandedKey[next] := expandedKey[next - 16] ^ temp[i];
      next := next + 1;
    }
    assert expandedKey[..next] == ks + Spec.AddWord(Spec.Word(ks, n - 4), temp[..]);
  }

  /** The round constant index of `expandKey` while word n is made: the number of round
    * keys started so far, so that word n takes round constant n / 4 when it starts one. */
  ghost predicate RconFor(rconIndex: nat, n: nat) {
    4 * rconIndex - 3 <= n <= 4 * rconIndex
  }

  /** The test `bytesGenerated % 16 == 0` of `expandKey` picks the words that start a round
    * key, and the round constant index is then the round key's number. */
  lemma StartsRoundKey(n: nat, rconIndex: nat)
    requires RconFor(rconIndex, n)
    ensures (4 * n) % 16 == 0 <==> n % 4 == 0
    ensures n % 4 == 0 ==> rconIndex == n / 4 && n == 4 * rconIndex && RconFor(rconIndex + 1, n + 1)
    ensures n % 4 != 0 ==> RconFor(rconIndex, n + 1)
  {
  }

  /** The word `temp` of one step of `expandKey`: the last word of the schedule so far,
    * rotated, substituted and given the next round constant at the start of a round key;
    * the round constant index moves on with it. */
  method NextTemp(expandedKey: array<bv8>, bytesGenerated: nat, temp: array<bv8>, rconIndex: nat, ghost n: nat)
    returns (nextIndex: nat)
    requires expandedKey.Length == 176 && temp.Length == 4 && expandedKey != temp
    requires 4 <= n < 44 && bytesGenerated == 4 * n && RconFor(rconIndex, n)
    modifies temp
    ensures temp[..] == Spec.Temp(Spec.Word(expandedKey[..bytesGenerated], n - 1), n)
    ensures RconFor(nextIndex, n + 1)
  {
    ghost var w := Spec.Word(expandedKey[..bytesGenerated], n - 1);
    LoadWord(expandedKey, bytesGenerated, temp);
    StartsRoundKey(n, rconIndex);
    nextIndex := rconIndex;
    if bytesGenerated % 16 == 0 {
      StartWord(temp, nextIndex, n);
      nextIndex := nextIndex + 1;
    }
  }

  /** The block run at the start of a round key: `temp` is rotated, substituted and given
    * `Rcon[rconIndex]` in byte 0. */
  method StartWord(temp: array<bv8>, rconIndex: nat, ghost n: nat)
    requires temp.Length == 4 && 1 <= rconIndex < 11 && n == 4 * rconIndex
    modifies temp
    ensures temp[..] == Spec.Temp(old(temp[..]), n)
  {
    ghost var w := temp[..];
    RotSubWord(temp, SBox);
    temp[0] := temp[0] ^ Rcon[rconIndex];
    Spec.TempAtStart(w, rconIndex);
  }

  /** The first loop of a step of `expandKey`: `temp` takes the last four schedule bytes. */
  method LoadWord(expandedKey: array<bv8>, bytesGenerated: nat, temp: array<bv8>)
    requires expandedKey.Length == 176 && temp.Length == 4 && expandedKey != temp
    requires 4 <= bytesGenerated <= 176
    modifies temp
    ensures temp[..] == expandedKey[bytesGenerated - 4 .. bytesGenerated]
  {
    for i := 0 to 4
      invariant forall j :: 0 <= j < i ==> temp[j] == expandedKey[bytesGenerated - 4 + j]
    {
      temp[i] := expandedKey[bytesGenerated - 4 + i];
    }
  }

  /** The start of a round key in `expandKey`: `temp` rotated left by one byte, then every
    * byte looked up in `sbox` (the S-box, when `expandKey` runs it). */
  method RotSubWord(temp: array<bv8>, sbox: bv8 -> bv8)
    requires temp.Length == 4
    modifies temp
    ensures temp[..] == [sbox(old(temp[1])), sbox(old(temp[2])), sbox(old(temp[3])), sbox(old(temp[0]))]
  {
    ghost var rotated := [temp[1], temp[2], temp[3], temp[0]];
    var t := temp[0];
    temp[0] := temp[1];
    temp[1] := temp[2];
    temp[2] := temp[3];
    temp[3] := t;
    for i := 0 to 4
      invariant forall j :: 0 <= j < i ==> temp[j] == sbox(rotated[j])
      invariant forall j :: i <= j < 4 ==> temp[j] == rotated[j]
    {
      temp[i] := sbox(temp[i]);
    }
  }

  /** Round key i of `expandKey`: byte j of the schedule slice goes to cell (j % 4, j / 4). */
  method RoundKeyBlock(expandedKey: array<bv8>, i: nat) returns (block: Block)
    requires expandedKey.Length == 176 && i < 11
    ensures block == expandedKey[16 * i .. 16 * i + 16]
  {
    var cells := new bv8[4, 4];
    ghost var key := expandedKey[16 * i .. 16 * i + 16];
    for j := 0 to 16
      invariant forall m :: 0 <= m < j ==> cells[m % 4, m / 4] == key[m]
    {
      cells[j % 4, j / 4] := expandedKey[16 * i + j];
    }
    forall r, c | 0 <= r < 4 && 0 <= c < 4 ensures cells[r, c] == At(key, r, c) {
      assert (r + 4 * c) % 4 == r && (r + 4 * c) / 4 == c;
    }
    CellsEq(cells, key);
    block := Cells(cells);
  }

  // CBC over vectors of blocks.

  /** `AES_CBC_encrypt`: every plaintext block is added to `previous` -- the IV, then the
    * last ciphertext block -- and enciphered; one ciphertext block per plaintext block. */
  method CbcEncrypt(plaintextBlocks: seq<Block>, roundKeys: seq<Block>, iv: Block)
    returns (ciphertextBlocks: seq<Block>)
    requires |roundKeys| >= 11
    ensures ciphertextBlocks == Cbc.Encrypt(Spec.Encipher(roundKeys[..11]), plaintextBlocks, iv)
  {
    ghost var e := Spec.Encipher(roundKeys[..11]);
    ciphertextBlocks := [];
    var previous := iv;
    for i := 0 to |plaintextBlocks|
      invariant ciphertextBlocks == Cbc.Encrypt(e, plaintextBlocks[..i], iv)
      invariant previous == Cbc.Chain(ciphertextBlocks, iv)
    {
      var xored := XorBlocks(plaintextBlocks[i], previous);
      var encrypted := EncryptBlock(Cells(xored), roundKeys);
      Cbc.EncryptSnoc(e, plaintextBlocks, iv, i);
      ciphertextBlocks := ciphertextBlocks + [encrypted];
      previous := encrypted;
    }
    assert plaintextBlocks[..|plaintextBlocks|] == plaintextBlocks;
  }

  /** `AES_CBC_decrypt`: every ciphertext block is deciphered and added to `previous` -- the
    * IV, then the previous ciphertext block, not the previous decrypted one. */
  method CbcDecrypt(ciphertextBlocks: seq<Block>, roundKeys: seq<Block>, iv: Block)
    returns (decryptedBlocks: seq<Block>)
    requires |roundKeys| >= 11
    ensures decryptedBlocks == Cbc.Decrypt(Spec.Decipher(roundKeys[..11]), ciphertextBlocks, iv)
  {
    ghost var d := Spec.Decipher(roundKeys[..11]);
    decryptedBlocks := [];
    var previous := iv;
    for i := 0 to |ciphertextBlocks|
      invariant decryptedBlocks == Cbc.Decrypt(d, ciphertextBlocks[..i], iv)
      invariant previous == if i == 0 then iv else ciphertextBlocks[i - 1]
    {
      var decrypted := DecryptBlock(ciphertextBlocks[i], roundKeys);
      var plain := XorBlocks(decrypted, previous);
      Cbc.DecryptSnoc(d, ciphertextBlocks, iv, i);
      decryptedBlocks := decryptedBlocks + [Cells(plain)];
      previous := ciphertextBlocks[i];
    }
    assert ciphertextBlocks[..|ciphertextBlocks|] == ciphertextBlocks;
  }

  // Text and blocks.  A character of the text is a byte.

  const Space: bv8 := 0x20

  /** The text `textToBlocks` cuts up: the text, then spaces up to a whole number of blocks. */
  function SpacePadded(text: seq<bv8>): (padded: seq<bv8>)
    ensures |padded| % 16 == 0 && |text| <= |padded| < |text| + 16
    ensures padded[..|text|] == text
    ensures forall i :: |text| <= i < |padded| ==> padded[i] == Space
  {
    text + seq((16 - |text| % 16) % 16, _ => Space)
  }

  /** `textToBlocks`: spaces are appended until the length is a multiple of 16, then every
    * 16 bytes make a block. */
  method TextToBlocks(text: seq<bv8>) returns (blocks: seq<Block>)
    ensures blocks == Chunks(SpacePadded(text))
  {
    ghost var target := SpacePadded(text);
    var padded := text;
    while |padded| % 16 != 0
      invariant |text| <= |padded| <= |target| && padded == target[..|padded|]
      decreases |target| - |padded|
    {
      padded := padded + [Space];
    }
    assert padded == target;
    ghost var m := |padded| / 16;
    assert |padded| == 16 * m;
    blocks := [];
    var i := 0;
    ghost var n := 0;
    while i < |padded|
      invariant i == 16 * n && n <= m && |blocks| == n
      invariant forall k :: 0 <= k < n ==> blocks[k] == padded[16 * k .. 16 * k + 16]
    {
      var block := BlockAt(padded, i);
      blocks := blocks + [block];
      i := i + 16;
      n := n + 1;
    }
    assert |blocks| == |Chunks(padded)|;
  }

  /** The inner loops of `textToBlocks`: byte i + 4 col + row goes to cell (row, col). */
  method BlockAt(padded: seq<bv8>, i: nat) returns (block: Block)
    requires i + 16 <= |padded|
    ensures block == padded[i .. i + 16]
  {
    var cells := new bv8[4, 4];
    for col := 0 to 4
      invariant forall r, c :: 0 <= r < 4 && 0 <= c < col ==> cells[r, c] == padded[i + c * 4 + r]
    {
      for row := 0 to 4
        invariant forall r, c :: 0 <= r < 4 && 0 <= c < col ==> cells[r, c] == padded[i + c * 4 + r]
        invariant forall r :: 0 <= r < row ==> cells[r, col] == padded[i + col * 4 + r]
      {
        cells[row, col] := padded[i + col * 4 + row];
      }
    }
    CellsEq(cells, padded[i .. i + 16]);
    block := Cells(cells);
  }

  /** The suffix `blocksToText` takes for padding: n bytes equal to n, for 1 <= n <= 16. */
  predicate HasPad(text: seq<bv8>) {
    && |text| > 0
    && var n := text[|text| - 1];
    && 0 < n <= 16 && |text| >= n as int
    && forall i :: |text| - n as int <= i < |text| ==> text[i] == n
  }

  /** The text `blocksToText` returns for the bytes of its blocks: without the pad, when
    * there is one. */
  function StripPad(text: seq<bv8>): (r: seq<bv8>)
    ensures |r| <= |text| && r == text[..|r|]
    ensures |r| < |text| <==> HasPad(text)
    ensures HasPad(text) ==> |text| - |r| == text[|text| - 1] as int
  {
    if HasPad(text) then text[..|text| - text[|text| - 1] as int] else text
  }

  /** `blocksToText`: the blocks written out column by column, then the pad check on the
    * last byte. */
  method BlocksToText(blocks: seq<Block>) returns (text: seq<bv8>)
    ensures text == StripPad(Flatten(blocks))
  {
    text := [];
    for k := 0 to |blocks|
      invariant text == Flatten(blocks[..k])
    {
      text := AppendBlock(text, blocks[k]);
      assert blocks[..k + 1][..k] == blocks[..k];
    }
    assert blocks[..|blocks|] == blocks;
    if |text| > 0 {
      var pad := text[|text| - 1];
      if pad > 0 && pad <= 16 && |text| >= pad as int {
        var valid := PadValid(text, pad);
        if valid {
          text := text[..|text| - pad as int];
        }
      }
    }
  }

  /** The check loop of `blocksToText`: the last `pad` bytes all equal `pad`, looked at from
    * the end, stopping at the first that differs. */
  method PadValid(text: seq<bv8>, pad: bv8) returns (valid: bool)
    requires 0 < pad as int <= |text|
    ensures valid <==> forall m :: |text| - pad as int <= m < |text| ==> text[m] == pad
  {
    valid := true;
    for i := 0 to pad as int
      invariant forall m :: |text| - i <= m < |text| ==> text[m] == pad
    {
      if text[|text| - 1 - i] != pad {
        valid := false;
        break;
      }
    }
  }

  /** The inner loops of `blocksToText`: the block's bytes, column by column. */
  method AppendBlock(text: seq<bv8>, block: Block) returns (longer: seq<bv8>)
    ensures longer == text + block
  {
    longer := text;
    for col := 0 to 4
      invariant longer == text + block[..4 * col]
    {
      for row := 0 to 4
        invariant longer == text + block[..4 * col + row]
      {
        longer := longer + [At(block, row, col)];
      }
    }
  }

  /** As written, text and blocks agree whenever the padded text does not end in what looks
    * like a pad -- in particular whenever spaces were added: then the spaces stay. */
  lemma SpaceTextRoundTrip(text: seq<bv8>)
    requires |text| % 16 != 0 || !HasPad(text)
    ensures StripPad(Flatten(Chunks(SpacePadded(text)))) == SpacePadded(text)
  {
    var padded := SpacePadded(text);
    FlattenChunks(padded);
    if |text| % 16 == 0 {
      assert padded == text;
    } else {
      assert padded[|padded| - 1] == Space;
    }
  }

  /** The trim `main` applies to the decrypted text: everything after the last byte that is
    * not a space goes; a text of spaces only becomes empty. */
  function TrimTrailingSpaces(text: seq<bv8>): (r: seq<bv8>)
    ensures |r| <= |text| && r == text[..|r|]
    ensures |r| == 0 || r[|r| - 1] != Space
    ensures forall i :: |r| <= i < |text| ==> text[i] == Space
  {
    if |text| > 0 && text[|text| - 1] == Space then TrimTrailingSpaces(text[..|text| - 1]) else text
  }

  /** Spaces appended to a text disappear again under the trim. */
  lemma {:induction false} TrimAppendedSpaces(text: seq<bv8>, k: nat)
    ensures TrimTrailingSpaces(text + seq(k, _ => Space)) == TrimTrailingSpaces(text)
  {
    if k > 0 {
      var longer := text + seq(k, _ => Space);
      assert longer[..|longer| - 1] == text + seq(k - 1, _ => Space);
      TrimAppendedSpaces(text, k - 1);
    } else {
      assert text + seq(k, _ => Space) == text;
    }
  }

  /** The text `main` prints for the decrypted blocks, as written: `blocksToText`, pad check
    * included, then the trim. */
  function ShownText(blocks: seq<Block>): (r: seq<bv8>)
    ensures r == TrimTrailingSpaces(r)
  {
    TrimTrailingSpaces(StripPad(Flatten(blocks)))
  }

  /** The text `main` evidently means to print: the bytes of the blocks with the added
    * spaces trimmed, and no pad check, since `textToBlocks` never adds a pad. */
  function SpacedText(blocks: seq<Block>): (r: seq<bv8>)
    ensures r == TrimTrailingSpaces(r)
  {
    TrimTrailingSpaces(Flatten(blocks))
  }

  /** Without the pad check every text comes back up to its trailing spaces. */
  lemma SpacedTextRoundTrip(text: seq<bv8>)
    ensures SpacedText(Chunks(SpacePadded(text))) == TrimTrailingSpaces(text)
  {
    var padded := SpacePadded(text);
    FlattenChunks(padded);
    TrimAppendedSpaces(text, |padded| - |text|);
    assert padded == text + seq(|padded| - |text|, _ => Space);
  }

  /** As written, the same holds whenever the text does not itself end in what looks like
    * a pad. */
  lemma ShownTextRoundTrip(text: seq<bv8>)
    requires |text| % 16 != 0 || !HasPad(text)
    ensures ShownText(Chunks(SpacePadded(text))) == TrimTrailingSpaces(text)
  {
    SpaceTextRoundTrip(text);
    SpacedTextRoundTrip(text);
  }

  /** As written, a one-block text ending in byte 0x01 gets no spaces, and `blocksToText`
    * then drops that byte as if it were a pad: `main` prints fifteen letters for sixteen. */
  lemma TextRoundTripLosesByte()
    ensures var text := seq(15, _ => 0x61) + [0x01];
      && StripPad(Flatten(Chunks(SpacePadded(text)))) == text[..15]
      && ShownText(Chunks(SpacePadded(text))) == text[..15] != TrimTrailingSpaces(text)
  {
    var text: seq<bv8> := seq(15, _ => 0x61) + [0x01];
    assert SpacePadded(text) == text;
    FlattenChunks(text);
    assert HasPad(text);
    assert TrimTrailingSpaces(text) == text;
    assert TrimTrailingSpaces(text[..15]) == text[..15];
  }

  /** An alternative design, not the program's: PKCS#7 padding to a whole number of blocks,
    * which is the pad `blocksToText` looks for. */
  function TextBlocks(text: seq<bv8>): (blocks: seq<Block>)
    ensures |blocks| == |text| / 16 + 1
  {
    var padded := Pkcs7.Pad(text, 16);
    Chunks(padded)
  }

  /** With PKCS#7 padding every text comes back from its blocks. */
  lemma TextBlocksRoundTrip(text: seq<bv8>)
    ensures StripPad(Flatten(TextBlocks(text))) == text
  {
    var padded := Pkcs7.Pad(text, 16);
    var n := Pkcs7.PadLength(|text|, 16);
    var b := (n % 256) as bv8;
    FlattenChunks(padded);
    Pkcs7.ByteValue(n);
    assert padded[|padded| - 1] == b && b as int == n;
    assert HasPad(padded);
    assert padded[..|text|] == text;
  }
}
