# Lab 6 programs in Dafny

This project models the lab programs of the repository and proves what they promise.
Each program exists twice, once in C++ and once in Go.

- **AES-128 with CBC chaining (laba6_2).**
  - The programs implement the cipher of FIPS-197:
    - multiplication in GF(2^8);
    - SubBytes, ShiftRows, MixColumns and their inverses;
    - the key schedule;
    - the ten-round cipher and inverse cipher.
  - They chain blocks as in section 6.2 of NIST SP 800-38A.
  - `AesSpec` states the standard once. Both programs are proved against it.
    - C++ updates a 4x4 state array in place: `array2<bv8>`.
    - Go updates a 16-byte slice in place: `array<bv8>`.
  - The inverse cipher provably undoes the cipher. CBC decryption provably undoes CBC encryption.
  - The cipher and the key schedule are pinned to FIPS-197 by Appendix C.1 and Appendix A.1.
  - The text layers differ between the programs:
    - C++ pads text with spaces, and its `blocksToText` strips anything that looks like a PKCS#7 pad.
    - Go pads with PKCS#7 (section 6.3 of RFC 5652) and unpads leniently.
- **Game of Life on a torus (laba6_13).**
  - The neighbour count, the B3/S23 rule and the in-place update of the grid.
  - C++ keeps a `SIZE` x `SIZE` grid of bools in a class `World`.
  - Go keeps a `HEIGHT` x `WIDTH` grid of ints in an array of rows.
  - On grids of 0s and 1s the two programs compute the same generation.
- **Coin puzzle (laba6_5).**
  - The greedy row-major pass towards each of the two chessboard patterns.
  - Its result is the smaller move count, or -1 exactly when the mismatch count is odd for both patterns.
- **Snake (laba6_4).**
  - The input checks of both programs, with one error kind per message.
  - The position/speed loop, specified by recursive functions.
- **Positive rows (laba6_11).** The first row with the most positive entries.
- **Frequencies (laba6_12).** How often each value occurs in a matrix, and a most frequent value.

Bytes are `bv8`. Program text is a sequence of bytes. A parsed input token is `Tokens.Token`.
Random data, keys, IVs, boards and matrices are parameters.

## Model

| member | source | states |
|---|---|---|
| GaloisField.GMul | laba6_2.cpp:226-239 | the eight-step shift-and-add loop of `gmul` returns the product in GF(2^8) modulo x^8+x^4+x^3+x+1 (`FieldMul`) |
| GaloisField.KnownAnswer | laba6_2.go:406-421 | the product gives 0x57·0x83 = 0xc1 and 0x57·0x13 = 0xfe, the examples of section 4.2 of FIPS-197 |
| GaloisField.Commutative | laba6_2.go:378 | the product is commutative, so Go's `gmul(0x02, s0)` equals C++'s `gmul(s0, 2)` |
| GaloisField.Associative | laba6_2.cpp:226-239 | the product is associative |
| GaloisField.LinearRight | laba6_2.cpp:226-239 | the product distributes over XOR in its right argument |
| GaloisField.LinearLeft | laba6_2.cpp:226-239 | the product distributes over XOR in its left argument |
| GaloisField.OneLeft | laba6_2.cpp:226-239 | 1 is the unit of the product |
| GaloisField.ZeroLeft | laba6_2.cpp:226-239 | 0 times anything is 0 |
| GaloisField.InvMixRow | laba6_2.cpp:331 | the InvMixColumns row (0e 0b 0d 09) applied to the four MixColumns outputs of a column gives back its first byte |
| AesTables.SBoxInverse | laba6_2.cpp:118-155 | `invSBox[sbox[b]] == b` for all 256 bytes |
| AesSpec.ShiftRowsAt | laba6_2.cpp:249-255 | cell (r, c) after ShiftRows is cell (r, (c + r) % 4) before it, so row 0 stays and row r turns left by r |
| AesSpec.InvShiftRowsAt | laba6_2.cpp:316-322 | cell (r, c) after InvShiftRows is cell (r, (c - r + 4) % 4) before it |
| AesSpec.MixColumnsAt | laba6_2.cpp:258-270 | byte r of a mixed column is the MixColumns matrix row r times the column |
| AesSpec.InvSubBytesUndoes | laba6_2.cpp:310-314 | InvSubBytes undoes SubBytes |
| AesSpec.InvShiftRowsUndoes | laba6_2.cpp:316-322 | InvShiftRows undoes ShiftRows |
| AesSpec.InvMixColumnsUndoes | laba6_2.cpp:324-336 | InvMixColumns undoes MixColumns, column by column |
| AesSpec.KeyExpansionKey | laba6_2.go:266-267 | the first 16 schedule bytes are the key |
| AesSpec.KeyExpansionWord | laba6_2.go:269-290 | every later word is the word four back XOR `temp` of the word before |
| AesSpec.TempAtStart | laba6_2.go:273-284 | at a word 4r, `temp` is RotWord, then SubWord, then `Rcon[r]` added to byte 0 |
| AesSpec.RoundKeys | laba6_2.go:203 | round key r is schedule bytes 16r to 16r + 15 |
| AesSpec.InvRoundUndoes | laba6_2.cpp:345-357 | one inverse round undoes one cipher round, up to the SubBytes/ShiftRows that move across the round boundary |
| AesSpec.InvCipherUndoes | laba6_2.cpp:338-370 | the inverse cipher undoes the cipher for every set of eleven round keys |
| AesSpec.CbcRoundTrip | laba6_2.cpp:376-416 | AES-CBC decryption undoes AES-CBC encryption for every key set and IV |
| AesKnownAnswer.C1Cipher | laba6_2.cpp:272-304 | the cipher with the key schedule of 000102..0f maps 00112233..ff to 69c4e0d86a7b0430d8cdb78070b4c55a (Appendix C.1 of FIPS-197) |
| AesKnownAnswer.C1InvCipher | laba6_2.cpp:338-370 | the inverse cipher maps that ciphertext back to 00112233..ff |
| AesKnownAnswer.A1LastWord | laba6_2.cpp:164-198 | the last schedule word of key 2b7e1516..4f3c is b6630ca6 (Appendix A.1 of FIPS-197) |
| AesKnownAnswer.C1RoundKey10 | laba6_2.cpp:200-207 | round key 10 of the Appendix C.1 key is the one listed in the appendix |
| Cbc.Encrypt | laba6_2.cpp:376-395 | CBC encryption returns as many blocks as it receives |
| Cbc.Decrypt | laba6_2.cpp:397-416 | CBC decryption returns as many blocks as it receives |
| Cbc.EncryptBlock | laba6_2.cpp:386-391 | ciphertext block i is e(p[i] XOR previous), where previous is the IV and then ciphertext block i - 1 |
| Cbc.DecryptBlock | laba6_2.cpp:407-410 | plaintext block i is d(c[i]) XOR the IV or the original ciphertext block i - 1, not the decrypted one |
| Cbc.RoundTrip | laba6_2.go:117-178 | for any pair of block functions where d undoes e, CBC decryption undoes CBC encryption |
| Pkcs7.PadLength | laba6_2.go:297 | `padPKCS7` adds 1 to blockSize bytes, reaching the next whole number of blocks |
| Pkcs7.Pad | laba6_2.go:296-300 | the data, then n bytes each equal to n |
| Pkcs7.Unpad | laba6_2.go:303-312 | empty data, or a last byte above the length, is returned unchanged; otherwise as many bytes go as the last byte says, unchecked |
| Pkcs7.RoundTrip | laba6_2.go:296-312 | unpadding a padded text gives it back, the empty text included |
| Pkcs7.WrappedPadKept | laba6_2.go:297-298 | with a block size of 256, `byte(padding)` wraps to 0 and unpadding keeps the whole pad |
| AesCpp.MapCells | laba6_2.cpp:243-245 | the nested loop replaces every cell by its image under the table |
| AesCpp.SubBytes | laba6_2.cpp:242-246 | the state becomes SubBytes of the old state |
| AesCpp.InvSubBytes | laba6_2.cpp:310-314 | the state becomes InvSubBytes of the old state |
| AesCpp.ShiftRows | laba6_2.cpp:249-255 | the state becomes ShiftRows of the old state |
| AesCpp.InvShiftRows | laba6_2.cpp:316-322 | the state becomes InvShiftRows of the old state |
| AesCpp.MixRow0 | laba6_2.cpp:265 | `gmul(s0, 2) ^ gmul(s1, 3) ^ s2 ^ s3` is byte 0 of the mixed column |
| AesCpp.MixRow1 | laba6_2.cpp:266 | `s0 ^ gmul(s1, 2) ^ gmul(s2, 3) ^ s3` is byte 1 of the mixed column |
| AesCpp.MixRow2 | laba6_2.cpp:267 | `s0 ^ s1 ^ gmul(s2, 2) ^ gmul(s3, 3)` is byte 2 of the mixed column |
| AesCpp.MixRow3 | laba6_2.cpp:268 | `gmul(s0, 3) ^ s1 ^ s2 ^ gmul(s3, 2)` is byte 3 of the mixed column |
| AesCpp.InvMixRow0 | laba6_2.cpp:331 | the first InvMixColumns line is byte 0 of the unmixed column |
| AesCpp.InvMixRow1 | laba6_2.cpp:332 | the second InvMixColumns line is byte 1 of the unmixed column |
| AesCpp.InvMixRow2 | laba6_2.cpp:333 | the third InvMixColumns line is byte 2 of the unmixed column |
| AesCpp.InvMixRow3 | laba6_2.cpp:334 | the fourth InvMixColumns line is byte 3 of the unmixed column |
| AesCpp.MixColumn | laba6_2.cpp:259-269 | one pass of the column loop mixes column `col` and leaves the other columns alone |
| AesCpp.MixColumns | laba6_2.cpp:258-270 | the state becomes MixColumns of the old state |
| AesCpp.InvMixColumn | laba6_2.cpp:325-335 | one pass of the column loop unmixes column `col` and leaves the other columns alone |
| AesCpp.InvMixColumns | laba6_2.cpp:324-336 | the state becomes InvMixColumns of the old state |
| AesCpp.XorBlocks | laba6_2.cpp:213-219 | a new block, the cell-wise XOR of the two blocks |
| AesCpp.CipherRound | laba6_2.cpp:280-290 | one pass of the round loop computes the cipher round of the state with the round key |
| AesCpp.EncryptBlock | laba6_2.cpp:272-304 | the output is the FIPS-197 cipher of the input under the first eleven round keys |
| AesCpp.InvCipherRound | laba6_2.cpp:346-356 | one pass of the inverse round loop computes the inverse round |
| AesCpp.DecryptBlock | laba6_2.cpp:338-370 | the output is the FIPS-197 inverse cipher of the input under the first eleven round keys |
| AesCppModes.ExpandKey | laba6_2.cpp:164-210 | the eleven round keys are the FIPS-197 schedule of the first sixteen key bytes, cut into blocks |
| AesCppModes.ScheduleBytes | laba6_2.cpp:165-198 | the 176-byte array is the FIPS-197 key schedule |
| AesCppModes.CopyKey | laba6_2.cpp:166-167 | the first sixteen bytes are the key |
| AesCppModes.ScheduleStep | laba6_2.cpp:173-197 | one pass of the `while` loop adds the next schedule word and keeps `rconIndex` in step |
| AesCppModes.StartsRoundKey | laba6_2.cpp:179-191 | `bytesGenerated % 16 == 0` holds exactly at the words that start a round key, and `rconIndex` then names that round |
| AesCppModes.NextTemp | laba6_2.cpp:174-192 | `temp` becomes the FIPS-197 `temp` of the word being made |
| AesCppModes.LoadWord | laba6_2.cpp:174-175 | `temp` takes the last four schedule bytes |
| AesCppModes.RotSubWord | laba6_2.cpp:180-187 | `temp` is rotated left by one byte and every byte goes through the S-box |
| AesCppModes.StartWord | laba6_2.cpp:179-191 | at a word 4r, `temp` becomes the FIPS-197 `temp`: rotated, substituted and given `Rcon[r]` in byte 0 |
| AesCppModes.AppendWord | laba6_2.cpp:194-197 | four new bytes, each the byte sixteen back XOR `temp` |
| AesCppModes.CutRoundKeys | laba6_2.cpp:200-207 | round key i is schedule bytes 16i to 16i + 15 |
| AesCppModes.RoundKeyBlock | laba6_2.cpp:202-205 | byte j of the slice goes to cell (j % 4, j / 4) |
| AesCppModes.CbcEncrypt | laba6_2.cpp:376-395 | the output is CBC encryption with the AES cipher |
| AesCppModes.CbcDecrypt | laba6_2.cpp:397-416 | the output is CBC decryption with the AES inverse cipher |
| AesCppModes.SpacePadded | laba6_2.cpp:64-68 | the text followed by fewer than 16 spaces, making a multiple of 16 |
| AesCppModes.TextToBlocks | laba6_2.cpp:63-83 | the blocks are the 16-byte pieces of the space-padded text, and the empty text gives none |
| AesCppModes.BlockAt | laba6_2.cpp:73-78 | byte i + 4col + row goes to cell (row, col) |
| AesCppModes.StripPad | laba6_2.cpp:96-107 | a final run of n bytes equal to n, with 1 <= n <= 16, is removed; any other text is unchanged |
| AesCppModes.BlocksToText | laba6_2.cpp:86-110 | the bytes of the blocks in order, less a final run that looks like a pad |
| AesCppModes.PadValid | laba6_2.cpp:100-105 | true exactly when the last `pad` bytes all equal `pad` |
| AesCppModes.AppendBlock | laba6_2.cpp:90-93 | the block's sixteen bytes are appended column by column |
| AesCppModes.SpaceTextRoundTrip | laba6_2.cpp:63-107 | when the text does not end in what looks like a pad, blocks and back give the space-padded text |
| AesCppModes.TrimTrailingSpaces | laba6_2.cpp:493 | the longest prefix not ending in a space, with only spaces after it |
| AesCppModes.TrimAppendedSpaces | laba6_2.cpp:493 | spaces appended to a text vanish under the trim |
| AesCppModes.ShownText | laba6_2.cpp:489-493 | the text `main` prints after decryption has no trailing space |
| AesCppModes.ShownTextRoundTrip | laba6_2.cpp:441-493 | when the text does not end in what looks like a pad, the printed text is the input up to trailing spaces |
| AesCppModes.TextRoundTripLosesByte | laba6_2.cpp:95-107 | fifteen bytes 0x61 followed by 0x01 come back as fifteen bytes: `blocksToText` takes the final byte for a pad |
| AesCppModes.SpacedText | laba6_2.cpp:489-493 | the text without the pad check, trimmed, has no trailing space |
| AesCppModes.SpacedTextRoundTrip | laba6_2.cpp:62-68 | without the pad check, every text comes back up to its trailing spaces |
| AesCppModes.TextBlocks | laba6_2.cpp:95-107 | with PKCS#7 padding instead of spaces, a text of length L takes L / 16 + 1 blocks |
| AesCppModes.TextBlocksRoundTrip | laba6_2.cpp:95-107 | with PKCS#7 padding, every text comes back exactly through `blocksToText` |
| AesGo.Fit | laba6_2.go:182-183 | `copy` into a fresh slice of n zeros: the first n bytes of the source, padded with zeros |
| AesGo.Copy | laba6_2.go:183 | `copy` writes min(len(dst), len(src)) bytes and leaves the rest |
| AesGo.MakeCopy | laba6_2.go:182-183 | a fresh state holding the block fitted to n bytes |
| AesGo.AddRoundKey | laba6_2.go:399-403 | the state becomes its XOR with the first sixteen bytes of the round key |
| AesGo.MapBytes | laba6_2.go:316-318 | every byte of the state goes through the table |
| AesGo.SubBytes | laba6_2.go:315-319 | the state becomes SubBytes of the old state |
| AesGo.InvSubBytes | laba6_2.go:321-325 | the state becomes InvSubBytes of the old state |
| AesGo.Shifted | laba6_2.go:330-346 | the swaps of `shiftRows` produce ShiftRows |
| AesGo.ShiftRows | laba6_2.go:327-347 | the state becomes ShiftRows of the old state |
| AesGo.Unshifted | laba6_2.go:352-368 | the swaps of `invShiftRows` produce InvShiftRows |
| AesGo.InvShiftRows | laba6_2.go:349-369 | the state becomes InvShiftRows of the old state |
| AesGo.MixWords | laba6_2.go:378-381 | the four lines give the four bytes of the mixed column |
| AesGo.MixLine | laba6_2.go:378 | one line of `mixColumns` gives one byte of the mixed column |
| AesGo.MixColumn | laba6_2.go:373-381 | column i is mixed and the other bytes are left alone |
| AesGo.MixColumns | laba6_2.go:371-383 | the state becomes MixColumns of the old state |
| AesGo.InvMixWords | laba6_2.go:392-395 | the four lines give the four bytes of the unmixed column |
| AesGo.InvMixLine | laba6_2.go:392 | one line of `invMixColumns` gives one byte of the unmixed column |
| AesGo.InvMixColumn | laba6_2.go:387-395 | column i is unmixed and the other bytes are left alone |
| AesGo.InvMixColumns | laba6_2.go:385-397 | the state becomes InvMixColumns of the old state |
| AesGo.RoundKeySlice | laba6_2.go:203 | `expandedKey[round*16:(round+1)*16]` is round key `round` |
| AesGo.CipherRound | laba6_2.go:194-205 | one pass of the round loop computes the cipher round |
| AesGo.CipherRounds | laba6_2.go:193-206 | the loop applies rounds 1 to 9 in order |
| AesGo.FinalRound | laba6_2.go:209-215 | the last round has SubBytes, ShiftRows and round key 10, with no MixColumns |
| AesGo.EncryptBlock | laba6_2.go:181-220 | the output is the FIPS-197 cipher of the block fitted to 16 bytes, and the block itself is left alone |
| AesGo.DecipherRound | laba6_2.go:242-253 | one pass of the inverse round loop: round key, InvMixColumns, InvShiftRows, InvSubBytes |
| AesGo.DecryptRoundShifted | laba6_2.go:242-253 | Go's inverse round order equals the FIPS-197 inverse round, moved across the round boundary |
| AesGo.DecryptRounds | laba6_2.go:241-254 | the Go loop of rounds 9 down to 1 computes the FIPS-197 inverse rounds |
| AesGo.DecipherRounds | laba6_2.go:241-254 | the loop applies the inverse rounds 9 down to 1 |
| AesGo.DecryptBlock | laba6_2.go:223-262 | the output is the FIPS-197 inverse cipher of the block fitted to 16 bytes |
| AesGo.KeyExpansion | laba6_2.go:265-293 | the 176 bytes are the FIPS-197 schedule of the key fitted to 16 bytes |
| AesGo.ExpandWord | laba6_2.go:270-289 | one pass of the loop writes word i of the schedule |
| AesGo.WordTemp | laba6_2.go:270-284 | `temp` is the FIPS-197 `temp` of word i |
| AesGo.StartTemp | laba6_2.go:274-283 | at i % 4 == 0, `temp` is rotated, substituted and given `Rcon[i/4]` |
| AesGo.AddToFirst | laba6_2.go:283 | only byte 0 changes, by the XOR with the constant |
| AesGo.Rotated | laba6_2.go:275 | `append(temp[1:], temp[0])` is RotWord |
| AesGo.SubWord | laba6_2.go:278-280 | every byte of `temp` goes through the S-box |
| AesGo.MapWord | laba6_2.go:278-280 | every byte of the word goes through the table |
| AesGo.AddPrevious | laba6_2.go:287-289 | the new word is the word four back XOR `temp` |
| AesGo.CbcEncryption | laba6_2.go:117-145 | the ciphertext length is the padded length, a positive multiple of 16 |
| AesGo.CbcDecryption | laba6_2.go:148-178 | a length that is not a multiple of 16 is an error, length 0 included among the accepted ones, and the result is no longer than the ciphertext |
| AesGo.CbcRoundTrip | laba6_2.go:117-178 | decrypting an encryption with the same key and IV succeeds and gives the plaintext back |
| AesGo.EncryptCbc | laba6_2.go:117-145 | the loop's output is the CBC encryption of the padded plaintext |
| AesGo.EncryptBlocks | laba6_2.go:126-142 | the filled output is the CBC encryption of the blocks, with the IV as first chain block |
| AesGo.EncryptStep | laba6_2.go:131-141 | one pass enciphers block XOR `prevBlock` and stores it, and `prevBlock` becomes that ciphertext block |
| AesGo.ChainedBlock | laba6_2.go:131-134 | a fresh block, the padded bytes XOR `prevBlock` |
| AesGo.Store | laba6_2.go:140 | `copy(ciphertext[i:], encrypted)` fills bytes i to i + 15 |
| AesGo.PaddedLength | laba6_2.go:119 | the padded length exceeds the plaintext by 1 to 16 and is a multiple of 16 |
| AesGo.DecryptCbc | laba6_2.go:148-178 | the result is the function `CbcDecryption` |
| AesGo.DecryptBlocks | laba6_2.go:159-174 | the filled plaintext is the CBC decryption of the ciphertext blocks |
| AesGo.DecryptStep | laba6_2.go:164-173 | one pass deciphers block i, XORs the previous ciphertext block and stores it |
| AesGo.StoreChained | laba6_2.go:168-170 | the sixteen bytes are the decrypted block XOR `prevBlock` |
| Life.BlockSumIsCount | laba6_13.cpp:153-156 | the nested loops over offsets -1..1 sum the eight neighbours |
| Life.CountBounds | laba6_13.cpp:151-158 | on a grid of 0s and 1s the count is between 0 and 8 |
| Life.CountIgnoresSelf | laba6_13.cpp:155 | the cell itself is not counted: changing it does not change its count |
| Life.WrapMoves | laba6_13.cpp:156 | on a torus of side at least 3, a wrapped offset lands on the cell itself only for offset 0 |
| Life.Ints | laba6_13.cpp:156 | a live cell counts 1 and a dead cell 0 |
| Life.Step | laba6_13.cpp:161-170 | the next generation still has h rows of w cells |
| Life.StepAt | laba6_13.cpp:165-167 | a live cell stays live with 2 or 3 neighbours, and a dead cell becomes live with exactly 3 |
| Life.EmptyStaysEmpty | laba6_13.cpp:161-170 | an empty grid stays empty |
| LifeCpp.EmptyGrid | laba6_13.cpp:128 | a SIZE x SIZE grid, all dead |
| LifeCpp.World.constructor | laba6_13.cpp:128 | the world starts with the empty grid |
| LifeCpp.World.SetupGlider | laba6_13.cpp:131-138 | exactly the five glider cells become live, and every other cell keeps its value |
| LifeCpp.World.CountNeighbors | laba6_13.cpp:151-158 | the count is the wrapped neighbour count of the grid |
| LifeCpp.World.NextCell | laba6_13.cpp:165-167 | the new cell is the next generation's cell |
| LifeCpp.World.UpdateRow | laba6_13.cpp:164-168 | row i of the copy becomes row i of the next generation |
| LifeCpp.World.Update | laba6_13.cpp:161-170 | the grid becomes the next generation of the old grid, computed from the old grid only |
| LifeGo.GoRule | laba6_13.go:72-84 | the new cell is always 0 or 1 |
| LifeGo.GoRuleIsRule | laba6_13.go:72-84 | the Go rule is B3/S23 on cells read as live when equal to 1 |
| LifeGo.GoStep | laba6_13.go:64-86 | the next generation has HEIGHT rows of WIDTH cells |
| LifeGo.GoStepAt | laba6_13.go:71-84 | a cell equal to 1 stays 1 with 2 or 3 neighbours, and any other cell becomes 1 with exactly 3 |
| LifeGo.GoStepBinary | laba6_13.go:64-86 | after an update every cell is 0 or 1, whatever the grid held |
| LifeGo.GoBirth | laba6_13.go:78-83 | a cell that is not 1 becomes 1 exactly when it has three neighbours |
| LifeGo.GoStepMatchesStep | laba6_13.go:63-88 | on grids of 0s and 1s, the Go update and the C++ update give the same generation |
| LifeGo.CountNeighbors | laba6_13.go:47-60 | the sum of the eight wrapped neighbours, skipping the cell with `continue` |
| LifeGo.NextCell | laba6_13.go:71-84 | the new cell is the next generation's cell |
| LifeGo.UpdateRow | laba6_13.go:70-85 | row i of `newGrid` becomes row i of the next generation |
| LifeGo.CopyRows | laba6_13.go:88 | `copy` makes the grid's rows those of `newGrid` |
| LifeGo.UpdateGrid | laba6_13.go:63-89 | the grid becomes the next generation of its old contents |
| Coins.FlipFlip | laba6_5.cpp:24 | flipping a coin twice restores it |
| Coins.FlipCoinValue | laba6_5.cpp:24 | `^= 1` turns 0 into 1 and 1 into 0 |
| Coins.Toggle | laba6_5.cpp:22-26 | toggling keeps the board's shape |
| Coins.IsChessboard | laba6_5.cpp:9-19 | true exactly when every cell (i, j) equals (i + j + pattern) % 2 |
| Coins.FlipCoin | laba6_5.cpp:22-26 | an in-bounds cell is toggled and nothing else changes; out of bounds the board is unchanged |
| Coins.CopyBoard | laba6_5.cpp:38 | a fresh board with the same contents, so the caller's board is not modified |
| Coins.PassRow | laba6_5.cpp:43-59 | one row of the pass: the flip count grows by at most the row length, or the pass gets stuck |
| Coins.Pass | laba6_5.cpp:42-61 | the flip count is that of the greedy pass, and a finished pass leaves the pass's final board |
| Coins.MinFlips | laba6_5.cpp:29-69 | the result is the better of the two patterns' passes, or -1 when both are stuck |
| Coins.RunFlipsBound | laba6_5.cpp:42-61 | a finished pass makes at most one move per remaining cell |
| Coins.MoveKeepsPrefix | laba6_5.cpp:45-57 | a move at a mismatch fixes the current cell and keeps every earlier cell matching |
| Coins.RunReachesPattern | laba6_5.cpp:42-61 | a finished pass leaves the board equal to the pattern |
| Coins.RunStuckParity | laba6_5.cpp:52-56 | a pass gets stuck exactly when the number of mismatched cells is odd |
| Coins.MoveParity | laba6_5.cpp:47-51 | a two-coin move keeps the parity of the mismatch count |
| Coins.MismatchesBoth | laba6_5.cpp:44 | the mismatches against the two patterns add up to the number of cells |
| Coins.AnswerMeaning | laba6_5.cpp:63-68 | the answer is -1 exactly when both mismatch counts are odd; otherwise it is the move count of a pass that reaches its pattern |
| Coins.OddBoardSolvable | laba6_5.cpp:63-68 | a board with an odd number of cells always has an answer |
| Snake.ValidIncreasing | laba6_4.cpp:38-41 | accepted cells are strictly increasing as a whole |
| Snake.CppCells | laba6_4.cpp:25-27 | the C++ program reads K cells, a failed read giving 0 |
| Snake.ReadCpp | laba6_4.cpp:10-48 | each rejection matches its check (K <= 0, K > 10000, first bad cell in range or order), and acceptance happens exactly for valid input |
| Snake.GoAcceptsValid | laba6_4.go:31-53 | with enough tokens, Go accepts exactly when the cells are valid |
| Snake.ReadGo | laba6_4.go:11-53 | a read failure exactly when tokens run out or are not numbers; otherwise the same checks as C++ |
| Snake.Max | laba6_4.go:81-86 | `max` returns the larger argument |
| Snake.Move | laba6_4.cpp:57-68 | after a move the speed is at least 1, the position has grown and one move is counted |
| Snake.MoveFacts | laba6_4.cpp:57-67 | speed changes by at most one; without slowing down the move does not pass the target, and at the required speed it lands on it |
| Snake.Chase | laba6_4.cpp:55-69 | the speed never becomes negative |
| Snake.ChaseReaches | laba6_4.cpp:55-69 | the inner loop ends at or past the target, with no more moves than cells travelled |
| Snake.Play | laba6_4.cpp:54-70 | the speed never becomes negative |
| Snake.PlayReaches | laba6_4.cpp:54-70 | after all targets the position is at or past each of them |
| Snake.FiveTakesThree | laba6_4.cpp:50-70 | from cell 1 the single target 5 takes three moves |
| Snake.Simulate | laba6_4.cpp:50-70 | the loop counts the moves of the specified game |
| PositiveRows.CheckOrder | laba6_11.cpp:13-21 | N is accepted exactly when it is a number above 0; a non-number is a read failure |
| PositiveRows.CountPositive | laba6_11.cpp:47-51 | the count is the number of strictly positive entries |
| PositiveRows.FindRow | laba6_11.cpp:42-56 | for a non-empty matrix the chosen row has the largest positive count and every earlier row has less, so ties go to the first row |
| PositiveRows.NoPositives | laba6_11.cpp:59-62 | a row has no positive entry exactly when all its entries are <= 0 |
| PositiveRows.Analyse | laba6_11.cpp:42-62 | "no positive row" exactly when every entry is <= 0; otherwise a row with the largest positive count, and that count |
| Frequency.CheckSizesCpp | laba6_12.cpp:15-23 | M and N are accepted exactly when both parse and are positive |
| Frequency.CheckSizesGo | laba6_12.go:21-50 | too few fields, a bad M and a bad N are each rejected with their own message; otherwise accepted exactly when both are positive |
| Frequency.EntriesSize | laba6_12.cpp:46-49 | an M x N matrix has M·N entries, so the counts add up to M·N |
| Frequency.Bump | laba6_12.cpp:48 | `++frequency[val]` counts one more occurrence of val |
| Frequency.CountFrequencies | laba6_12.cpp:45-49 | `frequency[v]` is the number of occurrences of v, and only occurring values are keys |
| Frequency.MaxFrequency | laba6_12.cpp:52-59 | `maxCount` is the largest frequency and `numberWithMaxCount` is some value with it; which of several is not fixed |
| Frequency.MaxOfCounts | laba6_12.cpp:62-68 | for a non-empty matrix the largest frequency is at least 1, and it is 1 exactly when all entries are distinct |
| Frequency.Analyse | laba6_12.cpp:45-68 | "no repeated number" exactly when all entries are distinct; otherwise a most frequent value with its count |

## Left out

- Console output is not modelled: `printKey`, `printBlock`, `printState`, `printRoundKey`, `printKeySchedule`, the tracing inside the AES functions, the grid printing and the hex dumps. It changes no value.
- Random keys, IVs, boards, matrices and initial grids are not modelled (`generateRandomKey`, `generateRandomIV`, `crypto/rand`, `rand`, `initializeRandom`). They are parameters of the model.
- Writing the key to a file (laba6_2.go:77-79) is not modelled. It is file I/O.
- Console reading (`cin`, `fmt.Scan`, `bufio`, `strconv`) is abstracted to a sequence of `Tokens.Token`. Only the checks on the parsed values are modelled.
- The endless Game of Life loops, with `system("clear")`, `usleep` and `time.Sleep`, are not modelled. They only repeat `update` and print.
- The commented-out first version of laba6_13.cpp (lines 1-117) is not modelled. It is dead code.
- laba6_3 is not part of this model. It is floating-point numerics.
- AesGo.EncryptCbc: requires an IV of at least 16 bytes. Go panics on a shorter IV, and the panic is not modelled.
- AesGo.DecryptCbc: requires an IV of at least 16 bytes when there is a block to decrypt. Go panics otherwise.
- AesCppModes.ExpandKey: requires at least 16 key bytes. C++ reads past the end of a shorter key, which is undefined behaviour.
- AesCpp.EncryptBlock: requires at least 11 round keys. C++ reads past the end of a shorter vector. The same holds for AesCpp.DecryptBlock, AesCppModes.CbcEncrypt and AesCppModes.CbcDecrypt.
- AesGo.EncryptBlock: requires a schedule of at least 176 bytes, which `keyExpansion` always returns. Go panics on a shorter one. The same holds for AesGo.DecryptBlock.
- Pkcs7.Pad: Go's `append` may write the pad into spare capacity of the caller's slice. The model returns a new sequence, so that aliasing is not captured.
- Coins.MinFlips: requires rows x columns below INT_MAX. Below that bound a flip count cannot reach the sentinel that marks a stuck pass.
- Coins.MinFlips: boards are rectangular `array2`s. `board[0].size()` on ragged rows is not modelled. The same holds for the Go program, whose per-pattern deep copy is `Coins.CopyBoard`.
- LifeGo.UpdateGrid: `newGrid` is a local sequence of rows. Go's row slices, and the sharing of rows that `copy` creates between `grid` and `newGrid`, are not modelled. No later read depends on that sharing.
- LifeCpp.World.Update: the global `grid` is a field of the class `World`.
- Snake.ReadCpp: the `cin.fail()` check (laba6_4.cpp:45-48) never fires in the model. A failed read stores 0, which an earlier check already rejects.
- Integer widths are not modelled where the inputs bound the values: snake positions stay below 20000, and the counts of laba6_11 and laba6_12 below M·N. Bytes are `bv8` throughout, so byte arithmetic wraps as in the programs.
- Frequency.MaxFrequency: the order in which the hash map is scanned is unspecified. The model picks the next key with `:|`, so its result is one of the values the programs may print.

## Findings

| source | as written | input that shows it | evidently intended | confidence | as-written member | corrected member |
|---|---|---|---|---|---|---|
| laba6_2.cpp:95-107 | `blocksToText` drops a final run of n bytes equal to n (1 <= n <= 16), although `textToBlocks` pads with spaces and never adds such a pad | the text of fifteen bytes 0x61 followed by byte 0x01: it gets no spaces, and its last byte is dropped as a pad | decrypted text equal to the input up to trailing spaces, which `main` trims at laba6_2.cpp:493 | not executed | AesCppModes.TextRoundTripLosesByte | AesCppModes.SpacedTextRoundTrip |
