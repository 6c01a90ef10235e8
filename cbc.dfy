/**
 * Cipher Block Chaining (section 6.2 of NIST SP 800-38A) over any block cipher: `e`
 * enciphers and `d` deciphers one 16-byte block.  Both functions are built block by
 * block from the front, the way both programs run their loops.
 */
module Cbc {
  import opened Blocks

  /** The block chained into the next one: the initialization vector before the first
    * block, then the last ciphertext block. */
  function Chain(c: seq<Block>, iv: Block): Block {
    if c == [] then iv else c[|c| - 1]
  }

  /** CBC encryption: every plaintext block is added to the chained block and enciphered. */
  function Encrypt(e: Block -> Block, p: seq<Block>, iv: Block): (c: seq<Block>)
    ensures |c| == |p|
    decreases |p|
  {
    if p == [] then []
    else
      var prev := Encrypt(e, p[..|p| - 1], iv);
      prev + [e(Xor(p[|p| - 1], Chain(prev, iv)))]
  }

  /** CBC decryption: every ciphertext block is deciphered and added to the previous
    * ciphertext block (the initialization vector for the first). */
  function Decrypt(d: Block -> Block, c: seq<Block>, iv: Block): (p: seq<Block>)
    ensures |p| == |c|
    decreases |c|
  {
    if c == [] then []
    else Decrypt(d, c[..|c| - 1], iv) + [Xor(d(c[|c| - 1]), Chain(c[..|c| - 1], iv))]
  }

  lemma {:induction false} EncryptPrefix(e: Block -> Block, p: seq<Block>, iv: Block, n: nat)
    requires n <= |p|
    ensures Encrypt(e, p, iv)[..n] == Encrypt(e, p[..n], iv)
    decreases |p|
  {
    if n < |p| {
      assert p[..|p| - 1][..n] == p[..n];
      EncryptPrefix(e, p[..|p| - 1], iv, n);
    } else {
      assert p[..n] == p;
    }
  }

  lemma {:induction false} DecryptPrefix(d: Block -> Block, c: seq<Block>, iv: Block, n: nat)
    requires n <= |c|
    ensures Decrypt(d, c, iv)[..n] == Decrypt(d, c[..n], iv)
    decreases |c|
  {
    if n < |c| {
      assert c[..|c| - 1][..n] == c[..n];
      DecryptPrefix(d, c[..|c| - 1], iv, n);
    } else {
      assert c[..n] == c;
    }
  }

  /** Ciphertext block i enciphers plaintext block i plus the IV (i = 0) or ciphertext
    * block i - 1. */
  lemma EncryptBlock(e: Block -> Block, p: seq<Block>, iv: Block, i: nat)
    requires i < |p|
    ensures Encrypt(e, p, iv)[i] == e(Xor(p[i], if i == 0 then iv else Encrypt(e, p, iv)[i - 1]))
  {
    var c := Encrypt(e, p, iv);
    EncryptPrefix(e, p, iv, i + 1);
    EncryptPrefix(e, p, iv, i);
    assert p[..i + 1][..i] == p[..i];
    assert c[..i + 1][i] == c[i];
  }

  /** Plaintext block i deciphers ciphertext block i and adds the IV (i = 0) or ciphertext
    * block i - 1: every block depends on two ciphertext blocks only. */
  lemma DecryptBlock(d: Block -> Block, c: seq<Block>, iv: Block, i: nat)
    requires i < |c|
    ensures Decrypt(d, c, iv)[i] == Xor(d(c[i]), if i == 0 then iv else c[i - 1])
  {
    DecryptPrefix(d, c, iv, i + 1);
    assert c[..i + 1][..i] == c[..i];
    assert Decrypt(d, c, iv)[..i + 1][i] == Decrypt(d, c, iv)[i];
  }

  /** One more block: the loop step of both encryption routines. */
  lemma EncryptSnoc(e: Block -> Block, p: seq<Block>, iv: Block, n: nat)
    requires n < |p|
    ensures Encrypt(e, p[..n + 1], iv)
         == Encrypt(e, p[..n], iv) + [e(Xor(p[n], Chain(Encrypt(e, p[..n], iv), iv)))]
  {
    assert p[..n + 1][..n] == p[..n];
  }

  /** One more block: the loop step of both decryption routines. */
  lemma DecryptSnoc(d: Block -> Block, c: seq<Block>, iv: Block, n: nat)
    requires n < |c|
    ensures Decrypt(d, c[..n + 1], iv)
         == Decrypt(d, c[..n], iv) + [Xor(d(c[n]), if n == 0 then iv else c[n - 1])]
  {
    assert c[..n + 1][..n] == c[..n];
  }

  lemma DecryptAppend(d: Block -> Block, c: seq<Block>, y: Block, iv: Block)
    ensures Decrypt(d, c + [y], iv) == Decrypt(d, c, iv) + [Xor(d(y), Chain(c, iv))]
  {
    assert (c + [y])[..|c|] == c;
  }

  /** Decryption with the inverse cipher undoes encryption, for every IV and message. */
  lemma {:induction false} RoundTrip(e: Block -> Block, d: Block -> Block, p: seq<Block>, iv: Block)
    requires forall x :: d(e(x)) == x
    ensures Decrypt(d, Encrypt(e, p, iv), iv) == p
    decreases |p|
  {
    if p != [] {
      var n := |p| - 1;
      var c := Encrypt(e, p, iv);
      var prev := Encrypt(e, p[..n], iv);
      var x := Xor(p[n], Chain(prev, iv));
      RoundTrip(e, d, p[..n], iv);
      XorTwice(p[n], Chain(prev, iv));
      calc {
        Decrypt(d, c, iv);
        Decrypt(d, prev + [e(x)], iv);
        { DecryptAppend(d, prev, e(x), iv); }
        Decrypt(d, prev, iv) + [Xor(d(e(x)), Chain(prev, iv))];
        p[..n] + [Xor(x, Chain(prev, iv))];
        p[..n] + [p[n]];
        p;
      }
    }
  }
}
