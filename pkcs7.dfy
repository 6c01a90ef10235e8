/**
 * PKCS#7 padding (section 6.3 of RFC 5652) as the Go program writes it: `padPKCS7`
 * appends n copies of the byte n, where n = blockSize - len % blockSize, and the lenient
 * `unpadPKCS7` drops as many bytes as the last byte says, without looking at them.
 */
module Pkcs7 {

  /** The number of pad bytes `padPKCS7` appends: from 1 to blockSize, enough to reach the
    * next whole number of blocks. */
  function PadLength(len: nat, blockSize: nat): (n: nat)
    requires blockSize >= 1
    ensures 1 <= n <= blockSize && len + n == (len / blockSize + 1) * blockSize
  {
    blockSize - len % blockSize
  }

  /** `padPKCS7`: the pad byte is `byte(padding)`, the pad length modulo 256. */
  function Pad(data: seq<bv8>, blockSize: nat): (r: seq<bv8>)
    requires blockSize >= 1
    ensures |r| == |data| + PadLength(|data|, blockSize) && r[..|data|] == data
    ensures forall i :: |data| <= i < |r| ==> r[i] == (PadLength(|data|, blockSize) % 256) as bv8
  {
    var n := PadLength(|data|, blockSize);
    data + seq(n, _ => (n % 256) as bv8)
  }

  /** `unpadPKCS7`: the empty input and an input whose last byte exceeds its length come
    * back unchanged; otherwise as many bytes as the last byte says are dropped. */
  function Unpad(data: seq<bv8>): (r: seq<bv8>)
    ensures |r| <= |data| && r == data[..|r|]
    ensures data == [] || data[|data| - 1] as int > |data| ==> r == data
    ensures data != [] && data[|data| - 1] as int <= |data| ==> |r| == |data| - data[|data| - 1] as int
  {
    if |data| == 0 then data
    else
      var padding := data[|data| - 1] as int;
      if padding > |data| then data else data[..|data| - padding]
  }

  /** Unpadding recovers the data whenever the pad length fits in a byte, the empty input
    * included. */
  lemma RoundTrip(data: seq<bv8>, blockSize: nat)
    requires 1 <= blockSize <= 255
    ensures Unpad(Pad(data, blockSize)) == data
  {
    var p, n := Pad(data, blockSize), PadLength(|data|, blockSize);
    ByteValue(n);
    assert p[|p| - 1] as int == n;
  }

  /** A number below 256 survives the conversion to a byte and back. */
  lemma ByteValue(n: nat)
    requires n < 256
    ensures ((n % 256) as bv8) as int == n
  {
  }

  /** With a block size of 256 and data of a whole number of blocks the pad length 256
    * wraps to the byte 0, and unpadding then leaves all 256 pad bytes in place. */
  lemma WrappedPadKept(data: seq<bv8>)
    requires |data| % 256 == 0
    ensures Unpad(Pad(data, 256)) == Pad(data, 256) != data
  {
    var p := Pad(data, 256);
    assert |p| == |data| + 256;
    assert p[|p| - 1] == 0;
  }
}
