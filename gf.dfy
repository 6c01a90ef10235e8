/**
 * Arithmetic in GF(2^8) as used by AES (section 4 of FIPS-197): bytes are
 * polynomials over GF(2) reduced modulo x^8 + x^4 + x^3 + x + 1.
 *
 * `FieldMul` is the shift-and-add product: bit k of `b` selects `a` times x^k.
 * `GMul` is the eight-step loop that both AES programs run (`gmul`), proved to
 * compute `FieldMul`.  The lemmas establish what MixColumns and InvMixColumns
 * need: linearity over XOR, commutativity, associativity and, from them, that
 * the InvMixColumns row undoes the MixColumns matrix.
 */
module GaloisField {
  /** Field addition: bitwise exclusive or. */
  function Add(a: bv8, b: bv8): bv8 { a ^ b }
  /** Multiplication by x (section 4.2.1 of FIPS-197), written without a branch: the
    * high bit `m` selects the reduction constant 0x1b. */
  function XTime(a: bv8): bv8 {
    var m := a >> 7;
    (a << 1) ^ (m | (m << 1) | (m << 3) | (m << 4))
  }
  /** `a` times x^k. */
  function XTimes(a: bv8, k: nat): bv8 decreases k, a {
    if k == 0 then a else XTime(XTimes(a, k - 1))
  }
  /** `b` shifted right k times. */
  function Shr(b: bv8, k: nat): bv8 decreases k, b {
    if k == 0 then b else Shr(b, k - 1) >> 1
  }
  /** Coefficient k of `b`. */
  predicate Bit(b: bv8, k: nat) { Shr(b, k) & 1 == 1 }
  /** `a` if coefficient k of `b` is set, otherwise 0. */
  function Pick(a: bv8, b: bv8, k: nat): bv8 { if Bit(b, k) then a else 0 }
  /** The product of `a` with the low `n` coefficients of `b`. */
  function MulUpTo(a: bv8, b: bv8, n: nat): bv8 decreases n, a, b {
    if n == 0 then 0 else Add(MulUpTo(a, b, n - 1), Pick(XTimes(a, n - 1), b, n - 1))
  }
  /** `n` steps of shift-and-add: add `a` when the low bit of `b` is set, then go on with
    * `a` times x and `b` shifted right. */
  function MulLoop(a: bv8, b: bv8, n: nat): bv8 decreases n, a, b {
    if n == 0 then 0 else Add(if b & 1 == 1 then a else 0, MulLoop(XTime(a), b >> 1, n - 1))
  }
  /** Multiplication in GF(2^8); MulIsSum shows it is the polynomial product. */
  function FieldMul(a: bv8, b: bv8): bv8 { MulLoop(a, b, 8) }

  // Addition is an abelian group in which every element is its own inverse.
  lemma AddComm(a: bv8, b: bv8) ensures Add(a, b) == Add(b, a) {}
  lemma AddAssoc(a: bv8, b: bv8, c: bv8) ensures Add(Add(a, b), c) == Add(a, Add(b, c)) {}
  lemma AddZero(a: bv8) ensures Add(a, 0) == a && Add(0, a) == a {}
  lemma AddSelf(a: bv8) ensures Add(a, a) == 0 {}
  lemma AddCancel(a: bv8, b: bv8) ensures Add(Add(a, b), b) == a
  {
    AddAssoc(a, b, b);
    AddSelf(b);
    AddZero(a);
  }
  lemma Medial(a: bv8, b: bv8, c: bv8, d: bv8)
    ensures Add(Add(a, b), Add(c, d)) == Add(Add(a, c), Add(b, d))
  {
    AddAssoc(a, b, Add(c, d));
    AddAssoc(b, c, d);
    AddComm(b, c);
    AddAssoc(c, b, d);
    AddAssoc(a, c, Add(b, d));
  }
  // Shifting and multiplying by x distribute over addition.
  lemma ShiftAdd(p: bv8, q: bv8) ensures Add(p, q) >> 1 == Add(p >> 1, q >> 1) {}
  lemma LowBitAdd(p: bv8, q: bv8) ensures (Add(p, q) & 1 == 1) == ((p & 1 == 1) != (q & 1 == 1)) {}
  lemma {:induction false} ShrAdd(x: bv8, y: bv8, k: nat)
    ensures Shr(Add(x, y), k) == Add(Shr(x, k), Shr(y, k))
    decreases k
  {
    if k > 0 {
      ShrAdd(x, y, k - 1);
      var p, q := Shr(x, k - 1), Shr(y, k - 1);
      calc {
        Shr(Add(x, y), k);
        Shr(Add(x, y), k - 1) >> 1;
        Add(p, q) >> 1;
        { ShiftAdd(p, q); }
        Add(p >> 1, q >> 1);
      }
    }
  }
  lemma BitAdd(x: bv8, y: bv8, k: nat) ensures Bit(Add(x, y), k) == (Bit(x, k) != Bit(y, k))
  {
    ShrAdd(x, y, k); LowBitAdd(Shr(x, k), Shr(y, k));
  }
  lemma PickAddRight(a: bv8, x: bv8, y: bv8, k: nat)
    ensures Pick(a, Add(x, y), k) == Add(Pick(a, x, k), Pick(a, y, k))
  {
    BitAdd(x, y, k); AddZero(a); AddZero(0); AddSelf(a);
  }
  lemma PickAddLeft(a: bv8, c: bv8, b: bv8, k: nat)
    ensures Pick(Add(a, c), b, k) == Add(Pick(a, b, k), Pick(c, b, k))
  {
    AddZero(0);
  }
  lemma XTimeAdd(x: bv8, y: bv8) ensures XTime(Add(x, y)) == Add(XTime(x), XTime(y)) {}
  lemma {:induction false} XTimesAdd(x: bv8, y: bv8, k: nat)
    ensures XTimes(Add(x, y), k) == Add(XTimes(x, k), XTimes(y, k))
    decreases k
  {
    if k > 0 { XTimesAdd(x, y, k - 1); XTimeAdd(XTimes(x, k - 1), XTimes(y, k - 1)); }
  }
  // Multiplication distributes over addition on both sides.
  lemma {:induction false} LinearRightUpTo(a: bv8, x: bv8, y: bv8, n: nat)
    ensures MulUpTo(a, Add(x, y), n) == Add(MulUpTo(a, x, n), MulUpTo(a, y, n))
    decreases n
  {
    if n == 0 { AddZero(0); } else {
      LinearRightUpTo(a, x, y, n - 1);
      PickAddRight(XTimes(a, n - 1), x, y, n - 1);
      Medial(MulUpTo(a, x, n - 1), MulUpTo(a, y, n - 1), Pick(XTimes(a, n - 1), x, n - 1), Pick(XTimes(a, n - 1), y, n - 1));
    }
  }
  lemma {:induction false} LinearLeftUpTo(x: bv8, y: bv8, b: bv8, n: nat)
    ensures MulUpTo(Add(x, y), b, n) == Add(MulUpTo(x, b, n), MulUpTo(y, b, n))
    decreases n
  {
    if n == 0 { AddZero(0); } else {
      LinearLeftUpTo(x, y, b, n - 1);
      XTimesAdd(x, y, n - 1);
      PickAddLeft(XTimes(x, n - 1), XTimes(y, n - 1), b, n - 1);
      Medial(MulUpTo(x, b, n - 1), MulUpTo(y, b, n - 1), Pick(XTimes(x, n - 1), b, n - 1), Pick(XTimes(y, n - 1), b, n - 1));
    }
  }
  lemma {:induction false} XTimesShift(a: bv8, k: nat)
    ensures XTimes(XTime(a), k) == XTime(XTimes(a, k))
    decreases k
  {
    if k > 0 { XTimesShift(a, k - 1); }
  }
  lemma PickXTime(a: bv8, b: bv8, k: nat) ensures Pick(XTime(a), b, k) == XTime(Pick(a, b, k)) {}
  lemma {:induction false} MulXTimeUpTo(a: bv8, b: bv8, n: nat)
    ensures MulUpTo(XTime(a), b, n) == XTime(MulUpTo(a, b, n))
    decreases n
  {
    if n > 0 {
      var m, p := MulUpTo(a, b, n - 1), Pick(XTimes(a, n - 1), b, n - 1);
      calc {
        MulUpTo(XTime(a), b, n);
        Add(MulUpTo(XTime(a), b, n - 1), Pick(XTimes(XTime(a), n - 1), b, n - 1));
        { MulXTimeUpTo(a, b, n - 1); XTimesShift(a, n - 1); }
        Add(XTime(m), Pick(XTime(XTimes(a, n - 1)), b, n - 1));
        { PickXTime(XTimes(a, n - 1), b, n - 1); }
        Add(XTime(m), XTime(p));
        { XTimeAdd(m, p); }
        XTime(Add(m, p));
      }
    }
  }
  lemma {:induction false} ShrFront(b: bv8, k: nat)
    ensures Shr(b >> 1, k) == Shr(b, k + 1)
    decreases k
  {
    if k > 0 { ShrFront(b, k - 1); }
  }
  /** Peeling the lowest term off the front of the sum. */
  lemma {:induction false} MulUpToFront(a: bv8, b: bv8, n: nat)
    ensures MulUpTo(a, b, n + 1) == Add(Pick(a, b, 0), MulUpTo(XTime(a), b >> 1, n))
    decreases n
  {
    if n == 0 {
      AddZero(Pick(a, b, 0));
    } else {
      var p0, m := Pick(a, b, 0), MulUpTo(XTime(a), b >> 1, n - 1);
      XTimesShift(a, n - 1);
      ShrFront(b, n - 1);
      var t := Pick(XTimes(a, n), b, n);
      calc {
        MulUpTo(a, b, n + 1);
        Add(MulUpTo(a, b, n), t);
        { MulUpToFront(a, b, n - 1); }
        Add(Add(p0, m), t);
        { AddAssoc(p0, m, t); }
        Add(p0, Add(m, t));
        { assert t == Pick(XTimes(XTime(a), n - 1), b >> 1, n - 1); }
        Add(p0, MulUpTo(XTime(a), b >> 1, n));
      }
    }
  }
  lemma {:induction false} MulLoopSum(a: bv8, b: bv8, n: nat)
    ensures MulLoop(a, b, n) == MulUpTo(a, b, n)
    decreases n
  {
    if n > 0 {
      MulLoopSum(XTime(a), b >> 1, n - 1);
      MulUpToFront(a, b, n - 1);
    }
  }
  /** The product is the sum of `a` times x^k over the coefficients k set in `b`. */
  lemma MulIsSum(a: bv8, b: bv8)
    ensures FieldMul(a, b) == MulUpTo(a, b, 8)
  {
    MulLoopSum(a, b, 8);
  }

  /** The worked examples of section 4.2 of FIPS-197. */
  lemma KnownAnswer() ensures FieldMul(0x57, 0x83) == 0xc1 && FieldMul(0x57, 0x13) == 0xfe
  {
    MulIsSum(0x57, 0x83);
    MulIsSum(0x57, 0x13);
  }

  lemma LinearRight(a: bv8, x: bv8, y: bv8)
    ensures FieldMul(a, Add(x, y)) == Add(FieldMul(a, x), FieldMul(a, y))
  {
    MulIsSum(a, Add(x, y)); MulIsSum(a, x); MulIsSum(a, y);
    LinearRightUpTo(a, x, y, 8);
  }

  lemma LinearLeft(x: bv8, y: bv8, b: bv8)
    ensures FieldMul(Add(x, y), b) == Add(FieldMul(x, b), FieldMul(y, b))
  {
    MulIsSum(Add(x, y), b); MulIsSum(x, b); MulIsSum(y, b);
    LinearLeftUpTo(x, y, b, 8);
  }

  lemma {:induction false} MulXTimes(a: bv8, b: bv8, k: nat)
    ensures FieldMul(XTimes(a, k), b) == XTimes(FieldMul(a, b), k)
    decreases k
  {
    if k > 0 {
      MulXTimes(a, b, k - 1);
      MulIsSum(XTimes(a, k), b); MulIsSum(XTimes(a, k - 1), b);
      MulXTimeUpTo(XTimes(a, k - 1), b, 8);
    }
  }

  // 0 is absorbing and 1 is neutral.
  lemma ZeroLeft(b: bv8)
    ensures FieldMul(0, b) == 0
  {
    AddSelf(1);
    LinearLeft(1, 1, b);
    AddSelf(FieldMul(1, b));
  }

  lemma ZeroRight(a: bv8)
    ensures FieldMul(a, 0) == 0
  {
    AddSelf(1);
    LinearRight(a, 1, 1);
    AddSelf(FieldMul(a, 1));
  }

  lemma ShrUnroll(b: bv8)
    ensures Shr(b, 1) == b >> 1 && Shr(b, 2) == b >> 2 && Shr(b, 3) == b >> 3 && Shr(b, 4) == b >> 4
    ensures Shr(b, 5) == b >> 5 && Shr(b, 6) == b >> 6 && Shr(b, 7) == b >> 7
  {
    assert Shr(b, 2) == Shr(b, 1) >> 1;
    assert Shr(b, 3) == Shr(b, 2) >> 1;
    assert Shr(b, 4) == Shr(b, 3) >> 1;
    assert Shr(b, 5) == Shr(b, 4) >> 1;
    assert Shr(b, 6) == Shr(b, 5) >> 1;
    assert Shr(b, 7) == Shr(b, 6) >> 1;
  }

  /** Every byte is the sum of its eight coefficients. */
  lemma BitSplit(a: bv8)
    ensures a == Add(Add(Add(Add(Add(Add(Add(a & 0x01, a & 0x02), a & 0x04), a & 0x08), a & 0x10), a & 0x20), a & 0x40), a & 0x80)
  {}

  lemma PickOne(b: bv8)
    ensures Pick(0x01, b, 0) == b & 0x01 && Pick(0x02, b, 1) == b & 0x02
    ensures Pick(0x04, b, 2) == b & 0x04 && Pick(0x08, b, 3) == b & 0x08
    ensures Pick(0x10, b, 4) == b & 0x10 && Pick(0x20, b, 5) == b & 0x20
    ensures Pick(0x40, b, 6) == b & 0x40 && Pick(0x80, b, 7) == b & 0x80
  {
    ShrUnroll(b);
  }

  lemma OneLeft(b: bv8)
    ensures FieldMul(0x01, b) == b
  {
    PickOne(b);
    AddZero(b & 0x01);
    calc {
      FieldMul(0x01, b);
      { MulIsSum(0x01, b); }
      MulUpTo(0x01, b, 8);
      Add(MulUpTo(0x01, b, 7), Pick(0x80, b, 7));
      Add(Add(MulUpTo(0x01, b, 6), Pick(0x40, b, 6)), Pick(0x80, b, 7));
      Add(Add(Add(MulUpTo(0x01, b, 5), Pick(0x20, b, 5)), Pick(0x40, b, 6)), Pick(0x80, b, 7));
      Add(Add(Add(Add(MulUpTo(0x01, b, 4), Pick(0x10, b, 4)), Pick(0x20, b, 5)), Pick(0x40, b, 6)), Pick(0x80, b, 7));
      Add(Add(Add(Add(Add(MulUpTo(0x01, b, 3), Pick(0x08, b, 3)), Pick(0x10, b, 4)), Pick(0x20, b, 5)), Pick(0x40, b, 6)), Pick(0x80, b, 7));
      Add(Add(Add(Add(Add(Add(MulUpTo(0x01, b, 2), Pick(0x04, b, 2)), Pick(0x08, b, 3)), Pick(0x10, b, 4)), Pick(0x20, b, 5)), Pick(0x40, b, 6)), Pick(0x80, b, 7));
      Add(Add(Add(Add(Add(Add(Add(MulUpTo(0x01, b, 1), Pick(0x02, b, 1)), Pick(0x04, b, 2)), Pick(0x08, b, 3)), Pick(0x10, b, 4)), Pick(0x20, b, 5)), Pick(0x40, b, 6)), Pick(0x80, b, 7));
      Add(Add(Add(Add(Add(Add(Add(Add(0, Pick(0x01, b, 0)), Pick(0x02, b, 1)), Pick(0x04, b, 2)), Pick(0x08, b, 3)), Pick(0x10, b, 4)), Pick(0x20, b, 5)), Pick(0x40, b, 6)), Pick(0x80, b, 7));
      { BitSplit(b); }
      b;
    }
  }

  // Multiplying by the basis element x^k is applying XTime k times.
  lemma BasisRight01(a: bv8)
    ensures FieldMul(a, 0x01) == XTimes(a, 0)
  {
    MulIsSum(a, 0x01);
    AddZero(0);
    AddZero(XTimes(a, 0));
    assert MulUpTo(a, 0x01, 1) == XTimes(a, 0);
    assert MulUpTo(a, 0x01, 2) == XTimes(a, 0);
    assert MulUpTo(a, 0x01, 3) == XTimes(a, 0);
    assert MulUpTo(a, 0x01, 4) == XTimes(a, 0);
    assert MulUpTo(a, 0x01, 5) == XTimes(a, 0);
    assert MulUpTo(a, 0x01, 6) == XTimes(a, 0);
    assert MulUpTo(a, 0x01, 7) == XTimes(a, 0);
    assert MulUpTo(a, 0x01, 8) == XTimes(a, 0);
  }

  lemma BasisRight02(a: bv8)
    ensures FieldMul(a, 0x02) == XTimes(a, 1)
  {
    MulIsSum(a, 0x02);
    AddZero(0);
    AddZero(XTimes(a, 1));
    assert MulUpTo(a, 0x02, 1) == 0;
    assert MulUpTo(a, 0x02, 2) == XTimes(a, 1);
    assert MulUpTo(a, 0x02, 3) == XTimes(a, 1);
    assert MulUpTo(a, 0x02, 4) == XTimes(a, 1);
    assert MulUpTo(a, 0x02, 5) == XTimes(a, 1);
    assert MulUpTo(a, 0x02, 6) == XTimes(a, 1);
    assert MulUpTo(a, 0x02, 7) == XTimes(a, 1);
    assert MulUpTo(a, 0x02, 8) == XTimes(a, 1);
  }

  lemma BasisRight04(a: bv8)
    ensures FieldMul(a, 0x04) == XTimes(a, 2)
  {
    MulIsSum(a, 0x04);
    AddZero(0);
    AddZero(XTimes(a, 2));
    assert MulUpTo(a, 0x04, 1) == 0;
    assert MulUpTo(a, 0x04, 2) == 0;
    assert MulUpTo(a, 0x04, 3) == XTimes(a, 2);
    assert MulUpTo(a, 0x04, 4) == XTimes(a, 2);
    assert MulUpTo(a, 0x04, 5) == XTimes(a, 2);
    assert MulUpTo(a, 0x04, 6) == XTimes(a, 2);
    assert MulUpTo(a, 0x04, 7) == XTimes(a, 2);
    assert MulUpTo(a, 0x04, 8) == XTimes(a, 2);
  }

  lemma BasisRight08(a: bv8)
    ensures FieldMul(a, 0x08) == XTimes(a, 3)
  {
    MulIsSum(a, 0x08);
    AddZero(0);
    AddZero(XTimes(a, 3));
    assert MulUpTo(a, 0x08, 1) == 0;
    assert MulUpTo(a, 0x08, 2) == 0;
    assert MulUpTo(a, 0x08, 3) == 0;
    assert MulUpTo(a, 0x08, 4) == XTimes(a, 3);
    assert MulUpTo(a, 0x08, 5) == XTimes(a, 3);
    assert MulUpTo(a, 0x08, 6) == XTimes(a, 3);
    assert MulUpTo(a, 0x08, 7) == XTimes(a, 3);
    assert MulUpTo(a, 0x08, 8) == XTimes(a, 3);
  }

  lemma BasisRight10(a: bv8)
    ensures FieldMul(a, 0x10) == XTimes(a, 4)
  {
    MulIsSum(a, 0x10);
    AddZero(0);
    AddZero(XTimes(a, 4));
    assert MulUpTo(a, 0x10, 1) == 0;
    assert MulUpTo(a, 0x10, 2) == 0;
    assert MulUpTo(a, 0x10, 3) == 0;
    assert MulUpTo(a, 0x10, 4) == 0;
    assert MulUpTo(a, 0x10, 5) == XTimes(a, 4);
    assert MulUpTo(a, 0x10, 6) == XTimes(a, 4);
    assert MulUpTo(a, 0x10, 7) == XTimes(a, 4);
    assert MulUpTo(a, 0x10, 8) == XTimes(a, 4);
  }

  lemma BasisRight20(a: bv8)
    ensures FieldMul(a, 0x20) == XTimes(a, 5)
  {
    MulIsSum(a, 0x20);
    AddZero(0);
    AddZero(XTimes(a, 5));
    assert MulUpTo(a, 0x20, 1) == 0;
    assert MulUpTo(a, 0x20, 2) == 0;
    assert MulUpTo(a, 0x20, 3) == 0;
    assert MulUpTo(a, 0x20, 4) == 0;
    assert MulUpTo(a, 0x20, 5) == 0;
    assert MulUpTo(a, 0x20, 6) == XTimes(a, 5);
    assert MulUpTo(a, 0x20, 7) == XTimes(a, 5);
    assert MulUpTo(a, 0x20, 8) == XTimes(a, 5);
  }

  lemma BasisRight40(a: bv8)
    ensures FieldMul(a, 0x40) == XTimes(a, 6)
  {
    MulIsSum(a, 0x40);
    AddZero(0);
    AddZero(XTimes(a, 6));
    assert MulUpTo(a, 0x40, 1) == 0;
    assert MulUpTo(a, 0x40, 2) == 0;
    assert MulUpTo(a, 0x40, 3) == 0;
    assert MulUpTo(a, 0x40, 4) == 0;
    assert MulUpTo(a, 0x40, 5) == 0;
    assert MulUpTo(a, 0x40, 6) == 0;
    assert MulUpTo(a, 0x40, 7) == XTimes(a, 6);
    assert MulUpTo(a, 0x40, 8) == XTimes(a, 6);
  }

  lemma BasisRight80(a: bv8)
    ensures FieldMul(a, 0x80) == XTimes(a, 7)
  {
    MulIsSum(a, 0x80);
    AddZero(0);
    AddZero(XTimes(a, 7));
    assert MulUpTo(a, 0x80, 1) == 0;
    assert MulUpTo(a, 0x80, 2) == 0;
    assert MulUpTo(a, 0x80, 3) == 0;
    assert MulUpTo(a, 0x80, 4) == 0;
    assert MulUpTo(a, 0x80, 5) == 0;
    assert MulUpTo(a, 0x80, 6) == 0;
    assert MulUpTo(a, 0x80, 7) == 0;
    assert MulUpTo(a, 0x80, 8) == XTimes(a, 7);
  }

  /** The eight powers of x. */
  predicate IsBasis(e: bv8) {
    e == 0x01 || e == 0x02 || e == 0x04 || e == 0x08 || e == 0x10 || e == 0x20 || e == 0x40 || e == 0x80
  }

  lemma PowerLeft(k: nat, b: bv8)
    ensures FieldMul(XTimes(1, k), b) == XTimes(b, k)
  {
    MulXTimes(1, b, k);
    OneLeft(b);
  }

  // Commutativity: first on the basis, then by linearity on every byte.
  lemma CommBasis(e: bv8, b: bv8)
    requires IsBasis(e)
    ensures FieldMul(e, b) == FieldMul(b, e)
  {
    if e == 0x01 {
      assert XTimes(1, 0) == 0x01;
      PowerLeft(0, b);
      BasisRight01(b);
    } else if e == 0x02 {
      assert XTimes(1, 1) == 0x02;
      PowerLeft(1, b);
      BasisRight02(b);
    } else if e == 0x04 {
      assert XTimes(1, 2) == 0x04;
      PowerLeft(2, b);
      BasisRight04(b);
    } else if e == 0x08 {
      assert XTimes(1, 3) == 0x08;
      PowerLeft(3, b);
      BasisRight08(b);
    } else if e == 0x10 {
      assert XTimes(1, 4) == 0x10;
      PowerLeft(4, b);
      BasisRight10(b);
    } else if e == 0x20 {
      assert XTimes(1, 5) == 0x20;
      PowerLeft(5, b);
      BasisRight20(b);
    } else if e == 0x40 {
      assert XTimes(1, 6) == 0x40;
      PowerLeft(6, b);
      BasisRight40(b);
    } else {
      assert XTimes(1, 7) == 0x80;
      PowerLeft(7, b);
      BasisRight80(b);
    }
  }

  lemma CommBit(a: bv8, e: bv8, b: bv8)
    requires IsBasis(e)
    ensures FieldMul(a & e, b) == FieldMul(b, a & e)
  {
    if a & e == 0 {
      ZeroLeft(b);
      ZeroRight(b);
    } else {
      assert a & e == e;
      CommBasis(e, b);
    }
  }

  lemma CommAdd(x: bv8, y: bv8, b: bv8)
    requires FieldMul(x, b) == FieldMul(b, x) && FieldMul(y, b) == FieldMul(b, y)
    ensures FieldMul(Add(x, y), b) == FieldMul(b, Add(x, y))
  {
    LinearLeft(x, y, b);
    LinearRight(b, x, y);
  }

  lemma Commutative(a: bv8, b: bv8)
    ensures FieldMul(a, b) == FieldMul(b, a)
  {
    var t1 := a & 0x01;
    var t2 := Add(t1, a & 0x02);
    var t3 := Add(t2, a & 0x04);
    var t4 := Add(t3, a & 0x08);
    var t5 := Add(t4, a & 0x10);
    var t6 := Add(t5, a & 0x20);
    var t7 := Add(t6, a & 0x40);
    var t8 := Add(t7, a & 0x80);
    CommBit(a, 0x01, b);
    CommBit(a, 0x02, b); CommAdd(t1, a & 0x02, b);
    CommBit(a, 0x04, b); CommAdd(t2, a & 0x04, b);
    CommBit(a, 0x08, b); CommAdd(t3, a & 0x08, b);
    CommBit(a, 0x10, b); CommAdd(t4, a & 0x10, b);
    CommBit(a, 0x20, b); CommAdd(t5, a & 0x20, b);
    CommBit(a, 0x40, b); CommAdd(t6, a & 0x40, b);
    CommBit(a, 0x80, b); CommAdd(t7, a & 0x80, b);
    BitSplit(a);
  }

  // Associativity, by the same decomposition of the left factor.
  lemma AssocPower(k: nat, c: bv8, s: bv8)
    ensures FieldMul(XTimes(1, k), FieldMul(c, s)) == FieldMul(FieldMul(XTimes(1, k), c), s)
  {
    PowerLeft(k, FieldMul(c, s));
    PowerLeft(k, c);
    MulXTimes(c, s, k);
  }

  lemma AssocBit(d: bv8, e: bv8, c: bv8, s: bv8)
    requires IsBasis(e)
    ensures FieldMul(d & e, FieldMul(c, s)) == FieldMul(FieldMul(d & e, c), s)
  {
    if d & e == 0 {
      ZeroLeft(FieldMul(c, s));
      ZeroLeft(c);
      ZeroLeft(s);
    } else {
      assert d & e == e;
      if e == 0x01 {
        assert XTimes(1, 0) == 0x01;
        AssocPower(0, c, s);
      } else if e == 0x02 {
        assert XTimes(1, 1) == 0x02;
        AssocPower(1, c, s);
      } else if e == 0x04 {
        assert XTimes(1, 2) == 0x04;
        AssocPower(2, c, s);
      } else if e == 0x08 {
        assert XTimes(1, 3) == 0x08;
        AssocPower(3, c, s);
      } else if e == 0x10 {
        assert XTimes(1, 4) == 0x10;
        AssocPower(4, c, s);
      } else if e == 0x20 {
        assert XTimes(1, 5) == 0x20;
        AssocPower(5, c, s);
      } else if e == 0x40 {
        assert XTimes(1, 6) == 0x40;
        AssocPower(6, c, s);
      } else {
        assert XTimes(1, 7) == 0x80;
        AssocPower(7, c, s);
      }
    }
  }

  lemma AssocAdd(x: bv8, y: bv8, c: bv8, s: bv8)
    requires FieldMul(x, FieldMul(c, s)) == FieldMul(FieldMul(x, c), s)
    requires FieldMul(y, FieldMul(c, s)) == FieldMul(FieldMul(y, c), s)
    ensures FieldMul(Add(x, y), FieldMul(c, s)) == FieldMul(FieldMul(Add(x, y), c), s)
  {
    LinearLeft(x, y, FieldMul(c, s));
    LinearLeft(x, y, c);
    LinearLeft(FieldMul(x, c), FieldMul(y, c), s);
  }

  lemma Associative(d: bv8, c: bv8, s: bv8)
    ensures FieldMul(d, FieldMul(c, s)) == FieldMul(FieldMul(d, c), s)
  {
    var t1 := d & 0x01;
    var t2 := Add(t1, d & 0x02);
    var t3 := Add(t2, d & 0x04);
    var t4 := Add(t3, d & 0x08);
    var t5 := Add(t4, d & 0x10);
    var t6 := Add(t5, d & 0x20);
    var t7 := Add(t6, d & 0x40);
    AssocBit(d, 0x01, c, s);
    AssocBit(d, 0x02, c, s); AssocAdd(t1, d & 0x02, c, s);
    AssocBit(d, 0x04, c, s); AssocAdd(t2, d & 0x04, c, s);
    AssocBit(d, 0x08, c, s); AssocAdd(t3, d & 0x08, c, s);
    AssocBit(d, 0x10, c, s); AssocAdd(t4, d & 0x10, c, s);
    AssocBit(d, 0x20, c, s); AssocAdd(t5, d & 0x20, c, s);
    AssocBit(d, 0x40, c, s); AssocAdd(t6, d & 0x40, c, s);
    AssocBit(d, 0x80, c, s); AssocAdd(t7, d & 0x80, c, s);
    BitSplit(d);
  }

  /** The sum of four field elements. */
  function Sum4(a: bv8, b: bv8, c: bv8, d: bv8): bv8 { Add(Add(a, b), Add(c, d)) }
  /** One output byte of MixColumns (section 5.1.3 of FIPS-197): row coefficients 02 03 01 01
    * applied to the column rotated so that the byte in the same row comes first. */
  function MixCell(a0: bv8, a1: bv8, a2: bv8, a3: bv8): bv8 {
    Sum4(FieldMul(0x02, a0), FieldMul(0x03, a1), a2, a3)
  }
  /** One output byte of InvMixColumns (section 5.3.3 of FIPS-197): coefficients 0e 0b 0d 09. */
  function InvMixCell(a0: bv8, a1: bv8, a2: bv8, a3: bv8): bv8 {
    Sum4(FieldMul(0x0e, a0), FieldMul(0x0b, a1), FieldMul(0x0d, a2), FieldMul(0x09, a3))
  }
  /** A sum of four bytes, added left to right as both programs evaluate `a ^ b ^ c ^ d`, is their
    * sum in any rotation. */
  lemma XorRotations(a: bv8, b: bv8, c: bv8, d: bv8)
    ensures a ^ b ^ c ^ d == Sum4(a, b, c, d)
    ensures a ^ b ^ c ^ d == Sum4(b, c, d, a)
    ensures a ^ b ^ c ^ d == Sum4(c, d, a, b)
    ensures a ^ b ^ c ^ d == Sum4(d, a, b, c)
  {
    XorSum4(a, b, c, d);
    Rotate(a, b, c, d);
    Rotate(d, a, b, c);
    Rotate(c, d, a, b);
  }

  lemma XorSum4(a: bv8, b: bv8, c: bv8, d: bv8)
    ensures a ^ b ^ c ^ d == Sum4(a, b, c, d)
  {
  }

  lemma LinearRightSum4(d: bv8, w: bv8, x: bv8, y: bv8, z: bv8)
    ensures FieldMul(d, Sum4(w, x, y, z)) == Sum4(FieldMul(d, w), FieldMul(d, x), FieldMul(d, y), FieldMul(d, z))
  {
    LinearRight(d, w, x);
    LinearRight(d, y, z);
    LinearRight(d, Add(w, x), Add(y, z));
  }
  lemma LinearLeftSum4(s: bv8, c0: bv8, c1: bv8, c2: bv8, c3: bv8)
    ensures FieldMul(Sum4(c0, c1, c2, c3), s) == Sum4(FieldMul(c0, s), FieldMul(c1, s), FieldMul(c2, s), FieldMul(c3, s))
  {
    LinearLeft(c0, c1, s);
    LinearLeft(c2, c3, s);
    LinearLeft(Add(c0, c1), Add(c2, c3), s);
  }
  // Products of the InvMixColumns coefficients with 02 and 03.
  lemma Products0E()
    ensures FieldMul(0x0e, 0x02) == 0x1c && FieldMul(0x0e, 0x03) == 0x12
  {}
  lemma Products0B()
    ensures FieldMul(0x0b, 0x02) == 0x16 && FieldMul(0x0b, 0x03) == 0x1d
  {}
  lemma Products0D()
    ensures FieldMul(0x0d, 0x02) == 0x1a && FieldMul(0x0d, 0x03) == 0x17
  {}
  lemma Products09()
    ensures FieldMul(0x09, 0x02) == 0x12 && FieldMul(0x09, 0x03) == 0x1b
  {}
  lemma MatrixProducts()
    ensures FieldMul(0x0e, 0x02) == 0x1c && FieldMul(0x0e, 0x03) == 0x12
    ensures FieldMul(0x0b, 0x02) == 0x16 && FieldMul(0x0b, 0x03) == 0x1d
    ensures FieldMul(0x0d, 0x02) == 0x1a && FieldMul(0x0d, 0x03) == 0x17
    ensures FieldMul(0x09, 0x02) == 0x12 && FieldMul(0x09, 0x03) == 0x1b
  {
    Products0E(); Products0B(); Products0D(); Products09();
  }
  /** The columns of the product of the two matrices: the identity. */
  lemma ColumnSums()
    ensures Sum4(0x1c, 0x0b, 0x0d, 0x1b) == 0x01
    ensures Sum4(0x12, 0x16, 0x0d, 0x09) == 0x00
    ensures Sum4(0x0e, 0x1d, 0x1a, 0x09) == 0x00
    ensures Sum4(0x0e, 0x0b, 0x17, 0x12) == 0x00
  {}
  /** Scaling a MixColumns cell by `d` scales each of its coefficients. */
  lemma ScaleMix(d: bv8, a0: bv8, a1: bv8, a2: bv8, a3: bv8)
    ensures FieldMul(d, MixCell(a0, a1, a2, a3))
         == Sum4(FieldMul(FieldMul(d, 0x02), a0), FieldMul(FieldMul(d, 0x03), a1), FieldMul(d, a2), FieldMul(d, a3))
  {
    LinearRightSum4(d, FieldMul(0x02, a0), FieldMul(0x03, a1), a2, a3);
    Associative(d, 0x02, a0);
    Associative(d, 0x03, a1);
  }
  /** A sum of four is invariant under rotation of its terms. */
  lemma Rotate(a: bv8, b: bv8, c: bv8, d: bv8)
    ensures Sum4(a, b, c, d) == Sum4(d, a, b, c)
  {
    calc {
      Sum4(a, b, c, d);
      Add(Add(a, b), Add(c, d));
      { AddComm(Add(a, b), Add(c, d)); }
      Add(Add(c, d), Add(a, b));
      { AddComm(c, d); }
      Add(Add(d, c), Add(a, b));
      { Medial(d, c, a, b); }
      Add(Add(d, a), Add(c, b));
      { AddComm(c, b); }
      Add(Add(d, a), Add(b, c));
    }
  }
  /** The four terms of the InvMixColumns cell applied to a mixed column, each expanded
    * as a combination of the original column. */
  lemma ScaledRows(s0: bv8, s1: bv8, s2: bv8, s3: bv8)
    ensures FieldMul(0x0e, MixCell(s0, s1, s2, s3))
         == Sum4(FieldMul(0x1c, s0), FieldMul(0x12, s1), FieldMul(0x0e, s2), FieldMul(0x0e, s3))
    ensures FieldMul(0x0b, MixCell(s1, s2, s3, s0))
         == Sum4(FieldMul(0x0b, s0), FieldMul(0x16, s1), FieldMul(0x1d, s2), FieldMul(0x0b, s3))
    ensures FieldMul(0x0d, MixCell(s2, s3, s0, s1))
         == Sum4(FieldMul(0x0d, s0), FieldMul(0x0d, s1), FieldMul(0x1a, s2), FieldMul(0x17, s3))
    ensures FieldMul(0x09, MixCell(s3, s0, s1, s2))
         == Sum4(FieldMul(0x1b, s0), FieldMul(0x09, s1), FieldMul(0x09, s2), FieldMul(0x12, s3))
  {
    MatrixProducts();
    ScaleMix(0x0e, s0, s1, s2, s3);
    ScaleMix(0x0b, s1, s2, s3, s0);
    Rotate(FieldMul(0x16, s1), FieldMul(0x1d, s2), FieldMul(0x0b, s3), FieldMul(0x0b, s0));
    ScaleMix(0x0d, s2, s3, s0, s1);
    Rotate(FieldMul(0x1a, s2), FieldMul(0x17, s3), FieldMul(0x0d, s0), FieldMul(0x0d, s1));
    Rotate(FieldMul(0x0d, s1), FieldMul(0x1a, s2), FieldMul(0x17, s3), FieldMul(0x0d, s0));
    ScaleMix(0x09, s3, s0, s1, s2);
    Rotate(FieldMul(0x12, s3), FieldMul(0x1b, s0), FieldMul(0x09, s1), FieldMul(0x09, s2));
    Rotate(FieldMul(0x09, s2), FieldMul(0x12, s3), FieldMul(0x1b, s0), FieldMul(0x09, s1));
    Rotate(FieldMul(0x09, s1), FieldMul(0x09, s2), FieldMul(0x12, s3), FieldMul(0x1b, s0));
  }
  /** Each original byte appears with total coefficient 1 in the first position and 0 elsewhere. */
  lemma Columns(s: bv8)
    ensures Sum4(FieldMul(0x1c, s), FieldMul(0x0b, s), FieldMul(0x0d, s), FieldMul(0x1b, s)) == s
    ensures Sum4(FieldMul(0x12, s), FieldMul(0x16, s), FieldMul(0x0d, s), FieldMul(0x09, s)) == 0
    ensures Sum4(FieldMul(0x0e, s), FieldMul(0x1d, s), FieldMul(0x1a, s), FieldMul(0x09, s)) == 0
    ensures Sum4(FieldMul(0x0e, s), FieldMul(0x0b, s), FieldMul(0x17, s), FieldMul(0x12, s)) == 0
  {
    ColumnSums();
    LinearLeftSum4(s, 0x1c, 0x0b, 0x0d, 0x1b);
    OneLeft(s);
    LinearLeftSum4(s, 0x12, 0x16, 0x0d, 0x09);
    ZeroLeft(s);
    LinearLeftSum4(s, 0x0e, 0x1d, 0x1a, 0x09);
    LinearLeftSum4(s, 0x0e, 0x0b, 0x17, 0x12);
  }
  /** Summing a 4x4 table by rows or by columns gives the same value. */
  lemma Transpose(t00: bv8, t01: bv8, t02: bv8, t03: bv8, t10: bv8, t11: bv8, t12: bv8, t13: bv8,
                  t20: bv8, t21: bv8, t22: bv8, t23: bv8, t30: bv8, t31: bv8, t32: bv8, t33: bv8)
    ensures Sum4(Sum4(t00, t01, t02, t03), Sum4(t10, t11, t12, t13), Sum4(t20, t21, t22, t23), Sum4(t30, t31, t32, t33))
         == Sum4(Sum4(t00, t10, t20, t30), Sum4(t01, t11, t21, t31), Sum4(t02, t12, t22, t32), Sum4(t03, t13, t23, t33))
  {
    Medial(Add(t00, t01), Add(t02, t03), Add(t10, t11), Add(t12, t13));
    Medial(Add(t20, t21), Add(t22, t23), Add(t30, t31), Add(t32, t33));
    Medial(Add(Add(t00, t01), Add(t10, t11)), Add(Add(t02, t03), Add(t12, t13)),
           Add(Add(t20, t21), Add(t30, t31)), Add(Add(t22, t23), Add(t32, t33)));
    Medial(t00, t01, t10, t11);
    Medial(t20, t21, t30, t31);
    Medial(Add(t00, t10), Add(t01, t11), Add(t20, t30), Add(t21, t31));
    Medial(t02, t03, t12, t13);
    Medial(t22, t23, t32, t33);
    Medial(Add(t02, t12), Add(t03, t13), Add(t22, t32), Add(t23, t33));
  }
  /** InvMixColumns undoes MixColumns on one column: the cell for row 0 of the
    * mixed column is the original byte of row 0 (the other rows are rotations). */
  lemma InvMixRow(s0: bv8, s1: bv8, s2: bv8, s3: bv8)
    ensures InvMixCell(MixCell(s0, s1, s2, s3), MixCell(s1, s2, s3, s0), MixCell(s2, s3, s0, s1), MixCell(s3, s0, s1, s2)) == s0
  {
    ScaledRows(s0, s1, s2, s3);
    Columns(s0); Columns(s1); Columns(s2); Columns(s3);
    Transpose(FieldMul(0x1c, s0), FieldMul(0x12, s1), FieldMul(0x0e, s2), FieldMul(0x0e, s3),
              FieldMul(0x0b, s0), FieldMul(0x16, s1), FieldMul(0x1d, s2), FieldMul(0x0b, s3),
              FieldMul(0x0d, s0), FieldMul(0x0d, s1), FieldMul(0x1a, s2), FieldMul(0x17, s3),
              FieldMul(0x1b, s0), FieldMul(0x09, s1), FieldMul(0x09, s2), FieldMul(0x12, s3));
    AddZero(s0); AddZero(0);
  }

  /** The branching form of XTime that `gmul` executes. */
  lemma XTimeByCases(x: bv8)
    ensures XTime(x) == if x & 0x80 != 0 then (x << 1) ^ 0x1b else x << 1
  {}
  /** One iteration of `gmul` moves the next term of the product into `p`. */
  lemma MulStep(p: bv8, x: bv8, y: bv8, n: nat)
    requires n > 0
    ensures Add(p, MulLoop(x, y, n)) == Add(if y & 1 != 0 then p ^ x else p, MulLoop(XTime(x), y >> 1, n - 1))
  {
    var t := if y & 1 == 1 then x else 0;
    AddAssoc(p, t, MulLoop(XTime(x), y >> 1, n - 1));
    AddZero(p);
  }
  /** `gmul`: the loop shifts `x` left (reducing by 0x1b) and `y` right, adding `x`
    * into `p` whenever the low bit of `y` is set. */
  method GMul(a: bv8, b: bv8) returns (p: bv8)
    ensures p == FieldMul(a, b)
  {
    var x, y := a, b;
    p := 0;
    AddZero(FieldMul(a, b));
    for i := 0 to 8
      invariant Add(p, MulLoop(x, y, 8 - i)) == FieldMul(a, b)
    {
      MulStep(p, x, y, 8 - i);
      if y & 1 != 0 {
        p := p ^ x;
      }
      XTimeByCases(x);
      var hiBitSet := x & 0x80;
      x := x << 1;
      if hiBitSet != 0 {
        x := x ^ 0x1b;
      }
      y := y >> 1;
    }
    AddZero(p);
  }
}
