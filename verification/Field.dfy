/** The field GF(256) with the reduction polynomial 0x11d, defined by shift and reduce.
    Addition is XOR. Multiplication is the sum of the doublings of one factor that the bits of
    the other one select. The laws below are all that the coding modules use; they
    hide the definitions, so that a byte is just a field element to them. */
module Field {

  type byte = bv8

  function Add(a: byte, b: byte): byte { a ^ b }

  /** The part of a doubling that the overflowing top bit feeds back. */
  function Reduction(a: byte): byte { if a & 0x80 != 0 then 0x1d else 0 }

  /** Multiplication by 2: shift left within the byte, then reduce. */
  function Double(a: byte): byte { Add(a << 1, Reduction(a)) }

  function Pick(b: byte, a: byte): byte { if b & 1 != 0 then a else 0 }

  /** The product of a with the n low bits of b. */
  function MulBits(a: byte, b: byte, n: nat): byte
    decreases n
  {
    if n == 0 then 0 else Add(Pick(b, a), MulBits(Double(a), b >> 1, n - 1))
  }

  function Mul(a: byte, b: byte): byte { MulBits(a, b, 8) }

  function Power2(n: nat): byte { if n == 0 then 1 else Double(Power2(n - 1)) }

  // ----- addition

  lemma XorAssoc(a: byte, b: byte, c: byte)
    ensures (a ^ b) ^ c == a ^ (b ^ c)
  {
  }

  lemma AddAssoc(a: byte, b: byte, c: byte)
    ensures Add(Add(a, b), c) == Add(a, Add(b, c))
  {
    XorAssoc(a, b, c);
  }

  lemma AddComm(a: byte, b: byte)
    ensures Add(a, b) == Add(b, a)
  {
  }

  lemma AddZero(a: byte)
    ensures Add(a, 0) == a && Add(0, a) == a && Add(a, a) == 0
  {
  }

  /** Every element is its own negative. */
  lemma AddCancel(a: byte, b: byte)
    ensures Add(Add(a, b), b) == a
    ensures Add(a, Add(a, b)) == b
    ensures Add(a, b) == 0 <==> a == b
  {
    hide Add;
    AddAssoc(a, b, b);
    AddAssoc(a, a, b);
    AddZero(a);
    AddZero(b);
    AddComm(a, b);
    AddAssoc(b, a, a);
  }

  lemma AddSwap(a: byte, b: byte, c: byte, d: byte)
    ensures Add(Add(a, b), Add(c, d)) == Add(Add(a, c), Add(b, d))
  {
    hide *;
    AddAssoc(a, b, Add(c, d));
    AddAssoc(b, c, d);
    AddComm(b, c);
    AddAssoc(c, b, d);
    AddAssoc(a, c, Add(b, d));
  }

  // ----- doubling and selecting are linear

  lemma ShiftAdd(a: byte, b: byte)
    ensures Add(a, b) << 1 == Add(a << 1, b << 1)
  {
  }

  lemma ReductionAdd(a: byte, b: byte)
    ensures Reduction(Add(a, b)) == Add(Reduction(a), Reduction(b))
  {
  }

  lemma DoubleAdd(a: byte, b: byte)
    ensures Double(Add(a, b)) == Add(Double(a), Double(b))
  {
    hide Reduction, Add;
    ShiftAdd(a, b);
    ReductionAdd(a, b);
    AddSwap(a << 1, b << 1, Reduction(a), Reduction(b));
  }

  lemma PickAdd(b: byte, a: byte, c: byte)
    ensures Pick(b, Add(a, c)) == Add(Pick(b, a), Pick(b, c))
  {
  }

  lemma DoublePick(b: byte, a: byte)
    ensures Double(Pick(b, a)) == Pick(b, Double(a))
  {
  }

  // ----- multiplication

  lemma {:induction false} MulBitsAdd(a: byte, c: byte, b: byte, n: nat)
    ensures MulBits(Add(a, c), b, n) == Add(MulBits(a, b, n), MulBits(c, b, n))
    decreases n
  {
    if n == 0 {
    } else {
      hide Add, Double, Pick;
      PickAdd(b, a, c);
      DoubleAdd(a, c);
      MulBitsAdd(Double(a), Double(c), b >> 1, n - 1);
      AddSwap(Pick(b, a), Pick(b, c), MulBits(Double(a), b >> 1, n - 1), MulBits(Double(c), b >> 1, n - 1));
    }
  }

  lemma {:induction false} MulBitsDouble(a: byte, b: byte, n: nat)
    ensures MulBits(Double(a), b, n) == Double(MulBits(a, b, n))
    decreases n
  {
    if n == 0 {
    } else {
      hide Add, Double, Pick;
      DoublePick(b, a);
      MulBitsDouble(Double(a), b >> 1, n - 1);
      DoubleAdd(Pick(b, a), MulBits(Double(a), b >> 1, n - 1));
    }
  }

  lemma {:induction false} MulBitsZero(b: byte, n: nat)
    ensures MulBits(0, b, n) == 0
    decreases n
  {
    if n == 0 {
    } else {
      MulBitsZero(b >> 1, n - 1);
    }
  }

  lemma MulZero(a: byte)
    ensures Mul(0, a) == 0 && Mul(a, 0) == 0
  {
    assert Mul(0, a) == 0 by { hide MulBits; MulBitsZero(a, 8); }
    MulComm(a, 0);
  }

  lemma MulPick(b: byte, p: byte, a: byte)
    ensures Mul(Pick(b, p), a) == Pick(b, Mul(p, a))
  {
    hide MulBits;
    MulBitsZero(a, 8);
  }

  lemma MulDouble(p: byte, a: byte)
    ensures Mul(Double(p), a) == Double(Mul(p, a))
  {
    hide Double, MulBits, Add;
    MulBitsDouble(p, a, 8);
  }

  /** Multiplication distributes over addition. */
  lemma MulAdd(a: byte, b: byte, c: byte)
    ensures Mul(Add(a, b), c) == Add(Mul(a, c), Mul(b, c))
    ensures Mul(c, Add(a, b)) == Add(Mul(c, a), Mul(c, b))
  {
    assert Mul(Add(a, b), c) == Add(Mul(a, c), Mul(b, c)) by {
      hide Add, MulBits;
      MulBitsAdd(a, b, c, 8);
    }
    hide *;
    MulComm(Add(a, b), c);
    MulComm(a, c);
    MulComm(b, c);
  }

  lemma MulZeroLeft(a: byte)
    ensures Mul(0, a) == 0
  {
    hide MulBits;
    MulBitsZero(a, 8);
  }

  lemma MulAddLeft(a: byte, b: byte, c: byte)
    ensures Mul(Add(a, b), c) == Add(Mul(a, c), Mul(b, c))
  {
    hide MulBits;
    MulBitsAdd(a, b, c, 8);
  }

  /** The two right-hand factors of a triple product may be exchanged. */
  lemma {:induction false} MulBitsExchange(p: byte, a: byte, b: byte, n: nat)
    ensures MulBits(Mul(p, a), b, n) == Mul(MulBits(p, b, n), a)
    decreases n
  {
    hide Add, Mul, Pick, Double;
    if n == 0 {
      MulZeroLeft(a);
    } else {
      MulBitsExchange(Double(p), a, b >> 1, n - 1);
      MulDouble(p, a);
      MulPick(b, p, a);
      MulAddLeft(Pick(b, p), MulBits(Double(p), b >> 1, n - 1), a);
    }
  }

  lemma MulOneLeft(b: byte)
    ensures Mul(1, b) == b
  {
  }

  lemma MulComm(a: byte, b: byte)
    ensures Mul(a, b) == Mul(b, a)
  {
    hide MulBits;
    MulOneLeft(a);
    MulOneLeft(b);
    MulBitsExchange(1, a, b, 8);
  }

  lemma MulOne(a: byte)
    ensures Mul(1, a) == a && Mul(a, 1) == a
  {
    hide Mul;
    MulOneLeft(a);
    MulComm(a, 1);
  }

  lemma MulAssoc(a: byte, b: byte, c: byte)
    ensures Mul(Mul(a, b), c) == Mul(a, Mul(b, c))
  {
    assert Mul(Mul(b, a), c) == Mul(Mul(b, c), a) by { hide MulBits; MulBitsExchange(b, a, c, 8); }
    hide *;
    MulComm(a, b);
    MulComm(Mul(b, c), a);
  }

  lemma {:induction false} Power2Sum(m: nat, n: nat)
    ensures Mul(Power2(m), Power2(n)) == Power2(m + n)
    decreases m
  {
    hide Mul, Double;
    if m == 0 {
      MulOne(Power2(n));
    } else {
      Power2Sum(m - 1, n);
      MulDouble(Power2(m - 1), Power2(n));
    }
  }
}
