/**
 * Arithmetic in GF(2^8) as the round-constant script does it (FIPS-197
 * section 4.2): an element is a polynomial of degree below 8 over GF(2),
 * stored as the bit pattern of its coefficients in a non-negative integer.
 * Addition is XOR; the shifted operand of the multiplier reaches 0x1FE
 * before it is reduced.
 */
module GaloisField {
  import opened Bits

  /** x^8 + x^4 + x^3 + x + 1, the irreducible polynomial of FIPS-197 section 4.2. */
  const AesModulus: nat := 0x11B

  /** A field element: a polynomial of degree below 8. */
  predicate IsElement(x: nat) {
    x < 0x100
  }

  /** A reduction polynomial the multiplier accepts: degree exactly 8. */
  predicate IsModulus(m: nat) {
    0x100 <= m < 0x200
  }

  /**
   * Multiplication by x (the element {02}) as FIPS-197 section 4.2.1 defines
   * it on a byte: a left shift, followed by an XOR with {1b} when the top bit
   * was set (the XOR with 0x11B also clears the shifted-out bit 8). This is
   * the reference against which both generators are proved.
   */
  function Xtime(x: nat): nat {
    if x < 0x80 then 2 * x else Xor(2 * x, AesModulus)
  }

  /**
   * One step of the multiplier on its left operand: shift it left by one bit
   * and, when bit 8 is then set, XOR it with the modulus.
   */
  function ShiftReduce(a: nat, m: nat): nat {
    if Bit(2 * a, 8) == 1 then Xor(2 * a, m) else 2 * a
  }

  /**
   * The value the shift-and-add loop leaves in its accumulator, as a
   * recursion over the bits of `b` from the least significant one: for a set
   * bit, XOR in the current left operand; then shift-and-reduce that operand.
   */
  function Product(a: nat, b: nat, m: nat): nat
    decreases b
  {
    if b == 0 then 0
    else Xor(if b % 2 == 1 then a else 0, Product(ShiftReduce(a, m), b / 2, m))
  }

  /** Bit 8 of a doubled field element is its top bit. */
  lemma DoubledTopBit(a: nat)
    requires IsElement(a)
    ensures 2 * a < 0x200
    ensures Bit(2 * a, 8) == (if a < 0x80 then 0 else 1)
  {
    BitEight(2 * a);
  }

  /** XOR of two values with bit 8 set and below 0x200 is below 0x100. */
  lemma ReducedBound(s: nat, m: nat)
    requires 0x100 <= s < 0x200 && IsModulus(m)
    ensures IsElement(Xor(s, m))
  {
    var v := Xor(s, m);
    assert v < 0x200 by {
      Pow2EightNine();
      XorBound(s, m, 9);
    }
    assert Bit(s, 8) == 1 && Bit(m, 8) == 1 by {
      BitEight(s);
      BitEight(m);
    }
    assert (v / 0x100) % 2 == 0 by {
      BitXor(s, m, 8);
      BitEight(v);
    }
  }

  /** Xtime keeps a field element a field element. */
  lemma XtimeBound(x: nat)
    requires IsElement(x)
    ensures IsElement(Xtime(x))
  {
    if x >= 0x80 {
      ReducedBound(2 * x, AesModulus);
    }
  }

  /**
   * On a field element the shift never leaves 9 bits, and the reduced value
   * is a field element again.
   */
  lemma ShiftReduceBound(a: nat, m: nat)
    requires IsElement(a) && IsModulus(m)
    ensures IsElement(ShiftReduce(a, m))
  {
    DoubledTopBit(a);
    if a >= 0x80 {
      ReducedBound(2 * a, m);
    }
  }

  /** With the AES modulus, one shift-and-reduce step is xtime. */
  lemma ShiftReduceIsXtime(a: nat)
    requires IsElement(a)
    ensures ShiftReduce(a, AesModulus) == Xtime(a)
  {
    DoubledTopBit(a);
  }

  /** The multiple of the modulus that shift-and-reduce XORs into `2 * a`. */
  function Reduction(a: nat, m: nat): nat {
    if Bit(2 * a, 8) == 1 then m else 0
  }

  /** Shift-and-reduce is a shift followed by an XOR with the reduction. */
  lemma ShiftReduceAsXor(a: nat, m: nat)
    ensures ShiftReduce(a, m) == Xor(2 * a, Reduction(a, m))
  {
    XorZero(2 * a);
  }

  /** Whether to reduce after the shift depends on bit 7 XOR-linearly. */
  lemma ReductionLinear(p: nat, q: nat, m: nat)
    ensures Reduction(Xor(p, q), m) == Xor(Reduction(p, m), Reduction(q, m))
  {
    var bp, bq := Bit(2 * p, 8), Bit(2 * q, 8);
    assert Bit(2 * Xor(p, q), 8) == (bp + bq) % 2 by {
      XorDouble(p, q);
      BitXor(2 * p, 2 * q, 8);
    }
    SelectXor(bp, bq, m);
  }

  /** XOR of two selections of m: m when exactly one selector is set. */
  lemma SelectXor(bp: nat, bq: nat, m: nat)
    requires bp < 2 && bq < 2
    ensures Xor(if bp == 1 then m else 0, if bq == 1 then m else 0)
      == if (bp + bq) % 2 == 1 then m else 0
  {
    if bp == 0 && bq == 0 {
      assert Xor(0, 0) == 0;
    } else if bp == 1 && bq == 1 {
      XorSelf(m);
    } else {
      XorZero(m);
    }
  }

  /** Shift-and-reduce distributes over addition (XOR), for any modulus. */
  lemma ShiftReduceLinear(p: nat, q: nat, m: nat)
    ensures ShiftReduce(Xor(p, q), m) == Xor(ShiftReduce(p, m), ShiftReduce(q, m))
  {
    ShiftReduceAsXor(p, m);
    ShiftReduceAsXor(q, m);
    ShiftReduceAsXor(Xor(p, q), m);
    ReductionLinear(p, q, m);
    XorDouble(p, q);
    XorShuffle(2 * p, 2 * q, Reduction(p, m), Reduction(q, m));
  }

  /** The product of two field elements is a field element. */
  lemma {:induction false} ProductBound(a: nat, b: nat, m: nat)
    requires IsElement(a) && IsModulus(m)
    ensures IsElement(Product(a, b, m))
    decreases b
  {
    if b != 0 {
      ShiftReduceBound(a, m);
      ProductBound(ShiftReduce(a, m), b / 2, m);
      Pow2EightNine();
      XorBound(if b % 2 == 1 then a else 0, Product(ShiftReduce(a, m), b / 2, m), 8);
    }
  }

  /**
   * The carry-less multiplier. It consumes `b` one bit at a time, adding the
   * current `a` into the accumulator when the bit is set and doubling `a`
   * modulo `m` after every bit; the loop ends because `b` halves each time.
   */
  method Multiply(a: nat, b: nat, m: nat) returns (result: nat)
    ensures result == Product(a, b, m)
    ensures IsElement(a) && IsModulus(m) ==> IsElement(result)
  {
    result := 0;
    var x, y := a, b;
    XorZero(Product(a, b, m));
    while y != 0
      invariant IsElement(a) && IsModulus(m) ==> IsElement(x) && IsElement(result)
      invariant Xor(result, Product(x, y, m)) == Product(a, b, m)
      decreases y
    {
      ghost var low: nat := if y % 2 == 1 then x else 0;
      ghost var rest := Product(ShiftReduce(x, m), y / 2, m);
      XorAssoc(result, low, rest);
      XorZero(result);
      if IsElement(a) && IsModulus(m) {
        Pow2EightNine();
        XorBound(result, x, 8);
        ShiftReduceBound(x, m);
      }
      if y % 2 == 1 {
        result := Xor(result, x);
      }
      x := 2 * x;
      if Bit(x, 8) == 1 {
        x := Xor(x, m);
      }
      y := y / 2;
    }
    XorZero(result);
  }

  /** Zero absorbs: with either operand zero the product is zero. */
  lemma {:induction false} ProductWithZero(a: nat, b: nat, m: nat)
    ensures Product(a, 0, m) == 0
    ensures Product(0, b, m) == 0
    decreases b
  {
    if b != 0 {
      assert ShiftReduce(0, m) == 0 by { BitEight(0); }
      ProductWithZero(a, b / 2, m);
      assert Xor(0, 0) == 0;
    }
  }

  /**
   * Doubling the left operand first gives the same product as doubling the
   * product afterwards.
   */
  lemma {:induction false} ProductShiftLeft(a: nat, b: nat, m: nat)
    ensures Product(ShiftReduce(a, m), b, m) == ShiftReduce(Product(a, b, m), m)
    decreases b
  {
    assert ShiftReduce(0, m) == 0 by { BitEight(0); }
    if b != 0 {
      var a' := ShiftReduce(a, m);
      var low: nat := if b % 2 == 1 then a else 0;
      ProductShiftLeft(a', b / 2, m);
      ShiftReduceLinear(low, Product(a', b / 2, m), m);
    }
  }

  /** {01} is the unit: a * 1 == a, and 1 * b == b for every field element b. */
  lemma {:induction false} ProductWithOne(a: nat, b: nat, m: nat)
    requires IsElement(b)
    ensures Product(a, 1, m) == a
    ensures Product(1, b, m) == b
    decreases b
  {
    XorZero(a);
    assert Product(1, 0, m) == 0;
    if b != 0 {
      var half := b / 2;
      ProductWithOne(a, half, m);
      assert ShiftReduce(1, m) == 2 by { BitEight(2); }
      ProductShiftLeft(1, half, m);
      DoubledTopBit(half);
      assert Product(1, b, m) == Xor(b % 2, 2 * half);
      XorLowBit(b % 2, half);
    }
  }

  /**
   * Multiplying by {02} with the AES modulus, in either operand order, is the
   * xtime operation of FIPS-197 section 4.2.1.
   */
  lemma DoublingIsXtime(x: nat)
    requires IsElement(x)
    ensures Product(2, x, AesModulus) == Xtime(x)
    ensures Product(x, 2, AesModulus) == Xtime(x)
  {
    assert ShiftReduce(1, AesModulus) == 2 by { BitEight(2); }
    ProductWithOne(1, x, AesModulus);
    ProductShiftLeft(1, x, AesModulus);
    ShiftReduceIsXtime(x);
    ProductWithOne(ShiftReduce(x, AesModulus), 0, AesModulus);
    XorZero(ShiftReduce(x, AesModulus));
  }
}
