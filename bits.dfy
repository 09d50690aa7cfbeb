/**
 * Python's bitwise operators on non-negative integers, as used by the
 * round-constant script: `^` (exclusive or) and a single-bit test
 * `x & (1 << k)`. Integers are unbounded, as in Python.
 */
module Bits {

  /** 2 to the power k. */
  function Pow2(k: nat): (r: nat)
    ensures r >= 1
  {
    if k == 0 then 1 else 2 * Pow2(k - 1)
  }

  /** Bitwise exclusive or, one binary digit at a time from the lowest. */
  function Xor(a: nat, b: nat): nat
    decreases a + b
  {
    if a == 0 && b == 0 then 0
    else (a % 2 + b % 2) % 2 + 2 * Xor(a / 2, b / 2)
  }

  /** Bit k of x: `x & (1 << k) != 0` in Python is `Bit(x, k) == 1`. */
  function Bit(x: nat, k: nat): (r: nat)
    ensures r < 2
  {
    if k == 0 then x % 2 else Bit(x / 2, k - 1)
  }

  /** The lowest digit of a XOR and the XOR of the remaining digits. */
  lemma XorSplit(a: nat, b: nat)
    ensures Xor(a, b) % 2 == (a % 2 + b % 2) % 2
    ensures Xor(a, b) / 2 == Xor(a / 2, b / 2)
  {
  }

  /** A number is determined by its lowest digit and the rest. */
  lemma DigitsDetermine(x: nat, y: nat)
    requires x % 2 == y % 2 && x / 2 == y / 2
    ensures x == y
  {
  }

  /** Zero is the identity of XOR, on either side. */
  lemma {:induction false} XorZero(a: nat)
    ensures Xor(a, 0) == a
    ensures Xor(0, a) == a
    decreases a
  {
    if a != 0 {
      XorZero(a / 2);
    }
  }

  /** XOR is commutative. */
  lemma {:induction false} XorComm(a: nat, b: nat)
    ensures Xor(a, b) == Xor(b, a)
    decreases a + b
  {
    if a != 0 || b != 0 {
      XorComm(a / 2, b / 2);
    }
  }

  /** XOR is associative. */
  lemma {:induction false} XorAssoc(a: nat, b: nat, c: nat)
    ensures Xor(Xor(a, b), c) == Xor(a, Xor(b, c))
    decreases a + b + c
  {
    if a != 0 || b != 0 || c != 0 {
      XorAssocLowDigit(a, b, c);
      XorHalves(a, b, c);
      XorComm(b, c);
      XorComm(a / 2, b / 2);
      XorComm(Xor(b, c) / 2, a / 2);
      XorHalves(b, c, a);
      XorComm(Xor(b, c), a);
      XorAssoc(a / 2, b / 2, c / 2);
      XorComm(Xor(b / 2, c / 2), a / 2);
      DigitsDetermine(Xor(Xor(a, b), c), Xor(a, Xor(b, c)));
    } else {
      assert Xor(0, 0) == 0;
    }
  }

  /** The lowest digit of (a ^ b) ^ c and of a ^ (b ^ c) agree. */
  lemma XorAssocLowDigit(a: nat, b: nat, c: nat)
    ensures Xor(Xor(a, b), c) % 2 == Xor(a, Xor(b, c)) % 2
  {
    XorLow(a, b);
    XorLow(b, c);
    XorLow(Xor(a, b), c);
    XorLow(a, Xor(b, c));
    ParityChain(a, b, c, Xor(a, b), Xor(b, c), Xor(Xor(a, b), c), Xor(a, Xor(b, c)));
  }

  /** The lowest digit of a XOR. */
  lemma XorLow(a: nat, b: nat)
    ensures Xor(a, b) % 2 == (a % 2 + b % 2) % 2
  {
  }

  /** Parity bookkeeping behind the associativity of XOR. */
  lemma ParityChain(a: nat, b: nat, c: nat, ab: nat, bc: nat, left: nat, right: nat)
    requires ab % 2 == (a % 2 + b % 2) % 2 && bc % 2 == (b % 2 + c % 2) % 2
    requires left % 2 == (ab % 2 + c % 2) % 2 && right % 2 == (a % 2 + bc % 2) % 2
    ensures left % 2 == right % 2
  {
    ParityAssoc(a % 2, b % 2, c % 2);
  }

  /** Halving (a ^ b) ^ c halves each operand. */
  lemma XorHalves(a: nat, b: nat, c: nat)
    ensures Xor(Xor(a, b), c) / 2 == Xor(Xor(a / 2, b / 2), c / 2)
  {
    XorSplit(a, b);
    XorSplit(Xor(a, b), c);
  }

  /** Addition of bits modulo 2 is associative. */
  lemma ParityAssoc(x: nat, y: nat, z: nat)
    requires x < 2 && y < 2 && z < 2
    ensures ((x + y) % 2 + z) % 2 == (x + (y + z) % 2) % 2
  {
    if x == 0 {
    } else if y == 0 {
    } else if z == 0 {
    } else {
      assert ((1 + 1) % 2 + 1) % 2 == 1 == (1 + (1 + 1) % 2) % 2;
    }
  }

  /** Every value is its own inverse under XOR. */
  lemma {:induction false} XorSelf(a: nat)
    ensures Xor(a, a) == 0
    decreases a
  {
    if a != 0 {
      XorSelf(a / 2);
    }
  }

  /** Regrouping four XOR terms: (p ^ q) ^ (r ^ s) == (p ^ r) ^ (q ^ s). */
  lemma XorShuffle(p: nat, q: nat, r: nat, s: nat)
    ensures Xor(Xor(p, q), Xor(r, s)) == Xor(Xor(p, r), Xor(q, s))
  {
    calc {
      Xor(Xor(p, q), Xor(r, s));
      { XorAssoc(p, q, Xor(r, s)); }
      Xor(p, Xor(q, Xor(r, s)));
      { XorAssoc(q, r, s); XorComm(q, r); XorAssoc(r, q, s); }
      Xor(p, Xor(r, Xor(q, s)));
      { XorAssoc(p, r, Xor(q, s)); }
      Xor(Xor(p, r), Xor(q, s));
    }
  }

  /** Shifting both operands left by one shifts their XOR left by one. */
  lemma XorDouble(a: nat, b: nat)
    ensures Xor(2 * a, 2 * b) == 2 * Xor(a, b)
  {
    if a == 0 && b == 0 {
      assert Xor(0, 0) == 0;
    }
  }

  /** A single low bit added to an even number: XOR is then plain addition. */
  lemma XorLowBit(r: nat, k: nat)
    requires r < 2
    ensures Xor(r, 2 * k) == r + 2 * k
  {
    XorZero(k);
  }

  /** Bit k of a XOR is the XOR of the two bits k. */
  lemma {:induction false} BitXor(a: nat, b: nat, k: nat)
    ensures Bit(Xor(a, b), k) == (Bit(a, k) + Bit(b, k)) % 2
    decreases k
  {
    XorSplit(a, b);
    if k != 0 {
      BitXor(a / 2, b / 2, k - 1);
    }
  }

  /** Bit 8 is the parity of x / 256. */
  lemma BitEight(x: nat)
    ensures Bit(x, 8) == (x / 0x100) % 2
  {
    var x1, x2, x3, x4 := x / 2, x / 4, x / 8, x / 16;
    var x5, x6, x7, x8 := x / 32, x / 64, x / 128, x / 256;
    assert x2 == x1 / 2 && x3 == x2 / 2 && x4 == x3 / 2 && x5 == x4 / 2;
    assert x6 == x5 / 2 && x7 == x6 / 2 && x8 == x7 / 2;
    assert Bit(x, 8) == Bit(x1, 7) == Bit(x2, 6) == Bit(x3, 5) == Bit(x4, 4);
    assert Bit(x4, 4) == Bit(x5, 3) == Bit(x6, 2) == Bit(x7, 1) == Bit(x8, 0);
  }

  /** XOR never sets a bit at or above position k when neither operand has one. */
  lemma {:induction false} XorBound(a: nat, b: nat, k: nat)
    requires a < Pow2(k) && b < Pow2(k)
    ensures Xor(a, b) < Pow2(k)
    decreases k
  {
    if k == 0 {
      assert a == 0 && b == 0;
    } else if a != 0 || b != 0 {
      XorBound(a / 2, b / 2, k - 1);
    }
  }

  /** The two powers the multiplier bounds its values with. */
  lemma Pow2EightNine()
    ensures Pow2(8) == 0x100 && Pow2(9) == 0x200
  {
    assert Pow2(0) == 1;
    assert Pow2(4) == 16;
    assert Pow2(8) == 0x100;
  }
}
