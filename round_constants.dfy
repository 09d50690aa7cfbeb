/**
 * The round-constant word array Rcon of the AES key expansion (FIPS-197
 * section 5.2): Rcon[i] holds x^(i-1), a power of {02} in GF(2^8). The
 * script builds the constants twice, by repeated multiplication with {02}
 * and by an alternate xtime recurrence from a fixed seed, and checks the
 * first against a literal table.
 */
module RoundConstants {
  import opened Bits
  import opened GaloisField

  /** The known-correct round constants, enough for 30 rounds of key expansion. */
  const ExpectedRc: seq<nat> := [
    0x01, 0x02, 0x04, 0x08, 0x10, 0x20, 0x40, 0x80, 0x1b, 0x36,
    0x6c, 0xd8, 0xab, 0x4d, 0x9a, 0x2f, 0x5e, 0xbc, 0x63, 0xc6,
    0x97, 0x35, 0x6a, 0xd4, 0xb3, 0x7d, 0xfa, 0xef, 0xc5
  ]

  /** The round constants the AES-128 key schedule uses. */
  const RcForAes128: seq<nat> := [
    0x01, 0x02, 0x04, 0x08, 0x10, 0x20, 0x40, 0x80, 0x1b, 0x36
  ]

  /** The round constants the AES-192 key schedule uses. */
  const RcForAes192: seq<nat> := [
    0x01, 0x02, 0x04, 0x08, 0x10, 0x20, 0x40, 0x80
  ]

  /** The round constants the AES-256 key schedule uses. */
  const RcForAes256: seq<nat> := [
    0x01, 0x02, 0x04, 0x08, 0x10, 0x20, 0x40
  ]

  /** How many constants the primary generator builds. */
  const TableLength: nat := 29

  /**
   * The seed of the alternate generator: {02}^-2, so that one xtime step
   * gives {02}^-1 = 0x8D and a second one gives {01}.
   */
  const AlternateSeed: nat := 0xCB

  /** x multiplied by {02} n times. */
  function XtimePower(x: nat, n: nat): nat
  {
    if n == 0 then x else Xtime(XtimePower(x, n - 1))
  }

  /** How FIPS-197 defines the i-th constant (counted from 0): {02}^i. */
  function Rcon(i: nat): nat
  {
    XtimePower(1, i)
  }

  /** Powers of {02} starting from a field element stay field elements. */
  lemma {:induction false} XtimePowerBound(x: nat, n: nat)
    requires IsElement(x)
    ensures IsElement(XtimePower(x, n))
  {
    if n != 0 {
      XtimePowerBound(x, n - 1);
      XtimeBound(XtimePower(x, n - 1));
    }
  }

  /** Applying xtime m times and then n times is applying it m + n times. */
  lemma {:induction false} XtimePowerAdd(x: nat, m: nat, n: nat)
    ensures XtimePower(x, m + n) == XtimePower(XtimePower(x, m), n)
  {
    if n != 0 {
      XtimePowerAdd(x, m, n - 1);
    }
  }

  /*
   * xtime at the constants 0x80 and above that the two generators pass
   * through. Each proof evaluates the XOR 2 * x ^ 0x11B from its highest
   * digits down: the k-th assertion is (2 * x >> k) ^ (0x11B >> k).
   */

  lemma XtimeAt80()
    ensures Xtime(0x80) == 0x1b
  {
    assert Xor(1, 1) == 0;
    assert Xor(2, 2) == 0;
    assert Xor(4, 4) == 0;
    assert Xor(8, 8) == 0;
    assert Xor(16, 17) == 1;
    assert Xor(32, 35) == 3;
    assert Xor(64, 70) == 6;
    assert Xor(128, 141) == 13;
  }

  lemma XtimeAtD8()
    ensures Xtime(0xd8) == 0xab
  {
    assert Xor(1, 1) == 0;
    assert Xor(3, 2) == 1;
    assert Xor(6, 4) == 2;
    assert Xor(13, 8) == 5;
    assert Xor(27, 17) == 10;
    assert Xor(54, 35) == 21;
    assert Xor(108, 70) == 42;
    assert Xor(216, 141) == 85;
  }

  lemma XtimeAtAB()
    ensures Xtime(0xab) == 0x4d
  {
    assert Xor(1, 1) == 0;
    assert Xor(2, 2) == 0;
    assert Xor(5, 4) == 1;
    assert Xor(10, 8) == 2;
    assert Xor(21, 17) == 4;
    assert Xor(42, 35) == 9;
    assert Xor(85, 70) == 19;
    assert Xor(171, 141) == 38;
  }

  lemma XtimeAt9A()
    ensures Xtime(0x9a) == 0x2f
  {
    assert Xor(1, 1) == 0;
    assert Xor(2, 2) == 0;
    assert Xor(4, 4) == 0;
    assert Xor(9, 8) == 1;
    assert Xor(19, 17) == 2;
    assert Xor(38, 35) == 5;
    assert Xor(77, 70) == 11;
    assert Xor(154, 141) == 23;
  }

  lemma XtimeAtBC()
    ensures Xtime(0xbc) == 0x63
  {
    assert Xor(1, 1) == 0;
    assert Xor(2, 2) == 0;
    assert Xor(5, 4) == 1;
    assert Xor(11, 8) == 3;
    assert Xor(23, 17) == 6;
    assert Xor(47, 35) == 12;
    assert Xor(94, 70) == 24;
    assert Xor(188, 141) == 49;
  }

  lemma XtimeAtC6()
    ensures Xtime(0xc6) == 0x97
  {
    assert Xor(1, 1) == 0;
    assert Xor(3, 2) == 1;
    assert Xor(6, 4) == 2;
    assert Xor(12, 8) == 4;
    assert Xor(24, 17) == 9;
    assert Xor(49, 35) == 18;
    assert Xor(99, 70) == 37;
    assert Xor(198, 141) == 75;
  }

  lemma XtimeAt97()
    ensures Xtime(0x97) == 0x35
  {
    assert Xor(1, 1) == 0;
    assert Xor(2, 2) == 0;
    assert Xor(4, 4) == 0;
    assert Xor(9, 8) == 1;
    assert Xor(18, 17) == 3;
    assert Xor(37, 35) == 6;
    assert Xor(75, 70) == 13;
    assert Xor(151, 141) == 26;
  }

  lemma XtimeAtD4()
    ensures Xtime(0xd4) == 0xb3
  {
    assert Xor(1, 1) == 0;
    assert Xor(3, 2) == 1;
    assert Xor(6, 4) == 2;
    assert Xor(13, 8) == 5;
    assert Xor(26, 17) == 11;
    assert Xor(53, 35) == 22;
    assert Xor(106, 70) == 44;
    assert Xor(212, 141) == 89;
  }

  lemma XtimeAtB3()
    ensures Xtime(0xb3) == 0x7d
  {
    assert Xor(1, 1) == 0;
    assert Xor(2, 2) == 0;
    assert Xor(5, 4) == 1;
    assert Xor(11, 8) == 3;
    assert Xor(22, 17) == 7;
    assert Xor(44, 35) == 15;
    assert Xor(89, 70) == 31;
    assert Xor(179, 141) == 62;
  }

  lemma XtimeAtFA()
    ensures Xtime(0xfa) == 0xef
  {
    assert Xor(1, 1) == 0;
    assert Xor(3, 2) == 1;
    assert Xor(7, 4) == 3;
    assert Xor(15, 8) == 7;
    assert Xor(31, 17) == 14;
    assert Xor(62, 35) == 29;
    assert Xor(125, 70) == 59;
    assert Xor(250, 141) == 119;
  }

  lemma XtimeAtEF()
    ensures Xtime(0xef) == 0xc5
  {
    assert Xor(1, 1) == 0;
    assert Xor(3, 2) == 1;
    assert Xor(7, 4) == 3;
    assert Xor(14, 8) == 6;
    assert Xor(29, 17) == 12;
    assert Xor(59, 35) == 24;
    assert Xor(119, 70) == 49;
    assert Xor(239, 141) == 98;
  }

  lemma XtimeAtCB()
    ensures Xtime(0xcb) == 0x8d
  {
    assert Xor(1, 1) == 0;
    assert Xor(3, 2) == 1;
    assert Xor(6, 4) == 2;
    assert Xor(12, 8) == 4;
    assert Xor(25, 17) == 8;
    assert Xor(50, 35) == 17;
    assert Xor(101, 70) == 35;
    assert Xor(203, 141) == 70;
  }

  lemma XtimeAt8D()
    ensures Xtime(0x8d) == 0x01
  {
    assert Xor(1, 1) == 0;
    assert Xor(2, 2) == 0;
    assert Xor(4, 4) == 0;
    assert Xor(8, 8) == 0;
    assert Xor(17, 17) == 0;
    assert Xor(35, 35) == 0;
    assert Xor(70, 70) == 0;
    assert Xor(141, 141) == 0;
  }

  /** Below 0x80 an entry of the literal table is followed by its double. */
  lemma ExpectedDoubling(j: nat)
    requires j < TableLength - 1
    ensures ExpectedRc[j] < 0x80 ==> ExpectedRc[j + 1] == 2 * ExpectedRc[j]
  {
  }

  /** The entries of the literal table at 0x80 and above. */
  lemma ExpectedHighEntries(j: nat)
    requires j < TableLength - 1 && ExpectedRc[j] >= 0x80
    ensures j in {7, 11, 12, 14, 17, 19, 20, 23, 24, 26, 27}
  {
  }

  /** Xtime steps of the first three entries of the table at 0x80 and above. */
  lemma ExpectedReducedEarly(j: nat)
    requires j in {7, 11, 12}
    ensures Xtime(ExpectedRc[j]) == ExpectedRc[j + 1]
  {
    if j == 7 {
      XtimeAt80();
    } else if j == 11 {
      XtimeAtD8();
    } else {
      XtimeAtAB();
    }
  }

  /** Xtime steps of the next four entries of the table at 0x80 and above. */
  lemma ExpectedReducedMiddle(j: nat)
    requires j in {14, 17, 19, 20}
    ensures Xtime(ExpectedRc[j]) == ExpectedRc[j + 1]
  {
    if j == 14 {
      XtimeAt9A();
    } else if j == 17 {
      XtimeAtBC();
    } else if j == 19 {
      XtimeAtC6();
    } else {
      XtimeAt97();
    }
  }

  /** Xtime steps of the last four entries of the table at 0x80 and above. */
  lemma ExpectedReducedLate(j: nat)
    requires j in {23, 24, 26, 27}
    ensures Xtime(ExpectedRc[j]) == ExpectedRc[j + 1]
  {
    if j == 23 {
      XtimeAtD4();
    } else if j == 24 {
      XtimeAtB3();
    } else if j == 26 {
      XtimeAtFA();
    } else {
      XtimeAtEF();
    }
  }

  /** Each entry of the literal table is xtime of the one before it. */
  lemma ExpectedStep(j: nat)
    requires j < TableLength - 1
    ensures Xtime(ExpectedRc[j]) == ExpectedRc[j + 1]
  {
    ExpectedDoubling(j);
    if ExpectedRc[j] >= 0x80 {
      ExpectedHighEntries(j);
      if j < 14 {
        ExpectedReducedEarly(j);
      } else if j < 23 {
        ExpectedReducedMiddle(j);
      } else {
        ExpectedReducedLate(j);
      }
    }
  }

  /** The literal table lists the powers {02}^0 .. {02}^28. */
  lemma {:induction false} ExpectedArePowers(j: nat)
    requires j < TableLength
    ensures ExpectedRc[j] == Rcon(j)
  {
    if j != 0 {
      ExpectedArePowers(j - 1);
      ExpectedStep(j - 1);
    }
  }

  /**
   * The primary generator: the list starts as [1] and every further entry is
   * the previous one multiplied by 2 modulo 0x11B. It yields the 29 powers
   * {02}^0 .. {02}^28, which are the literal table and whose prefixes are
   * the AES-128, AES-192 and AES-256 tables.
   */
  method PrimaryTable() returns (rc: seq<nat>)
    ensures |rc| == TableLength && rc[0] == 1
    ensures forall i :: 1 <= i < |rc| ==> rc[i] == Product(2, rc[i - 1], AesModulus)
    ensures forall i :: 0 <= i < |rc| ==> rc[i] == Rcon(i) && IsElement(rc[i])
    ensures rc == ExpectedRc
    ensures rc[..10] == RcForAes128 && rc[..8] == RcForAes192 && rc[..7] == RcForAes256
  {
    rc := [1];
    for i := 1 to TableLength
      invariant |rc| == i && rc[0] == 1
      invariant forall k :: 1 <= k < i ==> rc[k] == Product(2, rc[k - 1], AesModulus)
      invariant forall k :: 0 <= k < i ==> rc[k] == Rcon(k) && IsElement(rc[k])
    {
      var next := Multiply(2, rc[i - 1], AesModulus);
      DoublingIsXtime(rc[i - 1]);
      XtimeBound(rc[i - 1]);
      rc := rc + [next];
    }
    forall k | 0 <= k < TableLength
      ensures rc[k] == ExpectedRc[k]
    {
      ExpectedArePowers(k);
    }
  }

  /** How the check of the generated table against the literal one ends. */
  datatype Outcome =
    | Pass
      /** `expected[index] == rc[index]` was false. */
    | AssertionFailed(index: nat)
      /** `rc[index]` does not exist: the generated list is too short. */
    | IndexError(index: nat)

  /**
   * The check loop: it compares the two lists index by index over the length
   * of `expected` and stops at the first index where they differ or where
   * `rc` has no entry.
   */
  method Validate(expected: seq<nat>, rc: seq<nat>) returns (outcome: Outcome)
    ensures outcome == Pass <==> |expected| <= |rc| && rc[..|expected|] == expected
    ensures outcome.AssertionFailed? ==>
      outcome.index < |expected| && outcome.index < |rc| &&
      expected[outcome.index] != rc[outcome.index] &&
      expected[..outcome.index] == rc[..outcome.index]
    ensures outcome.IndexError? ==> outcome.index == |rc| < |expected| && expected[..|rc|] == rc
  {
    for i := 0 to |expected|
      invariant i <= |rc|
      invariant expected[..i] == rc[..i]
    {
      if i == |rc| {
        assert rc[..i] == rc;
        return IndexError(i);
      }
      if expected[i] != rc[i] {
        if |expected| <= |rc| {
          assert rc[..|expected|][i] != expected[i];
        }
        return AssertionFailed(i);
      }
      assert expected[..i + 1] == expected[..i] + [expected[i]];
      assert rc[..i + 1] == rc[..i] + [rc[i]];
    }
    assert expected[..|expected|] == expected;
    return Pass;
  }

  /**
   * What the alternate generator returns for a round: the seed after
   * `round + 1` xtime steps, and the seed itself when the range of steps is
   * empty (round below 0).
   */
  function AlternateRc(round: int): nat
  {
    if round < 0 then AlternateSeed else XtimePower(AlternateSeed, round + 1)
  }

  /**
   * The alternate generator: a left shift, and an XOR with 0x11B whenever the
   * shifted value exceeds 0xFF, repeated `round + 1` times from the seed.
   */
  method ComputeRc(round: int) returns (rc: nat)
    ensures rc == AlternateRc(round)
    ensures IsElement(rc)
  {
    rc := AlternateSeed;
    var i := 0;
    while i < round + 1
      invariant if round < 0 then i == 0 else i <= round + 1
      invariant rc == XtimePower(AlternateSeed, i) && IsElement(rc)
      decreases round + 1 - i
    {
      XtimeBound(rc);
      rc := 2 * rc;
      if rc > 0xFF {
        rc := Xor(rc, AesModulus);
      }
      i := i + 1;
    }
  }

  /** Every value of the alternate generator is a field element. */
  lemma AlternateBound(round: int)
    ensures IsElement(AlternateRc(round))
  {
    if round >= 0 {
      XtimePowerBound(AlternateSeed, round + 1);
    }
  }

  /**
   * Round 0 gives 0x8D, the inverse of {02} (doubling it gives {01}), and
   * round 1 gives {01}.
   */
  lemma AlternateFirst()
    ensures AlternateRc(0) == 0x8D && AlternateRc(1) == 1
    ensures Product(2, 0x8D, AesModulus) == 1
  {
    XtimeAtCB();
    XtimeAt8D();
    DoublingIsXtime(0x8D);
  }

  /** Each further round is one xtime step on the round before it. */
  lemma AlternateStep(round: int)
    requires round >= -1
    ensures AlternateRc(round + 1) == Xtime(AlternateRc(round))
  {
  }

  /**
   * The two generators agree under an index shift of one: round i + 1 of the
   * alternate generator is entry i of the primary table.
   */
  lemma AlternateAgreesWithPrimary(i: nat)
    ensures AlternateRc(i + 1) == Rcon(i)
  {
    AlternateFirst();
    XtimePowerAdd(AlternateSeed, 2, i);
  }

  /**
   * The loop that prints the alternate generator's values for rounds 0 to 29:
   * 0x8D, then the 29 entries of the literal table.
   */
  method AlternateTable() returns (t: seq<nat>)
    ensures |t| == TableLength + 1
    ensures forall i :: 0 <= i < |t| ==> t[i] == AlternateRc(i)
    ensures t == [0x8D] + ExpectedRc
  {
    t := [];
    for i := 0 to TableLength + 1
      invariant |t| == i
      invariant forall k :: 0 <= k < i ==> t[k] == AlternateRc(k)
    {
      var v := ComputeRc(i);
      t := t + [v];
    }
    forall k | 0 <= k < |t|
      ensures t[k] == ([0x8D] + ExpectedRc)[k]
    {
      if k == 0 {
        AlternateFirst();
      } else {
        AlternateAgreesWithPrimary(k - 1);
        ExpectedArePowers(k - 1);
      }
    }
  }

  /**
   * The whole script: build the primary table, check it against the literal
   * one (the check passes), and compute the alternate values, which are the
   * primary table shifted by one round.
   */
  method RunScript() returns (rc: seq<nat>, outcome: Outcome, alternate: seq<nat>)
    ensures rc == ExpectedRc && outcome == Pass
    ensures |alternate| == |rc| + 1 && alternate[0] == 0x8D
    ensures forall i :: 0 <= i < |rc| ==> alternate[i + 1] == rc[i]
  {
    rc := PrimaryTable();
    outcome := Validate(ExpectedRc, rc);
    alternate := AlternateTable();
  }
}
