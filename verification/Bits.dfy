/** Go's bitwise operators on bytes, by recursion on the binary digits. */
module Bits {
  import opened Prelude

  function Pow2(n: nat): nat {
    if n == 0 then 1 else 2 * Pow2(n - 1)
  }

  /** Bit i of b, counted from the low end. */
  predicate BitAt(b: nat, i: nat) {
    if i == 0 then b % 2 == 1 else BitAt(b / 2, i - 1)
  }

  /** b | 1 << i. */
  function OrBit(b: nat, i: nat): nat {
    if i == 0 then b / 2 * 2 + 1 else OrBit(b / 2, i - 1) * 2 + b % 2
  }

  /** a ^ b. */
  function Xor(a: nat, b: nat): nat {
    if a == 0 && b == 0 then 0
    else Xor(a / 2, b / 2) * 2 + (a + b) % 2
  }

  lemma {:induction false} OrBitFrame(b: nat, i: nat, j: nat)
    ensures BitAt(OrBit(b, i), j) <==> j == i || BitAt(b, j)
  {
    if i > 0 && j > 0 {
      OrBitFrame(b / 2, i - 1, j - 1);
    }
  }

  lemma {:induction false} HalfBelow(b: nat, p: nat)
    requires b < 2 * p
    ensures b / 2 < p && b / 2 * 2 + 1 < 2 * p
  {
  }

  lemma {:induction false} DoubleBelow(x: nat, r: nat, p: nat)
    requires x < p && r < 2
    ensures x * 2 + r < 2 * p
  {
  }

  lemma {:induction false} OrBitBound(b: nat, i: nat, n: nat)
    requires b < Pow2(n) && i < n
    ensures OrBit(b, i) < Pow2(n)
  {
    var p := Pow2(n - 1);
    assert Pow2(n) == 2 * p;
    HalfBelow(b, p);
    if i > 0 {
      OrBitBound(b / 2, i - 1, n - 1);
      DoubleBelow(OrBit(b / 2, i - 1), b % 2, p);
    }
  }

  lemma {:induction false} ZeroBits(i: nat)
    ensures !BitAt(0, i)
  {
    if i > 0 {
      ZeroBits(i - 1);
    }
  }

  lemma {:induction false} OrBitOfZero(i: nat)
    ensures OrBit(0, i) == Pow2(i)
  {
    if i > 0 {
      OrBitOfZero(i - 1);
    }
  }

  /** A number below 2^n is determined by its low n bits. */
  lemma {:induction false} BitsDetermine(a: nat, b: nat, n: nat)
    requires a < Pow2(n) && b < Pow2(n)
    requires forall i :: 0 <= i < n ==> (BitAt(a, i) <==> BitAt(b, i))
    ensures a == b
  {
    if n > 0 {
      assert BitAt(a, 0) <==> BitAt(b, 0);
      forall i | 0 <= i < n - 1 ensures BitAt(a / 2, i) <==> BitAt(b / 2, i) {
        assert BitAt(a, i + 1) <==> BitAt(b, i + 1);
      }
      BitsDetermine(a / 2, b / 2, n - 1);
    }
  }

  lemma {:induction false} XorBound(a: nat, b: nat, n: nat)
    requires a < Pow2(n) && b < Pow2(n)
    ensures Xor(a, b) < Pow2(n)
  {
    if n > 0 && !(a == 0 && b == 0) {
      var p := Pow2(n - 1);
      assert Pow2(n) == 2 * p;
      HalfBelow(a, p);
      HalfBelow(b, p);
      XorBound(a / 2, b / 2, n - 1);
      DoubleBelow(Xor(a / 2, b / 2), (a + b) % 2, p);
    }
  }

  lemma {:induction false} XorDigits(a: nat, b: nat)
    ensures Xor(a, b) / 2 == Xor(a / 2, b / 2) && Xor(a, b) % 2 == (a + b) % 2
  {
  }

  /** XOR is its own inverse. */
  lemma {:induction false} XorTwice(a: nat, b: nat)
    ensures Xor(Xor(a, b), b) == a
  {
    if a != 0 || b != 0 {
      XorTwice(a / 2, b / 2);
      XorDigits(a, b);
      XorDigits(Xor(a, b), b);
      ParityCancels(a, b, Xor(a, b));
    }
  }

  lemma {:induction false} ParityCancels(a: nat, b: nat, x: nat)
    requires x % 2 == (a + b) % 2
    ensures (x + b) % 2 == a % 2
  {
  }

  lemma {:induction false} XorCommutes(a: nat, b: nat)
    ensures Xor(a, b) == Xor(b, a)
  {
    if a != 0 || b != 0 {
      XorCommutes(a / 2, b / 2);
    }
  }

  lemma {:induction false} ParityAssociates(a: nat, b: nat, c: nat, x: nat, y: nat)
    requires x % 2 == (a + b) % 2 && y % 2 == (b + c) % 2
    ensures (x + c) % 2 == (a + y) % 2
  {
  }

  lemma {:induction false} DigitsDetermine(x: nat, y: nat)
    requires x / 2 == y / 2 && x % 2 == y % 2
    ensures x == y
  {
  }

  lemma {:induction false} XorAssociates(a: nat, b: nat, c: nat)
    ensures Xor(Xor(a, b), c) == Xor(a, Xor(b, c))
  {
    if a != 0 || b != 0 || c != 0 {
      XorAssociates(a / 2, b / 2, c / 2);
      XorDigits(a, b);
      XorDigits(b, c);
      XorDigits(Xor(a, b), c);
      XorDigits(a, Xor(b, c));
      ParityAssociates(a, b, c, Xor(a, b), Xor(b, c));
      DigitsDetermine(Xor(Xor(a, b), c), Xor(a, Xor(b, c)));
    }
  }

  /** a ^ b on bytes. */
  function XorByte(a: Byte, b: Byte): Byte {
    XorByteFits(a, b);
    Xor(a, b)
  }

  lemma {:induction false} XorByteFits(a: Byte, b: Byte)
    ensures Xor(a, b) < 0x100
  {
    Pow2Eight();
    XorBound(a, b, 8);
  }

  lemma {:induction false} Pow2Eight()
    ensures Pow2(8) == 0x100
  {
    assert Pow2(4) == 16;
    assert Pow2(8) == 2 * (2 * (2 * (2 * Pow2(4))));
  }

  /** What is folded into one operand is folded into the result. */
  lemma {:induction false} XorByteShift(a: Byte, b: Byte, x: Byte)
    ensures XorByte(XorByte(a, x), b) == XorByte(XorByte(a, b), x)
    ensures XorByte(a, XorByte(b, x)) == XorByte(XorByte(a, b), x)
  {
    XorAssociates(a, x, b);
    XorCommutes(x, b);
    XorAssociates(a, b, x);
  }

  // ------------------------------------------------------------------
  // XOR by digits
  // ------------------------------------------------------------------

  /** c has, digit by digit, the parity of a and b: what a ^ b is. */
  predicate DigitsXor(a: Byte, b: Byte, c: Byte) {
    && c % 2 == (a + b) % 2 && c / 2 % 2 == (a / 2 + b / 2) % 2
    && c / 4 % 2 == (a / 4 + b / 4) % 2 && c / 8 % 2 == (a / 8 + b / 8) % 2
    && c / 16 % 2 == (a / 16 + b / 16) % 2 && c / 32 % 2 == (a / 32 + b / 32) % 2
    && c / 64 % 2 == (a / 64 + b / 64) % 2 && c / 128 % 2 == (a / 128 + b / 128) % 2
  }

  lemma {:induction false} XorStep(a: nat, b: nat, c: nat)
    requires Xor(a / 2, b / 2) == c / 2 && c % 2 == (a + b) % 2
    ensures Xor(a, b) == c
  {
    XorDigits(a, b);
    DigitsDetermine(Xor(a, b), c);
  }

  lemma {:induction false} XorTwoSteps(a: nat, b: nat, c: nat)
    requires Xor(a / 4, b / 4) == c / 4
    requires c % 2 == (a + b) % 2 && c / 2 % 2 == (a / 2 + b / 2) % 2
    ensures Xor(a, b) == c
  {
    assert a / 2 / 2 == a / 4 && b / 2 / 2 == b / 4 && c / 2 / 2 == c / 4;
    XorStep(a / 2, b / 2, c / 2);
    XorStep(a, b, c);
  }

  lemma {:induction false} Quarters(a: nat)
    ensures a / 4 / 2 == a / 8 && a / 4 / 4 == a / 16
  {
  }

  lemma {:induction false} XorFourSteps(a: nat, b: nat, c: nat)
    requires Xor(a / 16, b / 16) == c / 16
    requires c % 2 == (a + b) % 2 && c / 2 % 2 == (a / 2 + b / 2) % 2
    requires c / 4 % 2 == (a / 4 + b / 4) % 2 && c / 8 % 2 == (a / 8 + b / 8) % 2
    ensures Xor(a, b) == c
  {
    Quarters(a);
    Quarters(b);
    Quarters(c);
    XorTwoSteps(a / 4, b / 4, c / 4);
    XorTwoSteps(a, b, c);
  }

  lemma {:induction false} HighDigits(a: Byte)
    ensures a / 16 / 2 == a / 32 && a / 16 / 4 == a / 64 && a / 16 / 8 == a / 128 && a / 16 / 16 == 0
  {
  }

  lemma {:induction false} XorHigh(a: Byte, b: Byte, c: Byte)
    requires DigitsXor(a, b, c)
    ensures Xor(a / 16, b / 16) == c / 16
  {
    HighDigits(a);
    HighDigits(b);
    HighDigits(c);
    XorFourSteps(a / 16, b / 16, c / 16);
  }

  lemma {:induction false} XorIs(a: Byte, b: Byte, c: Byte)
    requires DigitsXor(a, b, c)
    ensures XorByte(a, b) == c
  {
    XorHigh(a, b, c);
    XorFourSteps(a, b, c);
  }

  lemma {:induction false} XorZero(b: nat)
    ensures Xor(0, b) == b && Xor(b, 0) == b
  {
    XorCommutes(0, b);
    if b > 0 {
      XorZero(b / 2);
      XorDigits(0, b);
      DigitsDetermine(Xor(0, b), b);
    }
  }
}
