/** Exclusive or on numbers: the ^ of Go's unsigned integers. */
module Bits {
  import opened Basics

  function Flip(x: nat, y: nat): nat { if x == y then 0 else 1 }

  // Exclusive or of two binary numbers.
  function Xor(a: nat, b: nat): nat
    decreases a + b
  {
    if a == 0 && b == 0 then 0 else 2 * Xor(a / 2, b / 2) + Flip(a % 2, b % 2)
  }

  lemma {:induction false} XorZero(a: nat)
    ensures Xor(a, 0) == a == Xor(0, a)
  {
    if a > 0 { XorZero(a / 2); }
  }

  /** Exclusive: a second time undoes the first, and a number cancels itself. */
  lemma {:induction false} XorUndoes(a: nat, b: nat)
    ensures Xor(Xor(a, b), b) == a && Xor(a, a) == 0
    decreases a + b
  {
    if a + b == 0 {
    } else if a == 0 {
      XorZero(b);
      XorSelf(b);
    } else {
      XorUndoes(a / 2, b / 2);
      XorParts(a, b);
      XorSelf(a);
    }
  }

  lemma {:induction false} XorSelf(a: nat)
    ensures Xor(a, a) == 0
  {
    if a > 0 { XorSelf(a / 2); }
  }

  lemma XorParts(a: nat, b: nat)
    ensures Xor(a, b) / 2 == Xor(a / 2, b / 2) && Xor(a, b) % 2 == Flip(a % 2, b % 2)
  {}

  lemma {:induction false} XorSwaps(a: nat, b: nat, c: nat)
    ensures Xor(Xor(a, b), c) == Xor(Xor(a, c), b)
    decreases a + b + c
  {
    if a + b + c > 0 {
      XorSwaps(a / 2, b / 2, c / 2);
      var x, y := Xor(a, b), Xor(a, c);
      XorParts(a, b);
      XorParts(a, c);
      XorParts(x, c);
      XorParts(y, b);
      SameParts(Xor(x, c), Xor(y, b));
    }
  }

  lemma SameParts(x: nat, y: nat)
    requires x / 2 == y / 2 && x % 2 == y % 2
    ensures x == y
  {}

  lemma LowBit(a: nat, c: nat, x: nat, y: nat)
    requires x < 2 && y < 2
    ensures Xor(2 * a + x, 2 * c + y) == 2 * Xor(a, c) + Flip(x, y)
  {
    XorParts(2 * a + x, 2 * c + y);
  }

  function Shift(a: nat, n: nat): nat { if n == 0 then a else 2 * Shift(a, n - 1) }

  // Exclusive or works on the low n bits and the rest apart.
  lemma {:induction false} LowBits(n: nat, a: nat, c: nat, b: nat, d: nat)
    requires b < Power(n) && d < Power(n)
    ensures Xor(Shift(a, n) + b, Shift(c, n) + d) == Shift(Xor(a, c), n) + Xor(b, d)
  {
    if n > 0 {
      LowBits(n - 1, a, c, b / 2, d / 2);
      OneBitMore(Shift(a, n - 1), Shift(c, n - 1), Shift(Xor(a, c), n - 1), b, d, b / 2, d / 2, b % 2, d % 2);
    }
  }

  lemma OneBitMore(a: nat, c: nat, x: nat, b: nat, d: nat, b1: nat, d1: nat, b0: nat, d0: nat)
    requires b == 2 * b1 + b0 && d == 2 * d1 + d0 && b0 < 2 && d0 < 2
    requires Xor(a + b1, c + d1) == x + Xor(b1, d1)
    ensures Xor(2 * a + b, 2 * c + d) == 2 * x + Xor(b, d)
  {
    LowBit(a + b1, c + d1, b0, d0);
    LowBit(b1, d1, b0, d0);
    assert 2 * (a + b1) + b0 == 2 * a + b && 2 * (c + d1) + d0 == 2 * c + d;
  }

  lemma ShiftByte(a: nat)
    ensures Shift(a, 8) == 256 * a
  {
    assert Shift(a, 1) == 2 * a;
    assert Shift(a, 3) == 8 * a;
    assert Shift(a, 5) == 32 * a;
    assert Shift(a, 7) == 128 * a;
  }

  lemma LowByte(a: nat, c: nat, b: byte, d: byte)
    ensures Xor(256 * a + b, 256 * c + d) == 256 * Xor(a, c) + Xor(b, d)
  {
    assert Power(8) == 256;
    ShiftByte(a);
    ShiftByte(c);
    ShiftByte(Xor(a, c));
    LowBits(8, a, c, b, d);
  }

  lemma LowTwoBytes(a: nat, c: nat, b1: byte, d1: byte, b0: byte, d0: byte)
    ensures Xor(0x1_0000 * a + 256 * b1 as nat + b0, 0x1_0000 * c + 256 * d1 as nat + d0)
         == 0x1_0000 * Xor(a, c) + 256 * Xor(b1, d1) + Xor(b0, d0)
  {
    LowByte(a, c, b1, d1);
    LowByte(256 * a + b1, 256 * c + d1, b0, d0);
  }

  lemma {:induction false} XorBound(n: nat, b: nat, d: nat)
    requires b < Power(n) && d < Power(n)
    ensures Xor(b, d) < Power(n)
  {
    if n > 0 {
      XorBound(n - 1, b / 2, d / 2);
      XorParts(b, d);
    }
  }

  function Power(n: nat): nat { if n == 0 then 1 else 2 * Power(n - 1) }

  // The ^ of two uint8.
  function XorByte(a: byte, b: byte): byte {
    assert Power(8) == 256;
    XorBound(8, a, b);
    Xor(a, b)
  }
}
