/** Shifts and bitwise operations on numbers of any width, bit by bit from the lowest. */
module Bits {
  /** Bit k of a number, counted from the lowest. */
  predicate Bit(x: nat, k: nat) { if k == 0 then x % 2 == 1 else Bit(x / 2, k - 1) }

  function Shl(x: nat, k: nat): nat { if k == 0 then x else 2 * Shl(x, k - 1) }

  function Shr(x: nat, k: nat): nat { if k == 0 then x else Shr(x / 2, k - 1) }

  function Pow2(k: nat): (p: nat)
    ensures p > 0
  {
    if k == 0 then 1 else 2 * Pow2(k - 1)
  }

  function Or(a: nat, b: nat): nat {
    if a == 0 then b else if b == 0 then a
    else (if a % 2 == 0 && b % 2 == 0 then 0 else 1) + 2 * Or(a / 2, b / 2)
  }

  function And(a: nat, b: nat): nat {
    if a == 0 || b == 0 then 0
    else (if a % 2 == 1 && b % 2 == 1 then 1 else 0) + 2 * And(a / 2, b / 2)
  }

  lemma {:induction false} ShlAdd(x: nat, y: nat, k: nat)
    ensures Shl(x + y, k) == Shl(x, k) + Shl(y, k)
  {
    if k > 0 {
      ShlAdd(x, y, k - 1);
    }
  }

  lemma {:induction false} ShlOne(k: nat)
    ensures Shl(1, k) == Pow2(k) && Shl(0, k) == 0
  {
    if k > 0 {
      ShlOne(k - 1);
    }
  }

  lemma {:induction false} ShlShl(x: nat, i: nat, k: nat)
    ensures Shl(Shl(x, i), k) == Shl(x, i + k)
  {
    if k > 0 {
      ShlShl(x, i, k - 1);
    }
  }

  /** Numbers that differ above bit k differ in that order, whatever is below. */
  lemma ShlOrder(x: nat, y: nat, k: nat)
    requires x < y
    ensures Shl(x, k) + Pow2(k) <= Shl(y, k)
  {
    ShlAdd(x, 1, k);
    ShlAdd(x + 1, y - x - 1, k);
    ShlOne(k);
  }

  /** "Or" of a number shifted past another is their sum. */
  lemma {:induction false} OrIsSum(high: nat, low: nat, k: nat)
    requires low < Pow2(k)
    ensures Or(Shl(high, k), low) == Shl(high, k) + low
  {
    if k > 0 && Shl(high, k) != 0 && low != 0 {
      var h := Shl(high, k - 1);
      OrIsSum(high, low / 2, k - 1);
      assert Shl(high, k) == 2 * h && (2 * h) / 2 == h;
    }
  }

  lemma {:induction false} ShrOfSum(high: nat, low: nat, k: nat)
    requires low < Pow2(k)
    ensures Shr(Shl(high, k) + low, k) == high
  {
    if k > 0 {
      var h := Shl(high, k - 1);
      assert (2 * h + low) / 2 == h + low / 2;
      ShrOfSum(high, low / 2, k - 1);
    }
  }

  lemma {:induction false} AndMask(high: nat, low: nat, k: nat)
    requires low < Pow2(k)
    ensures And(Shl(high, k) + low, Pow2(k) - 1) == low
  {
    if k > 0 {
      var h := Shl(high, k - 1);
      var x := 2 * h + low;
      assert x / 2 == h + low / 2 && x % 2 == low % 2;
      AndMask(high, low / 2, k - 1);
      if x == 0 || Pow2(k) == 1 {
        assert low == 0;
      } else {
        assert (Pow2(k) - 1) % 2 == 1 && (Pow2(k) - 1) / 2 == Pow2(k - 1) - 1;
      }
    }
  }

  /** Exclusive or of the lowest bits. */
  function Xor(a: nat, b: nat, bits: nat): nat {
    if bits == 0 then 0 else BitXor(a, b) + 2 * Xor(a / 2, b / 2, bits - 1)
  }

  function BitXor(a: nat, b: nat): (bit: nat)
    ensures bit < 2
  {
    if a % 2 == b % 2 then 0 else 1
  }

  lemma Split(bit: nat, rest: nat)
    requires bit < 2
    ensures (bit + 2 * rest) % 2 == bit && (bit + 2 * rest) / 2 == rest
  {
  }

  lemma {:induction false} XorTwice(a: nat, b: nat, bits: nat)
    requires a < Pow2(bits)
    ensures Xor(a, b, bits) < Pow2(bits)
    ensures Xor(Xor(a, b, bits), b, bits) == a
    decreases bits
  {
    if bits > 0 {
      XorTwice(a / 2, b / 2, bits - 1);
      var bit, rest := BitXor(a, b), Xor(a / 2, b / 2, bits - 1);
      Split(bit, rest);
      assert Xor(a, b, bits) == bit + 2 * rest;
      assert BitXor(bit + 2 * rest, b) == a % 2;
    }
  }

  // ---- What the operations mean, bit by bit and in numbers ----

  lemma {:induction false} ShlIsTimes(x: nat, k: nat)
    ensures Shl(x, k) == x * Pow2(k)
  {
    if k > 0 {
      ShlIsTimes(x, k - 1);
      Doubled(x, Pow2(k - 1));
    }
  }

  lemma Doubled(x: nat, p: nat)
    ensures x * (2 * p) == 2 * (x * p)
  {
  }

  /** Shifting right is division by the power, rounded down. */
  lemma {:induction false} ShrIsDivision(x: nat, k: nat)
    ensures Shr(x, k) * Pow2(k) <= x < (Shr(x, k) + 1) * Pow2(k)
  {
    if k > 0 {
      ShrIsDivision(x / 2, k - 1);
      Doubled(Shr(x, k), Pow2(k - 1));
      Doubled(Shr(x, k) + 1, Pow2(k - 1));
    }
  }

  /** Bit k is the parity of the number shifted right by k. */
  lemma {:induction false} BitIsParity(x: nat, k: nat)
    ensures Bit(x, k) <==> Shr(x, k) % 2 == 1
  {
    if k > 0 {
      BitIsParity(x / 2, k - 1);
    }
  }

  lemma {:induction false} NoBits(k: nat)
    ensures !Bit(0, k)
  {
    if k > 0 {
      NoBits(k - 1);
    }
  }

  lemma {:induction false} OrBits(a: nat, b: nat, k: nat)
    ensures Bit(Or(a, b), k) <==> Bit(a, k) || Bit(b, k)
  {
    if a == 0 || b == 0 {
      NoBits(k);
    } else {
      Split(if a % 2 == 0 && b % 2 == 0 then 0 else 1, Or(a / 2, b / 2));
      if k > 0 {
        OrBits(a / 2, b / 2, k - 1);
      }
    }
  }

  lemma {:induction false} AndBits(a: nat, b: nat, k: nat)
    ensures Bit(And(a, b), k) <==> Bit(a, k) && Bit(b, k)
  {
    if a == 0 || b == 0 {
      NoBits(k);
    } else {
      Split(if a % 2 == 1 && b % 2 == 1 then 1 else 0, And(a / 2, b / 2));
      if k > 0 {
        AndBits(a / 2, b / 2, k - 1);
      }
    }
  }

  lemma {:induction false} XorBits(a: nat, b: nat, bits: nat, k: nat)
    ensures Bit(Xor(a, b, bits), k) <==> k < bits && Bit(a, k) != Bit(b, k)
  {
    if bits == 0 {
      NoBits(k);
    } else {
      Split(BitXor(a, b), Xor(a / 2, b / 2, bits - 1));
      if k > 0 {
        XorBits(a / 2, b / 2, bits - 1, k - 1);
      }
    }
  }

  lemma {:induction false} XorZero(a: nat, bits: nat)
    requires a < Pow2(bits)
    ensures Xor(a, 0, bits) == a && Xor(a, a, bits) == 0
  {
    if bits > 0 {
      XorZero(a / 2, bits - 1);
    }
  }

  /** Exclusive or is addition without carries; the carries are the "and", one place up. */
  lemma {:induction false} XorIsSum(a: nat, b: nat, bits: nat)
    requires a < Pow2(bits) && b < Pow2(bits)
    ensures Xor(a, b, bits) + 2 * And(a, b) == a + b
  {
    if bits > 0 {
      XorIsSum(a / 2, b / 2, bits - 1);
      if a == 0 || b == 0 {
        assert And(a / 2, b / 2) == 0;
      }
    }
  }
}
