/**
 * Bitwise operators of C on non-negative integers, defined by recursion on
 * the binary representation (least significant bit first), together with
 * the bit-level facts the emulator modules rely on.
 */
module Bits {

  /** 1 << k */
  function Pow2(k: nat): (r: nat)
    ensures r >= 1
  {
    if k == 0 then 1 else 2 * Pow2(k - 1)
  }

  /** x >> k */
  function Shr(x: nat, k: nat): nat
  {
    if k == 0 then x else Shr(x, k - 1) / 2
  }

  /** Bit k of x, counting from the least significant bit (bit 0). */
  predicate Bit(x: nat, k: nat)
  {
    Shr(x, k) % 2 == 1
  }

  /** a & b */
  function And(a: nat, b: nat): (r: nat)
    ensures r <= a && r <= b
  {
    if a == 0 || b == 0 then 0
    else 2 * And(a / 2, b / 2) + (if a % 2 == 1 && b % 2 == 1 then 1 else 0)
  }

  /** a | b */
  function Or(a: nat, b: nat): nat
  {
    if a == 0 then b
    else if b == 0 then a
    else 2 * Or(a / 2, b / 2) + (if a % 2 == 1 || b % 2 == 1 then 1 else 0)
  }

  /** a ^ b */
  function Xor(a: nat, b: nat): nat
  {
    if a == 0 then b
    else if b == 0 then a
    else 2 * Xor(a / 2, b / 2) + (if a % 2 != b % 2 then 1 else 0)
  }

  lemma {:induction false} Pow2Monotone(i: nat, j: nat)
    requires i <= j
    ensures Pow2(i) <= Pow2(j)
  {
    if i < j { Pow2Monotone(i, j - 1); }
  }

  lemma {:induction false} ShrZero(k: nat)
    ensures Shr(0, k) == 0
  {
    if k > 0 { ShrZero(k - 1); }
  }

  lemma {:induction false} ShrShr(x: nat, a: nat, b: nat)
    ensures Shr(Shr(x, a), b) == Shr(x, a + b)
  {
    if b > 0 { ShrShr(x, a, b - 1); }
  }

  lemma {:induction false} ShrAnd(a: nat, b: nat, k: nat)
    ensures Shr(And(a, b), k) == And(Shr(a, k), Shr(b, k))
  {
    if k > 0 {
      ShrAnd(a, b, k - 1);
      HalfAnd(Shr(a, k - 1), Shr(b, k - 1));
    }
  }

  lemma HalfAnd(a: nat, b: nat)
    ensures And(a, b) / 2 == And(a / 2, b / 2)
    ensures And(a, b) % 2 == (if a % 2 == 1 && b % 2 == 1 then 1 else 0)
  {
  }

  lemma HalfOr(a: nat, b: nat)
    ensures Or(a, b) / 2 == Or(a / 2, b / 2)
    ensures Or(a, b) % 2 == (if a % 2 == 1 || b % 2 == 1 then 1 else 0)
  {
  }

  lemma HalfXor(a: nat, b: nat)
    ensures Xor(a, b) / 2 == Xor(a / 2, b / 2)
    ensures Xor(a, b) % 2 == (if a % 2 != b % 2 then 1 else 0)
  {
  }

  lemma {:induction false} ShrOr(a: nat, b: nat, k: nat)
    ensures Shr(Or(a, b), k) == Or(Shr(a, k), Shr(b, k))
  {
    if k > 0 {
      ShrOr(a, b, k - 1);
      HalfOr(Shr(a, k - 1), Shr(b, k - 1));
    }
  }

  lemma {:induction false} ShrXor(a: nat, b: nat, k: nat)
    ensures Shr(Xor(a, b), k) == Xor(Shr(a, k), Shr(b, k))
  {
    if k > 0 {
      ShrXor(a, b, k - 1);
      HalfXor(Shr(a, k - 1), Shr(b, k - 1));
    }
  }

  /** A bit of a & b is set iff it is set in both operands. */
  lemma BitAnd(a: nat, b: nat, k: nat)
    ensures Bit(And(a, b), k) <==> Bit(a, k) && Bit(b, k)
  {
    ShrAnd(a, b, k);
    HalfAnd(Shr(a, k), Shr(b, k));
  }

  /** A bit of a | b is set iff it is set in either operand. */
  lemma BitOr(a: nat, b: nat, k: nat)
    ensures Bit(Or(a, b), k) <==> Bit(a, k) || Bit(b, k)
  {
    ShrOr(a, b, k);
    HalfOr(Shr(a, k), Shr(b, k));
  }

  /** A bit of a ^ b is set iff exactly one operand has it set. */
  lemma BitXor(a: nat, b: nat, k: nat)
    ensures Bit(Xor(a, b), k) <==> Bit(a, k) != Bit(b, k)
  {
    ShrXor(a, b, k);
    HalfXor(Shr(a, k), Shr(b, k));
  }

  lemma {:induction false} ShrPow2(i: nat, j: nat)
    ensures j <= i ==> Shr(Pow2(i), j) == Pow2(i - j)
    ensures j > i ==> Shr(Pow2(i), j) == 0
  {
    if j > 0 {
      ShrPow2(i, j - 1);
      if j - 1 > i { } else if j - 1 == i { } else { assert Pow2(i - j + 1) == 2 * Pow2(i - j); }
    }
  }

  /** 1 << i has exactly bit i set. */
  lemma BitPow2(i: nat, j: nat)
    ensures Bit(Pow2(i), j) <==> i == j
  {
    ShrPow2(i, j);
    if j < i { assert Pow2(i - j) == 2 * Pow2(i - j - 1); }
  }

  /** A number below 2^k has no bit at position k or above. */
  lemma {:induction false} HighBitsClear(x: nat, k: nat, j: nat)
    requires x < Pow2(k) && k <= j
    ensures !Bit(x, j)
  {
    ShrBelow(x, k, j);
  }

  lemma {:induction false} ShrBelow(x: nat, k: nat, j: nat)
    requires x < Pow2(k) && k <= j
    ensures Shr(x, j) == 0
  {
    if j > k {
      ShrBelow(x, k, j - 1);
    } else if k > 0 {
      ShrBelowStep(x, k);
    }
  }

  lemma {:induction false} ShrBelowStep(x: nat, k: nat)
    requires x < Pow2(k)
    ensures Shr(x, k) == 0
  {
    if k > 0 {
      ShrBelowStep(x / 2, k - 1);
      ShrHalf(x, k);
    }
  }

  /** x >> k == (x / 2) >> (k - 1) */
  lemma {:induction false} ShrHalf(x: nat, k: nat)
    requires k > 0
    ensures Shr(x, k) == Shr(x / 2, k - 1)
  {
    if k > 1 { ShrHalf(x, k - 1); }
  }

  /** Bitwise results of operands below 2^k stay below 2^k. */
  lemma {:induction false} BitwiseBound(a: nat, b: nat, k: nat)
    requires a < Pow2(k) && b < Pow2(k)
    ensures And(a, b) < Pow2(k) && Or(a, b) < Pow2(k) && Xor(a, b) < Pow2(k)
  {
    if k > 0 && a != 0 && b != 0 {
      BitwiseBound(a / 2, b / 2, k - 1);
    }
  }

  /** x & (1 << k) is 1 << k when bit k of x is set, else 0. */
  lemma {:induction false} AndPow2(x: nat, k: nat)
    ensures And(x, Pow2(k)) == (if Bit(x, k) then Pow2(k) else 0)
  {
    if k == 0 {
    } else if x == 0 {
      ShrZero(k);
    } else {
      AndPow2(x / 2, k - 1);
      ShrHalf(x, k);
    }
  }

  /** x & 3 keeps the two low bits. */
  lemma AndThree(x: nat)
    ensures And(x, 3) == x % 4
  {
    if x != 0 && x / 2 != 0 {
      assert And(x / 2, 1) == (x / 2) % 2;
    }
  }

  /** x & 7 keeps the three low bits. */
  lemma AndSeven(x: nat)
    ensures And(x, 7) == x % 8
  {
    if x != 0 {
      assert And(x, 7) == 2 * And(x / 2, 3) + x % 2;
      AndThree(x / 2);
      LowBitsSplit(x);
    }
  }

  /** The three low bits of x are its lowest bit below the two low bits of x / 2. */
  lemma LowBitsSplit(x: nat)
    ensures x % 8 == 2 * ((x / 2) % 4) + x % 2
  {
    var q := x / 2;
    assert x == 2 * q + x % 2;
    assert q == 4 * (q / 4) + q % 4;
    ModEight(x, q / 4, 2 * (q % 4) + x % 2);
  }

  lemma ModEight(x: int, d: int, r: int)
    requires 0 <= r < 8 && x == 8 * d + r
    ensures x % 8 == r
  {
  }
}
