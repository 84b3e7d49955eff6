/** Bitwise arithmetic on non-negative integers: Java's `&` as the access-flag
    tests use it (a flag word that is a u2 value, and a positive mask), and the
    bits it reads. Bit 0 is the least significant bit. */
module Bits {

  /** 2 to the power k: the mask whose only set bit is bit k. */
  function Pow2(k: nat): (p: nat)
    ensures p >= 1
  {
    if k == 0 then 1 else 2 * Pow2(k - 1)
  }

  /** Whether bit k of n is set. */
  predicate Bit(n: nat, k: nat)
  {
    if k == 0 then n % 2 == 1 else Bit(n / 2, k - 1)
  }

  /** Bitwise AND, bit by bit from the least significant end. For
      non-negative operands this is the value of Java's `a & b`. */
  function And(a: nat, b: nat): (r: nat)
    ensures r <= a && r <= b
    decreases a
  {
    if a == 0 || b == 0 then 0
    else 2 * And(a / 2, b / 2) + (if a % 2 == 1 && b % 2 == 1 then 1 else 0)
  }

  /** The number n with bit k flipped and every other bit kept. */
  function Toggle(n: nat, k: nat): (r: nat)
  {
    if k == 0 then (if n % 2 == 1 then n - 1 else n + 1)
    else 2 * Toggle(n / 2, k - 1) + n % 2
  }

  lemma {:induction false} ZeroHasNoBits(k: nat)
    ensures !Bit(0, k)
  {
    if k > 0 {
      ZeroHasNoBits(k - 1);
    }
  }

  /** A bit of `a & b` is set exactly when it is set in both operands. */
  lemma {:induction false} AndBit(a: nat, b: nat, k: nat)
    ensures Bit(And(a, b), k) <==> Bit(a, k) && Bit(b, k)
    decreases k
  {
    if a == 0 || b == 0 {
      ZeroHasNoBits(k);
    } else if k > 0 {
      assert And(a, b) / 2 == And(a / 2, b / 2);
      AndBit(a / 2, b / 2, k - 1);
    }
  }

  /** Masking with a single bit keeps that bit and clears all others: the
      result is the mask itself or zero. */
  lemma {:induction false} AndPow2(n: nat, k: nat)
    ensures And(n, Pow2(k)) == if Bit(n, k) then Pow2(k) else 0
  {
    if n == 0 {
      ZeroHasNoBits(k);
    } else if k > 0 {
      assert Pow2(k) / 2 == Pow2(k - 1) && Pow2(k) % 2 == 0;
      AndPow2(n / 2, k - 1);
    }
  }

  /** Toggle flips bit k and no other. */
  lemma {:induction false} ToggleBit(n: nat, k: nat, j: nat)
    ensures Bit(Toggle(n, k), j) <==> if j == k then !Bit(n, k) else Bit(n, j)
    decreases k
  {
    if k == 0 {
      assert Toggle(n, 0) / 2 == n / 2;
    } else {
      assert Toggle(n, k) / 2 == Toggle(n / 2, k - 1);
      assert Toggle(n, k) % 2 == n % 2;
      if j > 0 {
        ToggleBit(n / 2, k - 1, j - 1);
      }
    }
  }
}
