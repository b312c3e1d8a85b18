/**
  JavaScript's bitwise operators on non-negative integers, defined bit by bit,
  and the facts that turn them into arithmetic. A shift that wraps at 32 bits is
  written out as a remainder where it is used.
 */
module Bitwise {
  import opened Numerals

  function And(a: nat, b: nat): nat {
    if a == 0 || b == 0 then 0
    else 2 * And(a / 2, b / 2) + (if a % 2 == 1 && b % 2 == 1 then 1 else 0)
  }

  function Or(a: nat, b: nat): nat
    decreases a + b
  {
    if a == 0 && b == 0 then 0
    else 2 * Or(a / 2, b / 2) + (if a % 2 == 1 || b % 2 == 1 then 1 else 0)
  }

  function Xor(a: nat, b: nat): nat
    decreases a + b
  {
    if a == 0 && b == 0 then 0
    else 2 * Xor(a / 2, b / 2) + (if a % 2 != b % 2 then 1 else 0)
  }

  /** `difference |= x ^ y` stays zero only while every pair agrees. */
  lemma {:induction false} XorZero(a: nat, b: nat)
    ensures Xor(a, b) == 0 <==> a == b
    decreases a + b
  {
    if a != 0 || b != 0 {
      XorZero(a / 2, b / 2);
      assert a == a / 2 * 2 + a % 2 && b == b / 2 * 2 + b % 2;
    }
  }

  lemma {:induction false} OrZero(a: nat, b: nat)
    ensures Or(a, b) == 0 <==> a == 0 && b == 0
    decreases a + b
  {
    if a != 0 || b != 0 {
      OrZero(a / 2, b / 2);
      assert a == a / 2 * 2 + a % 2 && b == b / 2 * 2 + b % 2;
    }
  }

  /** Masking with `2^k - 1` keeps the low `k` bits. */
  lemma {:induction false} AndMask(a: nat, k: nat)
    ensures And(a, Pow(2, k) - 1) == a % Pow(2, k)
  {
    if k > 0 {
      var p := Pow(2, k - 1);
      AndMask(a / 2, k - 1);
      assert (2 * p - 1) / 2 == p - 1;
      ModSplit(a, 2, p);
      if a == 0 {
        assert 0 % (2 * p) == 0;
      }
    }
  }

  /** `|` into bits a left shift has cleared is addition. */
  lemma {:induction false} OrDisjoint(a: nat, b: nat, k: nat)
    requires b < Pow(2, k)
    ensures Or(a * Pow(2, k), b) == a * Pow(2, k) + b
  {
    if k == 0 {
      OrNothing(a);
    } else {
      var p := Pow(2, k - 1);
      assert a * Pow(2, k) == 2 * (a * p);
      assert a * Pow(2, k) / 2 == a * p;
      OrDisjoint(a, b / 2, k - 1);
      assert b == b / 2 * 2 + b % 2;
      if a * Pow(2, k) == 0 && b == 0 {
      }
    }
  }

  lemma {:induction false} OrNothing(a: nat)
    ensures Or(a, 0) == a
  {
    if a != 0 {
      OrNothing(a / 2);
      assert a == a / 2 * 2 + a % 2;
    }
  }

  // ---------------------------------------------------------------------------
  // The 32-bit register
  // ---------------------------------------------------------------------------

  /** `x << k`, read unsigned. */
  function ShiftLeft(x: nat, k: nat): (r: nat)
    ensures r < 0x1_0000_0000
  {
    x * Pow(2, k) % 0x1_0000_0000
  }

  /** `x >>> k`. */
  function ShiftRight(x: nat, k: nat): nat { x / Pow(2, k) }

  lemma ShiftWraps(x: nat, k: nat)
    requires k <= 32
    ensures ShiftLeft(x, k) == x % Pow(2, 32 - k) * Pow(2, k)
  {
    PowAdd(2, k, 32 - k);
    FullRegister();
    ShiftModulo(x, Pow(2, k), Pow(2, 32 - k));
  }

  lemma FullRegister()
    ensures Pow(2, 8) == 0x100 && Pow(2, 16) == 0x1_0000 && Pow(2, 24) == 0x100_0000 && Pow(2, 32) == 0x1_0000_0000
  {
    assert Pow(2, 4) == 16;
    PowAdd(2, 4, 4);
    PowAdd(2, 8, 8);
    PowAdd(2, 8, 16);
    PowAdd(2, 16, 16);
  }
}
