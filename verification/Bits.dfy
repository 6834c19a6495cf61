/** Bits of natural numbers: the bitwise operators the byte code uses, by recursion on the number. */
module Bits {

  function Pow2(n: nat): (p: nat)
    ensures p >= 1
  {
    if n == 0 then 1 else 2 * Pow2(n - 1)
  }

  /** b & (1 << k) is not zero. */
  predicate Bit(b: nat, k: nat) {
    if k == 0 then b % 2 == 1 else Bit(b / 2, k - 1)
  }

  /** b | (1 << k). */
  function SetBit(b: nat, k: nat): nat {
    if k == 0 then b / 2 * 2 + 1 else SetBit(b / 2, k - 1) * 2 + b % 2
  }

  /** b & ((1 << n) - 1). */
  function LowBits(b: nat, n: nat): nat {
    if n == 0 then 0 else LowBits(b / 2, n - 1) * 2 + b % 2
  }

  /** How many bits of b are set. */
  function Ones(b: nat): nat {
    if b == 0 then 0 else b % 2 + Ones(b / 2)
  }

  lemma {:induction false} SetBitAt(b: nat, k: nat, j: nat)
    ensures Bit(SetBit(b, k), j) <==> j == k || Bit(b, j)
  {
    if k > 0 && j > 0 {
      SetBitAt(b / 2, k - 1, j - 1);
    }
  }

  lemma {:induction false} SetBitFits(b: nat, k: nat, n: nat)
    requires b < Pow2(n) && k < n
    ensures SetBit(b, k) < Pow2(n)
  {
    var half, room := b / 2, Pow2(n - 1);
    assert Pow2(n) == 2 * room && half < room;
    if k > 0 {
      SetBitFits(half, k - 1, n - 1);
      var r := SetBit(half, k - 1);
      assert r * 2 + b % 2 < 2 * room;
    }
  }

  lemma {:induction false} LowBitsAt(b: nat, n: nat, j: nat)
    ensures Bit(LowBits(b, n), j) <==> j < n && Bit(b, j)
    ensures LowBits(b, n) <= b
  {
    if n == 0 {
      ZeroHasNoBits(j);
    } else {
      LowBitsAt(b / 2, n - 1, if j == 0 then 0 else j - 1);
    }
  }

  lemma {:induction false} ZeroHasNoBits(j: nat)
    ensures !Bit(0, j)
  {
    if j > 0 { ZeroHasNoBits(j - 1); }
  }

  /** The number of k below n with bit k of b set. */
  function OnesBelow(b: nat, n: nat): nat {
    if n == 0 then 0 else OnesBelow(b, n - 1) + if Bit(b, n - 1) then 1 else 0
  }

  lemma {:induction false} OnesBelowHalf(b: nat, n: nat)
    requires n >= 1
    ensures OnesBelow(b, n) == b % 2 + OnesBelow(b / 2, n - 1)
  {
    if n > 1 { OnesBelowHalf(b, n - 1); }
  }

  /** The digit count of a number that fits n bits is the number of its bits. */
  lemma {:induction false} OnesAreBits(b: nat, n: nat)
    requires b < Pow2(n)
    ensures Ones(b) == OnesBelow(b, n)
  {
    if n > 0 {
      OnesBelowHalf(b, n);
      OnesAreBits(b / 2, n - 1);
    }
  }

  /** Numbers of n bits are equal when their bits are. */
  lemma {:induction false} SameBits(a: nat, b: nat, n: nat)
    requires a < Pow2(n) && b < Pow2(n)
    requires forall j: nat | j < n :: Bit(a, j) <==> Bit(b, j)
    ensures a == b
  {
    if n > 0 {
      assert Bit(a, 0) <==> Bit(b, 0);
      forall j: nat | j < n - 1 ensures Bit(a / 2, j) <==> Bit(b / 2, j) {
        assert Bit(a, j + 1) <==> Bit(b, j + 1);
      }
      SameBits(a / 2, b / 2, n - 1);
    }
  }
}
