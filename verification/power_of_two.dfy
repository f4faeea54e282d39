/** Powers of two, base-two logarithms and the left shift built from them. */
module PowerOfTwo {

  /** 2^k. */
  function Pow2(k: nat): (r: nat)
    ensures r >= 1
    ensures k > 0 ==> r % 2 == 0
  {
    if k == 0 then 1 else 2 * Pow2(k - 1)
  }

  /** `x << k` on a non-negative value, without any fixed register width. */
  function ShiftLeft(x: nat, k: nat): nat {
    x * Pow2(k)
  }

  /** Floor of the base-two logarithm. */
  function Log2(n: nat): nat
    requires n >= 1
  {
    if n == 1 then 0 else 1 + Log2(n / 2)
  }

  /** Exponents add when powers of two multiply. */
  lemma {:induction false} Pow2Add(a: nat, b: nat)
    ensures Pow2(a + b) == Pow2(a) * Pow2(b)
    decreases a
  {
    if a > 0 {
      Pow2Add(a - 1, b);
      assert Pow2(a + b) == 2 * Pow2(a - 1 + b);
    }
  }

  /** Pow2 is strictly increasing. */
  lemma {:induction false} Pow2StrictlyIncreasing(a: nat, b: nat)
    requires a < b
    ensures Pow2(a) < Pow2(b)
    decreases b
  {
    if a < b - 1 {
      Pow2StrictlyIncreasing(a, b - 1);
    }
  }

  /** Pow2 is monotone. */
  lemma Pow2Monotone(a: nat, b: nat)
    requires a <= b
    ensures Pow2(a) <= Pow2(b)
  {
    if a < b {
      Pow2StrictlyIncreasing(a, b);
    }
  }

  /** Log2 undoes Pow2. */
  lemma {:induction false} Log2Pow2(k: nat)
    ensures Log2(Pow2(k)) == k
  {
    if k > 0 {
      assert Pow2(k) / 2 == Pow2(k - 1);
      Log2Pow2(k - 1);
    }
  }
}
