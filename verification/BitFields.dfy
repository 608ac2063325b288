/** Powers of two and bitwise or on natural numbers. */
module BitFields {

  function Pow2(n: nat): (r: nat)
    ensures r >= 1
  {
    if n == 0 then 1 else 2 * Pow2(n - 1)
  }

  lemma {:induction false} Pow2Sum(a: nat, b: nat)
    ensures Pow2(a + b) == Pow2(a) * Pow2(b)
  {
    if a > 0 {
      Pow2Sum(a - 1, b);
    }
  }

  lemma {:induction false} Pow2Mono(a: nat, b: nat)
    requires a <= b
    ensures Pow2(a) <= Pow2(b)
  {
    if a < b {
      Pow2Mono(a, b - 1);
    }
  }

  /** Number of significant bits: the word size minus the count of leading zeros. */
  function BitLength(x: nat): (n: nat)
    ensures x < Pow2(n)
    ensures x > 0 ==> n > 0 && Pow2(n - 1) <= x
  {
    if x == 0 then 0 else 1 + BitLength(x / 2)
  }

  /** Bitwise or. */
  function Or(a: nat, b: nat): nat
    decreases a + b
  {
    if a == 0 then b
    else if b == 0 then a
    else (if a % 2 == 1 || b % 2 == 1 then 1 else 0) + 2 * Or(a / 2, b / 2)
  }

  /** Disjoint bit fields: or is addition. */
  lemma {:induction false} OrDisjoint(hi: nat, lo: nat, s: nat)
    requires lo < Pow2(s)
    ensures Or(hi * Pow2(s), lo) == hi * Pow2(s) + lo
    decreases s
  {
    var a := hi * Pow2(s);
    if s > 0 && a != 0 && lo != 0 {
      var h := hi * Pow2(s - 1);
      assert a == 2 * h;
      OrDisjoint(hi, lo / 2, s - 1);
    }
  }

  /** A bitwise or reaches a power of two exactly when an operand does: the cheap overflow test. */
  lemma {:induction false} OrReaches(a: nat, b: nat, k: nat)
    ensures Or(a, b) >= Pow2(k) <==> a >= Pow2(k) || b >= Pow2(k)
    decreases a + b
  {
    if a != 0 && b != 0 {
      OrReaches(a / 2, b / 2, if k > 0 then k - 1 else 0);
    }
  }
}
