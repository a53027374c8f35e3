/** The capacity of a ring and the slot a sequence number falls into. */
module SlotArithmetic {
  import opened RingSafety

  function Pow2(k: nat): (p: nat)
    ensures p > 0
  {
    if k == 0 then 1 else 2 * Pow2(k - 1)
  }

  /** Doubling from `p` until `n` fits, as std::bit_ceil does from 1. */
  function BitCeilFrom(n: nat, p: nat): nat
    requires p > 0
    decreases if n > p then n - p else 0
  {
    if p >= n then p else BitCeilFrom(n, 2 * p)
  }

  /** The capacity a ring asked for `n` slots gets. */
  function CapacityFor(n: nat): nat {
    BitCeilFrom(if n == 0 then 1 else n, 1)
  }

  lemma {:induction false} BitCeilLeast(n: nat, k: nat) returns (m: nat)
    requires forall j: nat | j < k :: Pow2(j) < n
    ensures BitCeilFrom(n, Pow2(k)) == Pow2(m) && Pow2(m) >= n
    ensures forall j: nat | j < m :: Pow2(j) < n
    decreases if n > Pow2(k) then n - Pow2(k) else 0
  {
    if Pow2(k) >= n {
      m := k;
    } else {
      assert Pow2(k + 1) == 2 * Pow2(k);
      m := BitCeilLeast(n, k + 1);
    }
  }

  /** The capacity is a power of two, holds at least the slots asked for and at least one, and no smaller power does. */
  lemma CapacityIsLeast(n: nat) returns (m: nat)
    ensures CapacityFor(n) == Pow2(m) && Pow2(m) >= n
    ensures forall j: nat | Pow2(j) >= n && Pow2(j) >= 1 :: j >= m
  {
    m := BitCeilLeast(if n == 0 then 1 else n, 0);
  }

  /** Bitwise and of two natural numbers. */
  function And(a: nat, b: nat): nat {
    if a == 0 || b == 0 then 0 else (a % 2) * (b % 2) + 2 * And(a / 2, b / 2)
  }

  lemma TwiceMod(a: nat, p: nat)
    requires p > 0
    ensures a % (2 * p) == a % 2 + 2 * ((a / 2) % p)
  {
    var q, r := (a / 2) / p, (a / 2) % p;
    assert a / 2 == p * q + r;
    assert a == 2 * (a / 2) + a % 2;
    assert a == (2 * p) * q + (a % 2 + 2 * r) by {
      assert 2 * (p * q) == (2 * p) * q;
    }
    ModOf(a, 2 * p, q, a % 2 + 2 * r);
  }

  lemma AndOdd(s: nat, p: nat)
    requires p > 0
    ensures And(s, 2 * p - 1) == s % 2 + 2 * And(s / 2, p - 1)
  {
    assert (2 * p - 1) / 2 == p - 1 && (2 * p - 1) % 2 == 1;
    assert s == 0 ==> And(s / 2, p - 1) == 0;
  }

  lemma MaskStep(s: nat, p: nat)
    requires p > 0 && And(s / 2, p - 1) == (s / 2) % p
    ensures And(s, 2 * p - 1) == s % (2 * p)
  {
    AndOdd(s, p);
    TwiceMod(s, p);
  }

  /** Masking with capacity - 1 is taking the remainder by the capacity. */
  lemma {:induction false} MaskIsModulo(s: nat, k: nat)
    ensures And(s, Pow2(k) - 1) == s % Pow2(k)
    decreases k
  {
    if k > 0 {
      MaskIsModulo(s / 2, k - 1);
      MaskStep(s, Pow2(k - 1));
    }
  }

  /** Within any window of one capacity, masked sequence numbers are all different. */
  lemma MaskInjective(a: nat, b: nat, k: nat)
    requires a < b < a + Pow2(k)
    ensures And(a, Pow2(k) - 1) != And(b, Pow2(k) - 1)
  {
    MaskIsModulo(a, k);
    MaskIsModulo(b, k);
    DifferentSlots(a, b, Pow2(k));
  }
}
