/** Bitwise `|` and `&` on natural numbers, and when they are plain arithmetic. */
module Bits {

  function Pow2(k: nat): (p: nat)
    ensures p > 0
  {
    if k == 0 then 1 else 2 * Pow2(k - 1)
  }

  function Or(a: nat, b: nat): nat {
    if a == 0 then b
    else if b == 0 then a
    else 2 * Or(a / 2, b / 2) + (if a % 2 == 1 || b % 2 == 1 then 1 else 0)
  }

  function And(a: nat, b: nat): nat {
    if a == 0 || b == 0 then 0
    else 2 * And(a / 2, b / 2) + (if a % 2 == 1 && b % 2 == 1 then 1 else 0)
  }

  /** Numbers split at bit k are combined half by half. */
  lemma {:induction false} OrSplit(k: nat, a1: nat, a0: nat, b1: nat, b0: nat)
    requires a0 < Pow2(k) && b0 < Pow2(k)
    ensures Or(a1 * Pow2(k) + a0, b1 * Pow2(k) + b0) == Or(a1, b1) * Pow2(k) + Or(a0, b0)
  {
    hide Or;
    if k == 0 {
      OrZero();
      assert a0 == 0 && b0 == 0;
    } else {
      var p := Pow2(k - 1);
      OrSplit(k - 1, a1, a0 / 2, b1, b0 / 2);
      Halve(a1, a0, p);
      Halve(b1, b0, p);
      OrLift(a1 * Pow2(k) + a0, b1 * Pow2(k) + b0, a0, b0, Or(a1, b1) * p);
      Double(Or(a1, b1), p);
    }
  }

  lemma OrZero()
    ensures Or(0, 0) == 0
  {
  }

  lemma OrLift(a: nat, b: nat, a0: nat, b0: nat, x: nat)
    requires a % 2 == a0 % 2 && b % 2 == b0 % 2
    requires Or(a / 2, b / 2) == x + Or(a0 / 2, b0 / 2)
    ensures Or(a, b) == 2 * x + Or(a0, b0)
  {
    hide Or;
    OrStep(a, b);
    OrStep(a0, b0);
  }

  lemma {:induction false} AndSplit(k: nat, a1: nat, a0: nat, b1: nat, b0: nat)
    requires a0 < Pow2(k) && b0 < Pow2(k)
    ensures And(a1 * Pow2(k) + a0, b1 * Pow2(k) + b0) == And(a1, b1) * Pow2(k) + And(a0, b0)
  {
    hide And;
    if k == 0 {
      AndZero();
      assert a0 == 0 && b0 == 0;
    } else {
      var p := Pow2(k - 1);
      AndSplit(k - 1, a1, a0 / 2, b1, b0 / 2);
      Halve(a1, a0, p);
      Halve(b1, b0, p);
      AndLift(a1 * Pow2(k) + a0, b1 * Pow2(k) + b0, a0, b0, And(a1, b1) * p);
      Double(And(a1, b1), p);
    }
  }

  lemma AndZero()
    ensures And(0, 0) == 0
  {
  }

  lemma AndLift(a: nat, b: nat, a0: nat, b0: nat, x: nat)
    requires a % 2 == a0 % 2 && b % 2 == b0 % 2
    requires And(a / 2, b / 2) == x + And(a0 / 2, b0 / 2)
    ensures And(a, b) == 2 * x + And(a0, b0)
  {
    hide And;
    AndStep(a, b);
    AndStep(a0, b0);
  }

  lemma Double(m: nat, p: nat)
    ensures m * (2 * p) == 2 * (m * p)
  {
  }

  lemma OrStep(a: nat, b: nat)
    ensures Or(a, b) == 2 * Or(a / 2, b / 2) + (if a % 2 == 1 || b % 2 == 1 then 1 else 0)
  {
  }

  lemma AndStep(a: nat, b: nat)
    ensures And(a, b) == 2 * And(a / 2, b / 2) + (if a % 2 == 1 && b % 2 == 1 then 1 else 0)
  {
  }

  lemma Halve(m: nat, r: nat, p: nat)
    ensures (m * (2 * p) + r) / 2 == m * p + r / 2
    ensures (m * (2 * p) + r) % 2 == r % 2
  {
    assert m * (2 * p) == 2 * (m * p);
  }

  /** Masking with k low ones is the remainder modulo 2^k. */
  lemma {:induction false} AndOnes(k: nat, a: nat)
    requires a < Pow2(k)
    ensures And(a, Pow2(k) - 1) == a
  {
    if k > 0 {
      AndOnes(k - 1, a / 2);
      AndStep(a, Pow2(k) - 1);
    }
  }
}
