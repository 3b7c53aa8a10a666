/**
 * Natural-number multiplication, quotient and remainder, written as
 * recursive functions whose bodies only add and subtract. The row-major
 * numbering of the model is phrased with them, so that reasoning about it
 * stays linear; `MulIsProduct` and `QuotRemBuiltin` tie them to `*`, `/` and
 * `%`.
 */
module Arith {

  /** `a * b`, as `a` copies of `b`. */
  function Mul(a: nat, b: nat): nat
  {
    if a == 0 then 0 else Mul(a - 1, b) + b
  }

  /** `q / e` for a positive `e`, by repeated subtraction. */
  function Quot(q: nat, e: nat): nat
    requires e > 0
    decreases q
  {
    if q < e then 0 else Quot(q - e, e) + 1
  }

  /** `q % e` for a positive `e`, by repeated subtraction. */
  function Rem(q: nat, e: nat): nat
    requires e > 0
    decreases q
  {
    if q < e then q else Rem(q - e, e)
  }

  lemma {:induction false} MulIsProduct(a: nat, b: nat)
    ensures Mul(a, b) == a * b
  {
    if a > 0 {
      MulIsProduct(a - 1, b);
      assert (a - 1) * b + b == a * b;
    }
  }

  lemma {:induction false} MulAdd(a: nat, b: nat, e: nat)
    ensures Mul(a + b, e) == Mul(a, e) + Mul(b, e)
    decreases a
  {
    if a > 0 {
      MulAdd(a - 1, b, e);
    }
  }

  lemma MulMono(a: nat, b: nat, e: nat)
    requires a <= b
    ensures Mul(a, e) <= Mul(b, e)
  {
    MulAdd(a, b - a, e);
  }

  lemma MulPositive(a: nat, b: nat)
    ensures Mul(a, b) > 0 <==> a > 0 && b > 0
  {
    MulIsProduct(a, b);
  }

  lemma {:induction false} MulAssoc(a: nat, b: nat, c: nat)
    ensures Mul(Mul(a, b), c) == Mul(a, Mul(b, c))
    decreases a
  {
    if a > 0 {
      MulAdd(Mul(a - 1, b), b, c);
      MulAssoc(a - 1, b, c);
    }
  }

  /** Division leaves a quotient and a remainder below the divisor. */
  lemma {:induction false} QuotRem(q: nat, e: nat)
    requires e > 0
    ensures q == Mul(Quot(q, e), e) + Rem(q, e) && Rem(q, e) < e
    decreases q
  {
    if q >= e {
      QuotRem(q - e, e);
    }
  }

  /** The quotient and remainder are the only such pair. */
  lemma {:induction false} QuotRemUnique(q: nat, e: nat, u: nat, w: nat)
    requires e > 0 && w < e && q == Mul(u, e) + w
    ensures Quot(q, e) == u && Rem(q, e) == w
    decreases u
  {
    if u > 0 {
      QuotRemUnique(q - e, e, u - 1, w);
    }
  }

  /** `Quot` and `Rem` are Euclidean `/` and `%`. */
  lemma QuotRemBuiltin(q: nat, e: nat)
    requires e > 0
    ensures Quot(q, e) == q / e && Rem(q, e) == q % e
  {
    QuotRem(q, e);
    MulIsProduct(q / e, e);
    QuotRemUnique(q, e, q / e, q % e);
  }

  /**
   * Adding a multiple of the divisor to the rest `off`: the quotient grows by
   * that multiple and the remainder is that of `off`.
   */
  lemma QuotRemShift(hi: nat, e: nat, off: nat)
    requires e > 0
    ensures Quot(Mul(hi, e) + off, e) == hi + Quot(off, e)
    ensures Rem(Mul(hi, e) + off, e) == Rem(off, e)
  {
    QuotRem(off, e);
    MulAdd(hi, Quot(off, e), e);
    QuotRemUnique(Mul(hi, e) + off, e, hi + Quot(off, e), Rem(off, e));
  }

  /** Adding a multiple of the divisor does not change the remainder. */
  lemma RemAddMultiple(x: nat, k: nat, m: nat)
    requires m > 0
    ensures Rem(x + Mul(k, m), m) == Rem(x, m)
  {
    QuotRemShift(k, m, x);
  }

  /** Splitting a remainder modulo `a * b` into a digit modulo `b` and the rest. */
  lemma RemOfProduct(q: nat, a: nat, b: nat)
    requires a > 0 && b > 0
    ensures Mul(a, b) > 0
    ensures Rem(q, Mul(a, b)) == Mul(Rem(Quot(q, b), a), b) + Rem(q, b)
  {
    MulPositive(a, b);
    var x, lo := Quot(q, b), Rem(q, b);
    var hi, mid := Quot(x, a), Rem(x, a);
    QuotRem(q, b);
    QuotRem(x, a);
    // q == (hi * a + mid) * b + lo == hi * (a * b) + (mid * b + lo)
    MulAdd(Mul(hi, a), mid, b);
    MulAssoc(hi, a, b);
    assert q == Mul(hi, Mul(a, b)) + (Mul(mid, b) + lo);
    // mid * b + lo < (mid + 1) * b <= a * b
    MulAdd(mid, 1, b);
    MulMono(mid + 1, a, b);
    QuotRemUnique(q, Mul(a, b), hi, Mul(mid, b) + lo);
  }
}
