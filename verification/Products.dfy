/**
 Products of reals under a name of their own, so that a proof about wealth and multiples can
 hide what a product is and use only the laws it needs. Each law is proved where the product is
 visible and holds for all reals, with the signs it names.
 */
module Products {

  function Times(a: real, b: real): real {
    a * b
  }

  lemma Assoc(a: real, b: real, c: real)
    ensures Times(a, Times(b, c)) == Times(Times(a, b), c)
  {}

  lemma Swap(a: real, b: real, c: real)
    ensures Times(Times(a, b), c) == Times(Times(a, c), b)
  {}

  lemma Commute(a: real, b: real)
    ensures Times(a, b) == Times(b, a)
  {}

  lemma Distribute(a: real, b: real, c: real)
    ensures Times(a + b, c) == Times(a, c) + Times(b, c)
    ensures Times(a - b, c) == Times(a, c) - Times(b, c)
  {}

  lemma One(a: real)
    ensures Times(a, 1.0) == a && Times(1.0, a) == a
    ensures Times(a, 0.0) == 0.0 && Times(0.0, a) == 0.0
  {}

  lemma Le(a: real, b: real, c: real)
    requires a <= b && c >= 0.0
    ensures Times(a, c) <= Times(b, c) && Times(c, a) <= Times(c, b)
  {}

  lemma Positive(a: real, b: real)
    requires a > 0.0 && b > 0.0
    ensures Times(a, b) > 0.0
  {}

  lemma NonNegative(a: real, b: real)
    requires a >= 0.0 && b >= 0.0
    ensures Times(a, b) >= 0.0
  {}

  lemma Cancel(a: real, b: real, c: real)
    requires c > 0.0
    ensures Times(a, c) <= Times(b, c) <==> a <= b
    ensures Times(a, c) < Times(b, c) <==> a < b
  {
    if a <= b {
      NonNegative(b - a, c);
    } else {
      Positive(a - b, c);
    }
    if a < b {
      Positive(b - a, c);
    }
  }
}
