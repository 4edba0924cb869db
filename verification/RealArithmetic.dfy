/**
 * Products and inverses of reals as named functions. Proofs about weighted averages hide the two bodies
 * and use the laws below instead, so that every step there is linear.
 */
module RealArithmetic {

  function Times(x: real, y: real): real { x * y }

  function Inverse(s: real): real
    requires s > 0.0
  {
    1.0 / s
  }

  lemma Commute(x: real, y: real)
    ensures Times(x, y) == Times(y, x)
  {}

  lemma Associate(x: real, y: real, z: real)
    ensures Times(Times(x, y), z) == Times(x, Times(y, z))
  {}

  lemma AddLeft(x: real, y: real, z: real)
    ensures Times(x + y, z) == Times(x, z) + Times(y, z)
  {}

  lemma AddRight(x: real, y: real, z: real)
    ensures Times(x, y + z) == Times(x, y) + Times(x, z)
  {}

  lemma SubtractLeft(x: real, y: real, z: real)
    ensures Times(x - y, z) == Times(x, z) - Times(y, z)
  {}

  lemma Unit(x: real)
    ensures Times(1.0, x) == x && Times(x, 1.0) == x
    ensures Times(0.0, x) == 0.0 && Times(x, 0.0) == 0.0
  {}

  lemma NonNegativeProduct(x: real, y: real)
    requires x >= 0.0 && y >= 0.0
    ensures Times(x, y) >= 0.0
  {}

  lemma PositiveProduct(x: real, y: real)
    requires x > 0.0 && y > 0.0
    ensures Times(x, y) > 0.0
  {}

  lemma StrictlyMonotone(x: real, y: real, z: real)
    requires x < y && z > 0.0
    ensures Times(x, z) < Times(y, z)
  {
    hide Times;
    PositiveProduct(y - x, z);
    SubtractLeft(y, x, z);
  }

  lemma CancelFactor(s: real, x: real, y: real)
    requires s > 0.0 && Times(s, x) == Times(s, y)
    ensures x == y
  {
    assert s * (x - y) == 0.0;
  }

  lemma InverseLaw(s: real)
    requires s > 0.0
    ensures Inverse(s) > 0.0 && Times(s, Inverse(s)) == 1.0
  {}

  /** Multiplying by an inverse and then by the number gives back the start. */
  lemma CancelInverse(x: real, s: real)
    requires s > 0.0
    ensures Times(s, Times(x, Inverse(s))) == x
  {
    hide Times, Inverse;
    InverseLaw(s);
    Associate(x, Inverse(s), s);
    Commute(Inverse(s), s);
    Commute(Times(x, Inverse(s)), s);
    Unit(x);
  }
}
