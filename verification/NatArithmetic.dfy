/** Products and quotients of natural numbers, with the few laws the other modules use. */
module NatArithmetic {

  function Times(a: nat, b: nat): nat { a * b }

  lemma TimesIsProduct(a: nat, b: nat)
    ensures Times(a, b) == a * b
  {}

  lemma TimesStep(a: nat, b: nat)
    ensures Times(0, b) == 0 && Times(a + 1, b) == Times(a, b) + b
    ensures a > 0 ==> Times(a, b) == Times(a - 1, b) + b
  {}

  lemma TimesLaws(a: nat, b: nat, c: nat)
    ensures Times(a, b) == Times(b, a) && Times(a, 1) == a == Times(1, a) && Times(a, 0) == 0
    ensures Times(a, b + c) == Times(a, b) + Times(a, c)
  {
    assert a * (b + c) == a * b + a * c;
  }

  lemma TimesAssociative(a: nat, b: nat, c: nat)
    ensures Times(Times(a, b), c) == Times(a, Times(b, c))
  {
    assert (a * b) * c == a * (b * c);
  }

  lemma TimesMonotone(a: nat, b: nat, c: nat)
    requires a <= b
    ensures Times(a, c) <= Times(b, c)
  {}

  /** A strictly smaller product has a strictly smaller factor. */
  lemma TimesCancel(a: nat, b: nat, c: nat)
    requires Times(a, c) < Times(b, c)
    ensures a < b
  {
    if b <= a { TimesMonotone(b, a, c); }
  }

  /** The `g`-th of `groups` groups of `width` lies inside. */
  lemma GroupFits(g: nat, groups: nat, width: nat)
    requires g < groups
    ensures Times(g + 1, width) == Times(g, width) + width <= Times(groups, width)
  {
    TimesStep(g, width);
    TimesMonotone(g + 1, groups, width);
  }

  lemma Quotient(a: nat, n: nat)
    requires n > 0
    ensures Times(a / n, n) <= a < Times(a / n, n) + n
    ensures a % n == 0 <==> Times(a / n, n) == a
  {}

  /** The quotient is the only number with this property. */
  lemma QuotientUnique(a: nat, n: nat, q: nat)
    requires n > 0 && Times(q, n) <= a < Times(q, n) + n
    ensures a / n == q
  {
    hide Times;
    Quotient(a, n);
    TimesStep(q, n);
    TimesStep(a / n, n);
    TimesCancel(q, a / n + 1, n);
    TimesCancel(a / n, q + 1, n);
  }

  lemma Remainder(a: nat, n: nat, q: nat)
    requires n > 0 && a / n == q
    ensures a % n == a - Times(q, n)
  {}

  /** Adding a multiple of the divisor keeps the remainder. */
  lemma ModMultiple(m: nat, j: nat, n: nat)
    requires n > 0 && m % n == 0 && j < n
    ensures (m + j) % n == j && (m + n) % n == 0
  {
    hide Times;
    var q := m / n;
    Quotient(m, n);
    TimesStep(q, n);
    QuotientUnique(m + j, n, q);
    Remainder(m + j, n, q);
    QuotientUnique(m + n, n, q + 1);
    Remainder(m + n, n, q + 1);
  }

  /** The distance to the next multiple. */
  lemma RoundUp(a: nat, n: nat)
    requires n > 0 && a % n != 0
    ensures 0 < n - a % n < n && (a + (n - a % n)) % n == 0
  {
    hide Times;
    var q := a / n;
    Quotient(a, n);
    Remainder(a, n, q);
    TimesStep(q, n);
    QuotientUnique(a + (n - a % n), n, q + 1);
    Remainder(a + (n - a % n), n, q + 1);
  }

  /** Rounding up. */
  function CeilDiv(a: nat, n: nat): nat
    requires n > 0
  {
    (a + n - 1) / n
  }

  lemma CeilDivBounds(a: nat, n: nat)
    requires n > 0
    ensures a <= Times(CeilDiv(a, n), n) < a + n
    ensures CeilDiv(a, n) <= a && (a > 0 ==> CeilDiv(a, n) > 0)
    ensures a % n == 0 ==> CeilDiv(a, n) == a / n
  {
    var c := CeilDiv(a, n);
    Quotient(a + n - 1, n);
    assert a <= Times(c, n) < a + n;
    CeilDivSmall(a, n, c);
    if a % n == 0 { CeilDivExact(a, n); }
  }

  lemma CeilDivExact(a: nat, n: nat)
    requires n > 0 && a % n == 0
    ensures CeilDiv(a, n) == a / n
  {
    hide Times;
    Quotient(a, n);
    QuotientUnique(a + n - 1, n, a / n);
  }

  lemma CeilDivSmall(a: nat, n: nat, c: nat)
    requires n > 0 && a <= Times(c, n) < a + n
    ensures c <= a && (a > 0 ==> c > 0)
  {
    hide Times;
    TimesStep(0, n);
    if c > a {
      GrowsPast(a, n);
      TimesMonotone(a + 1, c, n);
    }
  }

  lemma GrowsPast(a: nat, n: nat)
    requires n > 0
    ensures Times(a + 1, n) >= a + n
  {}
}
