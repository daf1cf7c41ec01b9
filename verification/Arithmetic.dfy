/** Facts about products and digits that the solver does not find by itself. */
module Arithmetic {
  import opened Contracts

  lemma Monotone(x: nat, y: nat, b: nat)
    ensures x >= y ==> x * b >= y * b
  {
  }

  /** A number with one more digit stays below the bound with one more factor. */
  lemma Below(q: nat, count: nat, r: nat, b: Positive)
    requires q < count && r < b
    ensures q * b + r < count * b
  {
    Monotone(count, q + 1, b);
    assert (q + 1) * b == q * b + b;
  }

  lemma Quotient(n: nat, count: nat, b: Positive)
    requires n < count * b
    ensures n / b < count && n % b < b && (n / b) * b + n % b == n
  {
    Monotone(n / b, count, b);
  }

  /** Slots of equal size do not overlap. */
  lemma Slot(a: nat, b: nat, unit: nat)
    requires a < b
    ensures a * unit + unit <= b * unit
  {
    Monotone(b, a + 1, unit);
    assert (a + 1) * unit == a * unit + unit;
  }

  lemma {:induction false} Digit(q: nat, r: nat, b: Positive)
    requires r < b
    ensures (q * b + r) / b == q && (q * b + r) % b == r
    decreases q
  {
    if q > 0 {
      Digit(q - 1, r, b);
      var before := (q - 1) * b + r;
      assert q * b + r == before + b;
      DividePlus(before, b);
    }
  }

  lemma DividePlus(a: nat, b: Positive)
    ensures (a + b) / b == a / b + 1 && (a + b) % b == a % b
  {
    var d := (a + b) / b - a / b;
    assert b == b * d + ((a + b) % b - a % b);
    Multiples(b, d);
  }

  lemma Multiples(b: Positive, d: int)
    ensures d <= 0 ==> b * d <= 0
    ensures d >= 2 ==> b * d >= 2 * b
  {
  }
}
