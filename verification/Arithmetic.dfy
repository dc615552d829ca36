/** Products, floors and powers of two. */
module Arithmetic {

  lemma NonNegative(a: int, b: int)
    requires a >= 0 && b >= 0
    ensures a * b >= 0
  {
  }

  lemma Distribute(a: int, b: int, n: int)
    ensures (a + b) * n == a * n + b * n
  {
  }

  lemma Monotone(a: int, b: int, k: int)
    requires a <= b && k >= 0
    ensures a * k <= b * k
  {
    NonNegative(b - a, k);
    Distribute(b - a, a, k);
  }

  lemma StrictlyMonotone(a: int, b: int, k: int)
    requires a < b && k > 0
    ensures a * k < b * k
  {
    Monotone(a + 1, b, k);
    Distribute(a, 1, k);
  }

  lemma ProductBound(a: int, b: int, x: int, y: int)
    requires 0 <= a <= x && 0 <= b <= y
    ensures 0 <= a * b <= x * y
  {
    NonNegative(a, b);
    Monotone(a, x, b);
    Monotone(b, y, x);
    Commute(b, x);
    Commute(y, x);
  }

  lemma Commute(a: int, b: int)
    ensures a * b == b * a
  {
  }

  lemma ScaleBy(x: int, y: int, k: int)
    requires k > 0
    ensures x <= y ==> x * k <= y * k
    ensures x < y ==> x * k < y * k
  {
    if x <= y { Monotone(x, y, k); }
    if x < y { StrictlyMonotone(x, y, k); }
  }

  lemma Unscale(x: int, y: int, k: int)
    requires k > 0
    ensures x * k <= y * k ==> x <= y
    ensures x * k < y * k ==> x < y
    ensures x * k == y * k ==> x == y
  {
    if x > y { StrictlyMonotone(y, x, k); }
    if x < y { StrictlyMonotone(x, y, k); }
  }

  // ---- Floor division ---------------------------------------------------------------

  /** The defining bounds of a floor. */
  lemma FloorBounds(x: int, n: int)
    requires n > 0
    ensures (x / n) * n <= x < (x / n) * n + n
  {
  }

  lemma BetweenMultiples(p: int, x: int, n: int, e: int)
    requires n > 0 && p * n <= x < p * n + n
    ensures p <= e <==> x < (e + 1) * n
  {
    Distribute(p, 1, n);
    if p <= e {
      Monotone(p + 1, e + 1, n);
    } else {
      Monotone(e + 1, p, n);
    }
  }

  /** A floor is at most `e` exactly below the next multiple. */
  lemma FloorAtMost(x: int, n: int, e: int)
    requires n > 0
    ensures x / n <= e <==> x < (e + 1) * n
  {
    FloorBounds(x, n);
    BetweenMultiples(x / n, x, n, e);
  }

  /** Multiplication and floor division are adjoint. */
  lemma MultipleAtMost(i: int, d: int, y: int)
    requires d > 0
    ensures i * d <= y <==> i <= y / d
  {
    FloorAtMost(y, d, i - 1);
  }

  lemma FloorUnique(x: int, n: int, q: int)
    requires n > 0 && q * n <= x < q * n + n
    ensures x / n == q
  {
    FloorBounds(x, n);
    BetweenMultiples(x / n, x, n, q);
    BetweenMultiples(q, x, n, x / n);
    Distribute(q, 1, n);
    Distribute(x / n, 1, n);
  }

  lemma FloorIsNatural(x: int, n: int)
    requires x >= 0 && n > 0
    ensures 0 <= x / n
  {
    MultipleAtMost(0, n, x);
  }

  // ---- Powers of two ------------------------------------------------------------------

  function Pow2(n: nat): (p: nat)
    ensures p > 0
  {
    if n == 0 then 1 else 2 * Pow2(n - 1)
  }

  lemma {:induction false} Pow2Add(a: nat, b: nat)
    ensures Pow2(a + b) == Pow2(a) * Pow2(b)
  {
    if b > 0 {
      Pow2Add(a, b - 1);
      Pow2Step(a + b);
      Pow2Step(b);
      hide Pow2;
      Commute(Pow2(a), Pow2(b));
      Commute(Pow2(a), Pow2(b - 1));
      Distribute(Pow2(b - 1), Pow2(b - 1), Pow2(a));
    }
  }

  lemma Pow2Step(n: nat)
    requires n > 0
    ensures Pow2(n) == Pow2(n - 1) + Pow2(n - 1)
  {
  }

  lemma {:induction false} Pow2Monotone(a: nat, b: nat)
    requires a <= b
    ensures Pow2(a) <= Pow2(b)
    decreases b
  {
    if a < b {
      Pow2Monotone(a, b - 1);
    }
  }

  lemma Pow2Table()
    ensures Pow2(4) == 16 && Pow2(5) == 32 && Pow2(7) == 128 && Pow2(8) == 256
  {
    assert Pow2(2) == 4;
  }

  lemma Pow2Top()
    ensures Pow2(31) == 0x8000_0000
  {
    Pow2Table();
    hide Pow2;
    Pow2Add(8, 8);
    Pow2Add(16, 8);
    Pow2Add(24, 7);
  }
}
