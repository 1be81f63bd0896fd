/** Powers and the few facts about multiplication and division that the other modules need. */
module Arith {

  const TWO_224: nat := 0x1_0000_0000_0000_0000_0000_0000_0000_0000_0000_0000_0000_0000_0000_0000
  const TWO_256: nat := 0x1_0000_0000_0000_0000_0000_0000_0000_0000_0000_0000_0000_0000_0000_0000_0000_0000

  function Pow(b: nat, e: nat): nat {
    if e == 0 then 1 else b * Pow(b, e - 1)
  }

  lemma {:induction false} PowPositive(b: nat, e: nat)
    requires b > 0
    ensures Pow(b, e) > 0
  {
    if e > 0 { PowPositive(b, e - 1); MulPositive(b, Pow(b, e - 1)); }
  }

  lemma {:induction false} PowAdd(b: nat, m: nat, n: nat)
    ensures Pow(b, m + n) == Pow(b, m) * Pow(b, n)
  {
    if m > 0 {
      PowAdd(b, m - 1, n);
      assert b * (Pow(b, m - 1) * Pow(b, n)) == (b * Pow(b, m - 1)) * Pow(b, n);
    }
  }

  lemma {:induction false} PowMul(b: nat, m: nat, n: nat)
    ensures Pow(Pow(b, m), n) == Pow(b, m * n)
  {
    if n > 0 {
      PowMul(b, m, n - 1);
      PowAdd(b, m, m * (n - 1));
      assert m + m * (n - 1) == m * n;
    }
  }

  lemma {:induction false} PowMono(b: nat, m: nat, n: nat)
    requires b > 0 && m <= n
    ensures Pow(b, m) <= Pow(b, n)
  {
    if m < n {
      PowMono(b, m, n - 1);
      PowPositive(b, n - 1);
      MulMono(1, b, Pow(b, n - 1));
    }
  }

  lemma PowStrict(b: nat, m: nat, n: nat)
    requires b >= 2 && m < n
    ensures Pow(b, m) < Pow(b, n)
  {
    PowPositive(b, m);
    PowMono(b, m + 1, n);
    MulMono(2, b, Pow(b, m));
  }

  lemma PowBelow(x: nat, y: nat, e: nat)
    requires Pow(x, e) < Pow(y, e)
    ensures x < y
  {
    if y <= x { PowBaseMono(y, x, e); }
  }

  /** If a^q <= b^p then a^n lies below every b^k with k / n above p / q. */
  lemma RatioBound(a: nat, q: nat, b: nat, p: nat, n: nat, k: nat, lo: nat, hi: nat)
    requires b >= 2 && Pow(a, q) <= Pow(b, p) && lo == p * n < q * k == hi
    ensures Pow(a, n) < Pow(b, k)
  {
    assert Pow(Pow(a, n), q) <= Pow(b, lo) by {
      PowSwap(a, n, q);
      PowBaseMono(Pow(a, q), Pow(b, p), n);
      PowMul(b, p, n);
    }
    assert Pow(Pow(b, k), q) == Pow(b, hi) by {
      PowSwap(b, q, k);
      PowMul(b, q, k);
    }
    assert Pow(b, lo) < Pow(b, hi) by { PowStrict(b, lo, hi); }
    PowBelow(Pow(a, n), Pow(b, k), q);
  }

  lemma PowSwap(b: nat, m: nat, n: nat)
    ensures Pow(Pow(b, m), n) == Pow(Pow(b, n), m)
  {
    PowMul(b, m, n);
    PowMul(b, n, m);
    assert m * n == n * m;
  }

  lemma {:induction false} PowBaseMono(a: nat, b: nat, e: nat)
    requires a <= b
    ensures Pow(a, e) <= Pow(b, e)
  {
    if e > 0 {
      PowBaseMono(a, b, e - 1);
      MulMono(a, b, Pow(a, e - 1));
      MulMono(Pow(a, e - 1), Pow(b, e - 1), b);
    }
  }

  lemma MulPositive(a: int, b: int)
    requires a > 0 && b > 0
    ensures a * b > 0
  {
  }

  lemma MulMono(a: int, b: int, c: int)
    requires a <= b && c >= 0
    ensures a * c <= b * c
  {
  }

  lemma MulStrict(a: int, b: int, c: int)
    requires a < b && c > 0
    ensures a * c < b * c
  {
  }

  lemma DivBounds(x: int, d: int)
    requires d > 0
    ensures d * (x / d) <= x < d * (x / d) + d
  {
  }

  /** The quotient is the one number whose multiple brackets `x`. */
  lemma DivUnique(x: int, d: int, q: int)
    requires d > 0 && d * q <= x < d * q + d
    ensures x / d == q
  {
    DivBounds(x, d);
    var r := x / d;
    if r < q { MulMono(r + 1, q, d); }
    if r > q { MulMono(q + 1, r, d); }
  }

  lemma DivMono(x: int, y: int, d: int)
    requires d > 0 && x <= y
    ensures x / d <= y / d
  {
    DivBounds(x, d);
    DivBounds(y, d);
    if x / d > y / d { MulMono(y / d + 1, x / d, d); }
  }

  lemma DivLower(x: int, d: int, q: int)
    requires d > 0 && d * q <= x
    ensures q <= x / d
  {
    DivBounds(x, d);
    if x / d < q { MulMono(x / d + 1, q, d); }
  }

  lemma DivUpper(x: int, d: int, q: int)
    requires d > 0 && x < d * q
    ensures x / d < q
  {
    DivBounds(x, d);
    if q <= x / d { MulMono(q, x / d, d); }
  }
}
