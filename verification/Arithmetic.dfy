/** Products and quotients: the few facts the block and run arithmetic needs. */
module Arithmetic {

  function Min(a: int, b: int): int {
    if a < b then a else b
  }

  lemma MulMonotone(a: int, b: int, d: nat)
    requires a <= b
    ensures a * d <= b * d
  {
  }

  lemma MulNext(n: nat, d: nat)
    ensures (n + 1) * d == n * d + d
  {
  }

  lemma DivUnique(x: int, d: int, q: int, r: int)
    requires d >= 1 && x == q * d + r && 0 <= r < d
    ensures x / d == q && x % d == r
  {
    var p := x / d;
    assert p * d <= x < p * d + d;
    if q < p {
      MulMonotone(q + 1, p, d);
    } else if p < q {
      MulMonotone(p + 1, q, d);
    }
  }

  function Ceil(x: nat, d: nat): nat
    requires d >= 1
  {
    (x + d - 1) / d
  }

  // The quotient rounded up is the one number of parts that suffice while one less do not.
  lemma CeilUnique(x: nat, d: nat, n: nat)
    requires d >= 1 && (n == 0 ==> x == 0) && (n >= 1 ==> (n - 1) * d < x <= n * d)
    ensures n == Ceil(x, d)
  {
    if n >= 1 {
      assert n * d == (n - 1) * d + d;
    }
    DivUnique(x + d - 1, d, n, x + d - 1 - n * d);
  }

  lemma CeilBounds(x: nat, d: nat)
    requires d >= 1 && x >= 1
    ensures Ceil(x, d) >= 1 && (Ceil(x, d) - 1) * d < x <= Ceil(x, d) * d
  {
    var n := Ceil(x, d);
    assert n * d <= x + d - 1 < n * d + d;
    assert n * d == (n - 1) * d + d;
  }

  // Rounding up twice is rounding up once by the product.
  lemma CeilCeil(x: nat, d: nat, e: nat)
    requires d >= 1 && e >= 1 && d * e >= 1
    ensures Ceil(Ceil(x, d), e) == Ceil(x, d * e)
  {
    if x == 0 {
      DivUnique(d - 1, d, 0, d - 1);
      DivUnique(e - 1, e, 0, e - 1);
      DivUnique(d * e - 1, d * e, 0, d * e - 1);
    } else {
      var m := Ceil(x, d);
      CeilBounds(x, d);
      var n := Ceil(m, e);
      CeilBounds(m, e);
      assert n * (d * e) == (n * e) * d;
      assert (n - 1) * (d * e) == ((n - 1) * e) * d;
      MulMonotone(m, n * e, d);
      MulMonotone((n - 1) * e, m - 1, d);
      CeilUnique(x, d * e, n);
    }
  }

  // Cutting x into parts of size d leaves a last part of size at most d.
  lemma LastPart(x: nat, d: nat)
    requires d >= 1 && x >= 1
    ensures var part := if x % d == 0 then d else x % d;
            1 <= part <= d && (Ceil(x, d) - 1) * d + part == x
  {
    var q, e := x / d, x % d;
    assert x == q * d + e;
    if e == 0 {
      assert (q - 1) * d == q * d - d;
      CeilUnique(x, d, q);
    } else {
      assert (q + 1) * d == q * d + d;
      CeilUnique(x, d, q + 1);
    }
  }

  lemma CeilDivision(x: nat, d: nat)
    requires d >= 1
    ensures Ceil(x, d) == x / d + if x % d > 0 then 1 else 0
  {
    var q, e := x / d, x % d;
    assert x == q * d + e;
    if e > 0 {
      assert (q + 1) * d == q * d + d;
      DivUnique(x + d - 1, d, q + 1, e - 1);
    } else {
      DivUnique(x + d - 1, d, q, d - 1);
    }
  }

  lemma Remainder(x: nat, d: nat)
    requires d >= 1
    ensures x - x / d * d == x % d < d
  {
  }

  function Pow(a: nat, h: nat): nat {
    if h == 0 then 1 else a * Pow(a, h - 1)
  }

  lemma {:induction false} PowPositive(a: nat, h: nat)
    requires a >= 1
    ensures Pow(a, h) >= 1
  {
    if h > 0 {
      PowPositive(a, h - 1);
      MulMonotone(1, a, Pow(a, h - 1));
    }
  }

  // One more level divides the number of runs once more, and multiplies their length once more.
  lemma LevelArithmetic(runs: nat, length: nat, a: nat, h: nat)
    requires a >= 1
    ensures Pow(a, h) >= 1 && Pow(a, h + 1) >= 1
    ensures Ceil(Ceil(runs, Pow(a, h)), a) == Ceil(runs, Pow(a, h + 1))
    ensures a * (length * Pow(a, h)) == length * Pow(a, h + 1)
  {
    PowPositive(a, h);
    PowPositive(a, h + 1);
    assert Pow(a, h) * a == Pow(a, h + 1);
    CeilCeil(runs, Pow(a, h), a);
    assert a * (length * Pow(a, h)) == length * (a * Pow(a, h));
  }

  lemma CeilShrinks(n: nat, a: nat)
    requires n > a >= 2
    ensures 2 <= Ceil(n, a) < n
  {
    CeilBounds(n, a);
    if Ceil(n, a) < 2 {
      MulMonotone(Ceil(n, a), 1, a);
    }
    MulMonotone(2, a, Ceil(n, a) - 1);
  }
}
