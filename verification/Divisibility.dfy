/** Multiples and remainders of integers of either sign. */
module Divisibility {
  function Times(m: int, k: int): int { m * k }

  ghost predicate IsMultiple(h: int, m: int) { exists k :: Times(m, k) == h }

  lemma {:induction false} NoSmallMultiple(d: int, j: int)
    requires d != 0 && j != 0
    ensures !(0 <= d * j < if d > 0 then d else -d)
  {
    if j >= 1 {
      assert if d > 0 then d * j >= d else d * j <= d;
    } else {
      assert if d > 0 then d * j <= -d else d * j >= -d;
    }
  }

  lemma {:induction false} MultipleRemainder(d: int, k: int)
    requires d != 0
    ensures (d * k) % d == 0
  {
    var j := k - (d * k) / d;
    assert (d * k) % d == d * j;
    if j != 0 {
      NoSmallMultiple(d, j);
    }
  }

  lemma {:induction false} DividesTransitive(h: int, m: int, d: int)
    requires m != 0 && d != 0 && h % m == 0 && m % d == 0
    ensures h % d == 0
  {
    var k := (m / d) * (h / m);
    assert h == m * (h / m) && m == d * (m / d);
    assert d * k == (d * (m / d)) * (h / m) == h;
    MultipleRemainder(d, k);
  }

  lemma {:induction false} NonZeroProduct(x: int, y: int)
    requires x != 0 && y != 0
    ensures x * y != 0
  {
    NoSmallMultiple(x, y);
  }

  lemma {:induction false} MultipleOfMultiple(x: int, k: int, d: int)
    requires d != 0 && x % d == 0
    ensures (k * x) % d == 0
  {
    var q := x / d;
    assert x == d * q;
    assert k * x == d * (k * q);
    MultipleRemainder(d, k * q);
  }

  lemma {:induction false} SumDivides(x: int, y: int, d: int)
    requires d != 0 && y % d == 0 && (x + y) % d == 0
    ensures x % d == 0
  {
    var q, r := y / d, (x + y) / d;
    assert x == d * (r - q);
    MultipleRemainder(d, r - q);
  }

  lemma {:induction false} FactorOut(m: int, l: int, z: int)
    ensures m + (m * l) * z == m * (1 + l * z)
    ensures (m * l) * z == l * (m * z)
  {
  }

  lemma {:induction false} SquareGrows(x: int, n: nat)
    requires x != 0
    ensures x * (x * n) >= n
  {
    var y := x * x;
    assert y >= 1;
    assert x * (x * n) == y * n == n + (y - 1) * n;
    assert (y - 1) * n >= 0;
  }

  /** A remainder of zero means being a multiple. */
  lemma {:induction false} RemainderExact(h: int, m: int)
    requires m != 0
    ensures h % m == 0 <==> IsMultiple(h, m)
  {
    if h % m == 0 {
      assert Times(m, h / m) == h;
    }
    if k :| Times(m, k) == h {
      MultipleRemainder(m, k);
    }
  }
}
