// Division and remainder by a divisor that is not a constant.
module Arithmetic {
  lemma {:induction false} Multiples(d: int, m: nat)
    ensures (d >= 1 ==> d * m >= m) && (d <= 0 ==> d * m <= 0) && (d <= -1 ==> d * m + m <= 0)
  {
    if d >= 1 { assert (d - 1) * m >= 0; }
    if d <= -1 { assert (-1 - d) * m >= 0; }
  }

  lemma {:induction false} DivMod(n: nat, m: nat, q: nat, r: nat)
    requires m > 0 && r < m && n == q * m + r
    ensures n / m == q && n % m == r
  {
    var d := n / m - q;
    assert n == (n / m) * m + n % m;
    assert d * m == r - n % m;
    Multiples(d, m);
  }

  lemma {:induction false} SmallMod(n: nat, m: nat)
    requires n < m
    ensures n % m == n && n / m == 0
  {
    DivMod(n, m, 0, n);
  }

  lemma {:induction false} LessOne(n: nat, m: nat)
    requires 0 < n < m
    ensures (n + m - 1) % m == n - 1
  {
    DivMod(n + m - 1, m, 1, n - 1);
  }

  lemma {:induction false} Doubled(h: int, m: int)
    ensures (2 * h) * m == h * (2 * m) && (2 * h + 1) * m == h * (2 * m) + m && (h - 1) * (2 * m) == h * (2 * m) - 2 * m
  {
  }

  // How often 2 m goes into a, and into what is left of a after one m.
  lemma {:induction false} Halves(a: nat, m: nat)
    requires m > 0
    ensures a / m == a / (2 * m) + if a < m then 0 else (a - m) / (2 * m) + 1
  {
    var q, r := a / m, a % m;
    var h := q / 2;
    assert a == q * m + r;
    Doubled(h, m);
    Multiples(h, 2 * m);
    if q % 2 == 0 {
      assert a == h * (2 * m) + r;
      DivMod(a, 2 * m, h, r);
      if h > 0 { DivMod(a - m, 2 * m, h - 1, m + r); }
    } else {
      assert a == h * (2 * m) + (m + r);
      DivMod(a, 2 * m, h, m + r);
      DivMod(a - m, 2 * m, h, r);
    }
  }
}
