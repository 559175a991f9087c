/** Powers of two, quotients and products, for the parts that count. */
module Numbers {

  function Pow2(n: nat): (r: nat)
    ensures r >= 1
  {
    if n == 0 then 1 else 2 * Pow2(n - 1)
  }

  lemma {:induction false} Pow2IsMonotone(m: nat, n: nat)
    requires m <= n
    ensures Pow2(m) <= Pow2(n)
  {
    if m < n {
      Pow2IsMonotone(m, n - 1);
    }
  }

  lemma FloorOf(x: int, d: int)
    requires d > 0
    ensures d * (x / d) <= x < d * (x / d) + d
  {
  }

  lemma Distribute(x: int, y: int, z: int)
    ensures x * (y + z) == x * y + x * z
  {
  }

  lemma ScaleUp(s: int, x: int, y: int)
    requires s > 0 && x <= y
    ensures s * x <= s * y
    ensures x < y ==> s * x < s * y
  {
    var d := y - x;
    Distribute(s, x, d);
    assert s * d >= 0 && (d > 0 ==> s * d > 0);
  }

  lemma QuotientIsUnique(x: int, d: int, q: int)
    requires d > 0 && d * q <= x < d * q + d
    ensures x / d == q
  {
    FloorOf(x, d);
    if x / d < q {
      ScaleUp(d, x / d + 1, q);
      Distribute(d, x / d, 1);
    } else if x / d > q {
      ScaleUp(d, q + 1, x / d);
      Distribute(d, q, 1);
    }
  }
}
