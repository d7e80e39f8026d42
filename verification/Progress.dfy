/** The progress percentage handlers report: 10 when work starts, 95 when all of it is done. */
module Progress {

  function Percent(done: nat, total: nat): int
    requires total > 0
  {
    10 + done * 85 / total
  }

  /** The percentage is 10 plus the finished share of 85, rounded down. */
  lemma PercentExact(done: nat, total: nat, p: int)
    requires 0 < total
    ensures p == Percent(done, total) <==> total * (p - 10) <= 85 * done < total * (p - 9)
  {
    var q := done * 85 / total;
    assert total * q <= 85 * done < total * (q + 1);
    if total * (p - 10) <= 85 * done < total * (p - 9) {
      MulCancel(total, p - 10, q + 1);
      MulCancel(total, q, p - 9);
    }
  }

  lemma PercentBounds(done: nat, total: nat)
    requires 0 < total && done <= total
    ensures 10 <= Percent(done, total) <= 95
  {
    PercentMonotone(done, total, total);
    assert total * 85 == 85 * total + 0;
    assert Percent(total, total) == 95;
  }

  lemma PercentMonotone(a: nat, b: nat, total: nat)
    requires a <= b && 0 < total
    ensures Percent(a, total) <= Percent(b, total)
  {
    DivMonotone(a * 85, b * 85, total);
  }

  lemma DivMonotone(x: nat, y: nat, m: nat)
    requires x <= y && 0 < m
    ensures x / m <= y / m
  {
    var p, q := x / m, y / m;
    assert m * p <= x && y < m * q + m;
    assert m * q + m == m * (q + 1);
    MulCancel(m, p, q + 1);
  }

  lemma MulCancel(m: nat, a: int, b: int)
    requires 0 < m && m * a < m * b
    ensures a < b
  {
    assert a >= b ==> m * a >= m * b;
  }
}
