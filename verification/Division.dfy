// Division with remainder, for divisors that are variables.
module Division {

  lemma QuotientIs(a: int, b: int, q: int, r: int)
    requires 0 <= r < b && a == b * q + r
    ensures a / b == q && a % b == r
  {
    var d := a / b;
    assert a == b * d + a % b;
    if d < q {
      Steps(b, d, q);
    } else if q < d {
      Steps(b, q, d);
    }
  }

  lemma Steps(b: int, d: int, q: int)
    requires 0 < b && d < q
    ensures b * d + b <= b * q
  {
    var e := q - d - 1;
    assert b * e >= 0;
    assert q == d + e + 1;
  }
}
