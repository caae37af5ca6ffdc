/** Rounding a quotient up. */
module Division {

  /** Math.ceil of a quotient. */
  function CeilDiv(a: nat, b: nat): nat
    requires b > 0
  {
    (a + b - 1) / b
  }

  lemma CeilDivStep(a: nat, b: nat)
    requires b > 0 && a > b
    ensures CeilDiv(a, b) == CeilDiv(a - b, b) + 1
  {
    OneMore(a - 1, b);
  }

  /** What is left fits one more time, or nothing is left. */
  lemma CeilDivLast(a: nat, b: nat)
    requires b > 0 && a <= b
    ensures CeilDiv(a, b) == if a == 0 then 0 else 1
  {
    if a > 0 {
      assert a + b - 1 == b + (a - 1);
      assert (a - 1) / b == 0;
      OneMore(a - 1, b);
    } else {
      assert (b - 1) / b == 0;
    }
  }

  lemma OneMore(x: nat, b: nat)
    requires b > 0
    ensures (x + b) / b == x / b + 1
  {
    var p, s := (x + b) / b, (x + b) % b;
    var q, r := x / b, x % b;
    assert x + b == b * p + s && x == b * q + r;
    Quotients(b, p - q - 1, s - r);
  }

  lemma Quotients(b: int, k: int, d: int)
    requires b > 0 && b * k + d == 0 && -b < d < b
    ensures k == 0
  {
    assert k >= 1 ==> b * k >= b;
    assert k <= -1 ==> b * k <= -b;
  }
}
