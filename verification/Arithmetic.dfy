/** The few facts about products and quotients that the block arithmetic rests on. */
module Arithmetic {

  function Min(a: int, b: int): int { if a <= b then a else b }

  function CeilDiv(a: nat, b: nat): nat
    requires b > 0
  {
    (a + b - 1) / b
  }

  lemma MulLe(a: int, b: int, c: int)
    requires c >= 0
    ensures a <= b ==> a * c <= b * c
  {
  }

  lemma MulNext(a: int, c: int)
    ensures (a + 1) * c == a * c + c
  {
  }

  lemma SmallMultiple(x: int, b: int)
    requires -b < x * b < b
    ensures x == 0
  {
    MulLe(1, x, b);
    MulLe(x, -1, b);
  }

  lemma DivBounds(a: int, b: int)
    requires b > 0
    ensures (a / b) * b <= a < (a / b) * b + b
    ensures a % b == a - (a / b) * b
  {
    assert a == b * (a / b) + a % b;
  }

  lemma DivUnique(a: int, b: int, q: int)
    requires b > 0 && q * b <= a < q * b + b
    ensures a / b == q && a % b == a - q * b
  {
    DivBounds(a, b);
    assert (a / b - q) * b == (a / b) * b - q * b;
    SmallMultiple(a / b - q, b);
  }

  lemma DivMonotone(a: int, c: int, b: int)
    requires b > 0 && a <= c
    ensures a / b <= c / b
  {
    DivBounds(a, b);
    DivBounds(c, b);
    MulLe(c / b + 1, a / b, b);
    MulNext(c / b, b);
  }

  lemma CeilStep(x: nat, b: nat)
    requires b > 0
    ensures CeilDiv(x, b) == 0 <==> x == 0
    ensures x > 0 ==> CeilDiv(x - Min(b, x), b) == CeilDiv(x, b) - 1
    ensures x > 0 ==> CeilDiv(x, b) == (x - 1) / b + 1
  {
    DivUnique(b - 1, b, 0);
    if x > 0 {
      DivBounds(x - 1, b);
      var q := (x - 1) / b;
      MulNext(q, b);
      DivUnique(x + b - 1, b, q + 1);
      if x > b {
        DivUnique(x - 1, b, q);
      } else {
        DivUnique(x - 1, b, 0);
      }
    }
  }

  /** A multiple of b added below the quotient only shifts it. */
  lemma DivShift(a: int, k: int, b: int)
    requires b > 0
    ensures (a + k * b) / b == a / b + k && (a + k * b) % b == a % b
  {
    DivBounds(a, b);
    assert (a / b + k) * b == (a / b) * b + k * b;
    DivUnique(a + k * b, b, a / b + k);
  }
}
