/** Going round in a circle of d places. */
module Circular {

  /** Stepping on from x's place is stepping on from x. */
  lemma NextTurn(x: nat, d: nat)
    requires d > 0
    ensures (x % d + 1) % d == (x + 1) % d
  {
    var q, r := x / d, x % d;
    OneMoreTime(q, d);
    if r + 1 < d {
      DivisionUnique(r + 1, d, 0, r + 1);
      DivisionUnique(x + 1, d, q, r + 1);
    } else {
      DivisionUnique(d, d, 1, 0);
      DivisionUnique(x + 1, d, q + 1, 0);
    }
  }

  lemma OneMoreTime(q: int, d: int)
    ensures (q + 1) * d == q * d + d
  {
  }

  lemma DivisionUnique(x: nat, d: nat, q: nat, r: nat)
    requires d > 0 && x == q * d + r && r < d
    ensures x % d == r
  {
    var k := x / d - q;
    assert x == (x / d) * d + x % d;
    assert k * d == r - x % d;
    AtLeast(k, d);
    AtLeast(-k, d);
  }

  lemma AtLeast(k: int, d: nat)
    ensures k >= 1 ==> k * d >= d
  {
  }
}
