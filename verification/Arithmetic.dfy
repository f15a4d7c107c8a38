/** Division and remainder, and the size of a 64-bit word. */
module Arithmetic {
  const TWO_64: nat := 0x1_0000_0000_0000_0000

  lemma {:induction false} Multiple(k: nat, d: nat)
    ensures k * d >= 0
  {
    if k > 0 {
      Multiple(k - 1, d);
      assert k * d == (k - 1) * d + d;
    }
  }

  lemma Scale(a: int, b: int, d: nat)
    ensures a < b ==> a * d + d <= b * d
  {
    if a < b {
      Multiple(b - a - 1, d);
      assert (b - a - 1) * d == b * d - a * d - d;
    }
  }

  lemma Remainder(x: int, q: int, d: int, r: int)
    requires 0 <= r < d && x == q * d + r
    ensures x % d == r && x / d == q
  {
    var p := x / d;
    Division(x, d);
    Scale(q, p, d);
    Scale(p, q, d);
  }

  lemma Division(x: int, d: int)
    requires d > 0
    ensures x == (x / d) * d + x % d && 0 <= x % d < d
  {
  }

  lemma Distribute(a: int, b: int, d: int)
    ensures (a + b) * d == a * d + b * d
  {
  }

  lemma NegatedRemainder(n: int, d: int)
    requires n >= 0 && d > 0
    ensures (0 - n) % d == if n % d == 0 then 0 else d - n % d
  {
    var q, r := n / d, n % d;
    Division(n, d);
    if r == 0 {
      assert -n == (-q) * d + 0;
      Remainder(-n, -q, d, 0);
    } else {
      assert -n == (-q - 1) * d + (d - r);
      Remainder(-n, -q - 1, d, d - r);
    }
  }
}
