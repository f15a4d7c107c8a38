/** The round-robin balancer: an atomic 64-bit counter modulo the number of read targets. */
module RoundRobin {
  import opened Arithmetic

  /** The values of the 64-bit counter. */
  type Counter = x: nat | x < TWO_64 witness 0

  class Balancer<T> {
    const items: seq<T>
    var next: Counter

    ghost predicate Valid() {
      items != []
    }

    constructor (items: seq<T>)
      ensures this.items == items && next == 0
    {
      this.items := items;
      next := 0;
    }

    /** Takes the next target. The counter wraps at 2^64. */
    method NextItem() returns (item: T)
      requires Valid()
      modifies this`next
      ensures next == (old(next) + 1) % TWO_64
      ensures item == items[Picked(old(next), 0, |items|)]
    {
      StepBack(next);
      next := (next + 1) % TWO_64;
      var index := (next - 1) % TWO_64;
      item := items[index % |items|];
    }
  }

  lemma StepBack(x: Counter)
    ensures ((x + 1) % TWO_64 - 1) % TWO_64 == x == (x + 0) % TWO_64
  {
    if x + 1 == TWO_64 {
      assert (0 - 1) % TWO_64 == x;
    }
  }

  /** The target of the j-th call after the counter stood at `start`. */
  function Picked(start: nat, j: nat, n: nat): (t: nat)
    requires n > 0
    ensures t < n
  {
    (start + j) % TWO_64 % n
  }

  /** How often target `t` is picked in a window of `m` calls. */
  function Served(start: nat, m: nat, n: nat, t: nat): nat
    requires n > 0
  {
    if m == 0 then 0 else Served(start, m - 1, n, t) + if Picked(start, m - 1, n) == t then 1 else 0
  }

  /** A window is fair when every target gets the floor or the ceiling of its share. */
  ghost predicate Fair(start: nat, m: nat, n: nat)
    requires n > 0
  {
    forall t: nat | t < n :: m / n <= Served(start, m, n, t) <= (m + n - 1) / n
  }

  /** How many numbers below `x` leave remainder `t`. */
  function Below(x: nat, n: nat, t: nat): int
    requires t < n
  {
    (x + n - 1 - t) / n
  }

  lemma BelowNext(x: nat, n: nat, t: nat)
    requires t < n
    ensures Below(x + 1, n, t) == Below(x, n, t) + if x % n == t then 1 else 0
  {
    var q, r := x / n, x % n;
    assert x == q * n + r;
    var a, b := x + n - t, x + n - 1 - t;
    if r > t {
      Remainder(a, q + 1, n, r - t);
      Remainder(b, q + 1, n, r - t - 1);
    } else if r == t {
      Remainder(a, q + 1, n, 0);
      Remainder(b, q, n, n - 1);
    } else {
      Remainder(a, q, n, n + r - t);
      Remainder(b, q, n, n + r - t - 1);
    }
  }

  /** Wrapping does not show in the picks of this window. */
  ghost predicate Seamless(start: nat, m: nat, n: nat)
    requires n > 0
  {
    forall j: nat | j < m :: Picked(start, j, n) == (start + j) % n
  }

  lemma {:induction false} SeamlessServed(start: nat, m: nat, n: nat, t: nat)
    requires t < n && Seamless(start, m, n)
    ensures Served(start, m, n, t) == Below(start + m, n, t) - Below(start, n, t)
  {
    if m > 0 {
      SeamlessServed(start, m - 1, n, t);
      BelowNext(start + m - 1, n, t);
      assert Picked(start, m - 1, n) == (start + (m - 1)) % n;
    }
  }

  lemma SumQuotient(a: nat, m: nat, n: nat)
    requires n > 0
    ensures (a + m) / n == a / n + m / n + if a % n + m % n < n then 0 else 1
  {
    var q, r, p, s := a / n, a % n, m / n, m % n;
    Division(a, n);
    Division(m, n);
    Distribute(q, p, n);
    if r + s < n {
      Remainder(a + m, q + p, n, r + s);
    } else {
      Distribute(q + p, 1, n);
      Remainder(a + m, q + p + 1, n, r + s - n);
    }
  }

  lemma Share(a: nat, m: nat, n: nat)
    requires n > 0
    ensures m / n <= (a + m) / n - a / n <= (m + n - 1) / n
  {
    SumQuotient(a, m, n);
    SumQuotient(m, n - 1, n);
    Remainder(n - 1, 0, n, n - 1);
    Division(m, n);
    Division(a, n);
  }

  lemma SeamlessIsFair(start: nat, m: nat, n: nat)
    requires n > 0 && Seamless(start, m, n)
    ensures Fair(start, m, n)
  {
    forall t: nat | t < n ensures m / n <= Served(start, m, n, t) <= (m + n - 1) / n {
      SeamlessServed(start, m, n, t);
      assert start + m + n - 1 - t == (start + n - 1 - t) + m;
      Share(start + n - 1 - t, m, n);
    }
  }

  /** Every window that does not cross the wrap-around is fair. */
  lemma FairBelowTheWrap(start: nat, m: nat, n: nat)
    requires n > 0 && start + m <= TWO_64
    ensures Fair(start, m, n)
  {
    forall j: nat | j < m ensures Picked(start, j, n) == (start + j) % n {
      assert (start + j) % TWO_64 == start + j;
    }
    SeamlessIsFair(start, m, n);
  }

  /** A remainder survives wrapping when the number of targets divides 2^64. */
  lemma WrapKeepsRemainder(x: nat, n: nat)
    requires n > 0 && TWO_64 % n == 0
    ensures x % TWO_64 % n == x % n
  {
    var w, k := x / TWO_64, TWO_64 / n;
    var y := x % TWO_64;
    assert TWO_64 == k * n;
    assert x == w * TWO_64 + y && y == (y / n) * n + y % n;
    assert w * TWO_64 == (w * k) * n;
    assert x == (w * k + y / n) * n + y % n;
    Remainder(x, w * k + y / n, n, y % n);
  }

  /** The last values before the wrap-around and the first one after it pick target 0 twice. */
  lemma UnfairWindow(n: nat)
    requires 0 < n < TWO_64 && TWO_64 % n != 0
    ensures var q := TWO_64 % n;
            TWO_64 - q >= 0 && Served(TWO_64 - q, q + 1, n, 0) >= 2 && !Fair(TWO_64 - q, q + 1, n)
  {
    var q := TWO_64 % n;
    var start := TWO_64 - q;
    Division(TWO_64, n);
    Remainder(start, TWO_64 / n, n, 0);
    Remainder(q + 1 + n - 1, 1, n, q);
    PickedTwice(start, q, n);
  }

  lemma PickedTwice(start: nat, q: nat, n: nat)
    requires n > 0 && q > 0 && start + q == TWO_64 && start % n == 0
    ensures Served(start, q + 1, n, 0) >= 2
  {
    assert start % TWO_64 == start && TWO_64 % TWO_64 == 0;
    assert Picked(start, 0, n) == 0 && Picked(start, q, n) == 0;
    assert Served(start, 1, n, 0) == 1;
    ServedGrows(start, 1, q, n, 0);
  }

  lemma {:induction false} ServedGrows(start: nat, m: nat, m': nat, n: nat, t: nat)
    requires n > 0 && m <= m'
    ensures Served(start, m, n, t) <= Served(start, m', n, t)
    decreases m'
  {
    if m < m' {
      ServedGrows(start, m, m' - 1, n, t);
    }
  }

  /** Every window is fair, across the wrap-around too, exactly when the number of targets divides 2^64. */
  lemma FairIffDivides(n: nat)
    requires 0 < n < TWO_64
    ensures (forall start: nat, m: nat | start < TWO_64 :: Fair(start, m, n)) <==> TWO_64 % n == 0
  {
    if TWO_64 % n == 0 {
      forall start: nat, m: nat | start < TWO_64 ensures Fair(start, m, n) {
        forall j: nat | j < m ensures Picked(start, j, n) == (start + j) % n {
          WrapKeepsRemainder(start + j, n);
        }
        SeamlessIsFair(start, m, n);
      }
    } else {
      UnfairWindow(n);
    }
  }
}
