/** Facts about products and quotients of integers. */
module Arithmetic {
  function Min(a: int, b: int): int {
    if a <= b then a else b
  }

  lemma MulMonotone(a: nat, b: nat, c: nat)
    requires a <= b
    ensures a * c <= b * c
    ensures a < b ==> a * c + c <= b * c
  {
    assert b * c == a * c + (b - a) * c;
    assert a < b ==> (b - a) * c == c + (b - a - 1) * c;
  }

  lemma Distribute(a: nat, b: nat, c: nat)
    ensures (a + b) * c == a * c + b * c
  {
  }

  lemma AtLeastOnce(parts: nat, q: nat)
    requires parts > 0
    ensures parts * q >= q
  {
    assert parts * q == (parts - 1) * q + q;
  }

  lemma BigMultiple(n: int, d: int)
    requires n > 0
    ensures d >= 1 ==> n * d >= n
    ensures d <= -1 ==> n * d <= -n
  {
    if d >= 1 {
      assert n * d == n + n * (d - 1);
    } else if d <= -1 {
      assert n * d == -n + n * (d + 1);
    }
  }

  lemma DivOfMultiple(n: nat, size: nat, r: nat)
    requires n > 0 && r < n
    ensures (n * size + r) / n == size && (n * size + r) % n == r
  {
    var x := n * size + r;
    assert x == n * (x / n) + x % n;
    assert n * (x / n - size) == n * (x / n) - n * size;
    BigMultiple(n, x / n - size);
  }

  lemma OneRoundLess(rounds: int, size: int)
    ensures (rounds - 1) * size == rounds * size - size
  {
  }

  lemma RoundsAtLeast(rounds: int, size: nat)
    ensures rounds >= 0 ==> rounds * size >= 0
    ensures rounds >= 1 ==> rounds * size >= size
  {
    if rounds >= 1 { OneRoundLess(rounds, size); assert (rounds - 1) * size >= 0; }
  }

  function CeilDiv(a: nat, b: nat): nat
    requires b > 0
  {
    (a + b - 1) / b
  }

  lemma CeilOfPositive(a: nat, b: nat)
    requires a > 0 && b > 0
    ensures CeilDiv(a, b) > 0
  {
    assert a + b - 1 >= b;
  }

  lemma CeilCovers(a: nat, b: nat)
    requires b > 0
    ensures a <= b * CeilDiv(a, b) < a + b
  {
    var x := a + b - 1;
    assert x == b * (x / b) + x % b;
  }

  /** CeilDiv(a, b) is the least number of pieces of size b that hold a. */
  lemma CeilIsLeast(a: nat, b: nat, m: nat)
    requires b > 0
    ensures a <= m * b <==> CeilDiv(a, b) <= m
  {
    var c := CeilDiv(a, b);
    CeilCovers(a, b);
    if c <= m {
      MulMonotone(c, m, b);
    } else {
      MulMonotone(m, c, b);
    }
  }

  lemma CeilIs(a: nat, b: nat)
    requires b > 0
    ensures CeilDiv(a, b) == a / b + if a % b > 0 then 1 else 0
  {
    var q, r := a / b, a % b;
    assert a == b * q + r;
    if r == 0 {
      DivOfMultiple(b, q, b - 1);
    } else {
      assert a + b - 1 == b * (q + 1) + (r - 1);
      DivOfMultiple(b, q + 1, r - 1);
    }
  }

  lemma DivMod(i: nat, n: nat)
    requires n > 0
    ensures (i / n) * n + i % n == i
  {
    assert i == n * (i / n) + i % n;
  }
}
