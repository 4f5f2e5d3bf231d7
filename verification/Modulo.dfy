/** Remainders by a variable divisor: ring positions and wrapping indices. */
module Modulo {

  lemma Multiples(n: nat, d: int)
    ensures d <= 0 ==> n * d <= 0
    ensures d >= 1 ==> n * d >= n
  {
    if d >= 1 { assert n * d == n + n * (d - 1) && n * (d - 1) >= 0; }
  }

  /** Division has one quotient and one remainder. */
  lemma ModOf(n: nat, q: nat, r: nat)
    requires r < n
    ensures (n * q + r) % n == r
  {
    var x := n * q + r;
    var p, s := x / n, x % n;
    assert n * (p - q) == n * p - n * q == r - s;
    assert n * (q - p) == s - r;
    Multiples(n, p - q);
    Multiples(n, q - p);
  }

  /** Numbers less than n apart have different remainders. */
  lemma NoSharedPosition(i: nat, j: nat, n: nat)
    requires 0 < n && i < j < i + n
    ensures i % n != j % n
  {
    var a, b := i / n, j / n;
    assert i == n * a + i % n && j == n * b + j % n;
    assert n * (b - a) == n * b - n * a;
    Multiples(n, b - a);
  }

  /** Wrapping an index by a multiple of n keeps its remainder by n. */
  lemma WrapKeeps(x: nat, wrap: nat, n: nat)
    requires 0 < n && 0 < wrap && wrap % n == 0
    ensures (x % wrap) % n == x % n
  {
    var c, q, y := wrap / n, x / wrap, x % wrap;
    var k := c * q + y / n;
    assert x == n * k + y % n by {
      assert wrap == n * c && x == wrap * q + y && y == n * (y / n) + y % n;
      assert n * c * q == n * (c * q);
      assert n * k == n * (c * q) + n * (y / n);
    }
    ModOf(n, k, y % n);
  }

  /** Probe steps from slot a to slot b, wrapping at n. */
  function Dist(n: nat, a: nat, b: nat): (d: nat)
    requires a < n && b < n
  {
    if a <= b then b - a else b - a + n
  }
}
