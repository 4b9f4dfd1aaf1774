/** Bitwise AND on natural numbers, as far as the hash tables use it: `x & (size - 1)`. */
module Bits {

  function And(a: nat, b: nat): nat {
    if a == 0 || b == 0 then 0 else 2 * And(a / 2, b / 2) + (a % 2) * (b % 2)
  }

  predicate PowerOfTwo(n: nat) {
    n == 1 || (n > 1 && n % 2 == 0 && PowerOfTwo(n / 2))
  }

  /** Masking with a power of two less one is the remainder: why the tables keep a power-of-two size. */
  lemma {:induction false} AndMask(a: nat, n: nat)
    requires PowerOfTwo(n)
    ensures And(a, n - 1) == a % n
  {
    if n > 1 {
      var m := n / 2;
      AndMask(a / 2, m);
      assert (n - 1) / 2 == m - 1 && (n - 1) % 2 == 1;
      RemainderSplit(a, m);
    }
  }

  lemma RemainderSplit(a: nat, m: nat)
    requires m > 0
    ensures a % (2 * m) == 2 * ((a / 2) % m) + a % 2
  {
    var q, s := (a / 2) / m, (a / 2) % m;
    assert a / 2 == m * q + s;
    assert a == (2 * m) * q + (2 * s + a % 2) by {
      assert a == 2 * (a / 2) + a % 2;
      assert 2 * (m * q) == (2 * m) * q;
    }
    RemainderIs(a, 2 * m, q, 2 * s + a % 2);
  }

  /** Euclidean division is determined by its equation. */
  lemma RemainderIs(a: int, n: nat, q: int, r: nat)
    requires n > 0 && r < n && a == n * q + r
    ensures a % n == r && a / n == q
  {
    var d := a / n;
    assert a == n * d + a % n;
    if d < q {
      MulMonotone(n, d + 1, q);
    } else if q < d {
      MulMonotone(n, q + 1, d);
    }
  }

  lemma MulMonotone(n: nat, x: int, y: int)
    requires x <= y
    ensures n * x <= n * y
  {}

  lemma RemainderAdd(x: int, y: int, n: nat)
    requires n > 0
    ensures (x % n + y) % n == (x + y) % n
  {
    var q, p := x / n, (x % n + y) / n;
    assert x == n * q + x % n;
    assert x % n + y == n * p + (x % n + y) % n;
    assert n * (q + p) == n * q + n * p;
    RemainderIs(x + y, n, q + p, (x % n + y) % n);
  }
}
