/** The few facts about remainders the ring and the slab layout rest on. */
module Modular {
  lemma MulSign(k: int, n: int)
    requires n > 0
    ensures k >= 1 ==> k * n >= n
    ensures k <= -1 ==> k * n <= -n
  {
    if k <= -1 {
      assert (-k) * n >= n;
    }
  }

  /** Quotient and remainder are unique. */
  lemma ModUnique(x: int, n: int, q: int, r: int)
    requires n > 0 && x == q * n + r && 0 <= r < n
    ensures x % n == r
  {
    var p := x / n;
    assert x == p * n + x % n;
    assert (q - p) * n == q * n - p * n;
    MulSign(q - p, n);
  }

  /** Two numbers with the same remainder are equal or a full modulus apart. */
  lemma SamePlace(a: nat, b: nat, n: nat)
    requires n > 0 && a <= b && a % n == b % n
    ensures a == b || b >= a + n
  {
    var d := b / n - a / n;
    assert a == (a / n) * n + a % n && b == (b / n) * n + b % n;
    assert d * n == (b / n) * n - (a / n) * n;
    MulSign(d, n);
  }

  /** Reducing by a multiple of the modulus first changes nothing. */
  lemma ModMod(x: nat, m: nat, n: nat, k: nat)
    requires n > 0 && m > 0 && k * n == m
    ensures (x % m) % n == x % n
  {
    var q, r := x / m, x % m;
    var p := r / n;
    assert r == p * n + r % n && x == q * m + r;
    assert x == (q * k + p) * n + r % n by {
      assert q * k * n == q * (k * n);
      assert (q * k + p) * n == q * k * n + p * n;
    }
    ModUnique(x, n, q * k + p, r % n);
  }
}
