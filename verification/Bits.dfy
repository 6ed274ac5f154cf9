/** Bitwise conjunction and powers of two on unbounded naturals. */
module Bits {

  /** `x & y`. */
  function And(x: nat, y: nat): (r: nat)
    ensures r <= y
    decreases x
  {
    if x == 0 || y == 0 then 0
    else (if x % 2 == 1 && y % 2 == 1 then 1 else 0) + 2 * And(x / 2, y / 2)
  }

  predicate IsPow2(n: nat)
    decreases n
  {
    n == 1 || (n > 1 && n % 2 == 0 && IsPow2(n / 2))
  }

  /** Masking with a power of two less one keeps every smaller number. */
  lemma {:induction false} MaskKeeps(x: nat, n: nat)
    requires IsPow2(n) && x < n
    ensures And(x, n - 1) == x
    decreases n
  {
    if n > 1 {
      assert (n - 1) % 2 == 1 && (n - 1) / 2 == n / 2 - 1;
      MaskKeeps(x / 2, n / 2);
    }
  }

  /** ... and sends the power of two itself to zero. */
  lemma {:induction false} MaskWraps(n: nat)
    requires IsPow2(n)
    ensures And(n, n - 1) == 0
    decreases n
  {
    if n > 1 {
      assert (n - 1) / 2 == n / 2 - 1;
      MaskWraps(n / 2);
    }
  }

  lemma AndStep(x: nat, m: nat)
    requires m > 0
    ensures And(x, 2 * m - 1) == x % 2 + 2 * And(x / 2, m - 1)
  {
    assert (2 * m - 1) % 2 == 1 && (2 * m - 1) / 2 == m - 1;
  }

  /** What is masked away is a multiple of the power of two, ... */
  lemma {:induction false} MaskRest(x: nat, n: nat) returns (q: nat)
    requires IsPow2(n)
    ensures x == n * q + And(x, n - 1)
    decreases n
  {
    hide And;
    if n == 1 {
      q := x;
    } else {
      q := MaskRest(x / 2, n / 2);
      AndStep(x, n / 2);
      Twice(n / 2, q);
    }
  }

  lemma Twice(m: nat, q: nat)
    ensures 2 * m * q == 2 * (m * q)
  {
  }

  /** ... so that the remainder stays. */
  lemma MaskMod(x: nat, n: nat)
    requires IsPow2(n)
    ensures And(x, n - 1) == x % n
  {
    hide And, IsPow2;
    var q := MaskRest(x, n);
    ModUnique(x, n, q, And(x, n - 1));
  }

  lemma ModUnique(a: nat, d: nat, q: nat, r: nat)
    requires r < d && a == d * q + r
    ensures a % d == r
  {
    var x, y := a / d, a % d;
    assert a == d * x + y;
    assert d * (x - q) == r - y;
    if x > q {
      Multiple(d, x - q);
    } else if x < q {
      Multiple(d, q - x);
    }
  }

  lemma Multiple(d: nat, k: nat)
    requires k >= 1
    ensures d * k >= d
  {
  }

  lemma {:induction false} Pow2Mul(m: nat, n: nat)
    requires IsPow2(m) && IsPow2(n)
    ensures IsPow2(m * n)
    decreases m
  {
    if m > 1 {
      Pow2Mul(m / 2, n);
      assert m * n == 2 * (m / 2 * n);
    }
  }

  /** A strictly larger power of two is at least twice as large. */
  lemma {:induction false} Pow2Gap(m: nat, n: nat)
    requires IsPow2(m) && IsPow2(n) && m < n
    ensures 2 * m <= n
    decreases m
  {
    if m > 1 {
      Pow2Gap(m / 2, n / 2);
    }
  }
}
