/** Bytes, powers of two, and small facts about products and quotients. */
module Arithmetic {
  type Byte = b: int | 0 <= b < 256

  function Pow2(n: nat): (p: nat)
    ensures p > 0
  {
    if n == 0 then 1 else 2 * Pow2(n - 1)
  }

  lemma {:induction false} MulMono(p: nat, a: nat, b: nat)
    requires a <= b
    ensures p * a <= p * b
  {
  }

  lemma {:induction false} ModUnique(x: int, n: nat, q: int, r: nat)
    requires r < n && x == n * q + r
    ensures x % n == r && x / n == q
  {
    var d := q - x / n;
    assert n * d == x % n - r by {
      assert n * d == n * q - n * (x / n);
    }
    SmallMultiple(n, d);
  }

  lemma {:induction false} SmallMultiple(n: nat, d: int)
    requires 0 < n + n * d < 2 * n
    ensures d == 0
  {
  }

  lemma {:induction false} Scaled(k: int, x: int, p: int, q: int)
    requires x == k * p
    ensures x * q == k * (p * q)
  {
    Regroup(k, p, q);
  }

  lemma {:induction false} SwapMiddle(a: int, b: int, c: int)
    ensures b * (a * c) == a * (b * c)
  {
    Regroup(b, a, c);
    Regroup(a, b, c);
  }

  lemma {:induction false} Pow2Adds(a: nat, b: nat)
    ensures Pow2(a + b) == Pow2(a) * Pow2(b)
  {
    if a > 0 {
      Pow2Adds(a - 1, b);
      Scaled(2, Pow2(a), Pow2(a - 1), Pow2(b));
    }
  }

  lemma {:induction false} DivMod(x: int, p: nat)
    requires p > 0
    ensures x == p * (x / p) + x % p
  {
  }

  lemma {:induction false} Expand(p: int, u: int, r: int, s: int)
    ensures (p * u + r) * s == p * s * u + r * s
  {
  }

  lemma {:induction false} Regroup(a: int, b: int, c: int)
    ensures a * b * c == a * (b * c)
  {
  }

  lemma {:induction false} Distribute(a: int, b: int, c: int)
    ensures a * (b + c) == a * b + a * c
  {
  }

  lemma {:induction false} Pow2Of32()
    ensures Pow2(32) == 0x1_0000_0000
  {
    assert Pow2(8) == 256;
    Pow2Adds(8, 8);
    Pow2Adds(16, 16);
  }

  lemma {:induction false} DivideTwice(x: nat, a: nat, b: nat)
    requires a > 0 && b > 0
    ensures a * b > 0 && x / (a * b) == x / a / b && x % (a * b) == x / a % b * a + x % a
  {
    var q, r := x / a / b, x / a % b;
    DivMod(x, a);
    DivMod(x / a, b);
    MulMono(a, r + 1, b);
    Distribute(a, r, 1);
    Distribute(a, b * q, r);
    Regroup(a, b, q);
    ModUnique(x, a * b, q, a * r + x % a);
  }
}
