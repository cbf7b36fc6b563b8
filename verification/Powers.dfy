/** Powers of two, and the bit tricks that rest on them. */
module Powers {
  function Pow2(n: nat): (p: nat)
    ensures p > n
  {
    if n == 0 then 1 else 2 * Pow2(n - 1)
  }

  lemma {:induction false} Pow2Monotone(a: nat, b: nat)
    requires a <= b
    ensures Pow2(a) <= Pow2(b)
    decreases b
  {
    if a < b { Pow2Monotone(a, b - 1); }
  }

  /** Bitwise and of two numbers. */
  function BitAnd(a: nat, b: nat): nat {
    if a == 0 || b == 0 then 0 else 2 * BitAnd(a / 2, b / 2) + if a % 2 == 1 && b % 2 == 1 then 1 else 0
  }

  /** Masking with one less than a power of two is the remainder. */
  lemma {:induction false} MaskWraps(x: nat, k: nat)
    ensures BitAnd(x, Pow2(k) - 1) == x % Pow2(k)
  {
    if k > 0 {
      MaskWraps(x / 2, k - 1);
      MaskDoubles(x, Pow2(k - 1));
    }
  }

  lemma {:induction false} MaskDoubles(x: nat, p: nat)
    requires p > 0 && BitAnd(x / 2, p - 1) == x / 2 % p
    ensures BitAnd(x, 2 * p - 1) == x % (2 * p)
  {
    HalfRemainder(x, p);
    assert (2 * p - 1) / 2 == p - 1 && (2 * p - 1) % 2 == 1;
  }

  lemma {:induction false} HalfRemainder(x: nat, p: nat)
    requires p > 0
    ensures x % (2 * p) == 2 * ((x / 2) % p) + x % 2
  {
    var h, q, r := x / 2, x / 2 / p, x / 2 % p;
    assert h == p * q + r;
    assert x == (2 * p) * q + (2 * r + x % 2);
    RemainderOf(x, 2 * p, q, 2 * r + x % 2);
  }

  lemma {:induction false} RemainderOf(x: nat, m: nat, q: nat, r: nat)
    requires x == m * q + r && r < m
    ensures x % m == r && x / m == q
  {
    var d := x / m - q;
    assert m * d == m * (x / m) - m * q == r - x % m;
    if d >= 1 {
      MulAtLeast(m, d);
    } else if d <= -1 {
      MulAtLeast(m, -d);
    }
  }

  lemma {:induction false} MulAtLeast(m: nat, d: int)
    requires d >= 1
    ensures m * d >= m
  {
    assert m * d == m + m * (d - 1);
  }

  /** The exponent of the least power of two that is at least `n`. */
  function CeilLog(n: nat): (k: nat)
    ensures n <= Pow2(k) && (k > 0 ==> Pow2(k - 1) < n)
  {
    CeilLogFrom(n, 0)
  }

  function CeilLogFrom(n: nat, k: nat): (j: nat)
    requires k > 0 ==> Pow2(k - 1) < n
    ensures n <= Pow2(j) && (j > 0 ==> Pow2(j - 1) < n)
    decreases n - Pow2(k)
  {
    if n <= Pow2(k) then k else CeilLogFrom(n, k + 1)
  }

  function BitCeil(n: nat): nat {
    Pow2(CeilLog(n))
  }

  /** Bitwise or of two numbers. */
  function BitOr(a: nat, b: nat): nat {
    if a == 0 then b else if b == 0 then a
    else 2 * BitOr(a / 2, b / 2) + if a % 2 == 1 || b % 2 == 1 then 1 else 0
  }

  /** Fields that do not overlap add up. */
  lemma {:induction false} OrDisjoint(a: nat, b: nat, k: nat)
    requires a < Pow2(k)
    ensures BitOr(a, b * Pow2(k)) == a + b * Pow2(k)
    decreases k
  {
    if k > 0 && a > 0 && b > 0 {
      var c := b * Pow2(k - 1);
      assert b * Pow2(k) == 2 * c;
      assert c > 0;
      OrDisjoint(a / 2, b, k - 1);
    }
  }

  lemma {:induction false} Pow2Sum(a: nat, b: nat)
    ensures Pow2(a + b) == Pow2(a) * Pow2(b)
  {
    if b > 0 { Pow2Sum(a, b - 1); }
  }
}
