/** Division facts. */
module Arithmetic {

  lemma RemainderIsUnique(v: int, d: int, k: int, r: int)
    requires d > 0 && 0 <= r < d && v == k * d + r
    ensures v % d == r && v / d == k
  {
    assert v == d * (v / d) + v % d;
    QuotientIsOrdered(k, r, v / d, v % d, d);
    QuotientIsOrdered(v / d, v % d, k, r, d);
  }

  lemma QuotientIsOrdered(k: int, r: int, k': int, r': int, d: int)
    requires 0 <= r < d && 0 <= r' < d && k * d + r == k' * d + r'
    ensures k <= k'
  {
    if k > k' {
      Multiples(k - k', d);
      assert false;
    }
  }

  lemma Multiples(m: int, d: int)
    requires m >= 1 && d > 0
    ensures m * d >= d
  {
  }

  lemma ProductOrder(q: int, t: int, d: int)
    requires d > 0
    ensures q * d < t * d ==> q < t
    ensures q >= t ==> q * d >= t * d
  {
    if q >= t {
      var m := q - t;
      assert m * d >= 0;
      assert (m + t) * d == m * d + t * d;
    }
  }

  /** s / n rounded up: the number of steps of n that reach s. */
  function Ceil(s: int, n: nat): nat
    requires n > 0
    decreases if s > 0 then s else 0
  {
    if s <= 0 then 0 else 1 + Ceil(s - n, n)
  }

  /** The least m with s <= m * n. */
  lemma {:induction false} CeilIsLeast(s: int, n: nat, m: nat)
    requires n > 0
    ensures Ceil(s, n) <= m <==> s <= m * n
    decreases if s > 0 then s else 0
  {
    if s <= 0 {
      assert 0 <= m * n;
    } else if m > 0 {
      CeilIsLeast(s - n, n, m - 1);
      assert (m - 1) * n == m * n - n;
    }
  }

  lemma CeilBetween(s: nat, n: nat, q: nat, r: nat)
    requires n > 0 && s + n - 1 == n * q + r && r < n
    ensures Ceil(s, n) == q
  {
    CeilIsLeast(s, n, q);
    if q > 0 {
      CeilIsLeast(s, n, q - 1);
      assert (q - 1) * n == q * n - n;
    }
  }

  /** It is the quotient rounded up. */
  lemma CeilIsQuotient(s: nat, n: nat)
    requires n > 0
    ensures Ceil(s, n) == (s + n - 1) / n
  {
    var t := s + n - 1;
    CeilBetween(s, n, t / n, t % n);
  }

  lemma CeilIsMonotone(s: nat, t: nat, n: nat)
    requires n > 0 && s <= t
    ensures Ceil(s, n) <= Ceil(t, n)
  {
    CeilIsLeast(t, n, Ceil(t, n));
    CeilIsLeast(s, n, Ceil(t, n));
  }

  /** One more fits below h * n, and makes a new top exactly at h * n. */
  lemma CeilOfOneMore(s: nat, n: nat, h: nat)
    requires n > 0
    ensures s < h * n ==> Ceil(s + 1, n) <= h
    ensures s == h * n ==> Ceil(s + 1, n) == h + 1
  {
    CeilIsLeast(s + 1, n, h);
    CeilIsLeast(s + 1, n, h + 1);
    assert (h + 1) * n == h * n + n;
  }

  function Max(a: int, b: int): int {
    if a > b then a else b
  }
}
