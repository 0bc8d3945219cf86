/** Definitions shared by every part of the model. */
module Base {

  datatype Option<+T> = None | Some(value: T)

  /** One octet of message data. */
  type byte = x: int | 0 <= x < 256

  /** `(n + p - 1) / p`, the conversion from bytes to packets used by both ends. */
  function CeilDiv(n: nat, p: nat): (q: nat)
    requires 0 < p
    ensures n <= q * p < n + p
  {
    DivBounds(n + p - 1, p);
    (n + p - 1) / p
  }

  lemma DivBounds(n: nat, p: nat)
    requires 0 < p
    ensures n / p * p <= n < n / p * p + p
  {
  }

  /** Multiplication by a positive number is strictly monotone. */
  lemma {:induction false} MulMono(a: int, b: int, p: nat)
    requires 0 < p
    ensures a < b ==> a * p + p <= b * p
    ensures a <= b ==> a * p <= b * p
    decreases b - a
  {
    if a < b {
      MulMono(a + 1, b, p);
      assert (a + 1) * p == a * p + p;
    }
  }

  /** `k` packets cover `n` bytes exactly when `CeilDiv(n, p) <= k`. */
  lemma CeilDivLeast(n: nat, p: nat, k: nat)
    requires 0 < p
    ensures CeilDiv(n, p) <= k <==> n <= k * p
  {
    MulMono(k, CeilDiv(n, p), p);
    MulMono(CeilDiv(n, p), k, p);
  }

  lemma CeilDivMono(m: nat, n: nat, p: nat)
    requires 0 < p && m <= n
    ensures CeilDiv(m, p) <= CeilDiv(n, p)
  {
    CeilDivLeast(m, p, CeilDiv(n, p));
  }

  function Min(a: int, b: int): int { if a < b then a else b }

  function Max(a: int, b: int): int { if a < b then b else a }

  ghost predicate NoDup<T>(s: seq<T>) {
    forall i, j | 0 <= i < j < |s| :: s[i] != s[j]
  }
}
