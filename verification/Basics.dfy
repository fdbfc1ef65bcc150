/** Small things shared by the models. */
module Basics {
  datatype Option<+T> = None | Some(value: T)

  function Min(a: nat, b: nat): nat {
    if a < b then a else b
  }

  lemma Assoc<T>(a: seq<T>, b: seq<T>, c: seq<T>)
    ensures (a + b) + c == a + (b + c)
  {
  }

  lemma MulAtLeast(x: int, b: int)
    requires x >= 1 && b >= 0
    ensures x * b >= b
  {
    assert x * b == (x - 1) * b + b;
  }

  /** Quotient and remainder are determined by n == q * b + r. */
  lemma DivModUnique(n: int, b: int, q: int, r: int)
    requires 0 <= r < b && n == q * b + r
    ensures q == n / b && r == n % b
  {
    var q', r' := n / b, n % b;
    assert n == q' * b + r';
    assert (q' - q) * b == r - r' && (q - q') * b == r' - r;
    if q < q' { MulAtLeast(q' - q, b); }
    if q > q' { MulAtLeast(q - q', b); }
  }
}
