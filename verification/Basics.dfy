/** Facts about sequences and products that several components use. */
module Basics {
  lemma Together<T>(a: seq<T>, b: seq<T>, c: seq<T>)
    ensures (a + b) + c == a + (b + c)
  {
  }

  lemma FewerFit(n: nat, m: nat, w: nat)
    requires n <= m
    ensures n * w <= m * w
  {
    assert m * w == n * w + (m - n) * w;
  }
}
