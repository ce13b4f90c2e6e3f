/** Division with remainder: the facts that slots and aligned areas need. */
module Remainders {

  lemma {:induction false} ProductNotNegative(a: nat, b: nat)
    ensures a * b >= 0
  {
    if b > 0 {
      assert a * b == a * (b - 1) + a;
      ProductNotNegative(a, b - 1);
    }
  }

  lemma {:induction false} AtLeastOnce(size: nat, k: int)
    requires k != 0
    ensures size * k >= size || size * k + size <= 0
  {
    if k > 0 {
      assert size * k == size + size * (k - 1);
      ProductNotNegative(size, k - 1);
    } else {
      assert size * k + size == -(size * (-k - 1));
      ProductNotNegative(size, -k - 1);
    }
  }

  /** The remainder is the only one. */
  lemma {:induction false} Remainder(n: nat, q: int, r: nat, size: nat)
    requires r < size && n == size * q + r
    ensures n % size == r
  {
    var p := n / size;
    assert n == size * p + n % size;
    if q != p {
      assert size * (q - p) == size * q - size * p;
      AtLeastOnce(size, q - p);
    }
  }
}
