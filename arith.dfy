/** Small facts about multiplication, division and remainder used by the
    block-addressing proofs. */
module Arith {

  /** Division and remainder are determined by any decomposition a == q*b + r with 0 <= r < b. */
  lemma DivModUnique(a: int, b: int, q: int, r: int)
    requires b > 0 && 0 <= r < b && a == q * b + r
    ensures a / b == q && a % b == r
  {
    var q0, r0 := a / b, a % b;
    assert a == q0 * b + r0;
    assert (q - q0) * b == r0 - r;
    if q > q0 {
      MulAtLeast(q - q0, b);
    } else if q < q0 {
      MulAtLeast(q0 - q, b);
    }
  }

  lemma MulAtLeast(k: int, b: int)
    requires k >= 1 && b >= 0
    ensures k * b >= b
  {
    assert k * b == (k - 1) * b + b;
  }

  lemma MulAddDistrib(a: int, b: int, c: int)
    ensures (a + b) * c == a * c + b * c
  {
  }

  /** Multiplying by a positive factor preserves and reflects <=. */
  lemma MulLeIff(a: int, c: int, k: int)
    requires k > 0
    ensures a * k <= c * k <==> a <= c
  {
    if a <= c {
      assert c * k - a * k == (c - a) * k;
    } else {
      assert a * k - c * k == (a - c) * k;
      MulAtLeast(a - c, k);
    }
  }

  /** Multiplying by a positive factor preserves and reflects <. */
  lemma MulLtIff(a: int, c: int, k: int)
    requires k > 0
    ensures a * k < c * k <==> a < c
  {
    MulLeIff(c, a, k);
  }
}
