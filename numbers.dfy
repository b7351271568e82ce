/** Facts about division of reals used by the scoring rules. */
module Numbers {

  /** Dividing by a positive number keeps a lower bound, scaled. */
  lemma QuotientAtLeast(x: real, n: real, y: real)
    requires n > 0.0
    ensures x / n >= y <==> x >= y * n
  {
    assert (x / n) * n == x;
    if x / n >= y {
      assert (x / n) * n >= y * n;
    } else {
      assert (x / n) * n < y * n;
    }
  }

  /** Dividing by a positive number keeps an upper bound, scaled. */
  lemma QuotientAtMost(x: real, n: real, y: real)
    requires n > 0.0
    ensures x / n <= y <==> x <= y * n
  {
    assert (x / n) * n == x;
    if x / n <= y {
      assert (x / n) * n <= y * n;
    } else {
      assert (x / n) * n > y * n;
    }
  }
}
