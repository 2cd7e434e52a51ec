// Sizes of finite sets, and products.
module Counting {
  lemma OneFewer<T>(all: set<T>, rest: set<T>, x: T)
    requires x in rest && rest <= all
    ensures |all - (rest - {x})| == |all - rest| + 1
  {
    assert all - (rest - {x}) == (all - rest) + {x};
  }

  lemma SubsetSize<T>(a: set<T>, b: set<T>)
    requires a <= b
    ensures |a| <= |b|
  {
    assert a + (b - a) == b;
  }

  lemma MulLess(a: int, b: int, n: int)
    ensures (a - b) * n == a * n - b * n
  {
  }

  lemma MulAtLeast(a: int, k: int, n: nat)
    requires a >= k
    ensures a * n >= k * n
  {
  }

  lemma MulPred(w: int, n: int)
    ensures w * (n - 1) == w * n - w
  {
  }
}
