/** Facts about the sizes of finite sets. */
module Sizes {
  function Bit(b: bool): int { if b then 1 else 0 }

  lemma SubsetSize<T>(x: set<T>, y: set<T>)
    requires x <= y
    ensures |x| <= |y|
  {
    assert y == x + (y - x);
  }

  lemma AtMostOne<T>(x: set<T>)
    requires forall a, b :: a in x && b in x ==> a == b
    ensures |x| <= 1
  {
    if a :| a in x {
      assert x == {a};
    }
  }

  /** Sets that differ in one element at most. */
  lemma SameApartFrom<T>(x: set<T>, y: set<T>, t: T)
    requires forall a :: a != t ==> (a in x <==> a in y)
    ensures |y| == |x| - Bit(t in x) + Bit(t in y)
  {
    assert y - {t} == x - {t};
    assert |x - {t}| == |x| - Bit(t in x) && |y - {t}| == |y| - Bit(t in y);
  }
}
