/** Sizes of finite sets. */
module Sets {
  lemma {:induction false} SubsetSize<T>(x: set<T>, y: set<T>)
    requires x <= y
    ensures |x| <= |y|
  {
    assert y == x + (y - x);
  }

  lemma Member<T>(x: set<T>) returns (e: T)
    requires |x| > 0
    ensures e in x
  {
    e :| e in x;
  }
}
