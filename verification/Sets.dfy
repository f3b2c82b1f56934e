/** Counting subsets. */
module Sets {
  lemma SubsetCount<T>(a: set<T>, b: set<T>)
    requires a <= b
    ensures |a| <= |b|
    ensures |a| == |b| ==> a == b
  {
    assert b == a + (b - a) && a !! (b - a);
    if |a| == |b| {
      assert b - a == {};
    }
  }
}
