/** What several components need of optional values and sets. */
module Collections {

  datatype Option<T> = None | Some(value: T)

  lemma SubsetCard<T>(a: set<T>, b: set<T>)
    requires a <= b
    ensures |a| <= |b|
  {
    assert b == a + (b - a);
  }
}
