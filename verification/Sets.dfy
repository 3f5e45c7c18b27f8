/** A fact about finite sets. */
module Sets {
  lemma {:induction false} SubsetSize<T>(small: set<T>, large: set<T>)
    requires small <= large
    ensures |small| <= |large|
  {
    if x :| x in small {
      SubsetSize(small - {x}, large - {x});
    }
  }
}
