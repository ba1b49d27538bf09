/** Facts about sequences of names that the catalog and the configuration
    share. */
module Seqs {

  /** No name occurs twice (the keys of a JavaScript object, or a catalog
      list written without repetitions). */
  predicate Distinct<T(==)>(s: seq<T>) {
    forall i, j :: 0 <= i < j < |s| ==> s[i] != s[j]
  }

  /** In a repetition-free sequence every element occurs exactly once. */
  lemma {:induction false} DistinctOccursOnce<T>(s: seq<T>, x: T)
    requires Distinct(s)
    ensures multiset(s)[x] == if x in s then 1 else 0
  {
    if s != [] {
      var init, last := s[..|s| - 1], s[|s| - 1];
      assert s == init + [last];
      assert Distinct(init);
      DistinctOccursOnce(init, x);
      if x == last {
        assert x !in init;
      }
    }
  }
}
