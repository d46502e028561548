/** Facts about objects that a proof has at hand. */
module Allocation {

  /** Objects at hand exist, so what is new later is none of them. */
  lemma Existing<T>(s: set<T>) returns (r: set<T>)
    ensures r == s
  {
    r := s;
  }
}
