/**
 Small things used throughout.
 */
module Basics {

  datatype Option<+T> = None | Some(value: T)

  lemma Assoc<X>(a: seq<X>, b: seq<X>, c: seq<X>)
    ensures a + b + c == a + (b + c)
  {
  }

  /** A fact stated for all i that are asked for is looked into only where Asked(0) is asserted. */
  predicate Asked(i: int) { true }
}
