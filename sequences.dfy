/** Facts about sequence concatenation shared by the parsers and the filter. */
module Sequences {

  /** Concatenation is associative; the solver does not always regroup long chains unaided. */
  lemma ConcatAssoc<T>(a: seq<T>, b: seq<T>, c: seq<T>)
    ensures a + (b + c) == (a + b) + c
  {
  }
}
