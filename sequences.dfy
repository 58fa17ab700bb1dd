/** Facts about sequences shared by the framing loop and the alert sort. */
module Sequences {

  lemma AppendAssociative<T>(a: seq<T>, b: seq<T>, c: seq<T>)
    ensures a + (b + c) == (a + b) + c
  {
  }
}
