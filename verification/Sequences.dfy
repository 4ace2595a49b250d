/** Regrouping concatenations, for the modules that continue a run step by step. */
module Sequences {

  lemma FirstMoves<T>(a: seq<T>, b: seq<T>)
    requires b != []
    ensures a + b == a + [b[0]] + b[1..]
  {
  }
}
