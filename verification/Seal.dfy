/**
  A sealed predicate, `forall u {:trigger Open(u)} :: Open(u) ==> P`, is the same
  as P, but the verifier looks inside only where a proof mentions Open.  It keeps
  large invariants out of the proofs that merely pass them on.
  */
module Seal {
  predicate Open(u: int) { true }

  /** A second key, for predicates made of sealed ones. */
  predicate Unfold(u: int) { true }

  /** A third, for predicates about runs. */
  predicate Look(u: int) { true }
}
