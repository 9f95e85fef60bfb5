module Wrappers {
  /** A value, or its absence where the C program has a null pointer or a variable that was never assigned. */
  datatype Option<+T> = None | Some(value: T)

  /** A predicate of the form `forall t :: Look(t) ==> P` is P, but its parts are seen only where `Look`
      is mentioned. This keeps the proofs that pass such a predicate on small. */
  ghost predicate Look(t: int) {
    true
  }

  /** The same for predicates that are to be seen apart from those. */
  ghost predicate See(t: int) {
    true
  }
}
