/** Failure-carrying datatypes shared by the validator model.
    A JavaScript `throw` becomes a `Fail`/`Failure` value; normal completion
    becomes `Pass`/`Success`. */
module Outcomes {

  datatype Option<+T> = None | Some(value: T)

  /** The outcome of a check that returns nothing on success. */
  datatype Outcome<+E> = Pass | Fail(error: E) {

    /** Sequential composition: run `next` only if this check passed.
        Both sides are pure, so evaluating `next` eagerly is harmless. */
    function Then(next: Outcome<E>): (r: Outcome<E>)
      ensures Fail? ==> r == this
      ensures Pass? ==> r == next
    {
      if Fail? then this else next
    }
  }

  /** A computation that either yields a value or fails with an error. */
  datatype Result<+T, +E> = Success(value: T) | Failure(error: E)
}
