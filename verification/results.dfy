/** Failure-carrying datatypes shared by the sampler, the positions and the builder. */
module Results {

  /** An optional value; a reservoir slot is an `Option` (empty or holding one item). */
  datatype Option<+T> = None | Some(value: T)

  /** The outcome of an operation that either produces a value or fails with an error. */
  datatype Result<+R, +E> = Ok(value: R) | Err(error: E)

  /** The outcome of an operation that produces nothing but may fail. */
  datatype Outcome<+E> = Pass | Fail(error: E)

  /** The state of a value after an in-place operation, together with whether the
      operation succeeded. This is how `&mut self -> Result<&mut Self, E>` calls are
      modelled: `after` is the receiver as the caller sees it once the call returns. */
  datatype Update<+S, +E> = Update(after: S, outcome: Outcome<E>)

  /** The item an optional value holds, as a sequence of length at most one. */
  function AsSeq<T>(o: Option<T>): seq<T> {
    if o.Some? then [o.value] else []
  }

  /** The item an optional value holds, as a multiset (empty for `None`). */
  function Opt<T>(o: Option<T>): multiset<T> {
    if o.Some? then multiset{o.value} else multiset{}
  }

  function Min(a: nat, b: nat): nat {
    if a <= b then a else b
  }
}
