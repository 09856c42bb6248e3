/** Host-language notions the Optional container relies on: the absence
    marker (`null` / `undefined`) and the outcome of a call that may throw. */
module Host {

  /** A host value that may be one of the two absence markers. */
  datatype Nullable<T> = Value(value: T) | Null | Undefined {

    /** The one absence test shared by every operation that inspects a
        host value: `null` and `undefined` are both absent. */
    predicate IsAbsent() {
      Null? || Undefined?
    }
  }

  /** Either the value a call returned, or the value it threw. */
  datatype Result<R, E> = Ok(value: R) | Thrown(error: E)
}
