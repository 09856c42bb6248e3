/** The Optional container: a value that is either present or absent, with
    factories, accessors and combinators that short-circuit on absence.

    Each source class becomes one constructor of a closed datatype, and each
    method, defined once per class in the source, is one member function with
    a case split. Callbacks are function values. Their side effects are
    modelled by the log of their invocations: an operation that takes a
    callback returns a `Run`, whose `calls` list the argument of every call it
    made, in order (`()` for a supplier). */
module Optionals {

  import opened Host

  /** Message of the error raised by `Of` on an absent value. */
  const ArgumentMessage: string := "Passed value is null or undefined"

  /** Message of the error raised by `Get` on an empty container. */
  const StateMessage: string := "The value is not present"

  /** The errors raised by the container itself. */
  datatype Error = IllegalArgument(message: string) | IllegalState(message: string)

  /** A result together with the arguments its callback was called with. */
  datatype Run<R, A> = Run(result: R, calls: seq<A>)

  /** One invocation made by `IfPresentOrElse`. */
  datatype Callback<T> = Consumer(arg: T) | EmptyAction

  datatype Optional<T> = PresentOptional(payload: T) | EmptyOptional {

    /** Strict factory: fails unless the value is present. */
    static function Of(value: Nullable<T>): (r: Result<Optional<T>, Error>)
      ensures r.Ok? <==> !value.IsAbsent()
      ensures r.Ok? ==> r.value.IsPresent() && r.value.payload == value.value
      ensures r.Thrown? ==> r.error == IllegalArgument(ArgumentMessage)
    {
      if !value.IsAbsent() then Ok(PresentOptional(value.value))
      else Thrown(IllegalArgument(ArgumentMessage))
    }

    /** Lenient factory: an absent value gives the empty container. */
    static function OfNullable(nullable: Nullable<T>): (r: Optional<T>)
      ensures r.IsPresent() <==> !nullable.IsAbsent()
      ensures r.IsPresent() ==> r.payload == nullable.value
    {
      if !nullable.IsAbsent() then PresentOptional(nullable.value)
      else EmptyOptional
    }

    /** The empty container. */
    static function Empty(): (r: Optional<T>)
      ensures r.IsEmpty()
    {
      EmptyOptional
    }

    predicate IsPresent()
      ensures IsPresent() <==> PresentOptional?
    {
      match this
      case EmptyOptional => false
      case PresentOptional(_) => true
    }

    /** Derived from `IsPresent`, so the two can never disagree. */
    function IsEmpty(): (r: bool)
      ensures r <==> this == EmptyOptional
    {
      !IsPresent()
    }

    /** Unchecked accessor: throws on the empty container. */
    function Get(): (r: Result<T, Error>)
      ensures r.Ok? <==> IsPresent()
      ensures r.Ok? ==> this == PresentOptional(r.value)
      ensures r.Thrown? ==> r.error == IllegalState(StateMessage)
    {
      match this
      case EmptyOptional => Thrown(IllegalState(StateMessage))
      case PresentOptional(payload) => Ok(payload)
    }

    /** The arguments the consumer is called with. */
    function IfPresent(): (calls: seq<T>)
      ensures IsPresent() ==> calls == [payload]
      ensures IsEmpty() ==> calls == []
    {
      match this
      case EmptyOptional => []
      case PresentOptional(payload) => [payload]
    }

    /** The calls made to the consumer and to the empty action. */
    function IfPresentOrElse(): (calls: seq<Callback<T>>)
      ensures |calls| == 1
      ensures calls[0].Consumer? <==> IsPresent()
      ensures calls[0].Consumer? ==> calls[0].arg == payload
    {
      match this
      case EmptyOptional => [EmptyAction]
      case PresentOptional(payload) => [Consumer(payload)]
    }

    /** Keeps the receiver when its payload passes `test`. */
    function Filter(test: T -> bool): (r: Run<Optional<T>, T>)
      ensures r.calls == IfPresent()
      ensures r.result.IsPresent() <==> IsPresent() && test(payload)
      ensures r.result.IsPresent() ==> r.result == this
    {
      match this
      case EmptyOptional => Run(this, [])
      case PresentOptional(payload) =>
        Run(if test(payload) then this else Empty(), [payload])
    }

    /** Applies `mapper` and re-derives presence from its result. */
    function Map<U>(mapper: T -> Nullable<U>): (r: Run<Optional<U>, T>)
      ensures r.calls == IfPresent()
      ensures r.result.IsPresent() <==> IsPresent() && !mapper(payload).IsAbsent()
      ensures r.result.IsPresent() ==> r.result.payload == mapper(payload).value
    {
      match this
      case EmptyOptional => Run(Optional<U>.Empty(), [])
      case PresentOptional(payload) =>
        var result := mapper(payload);
        Run(Optional<U>.OfNullable(result), [payload])
    }

    /** Monadic bind: the mapper's container is the result, unwrapped. */
    function FlatMap<U>(mapper: T -> Optional<U>): (r: Run<Optional<U>, T>)
      ensures r.calls == IfPresent()
      ensures IsEmpty() ==> r.result.IsEmpty()
      ensures IsPresent() ==> r.result == mapper(payload)
    {
      match this
      case EmptyOptional => Run(Optional<U>.Empty(), [])
      case PresentOptional(payload) => Run(mapper(payload), [payload])
    }

    /** Falls back to the supplied container when empty. */
    function Or(supplier: () -> Optional<T>): (r: Run<Optional<T>, ()>)
      ensures |r.calls| == (if IsPresent() then 0 else 1)
      ensures IsPresent() ==> r.result == this
      ensures IsEmpty() ==> r.result == supplier()
    {
      match this
      case EmptyOptional => Run(supplier(), [()])
      case PresentOptional(_) => Run(this, [])
    }

    /** The payload, or the eagerly evaluated fallback. The fallback is a
        host value that may itself be `null` or `undefined`, and it is
        returned unchanged. */
    function OrElse(another: Nullable<T>): (r: Nullable<T>)
      ensures IsPresent() ==> r == Value(payload)
      ensures IsEmpty() ==> r == another
    {
      match this
      case EmptyOptional => another
      case PresentOptional(payload) => Value(payload)
    }

    /** The payload, or the supplier's value, which may be absent; the
        supplier runs only when empty. */
    function OrElseGet(another: () -> Nullable<T>): (r: Run<Nullable<T>, ()>)
      ensures |r.calls| == (if IsPresent() then 0 else 1)
      ensures IsPresent() ==> r.result == Value(payload)
      ensures IsEmpty() ==> r.result == another()
    {
      match this
      case EmptyOptional => Run(OrElse(another()), [()])
      case PresentOptional(payload) => Run(Value(payload), [])
    }

    /** The payload, or throws exactly what the supplier produces. */
    function OrElseThrow<U>(exception: () -> U): (r: Run<Result<T, U>, ()>)
      ensures |r.calls| == (if IsPresent() then 0 else 1)
      ensures r.result.Ok? <==> IsPresent()
      ensures r.result.Ok? ==> r.result.value == payload
      ensures r.result.Thrown? ==> r.result.error == exception()
    {
      match this
      case EmptyOptional => Run(Thrown(exception()), [()])
      case PresentOptional(payload) => Run(Ok(payload), [])
    }

    /** The payload, or `null` (never `undefined`). */
    function OrNull(): (r: Nullable<T>)
      ensures r.IsAbsent() <==> IsEmpty()
      ensures r != Undefined
      ensures r.Value? ==> r.value == payload
    {
      match this
      case EmptyOptional => Null
      case PresentOptional(payload) => Value(payload)
    }
  }
}
