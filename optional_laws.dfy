/** Laws relating the operations of the Optional container to one another:
    the factories against the accessors, the combinators against the monadic
    bind, and short-circuiting on the empty container. */
module OptionalLaws {

  import opened Host
  import opened Optionals

  /** The canonical form of a host value: both absence markers become `null`. */
  function Normalized<T>(x: Nullable<T>): Nullable<T> {
    if x.IsAbsent() then Null else x
  }

  // ---------------------------------------------------------------- factories

  /** The strict and the lenient factory agree on present values; on an
      absent value the strict one throws where the lenient one is empty. */
  lemma OfAgreesWithOfNullable<T>(x: Nullable<T>)
    ensures !x.IsAbsent() ==> Optional.Of(x) == Ok(Optional.OfNullable(x))
    ensures x.IsAbsent() <==> Optional.Of(x) == Thrown(IllegalArgument(ArgumentMessage))
    ensures x.IsAbsent() <==> Optional.OfNullable(x) == Optional.Empty()
  {
  }

  /** Whatever `Of` builds is present and gives back its argument. */
  lemma OfThenGet<T>(v: T)
    ensures Optional.Of(Value(v)).Ok?
    ensures Optional.Of(Value(v)).value.IsPresent()
    ensures Optional.Of(Value(v)).value.Get() == Ok(v)
    ensures Optional.OfNullable(Value(v)).Get() == Ok(v)
  {
  }

  /** `OrNull` and `OfNullable` are inverse up to the choice of absence marker. */
  lemma OrNullRoundTrip<T>(o: Optional<T>, x: Nullable<T>)
    ensures Optional.OfNullable(o.OrNull()) == o
    ensures Optional.OfNullable(x).OrNull() == Normalized(x)
  {
  }

  // ---------------------------------------------------------------- accessors

  /** `Get`, `OrElse`, `OrElseThrow` and `OrNull` all yield the payload of a
      present container, and on an empty one `Get` and `OrElseThrow` both throw. */
  lemma AccessorsAgree<T, U>(o: Optional<T>, another: Nullable<T>, exception: () -> U)
    ensures o.Get().Ok? <==> o.OrElseThrow(exception).result.Ok?
    ensures o.Get().Ok? ==> o.OrElse(another) == Value(o.Get().value)
    ensures o.Get().Ok? ==> o.OrElseThrow(exception).result.value == o.Get().value
    ensures o.Get().Ok? ==> o.OrNull() == Value(o.Get().value)
    ensures o.Get().Thrown? <==> o.OrNull() == Null
    ensures o.OrElse(Null) == o.OrNull()
  {
  }

  /** `OrElseGet` is `OrElse` of the supplied value, and `Or` with a supplier
      of `ofNullable` of that value ends in the same value, up to the choice
      of absence marker. */
  lemma OrElseGetIsLazyOrElse<T>(o: Optional<T>, another: () -> Nullable<T>)
    ensures o.OrElseGet(another).result == o.OrElse(another())
    ensures o.OrElseGet(another).calls == o.Or(() => Optional.OfNullable(another())).calls
    ensures o.Or(() => Optional.OfNullable(another())).result.OrNull()
         == Normalized(o.OrElseGet(another).result)
  {
  }

  /** `IfPresent` makes exactly the consumer calls `IfPresentOrElse` makes,
      and `IfPresentOrElse` runs the empty action exactly when the receiver is empty. */
  lemma IfPresentOrElseRefinesIfPresent<T>(o: Optional<T>)
    ensures o.IfPresent() == Consumed(o.IfPresentOrElse())
    ensures o.IfPresentOrElse() == [EmptyAction] <==> o.IsEmpty()
  {
  }

  /** The consumer arguments in a log of `IfPresentOrElse` calls. */
  function Consumed<T>(calls: seq<Callback<T>>): seq<T> {
    if calls == [] then []
    else (if calls[0].Consumer? then [calls[0].arg] else []) + Consumed(calls[1..])
  }

  // ---------------------------------------------------------------- combinators

  /** `Map` is `FlatMap` through the lenient factory, calls included. */
  lemma MapIsFlatMapOfNullable<T, U>(o: Optional<T>, mapper: T -> Nullable<U>)
    ensures o.Map(mapper) == o.FlatMap(x => Optional.OfNullable(mapper(x)))
  {
  }

  /** `Filter` is `FlatMap` with a mapper that keeps or drops the payload. */
  lemma FilterIsFlatMap<T>(o: Optional<T>, test: T -> bool)
    ensures o.Filter(test)
         == o.FlatMap(x => if test(x) then PresentOptional(x) else EmptyOptional)
  {
  }

  /** A mapper that never yields an absent value cannot make the result empty,
      and one that always does makes it empty. */
  lemma MapPresence<T, U>(o: Optional<T>, mapper: T -> Nullable<U>)
    ensures (forall x :: !mapper(x).IsAbsent()) ==> (o.Map(mapper).result.IsPresent() <==> o.IsPresent())
    ensures (forall x :: mapper(x).IsAbsent()) ==> o.Map(mapper).result.IsEmpty()
  {
  }

  /** `Map` with the wrapping mapper is the identity. */
  lemma MapIdentity<T>(o: Optional<T>)
    ensures o.Map(x => Value(x)).result == o
  {
  }

  /** Mapping twice is mapping once with the composed, absence-aware mapper. */
  lemma MapComposition<T, U, V>(o: Optional<T>, f: T -> Nullable<U>, g: U -> Nullable<V>)
    ensures o.Map(f).result.Map(g).result
         == o.Map(x => if f(x).IsAbsent() then Null else g(f(x).value)).result
  {
  }

  /** Left identity of the bind. */
  lemma FlatMapLeftIdentity<T, U>(v: T, mapper: T -> Optional<U>)
    ensures Optional.Of(Value(v)).value.FlatMap(mapper).result == mapper(v)
  {
  }

  /** Right identity of the bind. */
  lemma FlatMapRightIdentity<T>(o: Optional<T>)
    ensures o.FlatMap(x => PresentOptional(x)).result == o
  {
  }

  /** Associativity of the bind. */
  lemma FlatMapAssociative<T, U, V>(o: Optional<T>, f: T -> Optional<U>, g: U -> Optional<V>)
    ensures o.FlatMap(f).result.FlatMap(g).result
         == o.FlatMap(x => f(x).FlatMap(g).result).result
  {
  }

  /** Two filters are one filter with the conjoined test; a filter is
      idempotent and never produces a value the receiver did not hold. */
  lemma FilterFusion<T>(o: Optional<T>, p: T -> bool, q: T -> bool)
    ensures o.Filter(p).result.Filter(q).result == o.Filter(x => p(x) && q(x)).result
    ensures o.Filter(p).result.Filter(p).result == o.Filter(p).result
    ensures o.Filter(p).result == o || o.Filter(p).result == Optional.Empty()
  {
  }

  /** The empty container is the identity of `Or` on both sides, and `Or`
      is associative. */
  lemma OrMonoid<T>(o: Optional<T>, s: () -> Optional<T>, t: () -> Optional<T>)
    ensures Optional<T>.Empty().Or(s).result == s()
    ensures o.Or(() => Optional<T>.Empty()).result == o
    ensures o.Or(s).result.Or(t).result == o.Or(() => s().Or(t).result).result
  {
  }

  /** On the empty container no consumer, test or mapper is called, and
      each fallback supplier is called exactly once. */
  lemma EmptyShortCircuits<T, U>(test: T -> bool, mapper: T -> Nullable<U>, binder: T -> Optional<U>,
                                 supplier: () -> Optional<T>, another: () -> Nullable<T>, exception: () -> U)
    ensures Optional<T>.Empty().IfPresent() == []
    ensures Optional<T>.Empty().Filter(test) == Run(Optional.Empty(), [])
    ensures Optional<T>.Empty().Map(mapper) == Run(Optional.Empty(), [])
    ensures Optional<T>.Empty().FlatMap(binder) == Run(Optional.Empty(), [])
    ensures Optional<T>.Empty().Or(supplier) == Run(supplier(), [()])
    ensures Optional<T>.Empty().OrElseGet(another) == Run(another(), [()])
    ensures Optional<T>.Empty().OrElseThrow(exception) == Run(Thrown(exception()), [()])
  {
  }

  /** On a present container no fallback is consulted. */
  lemma PresentIgnoresFallbacks<T, U>(v: T, other: Nullable<T>, supplier: () -> Optional<T>,
                                      another: () -> Nullable<T>, exception: () -> U)
    ensures PresentOptional(v).Or(supplier) == Run(PresentOptional(v), [])
    ensures PresentOptional(v).OrElse(other) == Value(v)
    ensures PresentOptional(v).OrElseGet(another) == Run(Value(v), [])
    ensures PresentOptional(v).OrElseThrow(exception) == Run(Ok(v), [])
  {
  }

  // ---------------------------------------------------------------- chains

  /** The fluent chain `o.flatMap(binders[0]).flatMap(binders[1])…`, with the
      calls of every stage in order. Once a stage yields the empty container,
      no later binder is called. */
  function FlatMapChain<T>(o: Optional<T>, binders: seq<T -> Optional<T>>): (r: Run<Optional<T>, T>)
    ensures |r.calls| <= |binders|
    ensures r.result.IsPresent() ==> |r.calls| == |binders|
    ensures o.IsEmpty() ==> r == Run(o, [])
    ensures binders != [] && o.IsPresent() ==> r.calls != [] && r.calls[0] == o.payload
    decreases |binders|
  {
    if binders == [] then Run(o, [])
    else
      var step := o.FlatMap(binders[0]);
      var rest := FlatMapChain(step.result, binders[1..]);
      Run(rest.result, step.calls + rest.calls)
  }

  /** A chain may be split anywhere: running `fs + gs` is running `fs` and
      then running `gs` on its result, with the calls of both. */
  lemma {:induction false} FlatMapChainSplit<T>(o: Optional<T>, fs: seq<T -> Optional<T>>, gs: seq<T -> Optional<T>>)
    ensures FlatMapChain(o, fs + gs).result == FlatMapChain(FlatMapChain(o, fs).result, gs).result
    ensures FlatMapChain(o, fs + gs).calls
         == FlatMapChain(o, fs).calls + FlatMapChain(FlatMapChain(o, fs).result, gs).calls
    decreases |fs|
  {
    if fs != [] {
      assert (fs + gs)[0] == fs[0];
      assert (fs + gs)[1..] == fs[1..] + gs;
      FlatMapChainSplit(o.FlatMap(fs[0]).result, fs[1..], gs);
    } else {
      assert fs + gs == gs;
    }
  }

  /** A one-stage chain is a single `FlatMap`. */
  lemma FlatMapChainSingle<T>(o: Optional<T>, binder: T -> Optional<T>)
    ensures FlatMapChain(o, [binder]) == o.FlatMap(binder)
  {
  }

  /** Once a chain has become empty, the binders after it are never called. */
  lemma FlatMapChainShortCircuit<T>(o: Optional<T>, fs: seq<T -> Optional<T>>, gs: seq<T -> Optional<T>>)
    requires FlatMapChain(o, fs).result.IsEmpty()
    ensures FlatMapChain(o, fs + gs) == FlatMapChain(o, fs)
  {
    FlatMapChainSplit(o, fs, gs);
  }
}
