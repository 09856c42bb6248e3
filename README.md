# Optional container — a Dafny model

This project models `Optional<T>` from `src/optional/optional.ts`. The container
either holds a non-absent payload (`PresentOptional`) or holds nothing
(`EmptyOptional`). It is built by three static factories: `of` is strict,
`ofNullable` is lenient and `empty` gives the empty container. Each of its
accessors and combinators is defined once per variant. The model proves what the
source and its test suite promise about each operation, plus the laws that connect
the operations: factories against accessors, `map`/`filter` against `flatMap`, the
monad and monoid laws, and short-circuiting on the empty container.

Files:

- `host.dfy` (module `Host`): the host language's absence marker
  (`Nullable<T> = Value | Null | Undefined`, with the single test `IsAbsent`), and
  `Result<R, E> = Ok | Thrown` for a call that returns or throws.
- `optional.dfy` (module `Optionals`): the container and every operation, as
  member functions of the datatype `Optional<T>`. Each constructor is named after
  the source class it stands for.
- `optional_laws.dfy` (module `OptionalLaws`): lemmas that relate the operations,
  and `FlatMapChain`, a fluent chain of `flatMap` calls.
- `scenarios.dfy` (module `OptionalScenarios`): the cases of
  `__tests__/optional.spec.ts`, stated on concrete messages.

How the model represents the source:

- Exceptions become `Result` values. The container itself throws in only two
  places, `of` on an absent value and `get` on an empty container. In the source
  both throw a plain `Error`, and only the message tells them apart. The
  constructors `IllegalArgument` and `IllegalState` are tags the model adds; each
  carries the source's message. `OrElseThrow` throws exactly the value its
  supplier returns.
- The type parameter `T` stands for the non-absent values a container can hold.
  Where the source passes a host value that may be `null` or `undefined`, the model
  uses `Nullable<T>`: the argument of `Of` and `OfNullable`, the mapper's result in
  `Map`, the fallback of `OrElse` and `OrElseGet` and their result, and the result
  of `OrNull`. So `empty.orElse(null)` gives `null` and
  `empty.orElseGet(() => undefined)` gives `undefined`, as in the source.
- Callbacks become function values. A callback's side effect is modelled by the
  log of its invocations. Every operation that takes a callback returns
  `Run(result, calls)`, where `calls` holds the argument of each call in order.
  A supplier's calls are logged as `()`. `IfPresent` and `IfPresentOrElse` return
  only their log. That is why they take no consumer parameter: a consumer has no
  result, only the effect of being called.
- `return this` becomes a result equal to the receiver as a value.

## Model

| member | source | states |
|---|---|---|
| `Optionals.Optional.Of` | src/optional/optional.ts:3-9 | succeeds exactly when the value is neither `null` nor `undefined`, then with a present container holding that value. Otherwise it throws `IllegalArgument("Passed value is null or undefined")` |
| `Optionals.Optional.OfNullable` | src/optional/optional.ts:11-17 | present exactly when the argument is not absent, with that value as payload. Otherwise empty, and it never throws |
| `Optionals.Optional.Empty` | src/optional/optional.ts:19-21 | yields an empty container |
| `Optionals.Optional.IsPresent` | src/optional/optional.ts:108-110 | true exactly when the receiver is a `PresentOptional` (declared at line 23, false for the empty variant at lines 49-51) |
| `Optionals.Optional.IsEmpty` | src/optional/optional.ts:25-27 | true exactly when the receiver is the empty container, which is the negation of `IsPresent` |
| `Optionals.Optional.Get` | src/optional/optional.ts:53-55 | returns the payload exactly when present. On empty it throws `IllegalState("The value is not present")` (also lines 112-114) |
| `Optionals.Optional.IfPresent` | src/optional/optional.ts:57-59 | the consumer is called exactly once, with the payload, when present, and never when empty (also lines 116-118) |
| `Optionals.Optional.IfPresentOrElse` | src/optional/optional.ts:61-63 | exactly one callback runs: the consumer with the payload when present, the empty action when empty (also lines 120-122) |
| `Optionals.Optional.Filter` | src/optional/optional.ts:65-67 | the test is called once with the payload when present and never when empty. The result is present exactly when the receiver is present and passes the test, and then it is the receiver (also lines 124-126) |
| `Optionals.Optional.Map` | src/optional/optional.ts:69-71 | the mapper is called once with the payload when present and never when empty. The result is present exactly when the receiver is present and the mapper's value is not absent, and then it holds that value (also lines 128-131) |
| `Optionals.Optional.FlatMap` | src/optional/optional.ts:73-75 | the mapper is called once with the payload when present and never when empty. Empty stays empty, and a present receiver yields the mapper's container without re-wrapping (also lines 133-135) |
| `Optionals.Optional.Or` | src/optional/optional.ts:77-79 | the supplier is called once when empty and never when present. The result is the receiver when present and the supplied container when empty (also lines 137-139) |
| `Optionals.Optional.OrElse` | src/optional/optional.ts:81-83 | the payload when present, the fallback unchanged when empty, even if the fallback is `null` or `undefined` (also lines 141-143) |
| `Optionals.Optional.OrElseGet` | src/optional/optional.ts:85-87 | the supplier is called once when empty and never when present. The result is the payload, or the supplier's value unchanged even if it is absent (also lines 145-147) |
| `Optionals.Optional.OrElseThrow` | src/optional/optional.ts:89-91 | the error supplier is called once when empty and never when present. When present the payload is returned; when empty, exactly the supplier's value is thrown (also lines 149-151) |
| `Optionals.Optional.OrNull` | src/optional/optional.ts:93-95 | the payload when present. When empty it is `null`, and it is never `undefined` (also lines 153-155) |
| `OptionalLaws.OfAgreesWithOfNullable` | src/optional/optional.ts:3-17 | on a present value `of` and `ofNullable` build the same container. A value is absent exactly when `of` throws the argument error, and exactly when `ofNullable` is empty |
| `OptionalLaws.OfThenGet` | src/optional/optional.ts:3-9 | what `of` and `ofNullable` build from a present value is present, and `Get` gives that value back |
| `OptionalLaws.OrNullRoundTrip` | src/optional/optional.ts:11-17 | `ofNullable(o.orNull()) == o` for every container. `ofNullable(x).orNull()` is `x` with both absence markers turned into `null` |
| `OptionalLaws.AccessorsAgree` | src/optional/optional.ts:141-155 | `Get`, `OrElse`, `OrElseThrow` and `OrNull` agree on the payload of a present container. On an empty one, `Get` and `OrElseThrow` both throw and `OrNull` is `null`. `orElse(null)` is `orNull()` on every container |
| `OptionalLaws.OrElseGetIsLazyOrElse` | src/optional/optional.ts:85-87 | `orElseGet(s)` is `orElse(s())` and makes the same supplier calls as `or`. It ends in the same value as `or` with a supplier of `ofNullable(s())`, up to the choice of absence marker |
| `OptionalLaws.IfPresentOrElseRefinesIfPresent` | src/optional/optional.ts:57-63 | the consumer calls of `ifPresent` and `ifPresentOrElse` coincide. The empty action alone runs exactly when the receiver is empty |
| `OptionalLaws.MapIsFlatMapOfNullable` | src/optional/optional.ts:128-135 | `map(f)` equals `flatMap(x => ofNullable(f(x)))`, calls included |
| `OptionalLaws.FilterIsFlatMap` | src/optional/optional.ts:124-126 | `filter(p)` equals `flatMap` with a mapper that keeps the payload when `p` holds and gives empty otherwise, calls included |
| `OptionalLaws.MapPresence` | src/optional/optional.ts:128-131 | under a mapper that never yields an absent value, `map` keeps presence. Under one that always does, `map` always gives empty |
| `OptionalLaws.MapIdentity` | src/optional/optional.ts:128-131 | mapping with the wrapping identity leaves every container unchanged |
| `OptionalLaws.MapComposition` | src/optional/optional.ts:128-131 | two `map`s equal one `map` with the composed mapper, which is absent as soon as the first mapper's value is |
| `OptionalLaws.FlatMapLeftIdentity` | src/optional/optional.ts:133-135 | `of(v).flatMap(f) == f(v)` |
| `OptionalLaws.FlatMapRightIdentity` | src/optional/optional.ts:133-135 | `flatMap` with the present-wrapping mapper leaves every container unchanged |
| `OptionalLaws.FlatMapAssociative` | src/optional/optional.ts:133-135 | `o.flatMap(f).flatMap(g) == o.flatMap(x => f(x).flatMap(g))` |
| `OptionalLaws.FilterFusion` | src/optional/optional.ts:124-126 | two filters equal one filter with the conjoined test. A filter is idempotent, and its result is either the receiver or empty |
| `OptionalLaws.OrMonoid` | src/optional/optional.ts:137-139 | empty is the identity of `or` on both sides, and `or` is associative (the empty side is lines 77-79) |
| `OptionalLaws.EmptyShortCircuits` | src/optional/optional.ts:43-97 | on the empty container `ifPresent`, `filter`, `map` and `flatMap` call nothing and give empty. `or`, `orElseGet` and `orElseThrow` call their supplier once and return or throw its value |
| `OptionalLaws.PresentIgnoresFallbacks` | src/optional/optional.ts:137-151 | on a present container `or`, `orElse`, `orElseGet` and `orElseThrow` consult no fallback and yield the receiver or its payload |
| `OptionalLaws.FlatMapChain` | src/optional/optional.ts:133-135 | a fluent chain of `flatMap`s makes at most one call per stage, and one per stage when it ends present. Started empty, it calls nothing and stays empty. Started present, its first call gets the payload |
| `OptionalLaws.FlatMapChainSplit` | src/optional/optional.ts:133-135 | a chain can be split at any stage: running `fs + gs` equals running `fs`, then `gs` on its result, and the call logs concatenate |
| `OptionalLaws.FlatMapChainSingle` | src/optional/optional.ts:133-135 | a one-stage chain is a single `flatMap` |
| `OptionalLaws.FlatMapChainShortCircuit` | src/optional/optional.ts:73-75 | once a chain has become empty, appending further stages changes nothing: no later binder is called and the result stays empty |
| `OptionalScenarios.FactoryScenarios` | __tests__/optional.spec.ts:39-75 | `empty` is empty, and `of` and `ofNullable` of a message are present. `of(null)` and `of(undefined)` throw the argument error, while `ofNullable` of either is empty |
| `OptionalScenarios.AccessorScenarios` | __tests__/optional.spec.ts:111-160 | `orElse`, `orElseGet` (supplier not called when present; an absent fallback is passed through), `orElseThrow` and `orNull` on a message and on empty. Also `get` and its state error (test lines 77-85) |
| `OptionalScenarios.ConsumerScenarios` | __tests__/optional.spec.ts:87-109 | `ifPresent` and `ifPresentOrElse` call the consumer with the message when present, and call nothing or only the empty action when empty |
| `OptionalScenarios.CombinatorScenarios` | __tests__/optional.spec.ts:162-246 | `or`, `filter`, `map` and `flatMap` on a message and on empty give the containers and call logs the tests expect: `or` on empty calls its supplier once, and `map`, `filter` and `flatMap` on empty call nothing |
| `OptionalScenarios.PipelineScenarios` | src/optional/optional.ts:124-135 | `of({message:"Hello"}).filter(...).map(m => ({value: m})).get()` gives the wrapped message, and a `flatMap` of empty stays empty |

## Left out

- Exceptions raised inside a callback (test, mapper, consumer or supplier) are not modelled. Callbacks are total functions, so the propagation of their errors through a combinator is outside the model.
- A callback's side effects are modelled only by its log of invocations: which callback ran, how often, and with what argument.
- Object identity is not modelled. `return this` (lines 66, 125 and 138) is modelled as a result equal to the receiver. A fresh `EmptyOptional` equals any other, as the tests' `toEqual` comparisons assume.
- TypeScript's type-level details are not modelled, such as `NonNullable<U>` in `map`'s signature and generic variance. They have no runtime effect.
- Idempotence of read-only accessors has no member of its own. Dafny functions are deterministic, so repeated calls on the same container yield the same result by construction.
- The HTTP status table is not part of this model. Only its tests exist, not its source.
- The test runner's configuration (`jest.config.js`) is not part of this model either.
- A container's payload is never absent. Instantiating `T` with `Nullable<X>` does not model a source `T` that admits `null`. `Of(Value(Null))` would then succeed, where the source's `of(null)` throws. Absence inside a host value is modelled only by `Nullable<T>` at the places listed above.
- The error messages are the source's own strings: "Passed value is null or undefined" from `of` and "The value is not present" from `get`. The kind of error is a tag the model adds.
