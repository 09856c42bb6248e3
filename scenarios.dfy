/** The behaviour the test suite pins down, stated on concrete messages. */
module OptionalScenarios {

  import opened Host
  import opened Optionals

  datatype Message = Message(message: string)

  datatype MessageWrapper = MessageWrapper(value: Message)

  const Hello := Message("Hello World!")
  const Other := Message("Hello Other!")

  /** Construction by each factory, on a message and on both absence markers. */
  lemma FactoryScenarios()
    ensures Optional<Message>.Empty().IsEmpty()
    ensures Optional.Of(Value(Hello)).Ok? && Optional.Of(Value(Hello)).value.IsPresent()
    ensures Optional.OfNullable(Value(Hello)).IsPresent()
    ensures Optional<Message>.Of(Null) == Thrown(IllegalArgument("Passed value is null or undefined"))
    ensures Optional<Message>.Of(Undefined) == Thrown(IllegalArgument("Passed value is null or undefined"))
    ensures Optional<Message>.OfNullable(Null) == EmptyOptional
    ensures Optional<Message>.OfNullable(Undefined) == EmptyOptional
  {
  }

  /** Extraction from a present and from an empty container. */
  lemma AccessorScenarios(err: string)
    ensures PresentOptional(Hello).Get() == Ok(Hello)
    ensures Optional<Message>.Empty().Get() == Thrown(IllegalState("The value is not present"))
    ensures PresentOptional(Hello).OrElse(Value(Other)) == Value(Hello)
    ensures Optional.Empty().OrElse(Value(Other)) == Value(Other)
    ensures Optional<Message>.Empty().OrElse(Null) == Null
    ensures PresentOptional(Hello).OrElseGet(() => Value(Other)) == Run(Value(Hello), [])
    ensures Optional.Empty().OrElseGet(() => Value(Other)) == Run(Value(Other), [()])
    ensures Optional<Message>.Empty().OrElseGet(() => Undefined) == Run(Undefined, [()])
    ensures PresentOptional(Hello).OrElseThrow(() => err).result == Ok(Hello)
    ensures Optional<Message>.Empty().OrElseThrow(() => err).result == Thrown(err)
    ensures PresentOptional(Hello).OrNull() == Value(Hello)
    ensures Optional<Message>.Empty().OrNull() == Null
  {
  }

  /** Which consumers run. */
  lemma ConsumerScenarios()
    ensures PresentOptional(Hello).IfPresent() == [Hello]
    ensures Optional<Message>.Empty().IfPresent() == []
    ensures PresentOptional(Hello).IfPresentOrElse() == [Consumer(Hello)]
    ensures Optional<Message>.Empty().IfPresentOrElse() == [EmptyAction]
  {
  }

  /** `Or`, `Filter`, `Map` and `FlatMap` on a present and on an empty container. */
  lemma CombinatorScenarios(hello: Optional<Message>)
    requires hello == PresentOptional(Hello)
    ensures hello.Or(() => PresentOptional(Other)) == Run(hello, [])
    ensures Optional.Empty().Or(() => PresentOptional(Other)).result.Get() == Ok(Other)
    ensures Optional<Message>.Empty().Or(() => PresentOptional(Other)).calls == [()]
    ensures hello.Filter((m: Message) => m.message == "Hello World!").result.IsPresent()
    ensures hello.Filter((m: Message) => m.message == "Hello Other").result.IsEmpty()
    ensures Optional.Empty().Filter((m: Message) => true) == Run(EmptyOptional, [])
    ensures hello.Map(m => Value(MessageWrapper(m))).result.Get() == Ok(MessageWrapper(Hello))
    ensures hello.Map(m => Value(MessageWrapper(m))).calls == [Hello]
    ensures Optional.Empty().Map((m: Message) => Value(MessageWrapper(m))) == Run(EmptyOptional, [])
    ensures hello.FlatMap(m => PresentOptional(MessageWrapper(m)))
         == Run(PresentOptional(MessageWrapper(Hello)), [Hello])
    ensures Optional.Empty().FlatMap((m: Message) => PresentOptional(MessageWrapper(m))) == Run(EmptyOptional, [])
  {
  }

  /** `of({message: "Hello"}).filter(…).map(…).get()` ends in the wrapped
      message; a flat-map of the empty container stays empty. */
  lemma PipelineScenarios()
    ensures Optional.Of(Value(Message("Hello"))).Ok?
    ensures Optional.Of(Value(Message("Hello"))).value
              .Filter((m: Message) => m.message == "Hello").result
              .Map(m => Value(MessageWrapper(m))).result
              .Get() == Ok(MessageWrapper(Message("Hello")))
    ensures Optional<int>.Empty().FlatMap(x => Optional.OfNullable(Value(x))).result.IsEmpty()
    ensures PresentOptional(5).FlatMap(x => PresentOptional(x + 1)).result == PresentOptional(6)
  {
  }
}
