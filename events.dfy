/**
 * Hookr::Event: the record of one hook invocation (source, hook name, arguments),
 * and its projection onto the parameter list a callback declared.
 */
module Events {
  import opened Wrappers

  /**
   * A Ruby object as far as the engine looks at it. Symbols and Integers matter
   * because handles and lookup keys are one or the other; an event can itself be
   * passed to a callback as an argument.
   */
  datatype Value =
    | Sym(name: string)
    | Str(text: string)
    | Int(n: int)
    | Obj(id: nat)
    | EventObj(event: Event)

  datatype Event = Event(source: Value, name: string, arguments: seq<Value>)

  /** The errors the core raises. */
  datatype Error =
    | ArityMismatch(arity: int, argumentCount: nat)  // ArgumentError: the declared arity does not fit
    | AssertionFailure                              // a FailFast precondition check failed

  /**
   * Event#to_args: with N arguments, an arity of N gets the arguments as they are,
   * an arity of N + 1 or -1 (variadic) gets the event itself in front of them, and
   * every other arity is an error.
   */
  function ToArgs(e: Event, arity: int): (r: Result<seq<Value>, Error>)
    ensures r.Success? <==> arity == -1 || arity == |e.arguments| || arity == |e.arguments| + 1
    ensures r.Failure? ==> r.error == ArityMismatch(arity, |e.arguments|)
    ensures r.Success? ==> |r.value| == (if arity == -1 then |e.arguments| + 1 else arity)
    ensures r.Success? ==> r.value[|r.value| - |e.arguments|..] == e.arguments
    ensures r.Success? && |r.value| > |e.arguments| ==> r.value[0] == EventObj(e)
  {
    var n := |e.arguments|;
    if arity == n then Success(e.arguments)
    else if arity == -1 || arity == n + 1 then Success([EventObj(e)] + e.arguments)
    else Failure(ArityMismatch(arity, n))
  }

  /** The event with three arguments used by the Event examples: arities -1, 3, 4 fit, 2 and 5 do not. */
  lemma ToArgsWithThreeArguments(source: Value, a1: Value, a2: Value, a3: Value)
    ensures var e := Event(source, "on_signal", [a1, a2, a3]);
      && ToArgs(e, -1) == Success([EventObj(e), a1, a2, a3])
      && ToArgs(e, 2).Failure?
      && ToArgs(e, 3) == Success([a1, a2, a3])
      && ToArgs(e, 4) == Success([EventObj(e), a1, a2, a3])
      && ToArgs(e, 5).Failure?
  {
    var e := Event(source, "on_signal", [a1, a2, a3]);
    assert [EventObj(e)] + e.arguments == [EventObj(e), a1, a2, a3];
  }
}
