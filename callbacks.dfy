/**
 * Hookr::Callback and its three variants (ExternalCallback, InternalCallback,
 * MethodCallback): a handle, an insertion index, and a way of being called
 * with an event.
 */
module Callbacks {
  import opened Wrappers
  import opened Events

  /**
   * A handle is an Integer (by default the callback's own index) or a Symbol.
   * The same two kinds are the keys of CallbackSet lookup and removal.
   */
  type Handle = v: Value | v.Int? || v.Sym? witness Int(0)

  /** How a callback runs; the code inside it is opaque to the engine. */
  datatype Body =
    | External(arity: int)                   // a block called with the projected arguments
    | Internal                               // a zero-arity block run with the source as self
    | Method(methodName: string, arity: int) // an instance method bound to the source

  datatype Callback = Callback(handle: Handle, index: nat, body: Body)

  /** What `self` is while the callback's code runs. */
  datatype Receiver =
    | BlockSelf                               // the block's own defining context
    | Source(obj: Value)                      // instance_eval on the event source
    | Bound(obj: Value, methodName: string)   // the method bound to the event source

  /** One call of a callback, as it appears in an execution trace. */
  datatype Invocation = Invocation(handle: Handle, event: Event, receiver: Receiver, args: seq<Value>)

  /**
   * Callback#<=>: callbacks sharing a handle are equal whatever their indices;
   * otherwise they compare by index.
   */
  function Compare(a: Callback, b: Callback): (r: int)
    ensures -1 <= r <= 1
    ensures a.handle == b.handle ==> r == 0
    ensures a.handle != b.handle ==> (r < 0 <==> a.index < b.index) && (r > 0 <==> a.index > b.index)
  {
    if a.handle == b.handle then 0
    else if a.index < b.index then -1
    else if a.index > b.index then 1
    else 0
  }

  /** The comparator is antisymmetric. */
  lemma CompareAntisymmetric(a: Callback, b: Callback)
    ensures Compare(a, b) == -Compare(b, a)
  {
  }

  /**
   * The comparator is not transitive once two callbacks share a handle: this is
   * why handles are kept distinct within one set.
   */
  lemma CompareNotTransitiveOnSharedHandles(body: Body)
    ensures var a, b, c := Callback(Sym("cb1"), 0, body), Callback(Sym("cb2"), 1, body), Callback(Sym("cb1"), 2, body);
      Compare(a, b) == -1 && Compare(b, c) == -1 && Compare(a, c) == 0
  {
  }

  /** The examples of the comparator: index 1 against 0, 2 and 1, and against the same handle. */
  lemma CompareExamples(body: Body)
    ensures var it := Callback(Sym("cb1"), 1, body);
      && Compare(it, Callback(Sym("cb2"), 0, body)) == 1
      && Compare(it, Callback(Sym("cb2"), 2, body)) == -1
      && Compare(it, Callback(Sym("cb2"), 1, body)) == 0
      && Compare(it, Callback(Sym("cb1"), 2, body)) == 0
  {
  }

  /** InternalCallback.new: the block must declare exactly zero parameters. */
  function NewInternalCallback(handle: Handle, arity: int, index: nat): (r: Result<Callback, Error>)
    ensures r.Success? <==> arity == 0
    ensures r.Success? ==> r.value.handle == handle && r.value.index == index && r.value.body.Internal?
    ensures r.Failure? ==> r.error == ArityMismatch(arity, 0)
  {
    if arity == 0 then Success(Callback(handle, index, Internal))
    else Failure(ArityMismatch(arity, 0))
  }

  /**
   * Callback#call(event). External and method callbacks ask the event for the
   * arguments their arity wants (and fail as to_args fails); an internal callback
   * takes no arguments and runs with the source as self.
   */
  function Call(cb: Callback, e: Event): (r: Result<Invocation, Error>)
    ensures r.Success? ==> r.value.handle == cb.handle && r.value.event == e
    ensures cb.body.Internal? ==> r == Success(Invocation(cb.handle, e, Source(e.source), []))
    ensures !cb.body.Internal? ==> var args := ToArgs(e, cb.body.arity);
      && (r.Success? <==> args.Success?)
      && (r.Success? ==> r.value.args == args.value)
      && (r.Failure? ==> r.error == args.error)
    ensures r.Success? && cb.body.Method? ==> r.value.receiver == Bound(e.source, cb.body.methodName)
  {
    match cb.body
    case Internal => Success(Invocation(cb.handle, e, Source(e.source), []))
    case External(arity) =>
      (match ToArgs(e, arity)
       case Success(args) => Success(Invocation(cb.handle, e, BlockSelf, args))
       case Failure(err) => Failure(err))
    case Method(name, arity) =>
      (match ToArgs(e, arity)
       case Success(args) => Success(Invocation(cb.handle, e, Bound(e.source, name), args))
       case Failure(err) => Failure(err))
  }

  /**
   * A callback that InternalCallback.new accepted can always be called: it never
   * meets an arity mismatch, whatever the event's arguments.
   */
  lemma InternalCallbackAlwaysRuns(handle: Handle, arity: int, index: nat, e: Event)
    requires NewInternalCallback(handle, arity, index).Success?
    ensures var cb := NewInternalCallback(handle, arity, index).value;
      Call(cb, e) == Success(Invocation(handle, e, Source(e.source), []))
  {
  }

  /**
   * A callback with a declared arity of N + 1 receives the event and then the
   * event's N arguments; one with arity 1 fails on a two-argument hook.
   */
  lemma ExternalCallbackReceivesEventFirst(handle: Handle, index: nat, e: Event)
    ensures var r := Call(Callback(handle, index, External(|e.arguments| + 1)), e);
      r.Success? && r.value.args == [EventObj(e)] + e.arguments
    ensures |e.arguments| == 2 ==> Call(Callback(handle, index, External(1)), e) == Failure(ArityMismatch(1, 2))
  {
  }
}
