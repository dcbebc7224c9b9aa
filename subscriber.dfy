/** The handler contract: a subscriber is a type tag plus private state, and
    `call` maps that state and a read-only event to a new state and a verdict. */
module Subscribers {
  import opened Events

  /** `std::io::Result<()>` with the error's contents dropped. */
  datatype IoResult = Ok | Err

  /** An owned `Box<dyn Subscriber>`: the tag of its concrete type and its state. */
  datatype Sub<S> = Sub(tag: TypeTag, state: S)

  /** What `Subscriber::call(&mut self, &Event)` leaves behind: the new state of
      the subscriber and whether it returned `Ok`. */
  datatype CallResult<S> = CallResult(state: S, ok: bool)

  /** The subscribers' `call` methods. The event is passed by value, so a
      handler cannot change it; only the subscriber's own state changes. */
  type Handler<!S, !V> = (S, Event<V>) -> CallResult<S>

  /** The subscriber after one `call` with `e`: same type, new state. */
  function Called<S, V>(x: Sub<S>, e: Event<V>, call: Handler<S, V>): (y: Sub<S>)
    ensures y.tag == x.tag
  {
    Sub(x.tag, call(x.state, e).state)
  }

  /** Does `call` return `Err` for `x` and `e`? */
  predicate Fails<S, V>(x: Sub<S>, e: Event<V>, call: Handler<S, V>)
  {
    !call(x.state, e).ok
  }
}
