/** `unsubscribe` as written: the stored side of the comparison calls `type_id()`
    on a `&Box<dyn Subscriber>`, which resolves through `Any` to the identity of
    the box type, not of the subscriber inside it. */
module Findings {
  import opened Events
  import opened Subscribers
  import opened Registry

  /** The `TypeId` of `Box<dyn Subscriber>`. */
  const BoxedSubscriber := TypeOf("Box<dyn Subscriber>")

  /** What `event_subscriber.type_id()` yields for every stored subscriber:
      the box's type, whatever the subscriber's own type is. */
  function StoredTypeId<S>(x: Sub<S>): TypeTag
  {
    BoxedSubscriber
  }

  /** The types that can be passed to `unsubscribe`: types implementing
      `Subscriber`. No impl of `Subscriber` exists for `Box<dyn Subscriber>`. */
  predicate IsSubscriberType(t: TypeTag)
  {
    t != BoxedSubscriber
  }

  /** The list after `unsubscribe` as written, for an argument of type `t`. */
  function RemovedAsWritten<S>(l: seq<Sub<S>>, t: TypeTag): seq<Sub<S>>
  {
    match Position(l, (x: Sub<S>) => StoredTypeId(x) == t)
    case Some(i) => l[..i] + l[i + 1..]
    case None => l
  }

  /** As written, `unsubscribe` never removes anything: no stored subscriber's
      tag can equal the tag of a type implementing `Subscriber`. */
  lemma AsWrittenNeverRemoves<S>(l: seq<Sub<S>>, t: TypeTag)
    requires IsSubscriberType(t)
    ensures RemovedAsWritten(l, t) == l
  {
  }

  /** The source's own demo shape: one `Ticker` subscribed to "TickEvent", then
      unsubscribed with a `Ticker`. As written the list keeps its Ticker; the
      intended first-equal-tag removal used by the model empties it. */
  lemma TickerStaysSubscribed<S>(st: S)
    ensures RemovedAsWritten([Sub(TypeOf("Ticker"), st)], TypeOf("Ticker")) == [Sub(TypeOf("Ticker"), st)]
    ensures Removed([Sub(TypeOf("Ticker"), st)], TypeOf("Ticker")) == []
  {
  }
}
