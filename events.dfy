/** The payload carrier: an event binds a name to a type-erased payload. */
module Events {

  datatype Option<+T> = None | Some(value: T)

  /** The runtime identity of a Rust type (its `TypeId`), named by the type it stands for.
      Two tags are equal exactly when they stand for the same type. */
  datatype TypeTag = TypeOf(typeName: string)

  /** An event: its name, the tag of the payload's construction type and the payload.
      `Box<dyn Any>` keeps both the value and its type; the model keeps them side by side. */
  datatype Event<V> = Event(name: string, tag: TypeTag, payload: V) {

    /** `data::<T>()`: the payload viewed as type `t`, or `None` where the
        downcast's `unwrap` panics because `t` is not the construction type. */
    function Data(t: TypeTag): (r: Option<V>)
      ensures r.Some? <==> t == tag
    {
      if t == tag then Some(payload) else None
    }
  }

  /** `Event::new(name, data)`: `tag` is the type of `data`, which Rust supplies implicitly. */
  function New<V>(name: string, tag: TypeTag, data: V): (e: Event<V>)
    ensures e.name == name && e.tag == tag && e.payload == data
  {
    Event(name, tag, data)
  }

  /** Retrieving a payload under its construction type gives back the payload itself. */
  lemma DataRoundTrip<V>(name: string, tag: TypeTag, data: V)
    ensures New(name, tag, data).Data(tag) == Some(data)
  {
  }

  /** Retrieving a payload under any other type fails. */
  lemma DataWrongType<V>(name: string, tag: TypeTag, data: V, t: TypeTag)
    requires t != tag
    ensures New(name, tag, data).Data(t) == None
  {
  }
}
