# Event bus — a Dafny model

A model of the `event_bus` module of a small Rust publish/subscribe dispatcher
(`src/main.rs`, lines 1–160), with proofs of what its operations do.

- **Event** (`events.dfy`, module `Events`): a name, the type tag of the
  payload's construction type, and the payload. `Data(t)` is `data::<T>()`:
  it gives the payload back when `t` is the construction type and `None`
  where the Rust `unwrap` panics.
- **Subscriber** (`subscriber.dfy`, module `Subscribers`): a stored
  subscriber is its type tag plus its private state. `Subscriber::call` is a
  function value `(state, event) -> (new state, ok)` passed to `Post`. It
  receives the event by value, so it cannot change the event.
- **EventBus registry** (`registry.dfy`, module `Registry`): the map from
  event name to subscriber list, as values. It defines what `subscribe`,
  `unsubscribe`, `subscribe_all` and `unsubscribe_all` do to that map, and
  proves the facts about them.
- **Dispatch** (`dispatch.dfy`, module `Dispatch`): what `post` does to the
  list under the event's name. The first `Invoked` subscribers are called,
  once each and in order; the run stops after the first `Err`; the others
  are untouched. A recursive reading of the loop, `Deliver`, is proved to
  agree with this.
- **EventBus class** (`bus.dfy`, module `Bus`): the mutable object. Its
  field `subs` is `event_subscribers`. Its methods update the field in place
  the way the Rust code does. Each method's `ensures` ties the new map to the
  functions of `Registry` and `Dispatch`. `Post` returns the trace of indices
  it called and whether it panicked.
- **Findings** (`findings.dfy`, module `Findings`): `unsubscribe` exactly as
  written, with the type-identity mistake described below.

The comparison in `unsubscribe` (src/main.rs:104-106) is written
`event_subscriber.type_id() == subscriber.type_id()`. The stored side is a
`&Box<dyn Subscriber>`. Method resolution reaches `Any::type_id` for
`Box<dyn Subscriber>`, so the stored side yields the `TypeId` of the box type
and not of the subscriber inside it. The argument side yields the `TypeId` of
a concrete type implementing `Subscriber`. The two are never equal, so as
written `unsubscribe` never removes anything. The documented rule is "remove
the first subscriber of the same type". The model follows that rule: each
stored subscriber carries its own tag. The as-written behaviour is kept
in `Findings`.

## Model

| member | source | states |
|---|---|---|
| `Events.New` | src/main.rs:18-27 | the new event stores the given name, payload and payload type unchanged |
| `Events.Event.Data` | src/main.rs:29-33 | the downcast succeeds exactly when the asked type is the construction type |
| `Events.DataRoundTrip` | src/main.rs:18-33 | retrieving a payload under its construction type returns that same payload |
| `Events.DataWrongType` | src/main.rs:29-33 | retrieving under any other type fails (the `unwrap` panic) |
| `Subscribers.Called` | src/main.rs:37-40 | a `call` changes only the subscriber's state, never its type |
| `Registry.Position` | src/main.rs:101-107 | `position` returns the least index whose element satisfies the predicate, or none when no element does |
| `Registry.SubscribedAppends` | src/main.rs:71-88 | `subscribe` appends at the end of an existing list or creates `[s]`; the name set gains `n`; every other name's list is unchanged |
| `Registry.SubscribedAllAppends` | src/main.rs:116-130 | the in-order fold of `subscribe` appends the whole input list, in order, to the list for `n`, and changes nothing for an empty input |
| `Registry.FirstWithTag` | src/main.rs:101-107 | the found index holds a subscriber of the asked type and no earlier one has it; none is found only when no subscriber has it |
| `Registry.RemovedFirstMatch` | src/main.rs:101-109 | when `i` is the first index with the asked type, exactly entry `i` is removed and the rest keep their order |
| `Registry.RemovedNoMatch` | src/main.rs:101-109 | with no subscriber of the asked type, the list is unchanged |
| `Registry.RemovedLength` | src/main.rs:100-110 | the list shrinks by one exactly when a subscriber of the asked type exists, and otherwise keeps its length |
| `Registry.UnsubscribedFrame` | src/main.rs:100-112 | `unsubscribe` on a name without an entry changes nothing; it keeps the set of names and every other name's list, and it does not prune emptied lists |
| `Registry.UnsubscribedAllFrame` | src/main.rs:132-146 | the fold of `unsubscribe` keeps the set of names, changes nothing for an absent name, and touches no other name |
| `Registry.RemovedCount` | src/main.rs:101-109 | one `unsubscribe` of type `t` lowers the number of type-`t` subscribers by one when there is one, and keeps every other type's number |
| `Registry.UnsubscribedAllCount` | src/main.rs:132-146 | unsubscribing `k` subscribers of one type removes `k` of that type, or all of them when fewer are there, and keeps every other type's number |
| `Registry.SameTypeTwice` | src/main.rs:66-113 | two subscribers of one type under one name: one `unsubscribe` leaves the later, a second leaves none |
| `Dispatch.FirstFailure` | src/main.rs:152-156 | the least index whose `call` returns `Err`, or none when every call succeeds |
| `Dispatch.Invoked` | src/main.rs:152-156 | the number of subscribers `post` calls never exceeds the list's length |
| `Dispatch.Notified` | src/main.rs:151-157 | the first `k` subscribers each get the state of one call with the event; the rest and the length are unchanged |
| `Dispatch.DeliverCallsPrefix` | src/main.rs:151-157 | the loop read as a recursion calls exactly the first `Invoked` subscribers, once each and in order, leaves the rest untouched, and panics exactly when some call fails |
| `Dispatch.StopsAtFirstFailure` | src/main.rs:153-155 | when subscriber `i` is the first whose call fails, exactly `i + 1` are called and every later one is left as it was |
| `Dispatch.AllSucceedCallsAll` | src/main.rs:152-156 | when no call fails, every subscriber in the list is called |
| `Dispatch.NotifiedKeepsTags` | src/main.rs:151-157 | posting changes no subscriber's type or position, so a later `unsubscribe` finds the same victim |
| `Bus.EventBus.constructor` | src/main.rs:54-58 | a new bus has an empty map |
| `Bus.EventBus.From` | src/main.rs:61-63 | a bus made from a map holds exactly that map |
| `Bus.EventBus.Subscribe` | src/main.rs:66-89 | returns `Ok`; the new map is `Subscribed` of the old: the list for `name` is the old list (or empty) plus `s`, and all other names are unchanged |
| `Bus.EventBus.Unsubscribe` | src/main.rs:91-113 | returns `Ok`; the new map is `Unsubscribed` of the old; nothing changes for an absent name; the names and other lists are kept; the length drops by at most one |
| `Bus.EventBus.SubscribeAll` | src/main.rs:116-130 | returns `Ok` and its `expect` never fires; the result equals `subscribe` applied to each element in input order, which is the input appended to the list for `name` |
| `Bus.EventBus.UnsubscribeAll` | src/main.rs:132-146 | returns `Ok` and its `expect` never fires; the result equals `unsubscribe` applied to each element in input order; names and other lists are kept |
| `Bus.EventBus.Post` | src/main.rs:149-158 | with no entry it calls nobody and changes nothing; otherwise its trace is `0, 1, ..., Invoked - 1`, only those subscribers' states change (one call each with the same event), the set of names is kept, and it panics exactly when some call returns `Err` |
| `Findings.AsWrittenNeverRemoves` | src/main.rs:104-106 | comparing each stored box's own `TypeId` with a subscriber type's `TypeId` never matches, so `unsubscribe` as written leaves the list unchanged |
| `Findings.TickerStaysSubscribed` | src/main.rs:100-109 | for one subscribed `Ticker`, the as-written `unsubscribe` keeps it while the intended rule removes it |

## Findings

| source | as written | input that shows it | evidently intended | confidence | as-written member | corrected member |
|---|---|---|---|---|---|---|
| src/main.rs:105 | `event_subscriber.type_id()` on `&Box<dyn Subscriber>` gives the `TypeId` of `Box<dyn Subscriber>`, which never equals the argument's type, so nothing is ever removed | subscribe a `Ticker` under "TickEvent", then `unsubscribe("TickEvent", Ticker::new())`: the Ticker stays | remove the first subscriber whose concrete type equals the argument's | not executed; follows from Rust's method resolution for `Any::type_id` | `Findings.TickerStaysSubscribed` | `Registry.RemovedFirstMatch` |

## Left out

- `main` and the `Ticker` demo (src/main.rs:162-195): printing, `thread::sleep` and timing are I/O.
- Concrete subscriber bodies: `Subscriber::call` is a parameter of `Post`, a total function of the subscriber's state and the event.
- Subscribers of different Rust types carry different state types; one bus here has one state type `S`, and types differ only by their tag.
- The payload type is a type parameter of each event. `Box<dyn Any>` and `TypeId` are modelled by the tag stored beside the payload. `TypeTag` is a type name, and equal tags mean equal types.
- `io::Error` contents and the `format!` panic messages: a failure is one `Err` value, and a panic in `post` is the `panicked` result.
- Unwinding after a panic in `post` is not modelled. The bus is described as it stands at the panic: the failing subscriber's state change is kept, because `call` took `&mut self`.
- `HashMap` hashing and iteration order: the map is a Dafny `map`.
- Ownership and dropping of events and removed subscribers, and the `Into<String>` conversion of names (names are already strings).
- `subscribe_all` and `unsubscribe_all` take a `Vec<S>` of one Rust type. The model accepts a list of any tags. The one-type case is the precondition of `Registry.UnsubscribedAllCount`.
- `Bus.EventBus.Unsubscribe`: models the intended "first subscriber of the same type" rule, not the as-written comparison at src/main.rs:105, which never matches (see Findings).
