/** The dispatcher: an object owning the map from event name to its ordered
    list of subscribers, updated in place by each operation. */
module Bus {
  import opened Events
  import opened Subscribers
  import opened Registry
  import opened Dispatch

  class EventBus<S> {
    /** `event_subscribers`. */
    var subs: Table<S>

    /** `EventBus::new()`: no name has subscribers. */
    constructor ()
      ensures subs == map[]
    {
      subs := map[];
    }

    /** `EventBus::from(m)`: the bus takes over `m` as it is. */
    constructor From(m: Table<S>)
      ensures subs == m
    {
      subs := m;
    }

    /** `subscribe(name, s)`: push `s` onto the list for `name`, or insert `[s]`. */
    method Subscribe(name: string, s: Sub<S>) returns (r: IoResult)
      modifies this
      ensures r == Ok
      ensures subs == Subscribed(old(subs), name, s)
      ensures subs.Keys == old(subs.Keys) + {name}
      ensures subs[name] == Get(old(subs), name) + [s]
      ensures forall k :: k in old(subs) && k != name ==> subs[k] == old(subs)[k]
    {
      if name in subs {
        subs := subs[name := subs[name] + [s]];
      } else {
        subs := subs[name := [s]];
      }
      SubscribedAppends(old(subs), name, s);
      r := Ok;
    }

    /** `unsubscribe(name, s)`: remove the first subscriber registered under
        `name` whose type is the type of `s`; a silent no-op when there is none. */
    method Unsubscribe(name: string, s: Sub<S>) returns (r: IoResult)
      modifies this
      ensures r == Ok
      ensures subs == Unsubscribed(old(subs), name, s.tag)
      ensures name !in old(subs) ==> subs == old(subs)
      ensures subs.Keys == old(subs.Keys)
      ensures forall k :: k in old(subs) && k != name ==> subs[k] == old(subs)[k]
      ensures name in old(subs) ==> |old(subs)[name]| - 1 <= |subs[name]| <= |old(subs)[name]|
    {
      if name in subs {
        var list := subs[name];
        match Position(list, (x: Sub<S>) => x.tag == s.tag)
        case Some(index) =>
          subs := subs[name := list[..index] + list[index + 1..]];
        case None =>
      }
      UnsubscribedFrame(old(subs), name, s.tag);
      r := Ok;
    }

    /** `subscribe_all(name, ss)`: `subscribe(name, s)` for each `s` in order. */
    method SubscribeAll(name: string, ss: seq<Sub<S>>) returns (r: IoResult)
      modifies this
      ensures r == Ok
      ensures subs == SubscribedAll(old(subs), name, ss)
      ensures ss != [] ==> subs == old(subs)[name := Get(old(subs), name) + ss]
      ensures ss == [] ==> subs == old(subs)
    {
      for i := 0 to |ss|
        invariant subs == SubscribedAll(old(subs), name, ss[..i])
      {
        var res := Subscribe(name, ss[i]);
        // `.expect(..)` never panics: `subscribe` always returns `Ok`.
        assert res == Ok;
        assert ss[..i + 1][..i] == ss[..i];
      }
      assert ss[..|ss|] == ss;
      SubscribedAllAppends(old(subs), name, ss);
      r := Ok;
    }

    /** `unsubscribe_all(name, ss)`: `unsubscribe(name, s)` for each `s` in order. */
    method UnsubscribeAll(name: string, ss: seq<Sub<S>>) returns (r: IoResult)
      modifies this
      ensures r == Ok
      ensures subs == UnsubscribedAll(old(subs), name, ss)
      ensures subs.Keys == old(subs.Keys)
      ensures forall k :: k in old(subs) && k != name ==> subs[k] == old(subs)[k]
    {
      for i := 0 to |ss|
        invariant subs == UnsubscribedAll(old(subs), name, ss[..i])
      {
        var res := Unsubscribe(name, ss[i]);
        // `.expect(..)` never panics: `unsubscribe` always returns `Ok`.
        assert res == Ok;
        assert ss[..i + 1][..i] == ss[..i];
      }
      assert ss[..|ss|] == ss;
      UnsubscribedAllFrame(old(subs), name, ss);
      r := Ok;
    }

    /** `post(e)`: call every subscriber registered under `e.name`, in list
        order, each with the same event, stopping at the first `Err` (where the
        source's `expect` panics). `trace` lists the indices called, in order. */
    method Post<V>(e: Event<V>, call: Handler<S, V>) returns (trace: seq<nat>, panicked: bool)
      modifies this
      ensures e.name !in old(subs) ==> subs == old(subs) && trace == [] && !panicked
      ensures e.name in old(subs) ==>
        var l := old(subs)[e.name];
        && trace == Indices(Invoked(l, e, call))
        && subs == old(subs)[e.name := Notified(l, e, call, |trace|)]
        && (panicked <==> FirstFailure(l, e, call).Some?)
      ensures subs.Keys == old(subs.Keys)
    {
      trace, panicked := [], false;
      if e.name in subs {
        var list := subs[e.name];
        ghost var l := list;
        var i := 0;
        while i < |list|
          invariant i <= |list| == |l|
          invariant list == Notified(l, e, call, i)
          invariant subs == old(subs)[e.name := list]
          invariant trace == Indices(i)
          invariant forall j :: 0 <= j < i ==> !Fails(l[j], e, call)
        {
          var c := call(list[i].state, e);
          list := list[i := Sub(list[i].tag, c.state)];
          subs := subs[e.name := list];
          trace := trace + [i];
          if !c.ok {
            panicked := true;
            assert list == Notified(l, e, call, i + 1);
            assert trace == Indices(i + 1);
            StopsAtFirstFailure(l, e, call, i);
            return;
          }
          i := i + 1;
        }
        AllSucceedCallsAll(l, e, call);
      }
    }
  }
}
