/** What `post` does to the subscriber list of the event's name, as values. */
module Dispatch {
  import opened Events
  import opened Subscribers
  import opened Registry

  /** The index of the first subscriber whose `call` returns `Err` for `e`, if any. */
  function FirstFailure<S, V>(l: seq<Sub<S>>, e: Event<V>, call: Handler<S, V>): (r: Option<nat>)
    ensures r.Some? ==> r.value < |l| && Fails(l[r.value], e, call)
    ensures r.Some? ==> forall j :: 0 <= j < r.value ==> !Fails(l[j], e, call)
    ensures r.None? ==> forall j :: 0 <= j < |l| ==> !Fails(l[j], e, call)
  {
    Position(l, (x: Sub<S>) => Fails(x, e, call))
  }

  /** How many subscribers `post` calls: up to and including the first failing one. */
  function Invoked<S, V>(l: seq<Sub<S>>, e: Event<V>, call: Handler<S, V>): (k: nat)
    ensures k <= |l|
  {
    match FirstFailure(l, e, call)
    case Some(i) => i + 1
    case None => |l|
  }

  /** `l` after its first `k` subscribers were each called once with `e`. */
  function Notified<S, V>(l: seq<Sub<S>>, e: Event<V>, call: Handler<S, V>, k: nat): (r: seq<Sub<S>>)
    requires k <= |l|
    ensures |r| == |l|
    ensures forall j :: 0 <= j < k ==> r[j] == Called(l[j], e, call)
    ensures forall j :: k <= j < |l| ==> r[j] == l[j]
  {
    seq(|l|, j requires 0 <= j < |l| => if j < k then Called(l[j], e, call) else l[j])
  }

  /** The trace `[0, 1, ..., k - 1]` of the indices called, in order. */
  function Indices(k: nat): (r: seq<nat>)
    ensures |r| == k && forall j :: 0 <= j < k ==> r[j] == j
  {
    seq(k, j => j)
  }

  /** The outcome of one `post` on a list: the list afterwards, the trace of
      indices called and whether a subscriber returned `Err` (the panic). */
  datatype Delivery<S> = Delivery(subs: seq<Sub<S>>, trace: seq<nat>, panicked: bool)

  /** The `for` loop of `post` read as a recursion from the front of the list:
      call the head, stop on `Err`, otherwise deliver to the rest. */
  function Deliver<S, V>(l: seq<Sub<S>>, e: Event<V>, call: Handler<S, V>): Delivery<S>
  {
    if l == [] then Delivery([], [], false)
    else
      var head := Called(l[0], e, call);
      if Fails(l[0], e, call) then Delivery([head] + l[1..], [0], true)
      else
        var rest := Deliver(l[1..], e, call);
        Delivery([head] + rest.subs, [0] + Shift(rest.trace), rest.panicked)
  }

  /** Every index of a trace, one further along the list. */
  function Shift(trace: seq<nat>): (r: seq<nat>)
    ensures |r| == |trace| && forall j :: 0 <= j < |r| ==> r[j] == trace[j] + 1
  {
    seq(|trace|, j requires 0 <= j < |trace| => trace[j] + 1)
  }

  /** The recursive reading of the loop agrees with the description by index:
      the first `Invoked` subscribers are called once each, in list order, the
      rest are untouched, and the run panics exactly when some call fails. */
  lemma {:induction false} DeliverCallsPrefix<S, V>(l: seq<Sub<S>>, e: Event<V>, call: Handler<S, V>)
    ensures Deliver(l, e, call).subs == Notified(l, e, call, Invoked(l, e, call))
    ensures Deliver(l, e, call).trace == Indices(Invoked(l, e, call))
    ensures Deliver(l, e, call).panicked <==> FirstFailure(l, e, call).Some?
  {
    if l != [] && !Fails(l[0], e, call) {
      var tail := l[1..];
      DeliverCallsPrefix(tail, e, call);
      var k := Invoked(tail, e, call);
      assert Invoked(l, e, call) == k + 1 by {
        match FirstFailure(tail, e, call)
        case Some(i) =>
          assert Fails(l[i + 1], e, call);
          assert forall j :: 0 <= j < i + 1 ==> !Fails(l[j], e, call) by {
            forall j | 0 <= j < i + 1 ensures !Fails(l[j], e, call) {
              if j > 0 { assert l[j] == tail[j - 1]; }
            }
          }
          assert FirstFailure(l, e, call) == Some(i + 1);
        case None =>
          assert forall j :: 0 <= j < |l| ==> !Fails(l[j], e, call) by {
            forall j | 0 <= j < |l| ensures !Fails(l[j], e, call) {
              if j > 0 { assert l[j] == tail[j - 1]; }
            }
          }
      }
      assert FirstFailure(l, e, call).Some? <==> FirstFailure(tail, e, call).Some?;
      assert [Called(l[0], e, call)] + Notified(tail, e, call, k) == Notified(l, e, call, k + 1);
      assert [0] + Shift(Indices(k)) == Indices(k + 1);
    } else if l != [] {
      assert FirstFailure(l, e, call) == Some(0);
      assert [Called(l[0], e, call)] + l[1..] == Notified(l, e, call, 1);
    }
  }

  /** A subscriber that fails aborts the fan-out: those after it are never called. */
  lemma StopsAtFirstFailure<S, V>(l: seq<Sub<S>>, e: Event<V>, call: Handler<S, V>, i: nat)
    requires i < |l| && Fails(l[i], e, call)
    requires forall j :: 0 <= j < i ==> !Fails(l[j], e, call)
    ensures Invoked(l, e, call) == i + 1
    ensures forall j :: i < j < |l| ==> Notified(l, e, call, i + 1)[j] == l[j]
  {
  }

  /** When no subscriber fails, every subscriber is called. */
  lemma AllSucceedCallsAll<S, V>(l: seq<Sub<S>>, e: Event<V>, call: Handler<S, V>)
    requires forall j :: 0 <= j < |l| ==> !Fails(l[j], e, call)
    ensures Invoked(l, e, call) == |l|
  {
  }

  /** Posting changes nobody's type, position or number: only states change. */
  lemma NotifiedKeepsTags<S, V>(l: seq<Sub<S>>, e: Event<V>, call: Handler<S, V>, k: nat, t: TypeTag)
    requires k <= |l|
    ensures forall j :: 0 <= j < |l| ==> Notified(l, e, call, k)[j].tag == l[j].tag
    ensures FirstWithTag(Notified(l, e, call, k), t) == FirstWithTag(l, t)
  {
  }
}
