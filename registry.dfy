/** The registry of the event bus as values: what `subscribe`, `unsubscribe`
    and their bulk forms do to the map from event name to subscriber list. */
module Registry {
  import opened Events
  import opened Subscribers

  /** `HashMap<String, Vec<Box<dyn Subscriber>>>`, without hashing or iteration order. */
  type Table<S> = map<string, seq<Sub<S>>>

  /** `Iterator::position`: the least index whose element satisfies `p`, if any. */
  function Position<T>(s: seq<T>, p: T -> bool): (r: Option<nat>)
    ensures r.Some? ==> r.value < |s| && p(s[r.value]) && forall j :: 0 <= j < r.value ==> !p(s[j])
    ensures r.None? ==> forall j :: 0 <= j < |s| ==> !p(s[j])
  {
    if s == [] then None
    else if p(s[0]) then Some(0)
    else match Position(s[1..], p)
      case Some(i) => Some(i + 1)
      case None => None
  }

  /** The list registered under `n`; empty when `n` has no entry. */
  function Get<S>(m: Table<S>, n: string): seq<Sub<S>>
  {
    if n in m then m[n] else []
  }

  //////////////////////////////////////////////////////////////////////////////
  // subscribe and subscribe_all
  //////////////////////////////////////////////////////////////////////////////

  /** `subscribe(n, s)`: push onto the existing list, or insert a new one-element list. */
  function Subscribed<S>(m: Table<S>, n: string, s: Sub<S>): Table<S>
  {
    if n in m then m[n := m[n] + [s]] else m[n := [s]]
  }

  /** Subscribing appends at the end of the list for `n`, creating it when
      absent, and leaves every other name as it was. */
  lemma SubscribedAppends<S>(m: Table<S>, n: string, s: Sub<S>)
    ensures Subscribed(m, n, s).Keys == m.Keys + {n}
    ensures n in m ==> Subscribed(m, n, s)[n] == m[n] + [s]
    ensures n !in m ==> Subscribed(m, n, s)[n] == [s]
    ensures forall k :: k in m && k != n ==> Subscribed(m, n, s)[k] == m[k]
  {
  }

  /** `subscribe_all(n, ss)`: `subscribe(n, s)` for each `s` of `ss`, first to last. */
  function SubscribedAll<S>(m: Table<S>, n: string, ss: seq<Sub<S>>): Table<S>
    decreases |ss|
  {
    if ss == [] then m
    else Subscribed(SubscribedAll(m, n, ss[..|ss| - 1]), n, ss[|ss| - 1])
  }

  /** Subscribing a list appends the whole list, in its order, to the list for
      `n`; no other name changes, and an empty list changes nothing at all. */
  lemma {:induction false} SubscribedAllAppends<S>(m: Table<S>, n: string, ss: seq<Sub<S>>)
    ensures SubscribedAll(m, n, ss) == if ss == [] then m else m[n := Get(m, n) + ss]
    decreases |ss|
  {
    if ss != [] {
      var init := ss[..|ss| - 1];
      SubscribedAllAppends(m, n, init);
      assert init + [ss[|ss| - 1]] == ss;
      if init != [] {
        assert Get(m, n) + init + [ss[|ss| - 1]] == Get(m, n) + ss;
      }
    }
  }

  //////////////////////////////////////////////////////////////////////////////
  // unsubscribe and unsubscribe_all
  //////////////////////////////////////////////////////////////////////////////

  /** The index of the first subscriber in `l` whose type is `t`, if any. */
  function FirstWithTag<S>(l: seq<Sub<S>>, t: TypeTag): (r: Option<nat>)
    ensures r.Some? ==> r.value < |l| && l[r.value].tag == t
    ensures r.Some? ==> forall j :: 0 <= j < r.value ==> l[j].tag != t
    ensures r.None? ==> forall j :: 0 <= j < |l| ==> l[j].tag != t
  {
    Position(l, (x: Sub<S>) => x.tag == t)
  }

  /** `Vec::remove(index)` of the first subscriber of type `t`; the list itself when there is none. */
  function Removed<S>(l: seq<Sub<S>>, t: TypeTag): seq<Sub<S>>
  {
    match FirstWithTag(l, t)
    case Some(i) => l[..i] + l[i + 1..]
    case None => l
  }

  /** When `i` is the first index of a subscriber of type `t`, exactly that entry
      is removed and the others keep their order. */
  lemma RemovedFirstMatch<S>(l: seq<Sub<S>>, t: TypeTag, i: nat)
    requires i < |l| && l[i].tag == t
    requires forall j :: 0 <= j < i ==> l[j].tag != t
    ensures Removed(l, t) == l[..i] + l[i + 1..]
  {
  }

  /** With no subscriber of type `t` the list is unchanged. */
  lemma RemovedNoMatch<S>(l: seq<Sub<S>>, t: TypeTag)
    requires forall j :: 0 <= j < |l| ==> l[j].tag != t
    ensures Removed(l, t) == l
  {
  }

  /** Removal shortens the list by exactly one when some subscriber has type
      `t`, and otherwise not at all. */
  lemma RemovedLength<S>(l: seq<Sub<S>>, t: TypeTag)
    ensures |Removed(l, t)| == if exists j :: 0 <= j < |l| && l[j].tag == t then |l| - 1 else |l|
  {
  }

  /** `unsubscribe(n, s)` where `t` is the type of `s`. */
  function Unsubscribed<S>(m: Table<S>, n: string, t: TypeTag): Table<S>
  {
    if n in m then m[n := Removed(m[n], t)] else m
  }

  /** Unsubscribing from a name without an entry changes nothing; otherwise only
      the list for `n` changes, and no entry is created or pruned. */
  lemma UnsubscribedFrame<S>(m: Table<S>, n: string, t: TypeTag)
    ensures n !in m ==> Unsubscribed(m, n, t) == m
    ensures Unsubscribed(m, n, t).Keys == m.Keys
    ensures n in m ==> Unsubscribed(m, n, t)[n] == Removed(m[n], t)
    ensures forall k :: k in m && k != n ==> Unsubscribed(m, n, t)[k] == m[k]
  {
  }

  /** `unsubscribe_all(n, ss)`: `unsubscribe(n, s)` for each `s` of `ss`, first to last. */
  function UnsubscribedAll<S>(m: Table<S>, n: string, ss: seq<Sub<S>>): Table<S>
    decreases |ss|
  {
    if ss == [] then m
    else Unsubscribed(UnsubscribedAll(m, n, ss[..|ss| - 1]), n, ss[|ss| - 1].tag)
  }

  /** Bulk unsubscription keeps the set of names and touches no other name's list. */
  lemma {:induction false} UnsubscribedAllFrame<S>(m: Table<S>, n: string, ss: seq<Sub<S>>)
    ensures UnsubscribedAll(m, n, ss).Keys == m.Keys
    ensures n !in m ==> UnsubscribedAll(m, n, ss) == m
    ensures forall k :: k in m && k != n ==> UnsubscribedAll(m, n, ss)[k] == m[k]
    decreases |ss|
  {
    if ss != [] {
      UnsubscribedAllFrame(m, n, ss[..|ss| - 1]);
    }
  }

  //////////////////////////////////////////////////////////////////////////////
  // Counting subscribers of one type
  //////////////////////////////////////////////////////////////////////////////

  /** The number of subscribers of type `t` in `l`. */
  function CountTag<S>(l: seq<Sub<S>>, t: TypeTag): nat
  {
    if l == [] then 0 else (if l[0].tag == t then 1 else 0) + CountTag(l[1..], t)
  }

  lemma {:induction false} CountTagConcat<S>(a: seq<Sub<S>>, b: seq<Sub<S>>, t: TypeTag)
    ensures CountTag(a + b, t) == CountTag(a, t) + CountTag(b, t)
  {
    if a != [] {
      assert (a + b)[1..] == a[1..] + b;
      CountTagConcat(a[1..], b, t);
    } else {
      assert a + b == b;
    }
  }

  lemma {:induction false} CountTagNone<S>(l: seq<Sub<S>>, t: TypeTag)
    requires forall j :: 0 <= j < |l| ==> l[j].tag != t
    ensures CountTag(l, t) == 0
  {
    if l != [] {
      assert l[0].tag != t;
      CountTagNone(l[1..], t);
    }
  }

  /** One `unsubscribe` of type `t` lowers the number of subscribers of type `t`
      by one (if there is any) and keeps the number of every other type. */
  lemma RemovedCount<S>(l: seq<Sub<S>>, t: TypeTag, u: TypeTag)
    ensures CountTag(Removed(l, t), u) ==
      if u == t && CountTag(l, t) > 0 then CountTag(l, t) - 1 else CountTag(l, u)
  {
    match FirstWithTag(l, t)
    case Some(i) =>
      assert l == l[..i] + [l[i]] + l[i + 1..];
      CountTagConcat(l[..i] + [l[i]], l[i + 1..], u);
      CountTagConcat(l[..i], [l[i]], u);
      CountTagConcat(l[..i], l[i + 1..], u);
      assert CountTag([l[i]], u) == if u == t then 1 else 0 by {
        assert [l[i]][1..] == [];
      }
    case None =>
      CountTagNone(l, t);
  }

  /** Unsubscribing `k` subscribers of type `t` removes `k` of that type, or all
      of them when fewer are registered, and keeps the number of every other type. */
  lemma {:induction false} UnsubscribedAllCount<S>(m: Table<S>, n: string, ss: seq<Sub<S>>, t: TypeTag, u: TypeTag)
    requires n in m
    requires forall i :: 0 <= i < |ss| ==> ss[i].tag == t
    ensures n in UnsubscribedAll(m, n, ss)
    ensures CountTag(UnsubscribedAll(m, n, ss)[n], u) ==
      if u != t then CountTag(m[n], u)
      else if CountTag(m[n], t) <= |ss| then 0
      else CountTag(m[n], t) - |ss|
    decreases |ss|
  {
    if ss != [] {
      var init := ss[..|ss| - 1];
      UnsubscribedAllCount(m, n, init, t, u);
      UnsubscribedAllFrame(m, n, init);
      RemovedCount(UnsubscribedAll(m, n, init)[n], t, u);
    }
  }

  /** Two subscribers of one type under one name: one `unsubscribe` of that
      type removes the earlier and keeps the later, a second removes both. */
  lemma SameTypeTwice<S>(n: string, t: TypeTag, a: S, b: S)
    ensures Unsubscribed(Subscribed(Subscribed(map[], n, Sub(t, a)), n, Sub(t, b)), n, t)[n] == [Sub(t, b)]
    ensures Unsubscribed(Unsubscribed(Subscribed(Subscribed(map[], n, Sub(t, a)), n, Sub(t, b)), n, t), n, t)[n] == []
  {
  }
}
