/**
 * The application's event bus: listeners subscribe to an event by name, the function that
 * subscribing returns removes them again, and emitting an event calls its listeners in the
 * order they subscribed.
 */
module Events {

  /** A listener function; JavaScript tells listeners apart by identity, here by a number. */
  type Listener = nat

  /** The listeners of an event; an event nobody subscribed to has none (`get(e) || []`). */
  function ListenersOf(m: map<string, seq<Listener>>, e: string): seq<Listener> {
    if e in m then m[e] else []
  }

  /** `ls.filter((entry) => entry !== l)`. */
  function Without(ls: seq<Listener>, l: Listener): (r: seq<Listener>)
    ensures |r| <= |ls|
    ensures forall x :: x in r <==> x in ls && x != l
  {
    if ls == [] then []
    else (if ls[0] == l then [] else [ls[0]]) + Without(ls[1..], l)
  }

  /** Filtering keeps the other listeners in their order: it distributes over concatenation. */
  lemma {:induction false} WithoutConcat(a: seq<Listener>, b: seq<Listener>, l: Listener)
    ensures Without(a + b, l) == Without(a, l) + Without(b, l)
  {
    if a != [] {
      assert (a + b)[1..] == a[1..] + b;
      WithoutConcat(a[1..], b, l);
    } else {
      assert a + b == b;
    }
  }

  /** Filtering out a listener that is not there changes nothing. */
  lemma {:induction false} WithoutAbsent(ls: seq<Listener>, l: Listener)
    requires l !in ls
    ensures Without(ls, l) == ls
  {
    if ls != [] {
      WithoutAbsent(ls[1..], l);
      assert ls == [ls[0]] + ls[1..];
    }
  }

  /** The listeners after `on(e, l)`. */
  function Subscribed(m: map<string, seq<Listener>>, e: string, l: Listener): map<string, seq<Listener>> {
    m[e := ListenersOf(m, e) + [l]]
  }

  /** The listeners after the function `on(e, l)` returned is called. */
  function Unsubscribed(m: map<string, seq<Listener>>, e: string, l: Listener): map<string, seq<Listener>> {
    m[e := Without(ListenersOf(m, e), l)]
  }

  /** Subscribing appends the listener to that event's list and leaves every other event as it was. */
  lemma SubscribeMeaning(m: map<string, seq<Listener>>, e: string, l: Listener, q: string)
    ensures ListenersOf(Subscribed(m, e, l), q) == if q == e then ListenersOf(m, e) + [l] else ListenersOf(m, q)
  {
  }

  /** Unsubscribing removes every copy of the listener from that event, keeps the others in order, and touches no other event. */
  lemma UnsubscribeMeaning(m: map<string, seq<Listener>>, e: string, l: Listener, q: string, other: seq<Listener>)
    ensures l !in ListenersOf(Unsubscribed(m, e, l), e)
    ensures q != e ==> ListenersOf(Unsubscribed(m, e, l), q) == ListenersOf(m, q)
    ensures l !in other ==> Without(ListenersOf(m, e) + other, l) == ListenersOf(Unsubscribed(m, e, l), e) + other
  {
    WithoutConcat(ListenersOf(m, e), other, l);
    if l !in other {
      WithoutAbsent(other, l);
    }
  }

  /** Calling the returned function a second time changes nothing. */
  lemma {:induction false} UnsubscribeIdempotent(m: map<string, seq<Listener>>, e: string, l: Listener)
    ensures Unsubscribed(Unsubscribed(m, e, l), e, l) == Unsubscribed(m, e, l)
  {
    WithoutAbsent(Without(ListenersOf(m, e), l), l);
  }

  /** Subscribing a new listener and unsubscribing it gives back the listeners as they were. */
  lemma {:induction false} SubscribeThenUnsubscribe(m: map<string, seq<Listener>>, e: string, l: Listener, q: string)
    requires l !in ListenersOf(m, e)
    ensures ListenersOf(Unsubscribed(Subscribed(m, e, l), e, l), q) == ListenersOf(m, q)
  {
    WithoutConcat(ListenersOf(m, e), [l], l);
    WithoutAbsent(ListenersOf(m, e), l);
  }

  class EventBus {
    /** `this.listeners`: the listeners of each event, in subscription order. */
    var listeners: map<string, seq<Listener>>

    constructor ()
      ensures listeners == map[]
    {
      listeners := map[];
    }

    /** `on(e, l)`. */
    method On(e: string, l: Listener)
      modifies this
      ensures listeners == Subscribed(old(listeners), e, l)
    {
      listeners := listeners[e := ListenersOf(listeners, e) + [l]];
    }

    /** The function `on(e, l)` returns, called. */
    method Unsubscribe(e: string, l: Listener)
      modifies this
      ensures listeners == Unsubscribed(old(listeners), e, l)
    {
      var current := ListenersOf(listeners, e);
      listeners := listeners[e := Without(current, l)];
    }

    /** `emit(e, payload)`: the listeners it calls, in the order it calls them. */
    method Emit(e: string) returns (invoked: seq<Listener>)
      ensures invoked == ListenersOf(listeners, e)
    {
      var ls := ListenersOf(listeners, e);
      invoked := [];
      var i := 0;
      while i < |ls|
        invariant 0 <= i <= |ls|
        invariant invoked == ls[..i]
      {
        invoked := invoked + [ls[i]];
        i := i + 1;
      }
    }
  }
}
