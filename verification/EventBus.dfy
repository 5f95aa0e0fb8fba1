/** The in-process event bus: a snapshot of the handlers is taken when a publication begins. */
module EventBus {

  /** The handlers that handler `h` subscribes while it handles an event. */
  type Reaction<!E> = (nat, E) -> seq<nat>

  /** Handler number `slot` of the handler list was called with `event`. */
  datatype Delivery<E> = Delivery(slot: nat, event: E)

  /** The events that one subscription received, in order. */
  function Received<E>(ds: seq<Delivery<E>>, slot: nat): seq<E> {
    if ds == [] then []
    else Received(ds[..|ds| - 1], slot) + if ds[|ds| - 1].slot == slot then [ds[|ds| - 1].event] else []
  }

  lemma ReceivedMore<E>(ds: seq<Delivery<E>>, d: Delivery<E>, slot: nat)
    ensures Received(ds + [d], slot) == Received(ds, slot) + if d.slot == slot then [d.event] else []
  {
    assert (ds + [d])[..|ds|] == ds;
  }

  lemma {:induction false} NeverCalled<E>(ds: seq<Delivery<E>>, slot: nat)
    requires forall i :: 0 <= i < |ds| ==> ds[i].slot != slot
    ensures Received(ds, slot) == []
  {
    if ds != [] { NeverCalled(ds[..|ds| - 1], slot); }
  }

  class InMemoryEventBus<E> {
    var events: seq<E>
    var handlers: seq<nat>

    /** How many publications had begun when each subscription was made. */
    ghost var born: seq<nat>

    /** Every handler call so far. */
    ghost var deliveries: seq<Delivery<E>>

    /** Outside a publication, each subscription has received exactly the events whose publication began after it was
        made, once each and in publication order. */
    ghost predicate Valid()
      reads this
    {
      && |born| == |handlers|
      && (forall i :: 0 <= i < |deliveries| ==> deliveries[i].slot < |handlers|)
      && (forall k :: 0 <= k < |handlers| ==> born[k] <= |events| && Received(deliveries, k) == events[born[k]..])
    }

    constructor ()
      ensures Valid() && events == [] && handlers == []
    {
      events, handlers := [], [];
      born, deliveries := [], [];
    }

    method Subscribe(handler: nat)
      requires Valid()
      modifies this
      ensures Valid() && handlers == old(handlers) + [handler] && born == old(born) + [|events|]
      ensures events == old(events) && deliveries == old(deliveries)
    {
      NeverCalled(deliveries, |handlers|);
      handlers := handlers + [handler];
      born := born + [|events|];
    }

    /** Record the event, then call the handlers subscribed before it, in order; each may subscribe more. */
    method Publish(event: E, react: Reaction<E>)
      requires Valid()
      modifies this
      ensures Valid() && events == old(events) + [event]
      ensures |handlers| >= |old(handlers)| && handlers[..|old(handlers)|] == old(handlers)
      ensures born[..|old(born)|] == old(born) && forall k :: |old(born)| <= k < |born| ==> born[k] == |events|
      ensures forall k :: 0 <= k < |old(handlers)| ==>
                Received(deliveries, k) == Received(old(deliveries), k) + [event]
      ensures forall k :: |old(handlers)| <= k < |handlers| ==> Received(deliveries, k) == []
    {
      events := events + [event];
      var snapshot := handlers;
      for i := 0 to |snapshot|
        invariant events == old(events) + [event]
        invariant |snapshot| <= |handlers| == |born| && handlers[..|snapshot|] == snapshot
        invariant born[..|snapshot|] == old(born)
        invariant forall k :: |snapshot| <= k < |born| ==> born[k] == |events|
        invariant forall d :: 0 <= d < |deliveries| ==> deliveries[d].slot < |snapshot|
        invariant forall k :: 0 <= k < |snapshot| ==>
                    Received(deliveries, k) == Received(old(deliveries), k) + if k < i then [event] else []
      {
        ghost var before := deliveries;
        deliveries := deliveries + [Delivery(i, event)];
        forall k | 0 <= k < |snapshot|
          ensures Received(deliveries, k) == Received(before, k) + if k == i then [event] else []
        {
          ReceivedMore(before, Delivery(i, event), k);
        }
        var more := react(snapshot[i], event);
        handlers := handlers + more;
        var now := |events|;
        born := born + seq(|more|, _ => now);
      }
      forall k | |snapshot| <= k < |handlers|
        ensures Received(deliveries, k) == []
      {
        NeverCalled(deliveries, k);
      }
    }
  }
}
