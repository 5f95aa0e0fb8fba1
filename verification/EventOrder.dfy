/** Overlapping publications as a protocol: handlers are awaited, so publications, and publications made by
    handlers, may interleave. Events are named by their position in the bus's record. */
module EventOrder {

  /** A publication of event `index` to the first `upTo` subscriptions, of which `next` have been called. */
  datatype Publication = Publication(index: nat, upTo: nat, next: nat)

  datatype Call = Call(slot: nat, index: nat)

  /** Recorded events, how many of them there were when each subscription was made, publications under way, handler
      calls so far, and the events whose publication ended with a raising handler. */
  datatype Bus = Bus(count: nat, born: seq<nat>, open: map<nat, Publication>, calls: seq<Call>, dropped: set<nat>)

  const EMPTY := Bus(0, [], map[], [], {})

  datatype Step =
    | Publish(id: nat)   // record the event and take the snapshot of the handlers
    | Deliver(id: nat)   // call the next handler of the snapshot
    | Finish(id: nat)    // every handler has been called
    | Abort(id: nat)     // a handler raised
    | Subscribe

  predicate Enabled(s: Bus, a: Step) {
    match a
    case Publish(p) => p !in s.open
    case Deliver(p) => p in s.open && s.open[p].next < s.open[p].upTo
    case Finish(p) => p in s.open && s.open[p].next == s.open[p].upTo
    case Abort(p) => p in s.open
    case Subscribe => true
  }

  function Apply(s: Bus, a: Step): Bus
    requires Enabled(s, a)
  {
    match a
    case Publish(p) => s.(count := s.count + 1, open := s.open[p := Publication(s.count, |s.born|, 0)])
    case Deliver(p) =>
      var q := s.open[p];
      s.(calls := s.calls + [Call(q.next, q.index)], open := s.open[p := q.(next := q.next + 1)])
    case Finish(p) => s.(open := s.open - {p})
    case Abort(p) => s.(open := s.open - {p}, dropped := s.dropped + {s.open[p].index})
    case Subscribe => s.(born := s.born + [s.count])
  }

  function RunFrom(s: Bus, steps: seq<Step>): Bus
    decreases |steps|
  {
    if steps == [] then s else RunFrom(if Enabled(s, steps[0]) then Apply(s, steps[0]) else s, steps[1..])
  }

  // ----- Who receives what, under every interleaving -------------------------------------------------------

  /** How often a subscription was called with an event. */
  function Times(calls: seq<Call>, slot: nat, index: nat): nat {
    if calls == [] then 0
    else Times(calls[..|calls| - 1], slot, index) + if calls[|calls| - 1] == Call(slot, index) then 1 else 0
  }

  lemma TimesMore(calls: seq<Call>, c: Call, slot: nat, index: nat)
    ensures Times(calls + [c], slot, index) == Times(calls, slot, index) + if c == Call(slot, index) then 1 else 0
  {
    assert (calls + [c])[..|calls|] == calls;
  }

  /** Subscription `slot` was made before the publication of `index` began. */
  predicate Due(s: Bus, slot: nat, index: nat) { slot < |s.born| && index < s.count && s.born[slot] <= index }

  predicate Under(s: Bus, index: nat) { exists p :: p in s.open && s.open[p].index == index }

  predicate OpenOk(s: Bus) {
    && (forall p :: p in s.open ==> s.open[p].index < s.count && s.open[p].next <= s.open[p].upTo <= |s.born|)
    && (forall p, k :: p in s.open && 0 <= k < |s.born| ==> (k < s.open[p].upTo <==> s.born[k] <= s.open[p].index))
    && (forall p, q :: p in s.open && q in s.open && p != q ==> s.open[p].index != s.open[q].index)
    && (forall k :: 0 <= k < |s.born| ==> s.born[k] <= s.count)
  }

  /** Calls that have been made are exactly those that had to be made so far, each once. */
  ghost predicate CallsOk(s: Bus) {
    && (forall p, k: nat :: p in s.open && Due(s, k, s.open[p].index) ==>
          Times(s.calls, k, s.open[p].index) == if k < s.open[p].next then 1 else 0)
    && (forall k: nat, i: nat :: Due(s, k, i) && !Under(s, i) && i !in s.dropped ==> Times(s.calls, k, i) == 1)
    && (forall k: nat, i: nat :: Times(s.calls, k, i) <= if Due(s, k, i) then 1 else 0)
  }

  ghost predicate BusInv(s: Bus) { OpenOk(s) && CallsOk(s) }

  lemma UnderStays(s: Bus, s': Bus, p: nat, i: nat)
    requires forall q :: q in s.open && q != p ==> q in s'.open && s'.open[q].index == s.open[q].index
    requires Under(s, i) && (p in s.open && s.open[p].index == i ==> p in s'.open && s'.open[p].index == i)
    ensures Under(s', i)
  {
    var q :| q in s.open && s.open[q].index == i;
    assert q in s'.open;
  }

  lemma PublishKeeps(s: Bus, p: nat)
    requires BusInv(s) && p !in s.open
    ensures BusInv(Apply(s, Publish(p)))
  {
    var s' := Apply(s, Publish(p));
    assert s'.open[p].index == s.count;
    assert Under(s', s.count);
    forall i | Under(s, i)
      ensures Under(s', i)
    {
      UnderStays(s, s', p, i);
    }
    assert forall k: nat, i: nat :: Due(s', k, i) ==> Due(s, k, i) || i == s.count;
    assert forall k: nat, i: nat :: Due(s, k, i) ==> Due(s', k, i);
  }

  lemma DeliverKeeps(s: Bus, p: nat)
    requires BusInv(s) && p in s.open && s.open[p].next < s.open[p].upTo
    ensures BusInv(Apply(s, Deliver(p)))
  {
    hide Times, Due, Under, CallsOk, OpenOk;
    var s', q := Apply(s, Deliver(p)), s.open[p];
    forall i
      ensures Under(s, i) ==> Under(s', i)
    {
      if Under(s, i) { UnderStays(s, s', p, i); }
    }
    forall k: nat, i: nat
      ensures Times(s'.calls, k, i) == Times(s.calls, k, i) + if k == q.next && i == q.index then 1 else 0
      ensures Due(s', k, i) == Due(s, k, i)
    {
      TimesMore(s.calls, Call(q.next, q.index), k, i);
      DueByBirth(s, s', k, i);
    }
    DeliverKeepsOpen(s, p);
    DeliverKeepsCalls(s, s', p);
  }

  lemma DueByBirth(s: Bus, s': Bus, slot: nat, index: nat)
    requires s'.born == s.born && s'.count == s.count
    ensures Due(s', slot, index) == Due(s, slot, index)
  {
  }

  lemma DeliverKeepsOpen(s: Bus, p: nat)
    requires OpenOk(s) && p in s.open && s.open[p].next < s.open[p].upTo
    ensures OpenOk(Apply(s, Deliver(p))) && Due(s, s.open[p].next, s.open[p].index)
  {
  }

  lemma DeliverKeepsCalls(s: Bus, s': Bus, p: nat)
    requires OpenOk(s) && CallsOk(s) && p in s.open && Due(s, s.open[p].next, s.open[p].index)
    requires s'.open == s.open[p := s.open[p].(next := s.open[p].next + 1)] && s'.dropped == s.dropped
    requires forall i :: Under(s, i) ==> Under(s', i)
    requires forall k: nat, i: nat :: Due(s', k, i) == Due(s, k, i)
    requires forall k: nat, i: nat ::
               Times(s'.calls, k, i) ==
               Times(s.calls, k, i) + if k == s.open[p].next && i == s.open[p].index then 1 else 0
    ensures CallsOk(s')
  {
    hide Times, Due, Under;
    assert Under(s, s.open[p].index) by { UnderItself(s, p); }
  }

  lemma UnderItself(s: Bus, p: nat)
    requires p in s.open
    ensures Under(s, s.open[p].index)
  {
  }

  lemma EndKeeps(s: Bus, s': Bus, p: nat)
    requires BusInv(s) && p in s.open && s' == s.(open := s.open - {p}, dropped := s'.dropped)
    requires s.dropped <= s'.dropped && (s.open[p].next < s.open[p].upTo ==> s.open[p].index in s'.dropped)
    ensures BusInv(s')
  {
    hide Times;
    forall i
      ensures Under(s, i) && i != s.open[p].index ==> Under(s', i)
    {
      if Under(s, i) && i != s.open[p].index { UnderStays(s, s', p, i); }
    }
    assert forall k: nat, i: nat :: Due(s', k, i) == Due(s, k, i);
  }

  lemma SubscribeKeeps(s: Bus)
    requires BusInv(s)
    ensures BusInv(Apply(s, Subscribe))
  {
    hide Times;
    var s' := Apply(s, Subscribe);
    forall i
      ensures Under(s', i) == Under(s, i)
    {
      if Under(s, i) { UnderStays(s, s', 0, i); }
      if Under(s', i) { UnderStays(s', s, 0, i); }
    }
    assert forall k: nat, i: nat :: Due(s', k, i) == Due(s, k, i);
  }

  lemma StepKeepsBus(s: Bus, a: Step)
    requires BusInv(s) && Enabled(s, a)
    ensures BusInv(Apply(s, a))
  {
    hide BusInv;
    match a
    case Publish(p) => PublishKeeps(s, p);
    case Deliver(p) => DeliverKeeps(s, p);
    case Finish(p) => EndKeeps(s, Apply(s, a), p);
    case Abort(p) => EndKeeps(s, Apply(s, a), p);
    case Subscribe => SubscribeKeeps(s);
  }

  lemma {:induction false} RunKeepsBus(s: Bus, steps: seq<Step>)
    requires BusInv(s)
    ensures BusInv(RunFrom(s, steps))
    decreases |steps|
  {
    hide BusInv, Apply, Enabled;
    if steps != [] {
      if Enabled(s, steps[0]) {
        StepKeepsBus(s, steps[0]);
        RunKeepsBus(Apply(s, steps[0]), steps[1..]);
      } else {
        RunKeepsBus(s, steps[1..]);
      }
    }
  }

  /** However publications overlap and handlers subscribe, publish or raise: a subscription never receives an event
      twice and never one whose publication began before it was made, and once no publication is under way it has
      received each of the others exactly once, except perhaps those that a raising handler cut short. */
  lemma DeliveredExactlyOnce(steps: seq<Step>, slot: nat, index: nat)
    ensures var s := RunFrom(EMPTY, steps);
            && Times(s.calls, slot, index) <= (if Due(s, slot, index) then 1 else 0)
            && (s.open == map[] && Due(s, slot, index) && index !in s.dropped ==> Times(s.calls, slot, index) == 1)
  {
    hide RunFrom, Times, OpenOk;
    EmptyIsOk();
    RunKeepsBus(EMPTY, steps);
  }

  lemma EmptyIsOk()
    ensures BusInv(EMPTY)
  {
  }

  // ----- In which order ------------------------------------------------------------------------------------

  /** Every subscription received its events in publication order. */
  predicate InOrder(calls: seq<Call>) {
    forall x, y :: 0 <= x < y < |calls| && calls[x].slot == calls[y].slot ==> calls[x].index < calls[y].index
  }

  predicate Delivering(s: Bus, p: nat) { p in s.open && s.open[p].next < s.open[p].upTo }

  /** No publication begins while another one still has handlers to call. */
  predicate Orderly(s: Bus, a: Step) { a.Publish? ==> forall p :: p in s.open ==> !Delivering(s, p) }

  /** At most one publication has handlers to call, and no later event has been delivered. */
  ghost predicate OrderInv(s: Bus) {
    && BusInv(s) && InOrder(s.calls)
    && (forall p, q :: Delivering(s, p) && Delivering(s, q) ==> p == q)
    && (forall p, x :: Delivering(s, p) && 0 <= x < |s.calls| ==> s.calls[x].index <= s.open[p].index)
    && (forall x :: 0 <= x < |s.calls| ==> s.calls[x].index < s.count)
  }

  lemma NotYetCalled(calls: seq<Call>, slot: nat, index: nat, x: nat)
    requires Times(calls, slot, index) == 0 && x < |calls|
    ensures calls[x] != Call(slot, index)
  {
    if x < |calls| - 1 { NotYetCalled(calls[..|calls| - 1], slot, index, x); }
  }

  lemma StepKeepsOrder(s: Bus, a: Step)
    requires OrderInv(s) && Enabled(s, a) && Orderly(s, a)
    ensures OrderInv(Apply(s, a))
  {
    hide BusInv;
    StepKeepsBus(s, a);
    if a.Deliver? {
      var q := s.open[a.id];
      NextIsNew(s, a.id);
      OpenIndex(s, a.id);
      forall x | 0 <= x < |s.calls| && s.calls[x].slot == q.next
        ensures s.calls[x].index < q.index
      {
        assert Delivering(s, a.id);
        assert s.calls[x] != Call(q.next, q.index);
      }
    }
    var s' := Apply(s, a);
    assert forall p :: Delivering(s', p) ==> Delivering(s, p) || (a.Publish? && p == a.id);
  }

  lemma OpenIndex(s: Bus, p: nat)
    requires BusInv(s) && p in s.open
    ensures s.open[p].index < s.count
  {
    hide CallsOk;
  }

  lemma NextIsNew(s: Bus, p: nat)
    requires BusInv(s) && Delivering(s, p)
    ensures forall x :: 0 <= x < |s.calls| ==> s.calls[x] != Call(s.open[p].next, s.open[p].index)
  {
    hide Times;
    var q := s.open[p];
    assert Due(s, q.next, q.index);
    forall x | 0 <= x < |s.calls|
      ensures s.calls[x] != Call(q.next, q.index)
    {
      NotYetCalled(s.calls, q.next, q.index, x);
    }
  }

  predicate OrderlyRun(s: Bus, steps: seq<Step>)
    decreases |steps|
  {
    steps == [] ||
    if Enabled(s, steps[0]) then Orderly(s, steps[0]) && OrderlyRun(Apply(s, steps[0]), steps[1..])
    else OrderlyRun(s, steps[1..])
  }

  lemma {:induction false} RunKeepsOrder(s: Bus, steps: seq<Step>)
    requires OrderInv(s) && OrderlyRun(s, steps)
    ensures OrderInv(RunFrom(s, steps))
    decreases |steps|
  {
    hide OrderInv, Apply, Enabled, Orderly;
    if steps != [] {
      if Enabled(s, steps[0]) {
        StepKeepsOrder(s, steps[0]);
        RunKeepsOrder(Apply(s, steps[0]), steps[1..]);
      } else {
        RunKeepsOrder(s, steps[1..]);
      }
    }
  }

  /** Let publication `p` call its next `n` handlers. */
  lemma {:induction false} DeliverMany(s: Bus, p: nat, n: nat) returns (steps: seq<Step>)
    requires p in s.open && s.open[p].next + n <= s.open[p].upTo
    ensures forall i :: 0 <= i < |steps| ==> steps[i].Deliver?
    ensures var s' := RunFrom(s, steps);
            && s'.open == s.open[p := s.open[p].(next := s.open[p].next + n)]
            && |s'.calls| == |s.calls| + n && s.calls <= s'.calls
            && (n > 0 ==> s'.calls[|s'.calls| - 1] == Call(s.open[p].next + n - 1, s.open[p].index))
    decreases n
  {
    if n == 0 {
      steps := [];
    } else {
      var s1 := Apply(s, Deliver(p));
      var rest := DeliverMany(s1, p, n - 1);
      steps := [Deliver(p)] + rest;
      assert steps[1..] == rest;
      assert RunFrom(s, steps) == RunFrom(s1, rest);
    }
  }

  lemma {:induction false} DeliveringIsOrderly(s: Bus, steps: seq<Step>)
    requires forall i :: 0 <= i < |steps| ==> steps[i].Deliver?
    ensures OrderlyRun(s, steps)
    decreases |steps|
  {
    hide Apply, Enabled;
    if steps != [] {
      assert forall i :: 0 <= i < |steps[1..]| ==> steps[1..][i] == steps[i + 1];
      if Enabled(s, steps[0]) {
        DeliveringIsOrderly(Apply(s, steps[0]), steps[1..]);
      } else {
        DeliveringIsOrderly(s, steps[1..]);
      }
    }
  }

  lemma {:induction false} RunConcat(s: Bus, a: seq<Step>, b: seq<Step>)
    ensures RunFrom(s, a + b) == RunFrom(RunFrom(s, a), b)
    decreases |a|
  {
    hide Enabled, Apply;
    if a == [] {
      assert a + b == b;
    } else {
      assert (a + b)[1..] == a[1..] + b;
      RunConcat(if Enabled(s, a[0]) then Apply(s, a[0]) else s, a[1..], b);
    }
  }

  /** A publication that begins while another one has handlers to call can overtake it. */
  lemma OvertakingBreaks(s: Bus, p: nat, q: nat) returns (steps: seq<Step>)
    requires BusInv(s) && p !in s.open && Delivering(s, q)
    ensures forall i :: 0 <= i < |steps| ==> steps[i].Deliver?
    ensures !InOrder(RunFrom(Apply(s, Publish(p)), steps).calls)
  {
    hide RunFrom, CallsOk;
    var s1, k := Apply(s, Publish(p)), s.open[q].next;
    var first := DeliverMany(s1, p, k + 1);
    var s2 := RunFrom(s1, first);
    var second := DeliverMany(s2, q, 1);
    var s3 := RunFrom(s2, second);
    steps := first + second;
    RunConcat(s1, first, second);
    var x, y := |s2.calls| - 1, |s3.calls| - 1;
    assert s3.calls[x] == s2.calls[x] == Call(k, s.count);
    assert s3.calls[y] == Call(k, s.open[q].index);
  }

  ghost predicate StaysInOrder(s: Bus) { forall steps :: OrderlyRun(s, steps) ==> InOrder(RunFrom(s, steps).calls) }

  /** Publication order is kept in every orderly continuation of a step if and only if the step is orderly: it does
      not begin a publication while another one still has handlers to call. */
  lemma {:induction false} StaysInOrderIff(s: Bus, a: Step)
    requires OrderInv(s) && Enabled(s, a)
    ensures StaysInOrder(Apply(s, a)) <==> Orderly(s, a)
  {
    hide RunFrom, OrderlyRun, BusInv, Apply, InOrder;
    var s1 := Apply(s, a);
    if Orderly(s, a) {
      StepKeepsOrder(s, a);
      forall steps | OrderlyRun(s1, steps)
        ensures InOrder(RunFrom(s1, steps).calls)
      {
        RunKeepsOrder(s1, steps);
      }
    } else {
      var q :| q in s.open && Delivering(s, q);
      var steps := OvertakingBreaks(s, a.id, q);
      DeliveringIsOrderly(s1, steps);
    }
  }

  /** In every orderly run every subscription receives its events in publication order. */
  lemma DeliveredInOrder(steps: seq<Step>)
    requires OrderlyRun(EMPTY, steps)
    ensures InOrder(RunFrom(EMPTY, steps).calls)
  {
    hide RunFrom, OrderlyRun;
    EmptyIsOk();
    RunKeepsOrder(EMPTY, steps);
  }

  /** A closed run in which a subscription receives the second event first. */
  lemma EventOvertaken()
    ensures RunFrom(EMPTY, [Subscribe, Publish(0), Publish(1), Deliver(1), Deliver(0)]).calls
            == [Call(0, 1), Call(0, 0)]
    ensures !InOrder([Call(0, 1), Call(0, 0)])
  {
    hide RunFrom;
    assert [Subscribe, Publish(0), Publish(1), Deliver(1), Deliver(0)]
        == [Subscribe] + [Publish(0), Publish(1), Deliver(1), Deliver(0)];
    assert [Publish(0), Publish(1), Deliver(1), Deliver(0)] == [Publish(0)] + [Publish(1), Deliver(1), Deliver(0)];
    assert [Publish(1), Deliver(1), Deliver(0)] == [Publish(1)] + [Deliver(1), Deliver(0)];
    assert [Deliver(1), Deliver(0)] == [Deliver(1)] + [Deliver(0)] && [Deliver(0)] == [Deliver(0)] + [];
    var s1 := Apply(EMPTY, Subscribe);
    var s2 := Apply(s1, Publish(0));
    var s3 := Apply(s2, Publish(1));
    var s4 := Apply(s3, Deliver(1));
    var s5 := Apply(s4, Deliver(0));
    FirstStep(EMPTY, Subscribe, [Publish(0), Publish(1), Deliver(1), Deliver(0)]);
    FirstStep(s1, Publish(0), [Publish(1), Deliver(1), Deliver(0)]);
    FirstStep(s2, Publish(1), [Deliver(1), Deliver(0)]);
    FirstStep(s3, Deliver(1), [Deliver(0)]);
    FirstStep(s4, Deliver(0), []);
    NothingRuns(s5);
    var calls := [Call(0, 1), Call(0, 0)];
    assert calls[0].slot == calls[1].slot && calls[0].index > calls[1].index;
  }

  lemma FirstStep(s: Bus, a: Step, rest: seq<Step>)
    ensures RunFrom(s, [a] + rest) == RunFrom(if Enabled(s, a) then Apply(s, a) else s, rest)
  {
    hide Enabled, Apply;
    assert ([a] + rest)[1..] == rest;
  }

  lemma NothingRuns(s: Bus)
    ensures RunFrom(s, []) == s
  {
  }
}
