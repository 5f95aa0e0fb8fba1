/** Recorded status against runtime liveness: exactly which steps keep them in agreement in every continuation. */
module Lifecycle {
  import opened PyText
  import opened Slug
  import opened Tenancy
  import opened Provisioning
  import opened ProvisioningSafety
  import opened Schedules

  /** Some call on `id` stands between the spawner's action and the write-back. */
  predicate Unsettled(s: State, id: string) {
    exists c :: c in s.tasks && s.tasks[c].phase == Acted && s.tasks[c].snapshot.id == id
  }

  /** A tenant is recorded as active exactly when its runtime is up. */
  predicate Agrees(s: State, id: string) {
    Get(s.repo, id).Some? ==> (Get(s.repo, id).value.status == Active <==> id in s.running)
  }

  /** Some call in flight on `id` is a stop, or is not. */
  predicate Pending(s: State, id: string, down: bool) {
    exists c :: c in s.tasks && InFlight(s.tasks[c]) && s.tasks[c].snapshot.id == id && s.tasks[c].kind.Down? == down
  }

  /** Another call than `c` on the same tenant has acted and not yet written back. */
  predicate OtherActed(s: State, c: nat) {
    && c in s.tasks
    && var id := s.tasks[c].snapshot.id;
    exists d :: d in s.tasks && d != c && s.tasks[d].phase == Acted && s.tasks[d].snapshot.id == id
  }

  /** The step neither opposes a call in flight, start against stop, nor abandons an action that nobody will record. */
  predicate Harmless(s: State, a: Step) {
    match a
    case StartUp(_, id) => !Pending(s, id, true)
    case StartDown(_, id) => !Pending(s, id, false)
    case Fail(c) => c in s.tasks && s.tasks[c].phase == Acted ==> Agrees(s, s.tasks[c].snapshot.id) || OtherActed(s, c)
    case _ => true
  }

  // ----- What harmless steps keep --------------------------------------------------------------------------

  /** Calls in flight on one tenant all start it or all stop it. */
  predicate OneDirection(s: State) {
    forall c, d :: (c in s.tasks && d in s.tasks && InFlight(s.tasks[c]) && InFlight(s.tasks[d])
                    && s.tasks[c].snapshot.id == s.tasks[d].snapshot.id) ==>
      s.tasks[c].kind.Down? == s.tasks[d].kind.Down?
  }

  /** What an acted call did to the spawner still stands. */
  predicate ActionsStand(s: State) {
    forall c :: c in s.tasks && s.tasks[c].phase == Acted ==>
      (s.tasks[c].snapshot.id in s.running <==> !s.tasks[c].kind.Down?)
  }

  ghost predicate AllAgree(s: State) { forall id :: !Unsettled(s, id) ==> Agrees(s, id) }

  ghost predicate RunningKnown(s: State) { forall id :: id in s.running ==> Get(s.repo, id).Some? }

  ghost predicate LifeInv(s: State) { Inv(s) && OneDirection(s) && ActionsStand(s) && AllAgree(s) && RunningKnown(s) }

  /** Storing an unsettled tenant, a tenant under its old status, or a new tenant that is not active disturbs
      nothing. */
  lemma PutKeepsLife(s: State, t: Tenant)
    requires LifeInv(s) && SlugFits(s.repo, t)
    requires Unsettled(s, t.id)
          || if Get(s.repo, t.id).Some? then t.status == Get(s.repo, t.id).value.status else t.status != Active
    ensures LifeInv(s.(repo := Put(s.repo, t)))
  {
    hide Put, SlugFits, DistinctSlugs, DistinctIds, Get, Unsettled;
    var s' := s.(repo := Put(s.repo, t));
    PutKeepsSlugs(s.repo, t);
    forall id
      ensures Get(s'.repo, id) == if id == t.id then Some(t) else Get(s.repo, id)
    {
      PutGet(s.repo, t, id);
    }
    forall id
      ensures Unsettled(s', id) == Unsettled(s, id)
    {
      UnsettledByTasks(s, s', id);
    }
  }

  lemma UnsettledByTasks(s: State, s': State, id: string)
    requires s'.tasks == s.tasks
    ensures Unsettled(s', id) == Unsettled(s, id)
  {
  }

  /** A change of calls that settles nothing on tenants that disagree. */
  lemma TasksKeepLife(s: State, s': State)
    requires LifeInv(s) && Inv(s') && s'.repo == s.repo && s'.running == s.running
    requires OneDirection(s') && ActionsStand(s')
    requires forall id :: Unsettled(s, id) ==> Unsettled(s', id) || Agrees(s, id)
    ensures LifeInv(s')
  {
    hide Inv, Get, OneDirection, ActionsStand, Unsettled;
    assert forall id :: Agrees(s', id) == Agrees(s, id);
  }

  lemma StillUnsettled(s: State, s': State, c: nat, id: string)
    requires forall d :: d in s.tasks && d != c ==> d in s'.tasks && s'.tasks[d] == s.tasks[d]
    requires Unsettled(s, id)
             && (c in s.tasks && s.tasks[c].phase == Acted ==> s.tasks[c].snapshot.id != id || OtherActed(s, c))
    ensures Unsettled(s', id)
  {
    var d :| d in s.tasks && s.tasks[d].phase == Acted && s.tasks[d].snapshot.id == id;
    if d == c {
      var e :| e in s.tasks && e != c && s.tasks[e].phase == Acted && s.tasks[e].snapshot.id == s.tasks[c].snapshot.id;
      assert e in s'.tasks && s'.tasks[e] == s.tasks[e];
    } else {
      assert d in s'.tasks && s'.tasks[d] == s.tasks[d];
    }
  }

  lemma BeginKeepsLife(s: State, c: nat, kind: Kind, t: Tenant)
    requires LifeInv(s) && c !in s.tasks && Get(s.repo, t.id) == Some(t) && !Pending(s, t.id, !kind.Down?)
    ensures LifeInv(s.(tasks := s.tasks[c := Task(kind, Waiting, t)]))
  {
    hide Get, DistinctSlugs, DistinctIds, Unsettled, Agrees;
    var s' := s.(tasks := s.tasks[c := Task(kind, Waiting, t)]);
    forall id | Unsettled(s, id)
      ensures Unsettled(s', id)
    {
      StillUnsettled(s, s', c, id);
    }
    TasksKeepLife(s, s');
  }

  lemma ActKeepsLife(s: State, c: nat)
    requires LifeInv(s) && c in s.tasks && s.tasks[c].phase == Waiting
    ensures LifeInv(Act(s, c, s.tasks[c]))
  {
    hide DistinctSlugs, DistinctIds, Unsettled, Agrees, Get;
    var s' := Act(s, c, s.tasks[c]);
    var id := s.tasks[c].snapshot.id;
    ActedIsUnsettled(s', c);
    forall x | x != id
      ensures Unsettled(s, x) ==> Unsettled(s', x)
      ensures Agrees(s', x) == Agrees(s, x)
    {
      if Unsettled(s, x) { StillUnsettled(s, s', c, x); }
      OtherLiveness(s, s', x);
    }
  }

  lemma ActedIsUnsettled(s: State, c: nat)
    requires c in s.tasks && s.tasks[c].phase == Acted
    ensures Unsettled(s, s.tasks[c].snapshot.id)
  {
  }

  lemma OtherLiveness(s: State, s': State, id: string)
    requires s'.repo == s.repo && (id in s'.running <==> id in s.running)
    ensures Agrees(s', id) == Agrees(s, id)
  {
  }

  lemma EndKeepsLife(s: State, c: nat)
    requires LifeInv(s) && c in s.tasks
    requires s.tasks[c].phase == Acted ==> Agrees(s, s.tasks[c].snapshot.id) || OtherActed(s, c)
    ensures LifeInv(s.(tasks := s.tasks - {c}))
  {
    hide Get, DistinctSlugs, DistinctIds, Unsettled, Agrees, OtherActed;
    var s' := s.(tasks := s.tasks - {c});
    forall id | Unsettled(s, id)
      ensures Unsettled(s', id) || Agrees(s, id)
    {
      if !Agrees(s, id) { StillUnsettled(s, s', c, id); }
    }
    TasksKeepLife(s, s');
  }

  lemma AnnounceKeepsLife(s: State, c: nat, t: Tenant)
    requires LifeInv(s) && c in s.tasks && Agrees(s, s.tasks[c].snapshot.id)
    requires t.id == s.tasks[c].snapshot.id && t.slug == s.tasks[c].snapshot.slug
    ensures LifeInv(s.(tasks := s.tasks[c := Task(s.tasks[c].kind, Announced, t)]))
  {
    hide Get, DistinctSlugs, DistinctIds, Unsettled, Agrees;
    var s' := s.(tasks := s.tasks[c := Task(s.tasks[c].kind, Announced, t)]);
    forall id | Unsettled(s, id)
      ensures Unsettled(s', id) || Agrees(s, id)
    {
      if id != t.id { StillUnsettled(s, s', c, id); }
    }
    TasksKeepLife(s, s');
  }

  lemma RecordsDoNotMatter(s: State, es: seq<Event>, rs: seq<OnboardingResult>)
    requires LifeInv(s)
    ensures LifeInv(s.(events := es, results := rs))
  {
    hide Get, DistinctSlugs, DistinctIds, Unsettled;
    var s' := s.(events := es, results := rs);
    forall id
      ensures Unsettled(s', id) == Unsettled(s, id)
    {
      UnsettledByTasks(s, s', id);
    }
    assert forall id :: Agrees(s', id) == Agrees(s, id);
  }

  lemma WrittenBackAgrees(s: State, c: nat)
    requires LifeInv(s) && c in s.tasks && s.tasks[c].phase == Acted
    ensures var t := Settled(s.tasks[c].kind, s.tasks[c].snapshot);
            && Get(s.repo, t.id).Some? && SlugFits(s.repo, t) && Unsettled(s, t.id)
            && Agrees(s.(repo := Put(s.repo, t)), t.id)
  {
    hide Put, DistinctSlugs, DistinctIds, AllAgree, RunningKnown;
    var t := Settled(s.tasks[c].kind, s.tasks[c].snapshot);
    PutGet(s.repo, t, t.id);
  }

  lemma ResumeKeepsLife(s: State, c: nat)
    requires LifeInv(s) && c in s.tasks && s.tasks[c].phase == Acted
    ensures LifeInv(Finish(s, c, s.tasks[c]))
  {
    hide LifeInv, Put, SlugFits, Get, Unsettled, Agrees;
    var k := s.tasks[c];
    var t := Settled(k.kind, k.snapshot);
    WrittenBackAgrees(s, c);
    PutKeepsLife(s, t);
    var s1 := s.(repo := Put(s.repo, t));
    if k.kind.Onboard? {
      AnnounceKeepsLife(s1, c, t);
      RecordsDoNotMatter(s1.(tasks := s1.tasks[c := Task(k.kind, Announced, t)]),
                         s.events + [EventFor(k.kind.payload, t)], s.results);
    } else {
      EndKeepsLife(s1, c);
    }
  }

  lemma NewTenantIsNotPending(s: State, id: string)
    requires LifeInv(s) && Get(s.repo, id).None?
    ensures !Pending(s, id, true) && !Pending(s, id, false)
  {
    hide Get, DistinctSlugs, DistinctIds, AllAgree, RunningKnown;
  }

  lemma SameTasksPending(s: State, s': State, id: string, down: bool)
    requires s'.tasks == s.tasks
    ensures Pending(s', id, down) == Pending(s, id, down)
  {
  }

  lemma StartRunKeepsLife(s: State, c: nat, p: Payload, id: string, lower: Lowering)
    requires LifeInv(s) && c !in s.tasks && Get(s.repo, id).None?
    ensures LifeInv(BeginRun(s, c, p, id, lower))
  {
    hide LifeInv, Put, Get, ByPhone, Pending, UniqueSlug, Slugify;
    if ByPhone(s.repo, p.phone).None? {
      var t := Provisioned(s.repo, p, id, lower);
      var s1 := s.(repo := Put(s.repo, t));
      PutKeepsLife(s, t);
      PutGet(s.repo, t, id);
      NewTenantIsNotPending(s, id);
      SameTasksPending(s, s1, id, true);
      BeginKeepsLife(s1, c, Onboard(p), t);
    } else {
      RecordsDoNotMatter(s, s.events,
                         s.results + [OnboardingResult(p.phone, ByPhone(s.repo, p.phone).value.id, false)]);
    }
  }

  /** Harmless steps keep status and liveness in agreement, tenant by tenant, however calls interleave. */
  lemma StepKeepsLife(s: State, a: Step, lower: Lowering)
    requires LifeInv(s) && Enabled(s, a) && Harmless(s, a)
    ensures LifeInv(Apply(s, a, lower))
  {
    hide LifeInv, Put, Agrees, OtherActed, Pending, UniqueSlug, Slugify;
    match a
    case StartRun(c, p, id) => StartRunKeepsLife(s, c, p, id, lower);
    case StartUp(c, id) =>
      GetId(s.repo, id);
      if Get(s.repo, id).Some? { BeginKeepsLife(s, c, Up, Get(s.repo, id).value); }
    case StartDown(c, id) =>
      GetId(s.repo, id);
      if Get(s.repo, id).Some? { BeginKeepsLife(s, c, Down, Get(s.repo, id).value); }
    case SpawnerActs(c) => ActKeepsLife(s, c);
    case Resume(c) => ResumeKeepsLife(s, c);
    case Return(c) =>
      EndKeepsLife(s, c);
      RecordsDoNotMatter(s.(tasks := s.tasks - {c}), s.events, Apply(s, a, lower).results);
    case Fail(c) => EndKeepsLife(s, c);
    case Create(n, g, m, id) =>
      if !Taken(s.repo, g) { PutKeepsLife(s, Created(s.repo, n, g, m, id).value); }
    case SetModel(id, m) =>
      GetId(s.repo, id);
      if Get(s.repo, id).Some? { SameStatusKeepsLife(s, Get(s.repo, id).value.(model := m)); }
    case SetPhone(id, ph) =>
      GetId(s.repo, id);
      if Get(s.repo, id).Some? { SameStatusKeepsLife(s, Get(s.repo, id).value.(phone := Some(ph))); }
  }

  lemma SameStatusKeepsLife(s: State, t: Tenant)
    requires LifeInv(s) && Get(s.repo, t.id).Some?
    requires t.status == Get(s.repo, t.id).value.status && t.slug == Get(s.repo, t.id).value.slug
    ensures LifeInv(s.(repo := Put(s.repo, t)))
  {
    hide LifeInv, Put, Get;
    PutKeepsLife(s, t);
  }

  predicate HarmlessRun(s: State, steps: seq<Step>, lower: Lowering)
    decreases |steps|
  {
    steps == [] ||
    if Enabled(s, steps[0]) then Harmless(s, steps[0]) && HarmlessRun(Apply(s, steps[0], lower), steps[1..], lower)
    else HarmlessRun(s, steps[1..], lower)
  }

  lemma {:induction false} RunKeepsLife(s: State, steps: seq<Step>, lower: Lowering)
    requires LifeInv(s) && HarmlessRun(s, steps, lower)
    ensures LifeInv(RunFrom(s, steps, lower))
    decreases |steps|
  {
    hide LifeInv, Apply, Enabled, Harmless;
    if steps != [] {
      if Enabled(s, steps[0]) {
        StepKeepsLife(s, steps[0], lower);
        RunKeepsLife(Apply(s, steps[0], lower), steps[1..], lower);
      } else {
        RunKeepsLife(s, steps[1..], lower);
      }
    }
  }

  lemma InitialLife()
    ensures LifeInv(INITIAL)
  {
  }

  /** In every harmless run, every tenant without a call between action and write-back is recorded as active
      exactly when it is running, and only known tenants run. */
  lemma StatusAgreesWithRuntime(steps: seq<Step>, lower: Lowering)
    requires HarmlessRun(INITIAL, steps, lower)
    ensures var s := RunFrom(INITIAL, steps, lower); AllAgree(s) && RunningKnown(s)
  {
    hide RunFrom, AllAgree, RunningKnown, HarmlessRun;
    InitialLife();
    RunKeepsLife(INITIAL, steps, lower);
  }

  // ----- What a harmful step leads to ----------------------------------------------------------------------

  lemma {:induction false} FinishingIsHarmless(s: State, steps: seq<Step>, lower: Lowering)
    requires Finishing(steps)
    ensures HarmlessRun(s, steps, lower)
    decreases |steps|
  {
    hide Apply, Enabled;
    if steps != [] {
      assert forall i :: 0 <= i < |steps[1..]| ==> steps[1..][i] == steps[i + 1];
      if Enabled(s, steps[0]) {
        FinishingIsHarmless(Apply(s, steps[0], lower), steps[1..], lower);
      } else {
        FinishingIsHarmless(s, steps[1..], lower);
      }
    }
  }

  function ActedOn(s: State, id: string): set<nat> {
    set c | c in s.tasks && s.tasks[c].phase == Acted && s.tasks[c].snapshot.id == id
  }

  /** What a finished call in one direction records. */
  predicate StatusIs(s: State, id: string, down: bool) {
    Get(s.repo, id).Some? && Get(s.repo, id).value.status == if down then Suspended else Active
  }

  /** When all calls between action and write-back on a tenant go one way and the runtime is the other way, writing
      them all back leaves the tenant settled and in disagreement. */
  lemma {:induction false} FlushDisagrees(s: State, id: string, down: bool, lower: Lowering) returns (steps: seq<Step>)
    requires Inv(s) && Get(s.repo, id).Some? && (id in s.running <==> down)
    requires forall c :: c in ActedOn(s, id) ==> s.tasks[c].kind.Down? == down
    requires ActedOn(s, id) != {} || StatusIs(s, id, down)
    ensures Finishing(steps)
    ensures !AllAgree(RunFrom(s, steps, lower))
    decreases ActedOn(s, id)
  {
    hide RunFrom, Inv, Put, Get, AllAgree;
    if ActedOn(s, id) == {} {
      steps := [];
      NothingRuns(s, lower);
      SettledDisagrees(s, id, down);
    } else {
      var c :| c in ActedOn(s, id);
      var k := s.tasks[c];
      WritesBack(s, c, lower);
      var s1 := RunFrom(s, [Resume(c)], lower);
      PutGet(s.repo, Settled(k.kind, k.snapshot), id);
      assert c !in ActedOn(s1, id) && ActedOn(s1, id) <= ActedOn(s, id);
      assert forall d :: d in ActedOn(s1, id) ==> s1.tasks[d] == s.tasks[d];
      var rest := FlushDisagrees(s1, id, down, lower);
      steps := [Resume(c)] + rest;
      RunConcat(s, [Resume(c)], rest, lower);
    }
  }

  lemma UnsettledHasActed(s: State, id: string)
    ensures Unsettled(s, id) ==> ActedOn(s, id) != {}
  {
    if c :| c in s.tasks && s.tasks[c].phase == Acted && s.tasks[c].snapshot.id == id {
      assert c in ActedOn(s, id);
    }
  }

  lemma SettledDisagrees(s: State, id: string, down: bool)
    requires ActedOn(s, id) == {} && StatusIs(s, id, down) && (id in s.running <==> down)
    ensures !AllAgree(s)
  {
    hide Get;
    UnsettledHasActed(s, id);
    assert !Agrees(s, id);
  }

  /** All other calls in flight on the tenant of `c` go one way. */
  predicate OthersGo(s: State, c: nat, down: bool)
    requires c in s.tasks
  {
    forall e :: (e in s.tasks && e != c && InFlight(s.tasks[e]) && s.tasks[e].snapshot.id == s.tasks[c].snapshot.id) ==>
      s.tasks[e].kind.Down? == down
  }

  /** Two opposed calls in flight, the second of which has just started: let the first act if it has not, then let
      the second act and write back, and then write back everything else. */
  lemma OpposedCallsDisagree(s: State, c: nat, d: nat, lower: Lowering) returns (steps: seq<Step>)
    requires Inv(s) && c in s.tasks && d in s.tasks && InFlight(s.tasks[d]) && s.tasks[c].phase == Waiting
    requires s.tasks[c].snapshot.id == s.tasks[d].snapshot.id && s.tasks[c].kind.Down? != s.tasks[d].kind.Down?
    requires OthersGo(s, c, s.tasks[d].kind.Down?)
    ensures Finishing(steps) && !AllAgree(RunFrom(s, steps, lower))
  {
    hide RunFrom, Inv, Put, Get, AllAgree;
    var first: seq<Step> := [];
    NothingRuns(s, lower);
    if s.tasks[d].phase == Waiting {
      first := [SpawnerActs(d)];
      SpawnerActsFor(s, d, lower);
    }
    var s1 := RunFrom(s, first, lower);
    var rest := OpposedAfterAction(s1, c, d, lower);
    steps := first + rest;
    RunConcat(s, first, rest, lower);
  }

  lemma OpposedAfterAction(s: State, c: nat, d: nat, lower: Lowering) returns (steps: seq<Step>)
    requires Inv(s) && c in s.tasks && d in s.tasks && s.tasks[d].phase == Acted && s.tasks[c].phase == Waiting
    requires s.tasks[c].snapshot.id == s.tasks[d].snapshot.id && s.tasks[c].kind.Down? != s.tasks[d].kind.Down?
    requires OthersGo(s, c, s.tasks[d].kind.Down?)
    ensures Finishing(steps) && !AllAgree(RunFrom(s, steps, lower))
  {
    hide RunFrom, Inv, Put, Get, AllAgree;
    var k := s.tasks[c];
    var id := k.snapshot.id;
    SpawnerActsFor(s, c, lower);
    var s1 := Act(s, c, k);
    WritesBack(s1, c, lower);
    var s2 := RunFrom(s1, [Resume(c)], lower);
    PutGet(s1.repo, Settled(k.kind, k.snapshot), id);
    assert d in ActedOn(s2, id);
    assert forall e :: e in ActedOn(s2, id) ==> e != c && s2.tasks[e] == s.tasks[e];
    var rest := FlushDisagrees(s2, id, !k.kind.Down?, lower);
    steps := [SpawnerActs(c)] + ([Resume(c)] + rest);
    RunConcat(s, [SpawnerActs(c)], [Resume(c)] + rest, lower);
    RunConcat(s1, [Resume(c)], rest, lower);
  }

  lemma OpposedStartBreaks(s: State, c: nat, kind: Kind, id: string, lower: Lowering) returns (steps: seq<Step>)
    requires LifeInv(s) && c !in s.tasks && Pending(s, id, !kind.Down?)
    ensures Finishing(steps) && !AllAgree(RunFrom(Begin(s, c, kind, id), steps, lower))
  {
    hide RunFrom, Get, DistinctIds, DistinctSlugs, AllAgree, RunningKnown, ActionsStand;
    var d :| d in s.tasks && InFlight(s.tasks[d]) && s.tasks[d].snapshot.id == id
             && s.tasks[d].kind.Down? == !kind.Down?;
    GetId(s.repo, id);
    var s1 := Begin(s, c, kind, id);
    assert s1 == s.(tasks := s.tasks[c := Task(kind, Waiting, Get(s.repo, id).value)]);
    steps := OpposedCallsDisagree(s1, c, d, lower);
  }

  lemma AbandonedActionBreaks(s: State, c: nat)
    requires LifeInv(s) && c in s.tasks && s.tasks[c].phase == Acted
    requires !Agrees(s, s.tasks[c].snapshot.id) && !OtherActed(s, c)
    ensures !AllAgree(s.(tasks := s.tasks - {c}))
  {
    hide LifeInv, Get;
    var s', id := s.(tasks := s.tasks - {c}), s.tasks[c].snapshot.id;
    assert !Unsettled(s', id);
    assert !Agrees(s', id);
  }

  lemma HarmfulBreaks(s: State, a: Step, lower: Lowering) returns (steps: seq<Step>)
    requires LifeInv(s) && Enabled(s, a) && !Harmless(s, a)
    ensures Finishing(steps) && !AllAgree(RunFrom(Apply(s, a, lower), steps, lower))
  {
    hide LifeInv, RunFrom, Get, AllAgree, Agrees, OtherActed, Pending, Begin;
    match a
    case StartUp(c, id) => steps := OpposedStartBreaks(s, c, Up, id, lower);
    case StartDown(c, id) => steps := OpposedStartBreaks(s, c, Down, id, lower);
    case Fail(c) =>
      steps := [];
      AbandonedActionBreaks(s, c);
      NothingRuns(Apply(s, a, lower), lower);
  }

  // ----- The exact condition -------------------------------------------------------------------------------

  /** In every harmless continuation settled tenants agree. */
  ghost predicate StaysInAgreement(s: State, lower: Lowering) {
    forall steps :: HarmlessRun(s, steps, lower) ==> AllAgree(RunFrom(s, steps, lower))
  }

  /** A step keeps status and runtime in agreement in every harmless continuation if and only if it is harmless: a
      start while no stop of that tenant is in flight, a stop while no start is, and no failure after the action
      unless the status is right anyway or another call that has acted will still record it. */
  lemma {:induction false} StaysInAgreementIff(s: State, a: Step, lower: Lowering)
    requires LifeInv(s) && Enabled(s, a)
    ensures StaysInAgreement(Apply(s, a, lower), lower) <==> Harmless(s, a)
  {
    hide LifeInv, RunFrom, Apply, Enabled, AllAgree, Harmless, HarmlessRun;
    var s1 := Apply(s, a, lower);
    if Harmless(s, a) {
      StepKeepsLife(s, a, lower);
      forall steps | HarmlessRun(s1, steps, lower)
        ensures AllAgree(RunFrom(s1, steps, lower))
      {
        RunKeepsLife(s1, steps, lower);
        LifeAgrees(RunFrom(s1, steps, lower));
      }
    } else {
      var steps := HarmfulBreaks(s, a, lower);
      FinishingIsHarmless(s1, steps, lower);
    }
  }

  lemma LifeAgrees(s: State)
    requires LifeInv(s)
    ensures AllAgree(s)
  {
  }

  /** The plainest drift: a stop and a spawn of one tenant overlap, the spawn acts last, the stop writes last. */
  lemma OverlapBreaksAgreement(s: State, up: nat, down: nat, id: string, lower: Lowering)
    requires Inv(s) && up !in s.tasks && down !in s.tasks && up != down && Get(s.repo, id).Some?
    ensures var s2 := Apply(Apply(s, StartUp(up, id), lower), StartDown(down, id), lower);
            var s4 := Apply(Apply(s2, SpawnerActs(down), lower), SpawnerActs(up), lower);
            var s6 := Apply(Apply(s4, Resume(up), lower), Resume(down), lower);
            id in s6.running && Get(s6.repo, id).Some? && Get(s6.repo, id).value.status == Suspended
  {
    hide Put, Inv;
    GetId(s.repo, id);
    var t := Get(s.repo, id).value;
    PutGet(s.repo, t.(status := Active), id);
    PutGet(Put(s.repo, t.(status := Active)), t.(status := Suspended), id);
  }
}
