/** Signups that fail half way: the tenant keeps its phone, and its event never comes. */
module Stranding {
  import opened PyText
  import opened Slug
  import opened Tenancy
  import opened Provisioning
  import opened ProvisioningSafety
  import opened Schedules
  import opened PhoneWrites
  import opened ProvisioningRuns

  // ----- When a tenant can still be announced --------------------------------------------------------------

  predicate Announces(s: State, id: string) { exists e :: e in s.events && e.tenantId == id }

  /** The `run` that created the tenant has not recorded its event yet. */
  predicate OpenRun(s: State, id: string) {
    exists c :: c in s.tasks && s.tasks[c].kind.Onboard? && InFlight(s.tasks[c]) && s.tasks[c].snapshot.id == id
  }

  ghost predicate CanBeAnnounced(s: State, id: string, lower: Lowering) {
    exists steps :: Announces(RunFrom(s, steps, lower), id)
  }

  predicate Silent(s: State, id: string) { Get(s.repo, id).Some? && !Announces(s, id) && !OpenRun(s, id) }

  /** A tenant that is neither announced nor about to be stays so in every step, whatever the endpoints write. */
  lemma StepKeepsSilent(s: State, a: Step, lower: Lowering, id: string)
    requires Inv(s) && Silent(s, id) && Enabled(s, a)
    ensures Silent(Apply(s, a, lower), id)
  {
    hide Inv, Get, Apply, Enabled, Announces, OpenRun;
    StepKeepsInv(s, a, lower);
    EventsOfOthers(s, a, lower, id);
    NoNewOpenRun(s, a, lower, id);
  }

  /** A `run` opens only for the tenant that it creates. */
  lemma NoNewOpenRun(s: State, a: Step, lower: Lowering, id: string)
    requires Enabled(s, a) && Get(s.repo, id).Some? && !OpenRun(s, id)
    ensures !OpenRun(Apply(s, a, lower), id)
  {
    hide Get, Put, ByPhone, UniqueSlug, Slugify;
  }

  /** Only a call's own write-back records an event. */
  lemma EventsOfOthers(s: State, a: Step, lower: Lowering, id: string)
    requires Enabled(s, a) && !Announces(s, id) && !OpenRun(s, id)
    ensures !Announces(Apply(s, a, lower), id)
  {
    hide Get, Put, UniqueSlug, Slugify;
  }

  lemma {:induction false} RunKeepsSilent(s: State, steps: seq<Step>, lower: Lowering, id: string)
    requires Inv(s) && Silent(s, id)
    ensures Silent(RunFrom(s, steps, lower), id)
    decreases |steps|
  {
    hide Inv, Silent, Apply, Enabled;
    if steps != [] {
      if Enabled(s, steps[0]) {
        StepKeepsSilent(s, steps[0], lower, id);
        StepKeepsInv(s, steps[0], lower);
        RunKeepsSilent(Apply(s, steps[0], lower), steps[1..], lower, id);
      } else {
        RunKeepsSilent(s, steps[1..], lower, id);
      }
    }
  }

  /** A tenant's `tenant.onboarded` event is recorded or can still come if and only if it is recorded already or
      the `run` that created the tenant is still open; no later call, retry or endpoint can make up for it. */
  lemma {:induction false} CanBeAnnouncedIff(s: State, id: string, lower: Lowering)
    requires Inv(s) && Get(s.repo, id).Some?
    ensures CanBeAnnounced(s, id, lower) <==> Announces(s, id) || OpenRun(s, id)
  {
    hide RunFrom, Inv, Get, Put;
    if Announces(s, id) {
      NothingRuns(s, lower);
      assert Announces(RunFrom(s, [], lower), id);
    } else if OpenRun(s, id) {
      var c :| c in s.tasks && s.tasks[c].kind.Onboard? && InFlight(s.tasks[c]) && s.tasks[c].snapshot.id == id;
      var steps := FinishCall(s, c, lower);
      LastEvent(s, RunFrom(s, steps, lower), s.tasks[c].kind.payload, Settled(s.tasks[c].kind, s.tasks[c].snapshot));
    } else {
      forall steps
        ensures !Announces(RunFrom(s, steps, lower), id)
      {
        RunKeepsSilent(s, steps, lower, id);
      }
    }
  }

  lemma LastEvent(s: State, s': State, p: Payload, t: Tenant)
    requires s'.events == s.events + [EventFor(p, t)]
    ensures Announces(s', t.id)
  {
    assert s'.events[|s.events|] == EventFor(p, t);
  }

  // ----- A failed signup -----------------------------------------------------------------------------------

  /** The phone is taken, but there is no event and no new result for it, and no open `run`. */
  predicate Stranded(s: State, id: string, phone: string) {
    && Owns(s.repo, id, phone) && phone !in EventPhones(s.events) && phone !in NewPhones(s.results)
    && forall c :: c in s.tasks && s.tasks[c].kind.Onboard? ==> s.tasks[c].kind.payload.phone != phone
  }

  /** A `run` that fails before its write-back, in the SOUL template or at the spawner, strands its phone. */
  lemma FailStrands(s: State, c: nat, lower: Lowering)
    requires PhoneInv(s) && c in s.tasks && s.tasks[c].kind.Onboard? && InFlight(s.tasks[c])
    ensures Stranded(Apply(s, Fail(c), lower), s.tasks[c].snapshot.id, s.tasks[c].kind.payload.phone)
  {
    hide Get, EventPhones, NewPhones, DistinctIds, DistinctSlugs, DistinctPhones, EventsOk, ResultsOk, TasksKnown;
  }

  lemma StepKeepsStranded(s: State, a: Step, lower: Lowering, id: string, phone: string)
    requires PhonesOk(s) && Enabled(s, a) && Guarded(s, a) && Leaves(a, id, phone) && Stranded(s, id, phone)
    ensures Stranded(Apply(s, a, lower), id, phone)
  {
    hide PhonesOk, Guarded, Owns, EventPhones, NewPhones, Get, Put, UniqueSlug, Slugify;
    OwnerStays(s, a, lower, id, phone);
    OwnerIsFound(s, id, phone);
    match a
    case StartRun(c, p, n) =>
      if ByPhone(s.repo, p.phone).Some? {
        NewPhonesMore(s.results, OnboardingResult(p.phone, ByPhone(s.repo, p.phone).value.id, false));
      }
    case StartUp(_, _) =>
    case StartDown(_, _) =>
    case SpawnerActs(_) =>
    case Resume(c) =>
      if s.tasks[c].kind.Onboard? {
        EventPhonesMore(s.events, EventFor(s.tasks[c].kind.payload, Settled(s.tasks[c].kind, s.tasks[c].snapshot)));
      }
    case Return(c) =>
      NewPhonesMore(s.results, OnboardingResult(s.tasks[c].kind.payload.phone, s.tasks[c].snapshot.id, true));
    case Fail(_) =>
    case Create(_, _, _, _) =>
    case SetModel(_, _) =>
    case SetPhone(_, _) =>
  }

  lemma OwnerIsFound(s: State, id: string, phone: string)
    requires PhonesOk(s) && Owns(s.repo, id, phone)
    ensures ByPhone(s.repo, phone).Some?
  {
    OwnerIsByPhone(s.repo, id, phone);
  }

  lemma {:induction false} RunKeepsStranded(s: State, steps: seq<Step>, lower: Lowering, id: string, phone: string)
    requires PhonesOk(s) && GuardedRun(s, steps, lower) && AllLeave(steps, id, phone) && Stranded(s, id, phone)
    ensures PhonesOk(RunFrom(s, steps, lower)) && Stranded(RunFrom(s, steps, lower), id, phone)
    decreases |steps|
  {
    hide PhonesOk, Stranded, Apply, Enabled, Guarded, Leaves;
    if steps != [] {
      assert Leaves(steps[0], id, phone);
      assert forall i :: 0 <= i < |steps[1..]| ==> steps[1..][i] == steps[i + 1];
      if Enabled(s, steps[0]) {
        StepKeepsStranded(s, steps[0], lower, id, phone);
        StepKeepsPhonesOk(s, steps[0], lower);
        RunKeepsStranded(Apply(s, steps[0], lower), steps[1..], lower, id, phone);
      } else {
        RunKeepsStranded(s, steps[1..], lower, id, phone);
      }
    }
  }

  /** After a `run` has failed before its write-back, in every guarded continuation that leaves the tenant its
      phone, there is never an event and never a new result for that phone, and every retry is answered with that
      tenant and `is_new` false. */
  lemma FailedRunIsNeverMadeUp(
    s: State, c: nat, steps: seq<Step>, lower: Lowering, call: nat, p: Payload, newId: string)
    requires PhoneInv(s) && c in s.tasks && s.tasks[c].kind.Onboard? && InFlight(s.tasks[c])
    requires p.phone == s.tasks[c].kind.payload.phone
    requires var s1 := Apply(s, Fail(c), lower);
             && GuardedRun(s1, steps, lower) && AllLeave(steps, s.tasks[c].snapshot.id, p.phone)
             && Enabled(RunFrom(s1, steps, lower), StartRun(call, p, newId))
    ensures var later := RunFrom(Apply(s, Fail(c), lower), steps, lower); var id := s.tasks[c].snapshot.id;
            && (forall e :: e in later.events ==> e.phone != p.phone)
            && (forall r :: r in later.results && r.isNew ==> r.phone != p.phone)
            && Apply(later, StartRun(call, p, newId), lower)
               == later.(results := later.results + [OnboardingResult(p.phone, id, false)])
  {
    hide RunFrom, PhonesOk, GuardedRun, AllLeave, Owns, Enabled, Apply, PhoneInv, ByPhone;
    FailIsEnabled(s, c);
    var s1 := Apply(s, Fail(c), lower);
    var id := s.tasks[c].snapshot.id;
    FailStrands(s, c, lower);
    PhoneInvIsPhonesOk(s);
    StepKeepsPhonesOk(s, Fail(c), lower);
    RunKeepsStranded(s1, steps, lower, id, p.phone);
    ReplayIsSilent(s1, steps, lower, id, call, p, newId);
    NoRecords(RunFrom(s1, steps, lower), p.phone);
  }

  lemma FailIsEnabled(s: State, c: nat)
    requires c in s.tasks
    ensures Enabled(s, Fail(c)) && Guarded(s, Fail(c))
  {
  }

  lemma NoRecords(s: State, phone: string)
    requires phone !in EventPhones(s.events) && phone !in NewPhones(s.results)
    ensures forall e :: e in s.events ==> e.phone != phone
    ensures forall r :: r in s.results && r.isNew ==> r.phone != phone
  {
    assert forall e :: e in s.events ==> e.phone in EventPhones(s.events);
    assert forall r :: r in s.results && r.isNew ==> r.phone in NewPhones(s.results);
  }
}
