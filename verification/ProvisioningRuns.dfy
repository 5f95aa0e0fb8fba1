/** Whole runs of the provisioning protocol: unique slugs, at-most-once onboarding, stable routing, silent replays. */
module ProvisioningRuns {
  import opened PyText
  import opened Slug
  import opened Tenancy
  import opened Provisioning
  import opened ProvisioningSafety
  import opened PhoneWrites
  import opened Schedules

  lemma InitialState()
    ensures PhoneInv(INITIAL)
  {
  }

  lemma {:induction false} RunKeepsInv(s: State, steps: seq<Step>, lower: Lowering)
    requires Inv(s)
    ensures Inv(RunFrom(s, steps, lower)) && KeepsSlugs(s.repo, RunFrom(s, steps, lower).repo)
    decreases |steps|
  {
    hide Inv, Apply, Enabled, Get;
    if steps != [] {
      if Enabled(s, steps[0]) {
        StepKeepsInv(s, steps[0], lower);
        RunKeepsInv(Apply(s, steps[0], lower), steps[1..], lower);
      } else {
        RunKeepsInv(s, steps[1..], lower);
      }
    }
  }

  /** However the calls interleave, and whatever phones the admin endpoints write, slugs stay pairwise distinct. */
  lemma SlugsStayDistinct(steps: seq<Step>, lower: Lowering)
    ensures DistinctSlugs(RunFrom(INITIAL, steps, lower).repo)
  {
    InitialState();
    RunKeepsInv(INITIAL, steps, lower);
  }

  /** Phone ids stay pairwise distinct in every interleaving whose phone writes are guarded. */
  lemma PhonesAreDistinct(steps: seq<Step>, lower: Lowering)
    requires GuardedRun(INITIAL, steps, lower)
    ensures DistinctPhones(RunFrom(INITIAL, steps, lower).repo)
  {
    hide RunFrom, PhoneInv, DistinctPhones, GuardedRun;
    InitialState();
    PhoneInvIsPhonesOk(INITIAL);
    RunKeepsPhonesOk(INITIAL, steps, lower);
  }

  // ----- At-most-once onboarding ---------------------------------------------------------------------------

  /** Every step of the run that is taken is checked. */
  predicate CheckedRun(s: State, steps: seq<Step>, lower: Lowering)
    decreases |steps|
  {
    steps == [] ||
    if Enabled(s, steps[0]) then Checked(s, steps[0]) && CheckedRun(Apply(s, steps[0], lower), steps[1..], lower)
    else CheckedRun(s, steps[1..], lower)
  }

  lemma {:induction false} RunKeepsPhoneInv(s: State, steps: seq<Step>, lower: Lowering)
    requires PhoneInv(s) && CheckedRun(s, steps, lower)
    ensures PhoneInv(RunFrom(s, steps, lower))
    decreases |steps|
  {
    hide PhoneInv, Apply, Enabled, Checked;
    if steps != [] {
      if Enabled(s, steps[0]) {
        StepKeepsPhoneInv(s, steps[0], lower);
        RunKeepsPhoneInv(Apply(s, steps[0], lower), steps[1..], lower);
      } else {
        RunKeepsPhoneInv(s, steps[1..], lower);
      }
    }
  }

  /** Phone ids are distinct, a phone has at most one event and at most one new result, and a new result's event is
      recorded. */
  ghost predicate AtMostOnce(s: State) {
    && DistinctPhones(s.repo)
    && (forall i, j :: 0 <= i < j < |s.events| ==> s.events[i].phone != s.events[j].phone)
    && (forall i, j :: 0 <= i < j < |s.results| && s.results[i].isNew && s.results[j].isNew ==>
          s.results[i].phone != s.results[j].phone)
    && (forall r :: r in s.results && r.isNew ==> exists e :: e in s.events && e.phone == r.phone)
  }

  lemma PhoneInvIsAtMostOnce(s: State)
    requires PhoneInv(s)
    ensures AtMostOnce(s)
  {
    hide Get, Find, ByPhone;
    forall r | r in s.results && r.isNew
      ensures exists e :: e in s.events && e.phone == r.phone
    {
      assert r.phone in NewPhones(s.results);
      assert r.phone in EventPhones(s.events);
    }
  }

  /** Onboarding is at-most-once in every interleaving whose phone writes are checked. */
  lemma OnboardingIsAtMostOnce(steps: seq<Step>, lower: Lowering)
    requires CheckedRun(INITIAL, steps, lower)
    ensures AtMostOnce(RunFrom(INITIAL, steps, lower))
  {
    hide RunFrom, PhoneInv, AtMostOnce, CheckedRun;
    InitialState();
    RunKeepsPhoneInv(INITIAL, steps, lower);
    PhoneInvIsAtMostOnce(RunFrom(INITIAL, steps, lower));
  }

  ghost predicate StaysAtMostOnce(s: State, lower: Lowering) {
    forall steps :: CheckedRun(s, steps, lower) ==> AtMostOnce(RunFrom(s, steps, lower))
  }

  lemma {:induction false} NoWritesIsChecked(s: State, steps: seq<Step>, lower: Lowering)
    requires NoPhoneWrites(steps)
    ensures CheckedRun(s, steps, lower)
    decreases |steps|
  {
    hide Apply, Enabled;
    if steps != [] {
      assert forall i :: 0 <= i < |steps[1..]| ==> steps[1..][i] == steps[i + 1];
      if Enabled(s, steps[0]) {
        NoWritesIsChecked(Apply(s, steps[0], lower), steps[1..], lower);
      } else {
        NoWritesIsChecked(s, steps[1..], lower);
      }
    }
  }

  /** After a guarded write nobody has the old phone. */
  lemma OldPhoneIsFree(r: Repo, id: string, former: string, phone: string)
    requires DistinctIds(r) && DistinctPhones(r) && Owns(r, id, former) && former != phone
    ensures ByPhone(Put(r, Get(r, id).value.(phone := Some(phone))), former).None?
  {
    hide ByPhone, Put;
    PhoneWritten(r, id, phone);
    var moved := Put(r, Get(r, id).value.(phone := Some(phone)));
    assert r[Find(r, id)].phone == Some(former);
    assert forall j :: 0 <= j < |moved| ==> moved[j].phone != Some(former);
    NobodyHas(moved, former);
  }

  lemma NobodyHas(r: Repo, phone: string)
    requires forall j :: 0 <= j < |r| ==> r[j].phone != Some(phone)
    ensures ByPhone(r, phone).None?
  {
  }

  /** Giving away a phone that had its event lets a signup for that phone record a second one. */
  lemma UncheckedWriteBreaks(s: State, a: Step, lower: Lowering) returns (steps: seq<Step>)
    requires PhoneInv(s) && Enabled(s, a) && Guarded(s, a) && !Checked(s, a)
    ensures NoPhoneWrites(steps) && !AtMostOnce(RunFrom(Apply(s, a, lower), steps, lower))
  {
    hide RunFrom, PhoneInv, Put, ByPhone, Find, UniqueSlug, Slugify, AtMostOnce;
    var former := Get(s.repo, a.id).value.phone.value;
    PhoneInvIsPhonesOk(s);
    OldPhoneIsFree(s.repo, a.id, former, a.phone);
    StepKeepsInv(s, a, lower);
    var s1 := Apply(s, a, lower);
    var last := SignupRecords(s1, former, lower);
    steps := last;
  }

  /** A phone that nobody has can be signed up for, and then its event is recorded. */
  lemma SignupRecords(s: State, phone: string, lower: Lowering) returns (steps: seq<Step>)
    requires Inv(s) && ByPhone(s.repo, phone).None? && Recorded(s, phone)
    ensures NoPhoneWrites(steps) && !AtMostOnce(RunFrom(s, steps, lower))
  {
    hide RunFrom, Inv, Put, Get, ByPhone, UniqueSlug, Slugify;
    var call := FreshCall(s.tasks);
    var id := FreshId(s.repo);
    var p := Payload(phone, "", None, None);
    var a := StartRun(call, p, id);
    RunOne(s, a, lower);
    StepKeepsInv(s, a, lower);
    var s1 := RunFrom(s, [a], lower);
    var rest := FinishCall(s1, call, lower);
    steps := [a] + rest;
    RunConcat(s, [a], rest, lower);
    var s2 := RunFrom(s1, rest, lower);
    var i :| 0 <= i < |s.events| && s.events[i].phone == phone;
    assert s2.events[i].phone == s2.events[|s.events|].phone == phone;
  }

  /** The at-most-once guarantee survives a step, in every checked continuation, if and only if the step is checked:
      it changes no phone, or it is guarded and the old phone has had no event. */
  lemma {:induction false} StaysAtMostOnceIff(s: State, a: Step, lower: Lowering)
    requires PhoneInv(s) && Enabled(s, a)
    ensures StaysAtMostOnce(Apply(s, a, lower), lower) <==> Checked(s, a)
  {
    hide RunFrom, Apply, Enabled, PhoneInv, CheckedRun, AtMostOnce, Checked, Guarded, PhonesOk;
    var s1 := Apply(s, a, lower);
    if Checked(s, a) {
      StepKeepsPhoneInv(s, a, lower);
      forall steps | CheckedRun(s1, steps, lower)
        ensures AtMostOnce(RunFrom(s1, steps, lower))
      {
        RunKeepsPhoneInv(s1, steps, lower);
        PhoneInvIsAtMostOnce(RunFrom(s1, steps, lower));
      }
    } else {
      PhoneInvIsPhonesOk(s);
      if Guarded(s, a) {
        var steps := UncheckedWriteBreaks(s, a, lower);
        NoWritesIsChecked(s1, steps, lower);
      } else {
        var steps := UnguardedWriteBreaks(s, a, lower);
        NoWritesIsChecked(s1, steps, lower);
        NotDistinct(RunFrom(s1, steps, lower));
      }
    }
  }

  lemma NotDistinct(s: State)
    requires !DistinctPhones(s.repo)
    ensures !AtMostOnce(s)
  {
  }

  // ----- Whom the records name ------------------------------------------------------------------------------

  /** The tenant that a phone resolves to. */
  predicate Resolves(r: Repo, phone: string, id: string) { ByPhone(r, phone).Some? && ByPhone(r, phone).value.id == id }

  lemma PhoneInvResolves(s: State, id: string, phone: string)
    requires PhoneInv(s) && Owns(s.repo, id, phone)
    ensures Resolves(s.repo, phone, id)
  {
    OwnerIsByPhone(s.repo, id, phone);
    GetId(s.repo, id);
  }

  /** In every checked run every event and every new result names the tenant that owns its phone. */
  lemma RecordsNameOwners(steps: seq<Step>, lower: Lowering)
    requires CheckedRun(INITIAL, steps, lower)
    ensures var s := RunFrom(INITIAL, steps, lower);
            && (forall e :: e in s.events ==> Resolves(s.repo, e.phone, e.tenantId))
            && (forall r :: r in s.results && r.isNew ==> Resolves(s.repo, r.phone, r.tenantId))
  {
    hide RunFrom, CheckedRun, Resolves, Owns, Inv, TasksPhones, CallsOk;
    InitialState();
    RunKeepsPhoneInv(INITIAL, steps, lower);
    var s := RunFrom(INITIAL, steps, lower);
    forall e | e in s.events
      ensures Resolves(s.repo, e.phone, e.tenantId)
    {
      PhoneInvResolves(s, e.tenantId, e.phone);
    }
    forall r | r in s.results && r.isNew
      ensures Resolves(s.repo, r.phone, r.tenantId)
    {
      PhoneInvResolves(s, r.tenantId, r.phone);
    }
  }

  /** Every result, replays included, names the owner of its phone. */
  ghost predicate ResultsResolve(s: State) { forall r :: r in s.results ==> Resolves(s.repo, r.phone, r.tenantId) }

  /** The step moves no phone that a result carries. */
  predicate MovesNoResult(s: State, a: Step) {
    ChangesPhone(s, a) ==> forall r :: r in s.results ==> Get(s.repo, a.id).value.phone != Some(r.phone)
  }

  /** A checked step keeps every result, replays included, naming the owner of its phone if and only if it moves no
      phone that a result carries. */
  lemma ResultsResolveIff(s: State, a: Step, lower: Lowering)
    requires PhoneInv(s) && ResultsResolve(s) && Enabled(s, a) && Checked(s, a)
    ensures ResultsResolve(Apply(s, a, lower)) <==> MovesNoResult(s, a)
  {
    hide PhoneInv, Apply, Enabled, Checked, ByPhone, Owns;
    var s1 := Apply(s, a, lower);
    PhoneInvIsPhonesOk(s);
    if MovesNoResult(s, a) {
      StepKeepsPhoneInv(s, a, lower);
      forall r | r in s1.results
        ensures Resolves(s1.repo, r.phone, r.tenantId)
      {
        if r in s.results {
          ResolvesOwns(s, r.tenantId, r.phone);
          NotMoved(s, a, r);
          OwnerStays(s, a, lower, r.tenantId, r.phone);
        } else {
          NewRecordOwns(s, a, lower, r);
        }
        PhoneInvResolves(s1, r.tenantId, r.phone);
      }
    } else {
      var r :| r in s.results && Get(s.repo, a.id).value.phone == Some(r.phone);
      MovedAway(s, a, lower, r);
    }
  }

  lemma ResolvesOwns(s: State, id: string, phone: string)
    requires PhonesOk(s) && Resolves(s.repo, phone, id)
    ensures Owns(s.repo, id, phone)
  {
    ByPhoneOwns(s.repo, phone);
  }

  lemma NotMoved(s: State, a: Step, r: OnboardingResult)
    requires MovesNoResult(s, a) && r in s.results && Owns(s.repo, r.tenantId, r.phone)
    ensures Leaves(a, r.tenantId, r.phone)
  {
  }

  /** A result is recorded by its own call, or by a callback that finds the phone taken. */
  lemma NewRecordOwns(s: State, a: Step, lower: Lowering, r: OnboardingResult)
    requires PhoneInv(s) && Enabled(s, a) && r in Apply(s, a, lower).results && r !in s.results
    ensures Owns(Apply(s, a, lower).repo, r.tenantId, r.phone)
  {
    hide Put, Find, ByPhone, UniqueSlug, Slugify, EventsOk, ResultsOk, CallsOk, DistinctSlugs, DistinctPhones;
    if a.StartRun? { ByPhoneOwns(s.repo, a.payload.phone); }
    if a.Return? { TaskOwns(s, a.call); }
  }

  lemma MovedAway(s: State, a: Step, lower: Lowering, r: OnboardingResult)
    requires PhonesOk(s) && Enabled(s, a) && ChangesPhone(s, a) && r in s.results
    requires Get(s.repo, a.id).value.phone == Some(r.phone)
    ensures !ResultsResolve(Apply(s, a, lower))
  {
    hide Put, ByPhone, Find, UniqueSlug, Slugify;
    OldPhoneIsFree(s.repo, a.id, r.phone, a.phone);
    assert !Resolves(Apply(s, a, lower).repo, r.phone, r.tenantId);
  }

  // ----- Routing and replays -------------------------------------------------------------------------------

  lemma OwnerResolves(s: State, id: string, phone: string)
    requires PhonesOk(s) && Owns(s.repo, id, phone)
    ensures Resolves(s.repo, phone, id)
  {
    OwnerIsByPhone(s.repo, id, phone);
    GetId(s.repo, id);
  }

  /** Routing is stable: once a phone id resolves to a tenant it resolves to that tenant, under the same slug, ever
      after, in every guarded run that does not write that tenant another phone. */
  lemma RoutingIsStable(s: State, steps: seq<Step>, lower: Lowering, phone: string)
    requires PhonesOk(s) && GuardedRun(s, steps, lower) && ByPhone(s.repo, phone).Some?
    requires AllLeave(steps, ByPhone(s.repo, phone).value.id, phone)
    ensures var t := ByPhone(s.repo, phone).value;
            var u := ByPhone(RunFrom(s, steps, lower).repo, phone);
            u.Some? && u.value.id == t.id && u.value.slug == t.slug
  {
    hide RunFrom, GuardedRun, AllLeave, Find, ByPhone;
    var t := ByPhone(s.repo, phone).value;
    var r' := RunFrom(s, steps, lower).repo;
    ByPhoneOwns(s.repo, phone);
    OwnerIsByPhone(s.repo, t.id, phone);
    RunKeepsPhonesOk(s, steps, lower);
    RunKeepsInv(s, steps, lower);
    OwnerStaysAlong(s, steps, lower, t.id, phone);
    OwnerIsByPhone(r', t.id, phone);
    GetId(r', t.id);
  }

  /** A callback for a phone that a tenant owns, even while the first `run` for it is still in flight, changes
      nothing but the list of results, and names that tenant, in every later state of a guarded run that leaves the
      tenant its phone. */
  lemma ReplayIsSilent(
    s: State, steps: seq<Step>, lower: Lowering, id: string, call: nat, p: Payload, newId: string)
    requires PhonesOk(s) && GuardedRun(s, steps, lower) && Owns(s.repo, id, p.phone) && AllLeave(steps, id, p.phone)
    requires Enabled(RunFrom(s, steps, lower), StartRun(call, p, newId))
    ensures var later := RunFrom(s, steps, lower);
            Apply(later, StartRun(call, p, newId), lower)
            == later.(results := later.results + [OnboardingResult(p.phone, id, false)])
  {
    hide RunFrom, GuardedRun, AllLeave, PhonesOk, Get, Find, ByPhone;
    RunKeepsPhonesOk(s, steps, lower);
    OwnerStaysAlong(s, steps, lower, id, p.phone);
    OwnerResolves(RunFrom(s, steps, lower), id, p.phone);
  }

  /** `create` never raises inside `run`: the unique slug is free, so the `OnboardingError` branch is unreachable.
      The slug is the first free name among the base, `base-2`, `base-3`, ..., found within as many tries as there
      are tenants. */
  lemma CreateInsideRunSucceeds(r: Repo, p: Payload, newId: string, lower: Lowering)
    ensures var base := Slugify(p.businessName, lower); var slug := UniqueSlug(r, base);
            && Created(r, p.businessName, slug, None, newId).Some?
            && IsSlug(slug)
            && (exists n: nat :: n <= |r| && slug == Candidate(base, n) && AllTaken(r, base, n) && !Taken(r, slug))
            && Created(r, p.businessName, slug, None, newId).value.(phone := Some(p.phone))
               == Provisioned(r, p, newId, lower)
  {
    hide Slugify, IsSlug;
    var base := Slugify(p.businessName, lower);
    SlugifyIsSlug(p.businessName, lower);
    var n := FirstFree(r, base, 0);
    CandidateIsSlug(base, n);
    assert n <= |r| && UniqueSlug(r, base) == Candidate(base, n) && AllTaken(r, base, n);
  }
}
