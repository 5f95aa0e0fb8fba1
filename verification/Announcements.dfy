/** What a recorded event says, field by field, over all runs: it is traced back to its tenant's signup. */
module Announcements {
  import opened PyText
  import opened Slug
  import opened Tenancy
  import opened Provisioning
  import opened ProvisioningSafety
  import opened ProvisioningRuns
  import opened Schedules

  // ----- Names stay --------------------------------------------------------------------------------------

  /** Every tenant of `r` is still in `r'` under its slug and its name. */
  ghost predicate KeepsNames(r: Repo, r': Repo) {
    forall id :: Get(r, id).Some? ==>
      && Get(r', id).Some? && Get(r', id).value.slug == Get(r, id).value.slug
      && Get(r', id).value.name == Get(r, id).value.name
  }

  /** The signups that created tenants, by tenant id. */
  type Signups = map<string, Payload>

  predicate KnownIds(r: Repo, signup: Signups) { forall id :: id in signup ==> Get(r, id).Some? }

  /** The event repeats the payload of its tenant's signup, and the tenant has the event's slug and name. */
  predicate EventTells(r: Repo, signup: Signups, e: Event) {
    && e.tenantId in signup && Get(r, e.tenantId).Some?
    && e.phone == signup[e.tenantId].phone && e.businessName == signup[e.tenantId].businessName
    && e.waba == signup[e.tenantId].waba && e.business == signup[e.tenantId].business
    && Get(r, e.tenantId).value.slug == e.slug && Get(r, e.tenantId).value.name == e.businessName
  }

  /** A suspended call knows its tenant's slug and name, and a suspended `run` is its tenant's signup. */
  predicate CallTells(r: Repo, signup: Signups, k: Task) {
    && Get(r, k.snapshot.id).Some?
    && Get(r, k.snapshot.id).value.slug == k.snapshot.slug && Get(r, k.snapshot.id).value.name == k.snapshot.name
    && (k.kind.Onboard? ==>
          && k.snapshot.id in signup && signup[k.snapshot.id] == k.kind.payload
          && k.snapshot.name == k.kind.payload.businessName)
  }

  predicate Told(s: State, signup: Signups) {
    && KnownIds(s.repo, signup)
    && (forall e :: e in s.events ==> EventTells(s.repo, signup, e))
    && (forall c :: c in s.tasks ==> CallTells(s.repo, signup, s.tasks[c]))
  }

  predicate NameFits(r: Repo, t: Tenant) {
    Get(r, t.id).Some? ==> Get(r, t.id).value.slug == t.slug && Get(r, t.id).value.name == t.name
  }

  lemma PutKeepsNames(r: Repo, t: Tenant)
    requires NameFits(r, t)
    ensures KeepsNames(r, Put(r, t)) && Get(Put(r, t), t.id) == Some(t)
  {
    hide Get, Put;
    forall id
      ensures Get(Put(r, t), id) == if id == t.id then Some(t) else Get(r, id)
    {
      PutGet(r, t, id);
    }
  }

  /** The signup, if any, that a step is. */
  predicate SignsUp(s: State, a: Step) { a.StartRun? && Enabled(s, a) && ByPhone(s.repo, a.payload.phone).None? }

  function SignedUp(s: State, a: Step, signup: Signups): Signups {
    if SignsUp(s, a) then signup[a.newId := a.payload] else signup
  }

  /** A new repository that keeps names, under the same signups or one more for an unknown id, keeps what is told. */
  lemma ToldStays(s: State, r': Repo, signup: Signups, signup': Signups)
    requires Told(s, signup) && KeepsNames(s.repo, r') && KnownIds(r', signup')
    requires forall id :: id in signup ==> id in signup' && signup'[id] == signup[id]
    ensures Told(s.(repo := r'), signup')
  {
    hide Get;
  }

  lemma SignupTells(s: State, c: nat, p: Payload, id: string, lower: Lowering, signup: Signups)
    requires Told(s, signup) && c !in s.tasks && Get(s.repo, id).None? && ByPhone(s.repo, p.phone).None?
    ensures var s' := BeginRun(s, c, p, id, lower);
            Told(s', signup[id := p]) && KeepsNames(s.repo, s'.repo)
  {
    hide Get, Put, UniqueSlug, Slugify, KeepsNames;
    var t := Provisioned(s.repo, p, id, lower);
    PutKeepsNames(s.repo, t);
    KnownMore(s.repo, t, signup, p);
    ToldStays(s, Put(s.repo, t), signup, signup[id := p]);
  }

  lemma KnownMore(r: Repo, t: Tenant, signup: Signups, p: Payload)
    requires KnownIds(r, signup) && Get(r, t.id).None? && KeepsNames(r, Put(r, t)) && Get(Put(r, t), t.id) == Some(t)
    ensures KnownIds(Put(r, t), signup[t.id := p])
    ensures forall id :: id in signup ==> id in signup[t.id := p] && signup[t.id := p][id] == signup[id]
  {
    hide Get, Put;
  }

  lemma StoreTells(s: State, t: Tenant, signup: Signups)
    requires Told(s, signup) && NameFits(s.repo, t)
    ensures Told(s.(repo := Put(s.repo, t)), signup) && KeepsNames(s.repo, Put(s.repo, t))
    ensures Get(Put(s.repo, t), t.id) == Some(t)
  {
    hide Get, Put;
    PutKeepsNames(s.repo, t);
    ToldStays(s, Put(s.repo, t), signup, signup);
  }

  lemma ResumeTells(s: State, c: nat, signup: Signups)
    requires Told(s, signup) && c in s.tasks
    ensures Told(Finish(s, c, s.tasks[c]), signup) && KeepsNames(s.repo, Finish(s, c, s.tasks[c]).repo)
  {
    hide Get, Put, Told, KeepsNames;
    var k := s.tasks[c];
    var t := Settled(k.kind, k.snapshot);
    KnowsItsTenant(s, c, signup);
    StoreTells(s, t, signup);
    FinishTells(s.(repo := Put(s.repo, t)), k, c, t, signup);
  }

  lemma KnowsItsTenant(s: State, c: nat, signup: Signups)
    requires Told(s, signup) && c in s.tasks
    ensures CallTells(s.repo, signup, s.tasks[c]) && NameFits(s.repo, Settled(s.tasks[c].kind, s.tasks[c].snapshot))
    ensures Get(s.repo, s.tasks[c].snapshot.id).Some?
  {
    hide Get;
  }

  lemma FinishTells(s: State, k: Task, c: nat, t: Tenant, signup: Signups)
    requires Told(s, signup) && Get(s.repo, t.id) == Some(t) && t == Settled(k.kind, k.snapshot)
    requires k.kind.Onboard? ==>
               t.id in signup && signup[t.id] == k.kind.payload && t.name == k.kind.payload.businessName
    ensures k.kind.Onboard? ==>
              Told(s.(events := s.events + [EventFor(k.kind.payload, t)],
                      tasks := s.tasks[c := Task(k.kind, Announced, t)]), signup)
    ensures Told(s.(tasks := s.tasks - {c}), signup)
  {
    hide Get;
  }

  /** Every step keeps what is told, and every tenant's slug and name. */
  lemma StepTells(s: State, a: Step, lower: Lowering, signup: Signups)
    requires Told(s, signup) && Enabled(s, a)
    ensures Told(Apply(s, a, lower), SignedUp(s, a, signup)) && KeepsNames(s.repo, Apply(s, a, lower).repo)
  {
    hide Get, Put, UniqueSlug, Slugify;
    match a
    case StartRun(c, p, id) => if ByPhone(s.repo, p.phone).None? { SignupTells(s, c, p, id, lower, signup); }
    case StartUp(c, id) => GetId(s.repo, id);
    case StartDown(c, id) => GetId(s.repo, id);
    case SpawnerActs(c) =>
    case Resume(c) => ResumeTells(s, c, signup);
    case Return(c) =>
    case Fail(c) =>
    case Create(n, g, m, id) =>
      if !Taken(s.repo, g) { StoreTells(s, Created(s.repo, n, g, m, id).value, signup); }
    case SetModel(id, m) =>
      GetId(s.repo, id);
      if Get(s.repo, id).Some? { StoreTells(s, Get(s.repo, id).value.(model := m), signup); }
    case SetPhone(id, ph) =>
      GetId(s.repo, id);
      if Get(s.repo, id).Some? { StoreTells(s, Get(s.repo, id).value.(phone := Some(ph)), signup); }
  }

  // ----- Whole runs --------------------------------------------------------------------------------------

  /** The `k`-th step is the signup that creates tenant `id`: a callback with payload `p` when nobody has its phone. */
  ghost predicate CreatedAt(steps: seq<Step>, k: nat, lower: Lowering, id: string, p: Payload) {
    && k < |steps| && steps[k].StartRun? && steps[k].newId == id && steps[k].payload == p
    && SignsUp(RunFrom(INITIAL, steps[..k], lower), steps[k])
  }

  ghost predicate AllCreated(steps: seq<Step>, n: nat, lower: Lowering, signup: Signups) {
    forall id :: id in signup ==> exists k :: 0 <= k < n && CreatedAt(steps, k, lower, id, signup[id])
  }

  lemma {:induction false} RunTells(steps: seq<Step>, n: nat, lower: Lowering) returns (signup: Signups)
    requires n <= |steps|
    ensures Told(RunFrom(INITIAL, steps[..n], lower), signup) && AllCreated(steps, n, lower, signup)
    decreases n
  {
    hide RunFrom, Told, Enabled, Apply, CreatedAt, SignsUp;
    if n == 0 {
      signup := map[];
      NothingTold(steps, lower);
    } else {
      var earlier := RunTells(steps, n - 1, lower);
      var before, a := RunFrom(INITIAL, steps[..n - 1], lower), steps[n - 1];
      assert steps[..n] == steps[..n - 1] + [a];
      RunConcat(INITIAL, steps[..n - 1], [a], lower);
      RunOne(before, a, lower);
      if Enabled(before, a) {
        StepTells(before, a, lower, earlier);
        signup := SignedUp(before, a, earlier);
        if SignsUp(before, a) { CreatedHere(steps, n - 1, lower); }
      } else {
        signup := earlier;
      }
    }
  }

  lemma NothingTold(steps: seq<Step>, lower: Lowering)
    ensures Told(RunFrom(INITIAL, steps[..0], lower), map[])
  {
  }

  lemma CreatedHere(steps: seq<Step>, k: nat, lower: Lowering)
    requires k < |steps| && SignsUp(RunFrom(INITIAL, steps[..k], lower), steps[k])
    ensures steps[k].StartRun? && CreatedAt(steps, k, lower, steps[k].newId, steps[k].payload)
  {
    hide RunFrom, Enabled;
  }

  /** A created tenant keeps the slug that was the first free one at its creation. */
  lemma CreatedSlug(steps: seq<Step>, k: nat, lower: Lowering, id: string, p: Payload)
    requires CreatedAt(steps, k, lower, id, p)
    ensures var t := Get(RunFrom(INITIAL, steps, lower).repo, id);
            var before := RunFrom(INITIAL, steps[..k], lower);
            t.Some? && t.value.slug == UniqueSlug(before.repo, Slugify(p.businessName, lower))
  {
    hide RunFrom, Get, Put, UniqueSlug, Slugify, Inv;
    var before := RunFrom(INITIAL, steps[..k], lower);
    assert steps == steps[..k] + ([steps[k]] + steps[k + 1..]);
    RunConcat(INITIAL, steps[..k], [steps[k]] + steps[k + 1..], lower);
    FirstStep(before, steps[k], steps[k + 1..], lower);
    InitialInv();
    RunKeepsInv(INITIAL, steps[..k], lower);
    StepKeepsInv(before, steps[k], lower);
    var after := Apply(before, steps[k], lower);
    RunKeepsInv(after, steps[k + 1..], lower);
    var t := Provisioned(before.repo, p, id, lower);
    PutGet(before.repo, t, id);
    assert after.repo == Put(before.repo, t);
  }

  lemma InitialInv()
    ensures Inv(INITIAL)
  {
  }

  /** The event names tenant, phone, business name and both account ids of the `k`-th step's payload, and the slug that
      was the first free candidate for that business name then. */
  ghost predicate SaysSignup(steps: seq<Step>, k: nat, lower: Lowering, e: Event) {
    && k < |steps| && steps[k].StartRun?
    && e.tenantId == steps[k].newId && e.phone == steps[k].payload.phone
    && e.businessName == steps[k].payload.businessName
    && e.waba == steps[k].payload.waba && e.business == steps[k].payload.business
    && var before := RunFrom(INITIAL, steps[..k], lower).repo;
       var base := Slugify(steps[k].payload.businessName, lower);
       && Get(before, steps[k].newId).None? && ByPhone(before, steps[k].payload.phone).None?
       && exists n: nat :: e.slug == Candidate(base, n) && BySlug(before, e.slug).None? && AllTaken(before, base, n)
  }

  /** However the calls interleave, every recorded event repeats the payload of the signup that created its tenant, and
      the tenant has the event's slug and business name then and ever after. */
  lemma EventsTellTheirSignup(steps: seq<Step>, more: seq<Step>, lower: Lowering, e: Event)
    requires e in RunFrom(INITIAL, steps, lower).events
    ensures exists k :: SaysSignup(steps, k, lower, e)
    ensures var later := RunFrom(INITIAL, steps + more, lower);
            && e in later.events
            && var t := Get(later.repo, e.tenantId);
               t.Some? && t.value.slug == e.slug && t.value.name == e.businessName
  {
    hide RunFrom, Told, KeepsNames, Get, UniqueSlug, Slugify, CreatedAt, SaysSignup, EventTells;
    assert steps[..|steps|] == steps;
    var s := RunFrom(INITIAL, steps, lower);
    var signup := RunTells(steps, |steps|, lower);
    EventIsTold(s, signup, e);
    var k :| 0 <= k < |steps| && CreatedAt(steps, k, lower, e.tenantId, signup[e.tenantId]);
    SignupIsSaid(steps, k, lower, signup, e);
    RunConcat(INITIAL, steps, more, lower);
    RunKeepsNames(s, more, lower, signup);
    NamesKept(s.repo, RunFrom(s, more, lower).repo, signup, e);
  }

  lemma EventIsTold(s: State, signup: Signups, e: Event)
    requires Told(s, signup) && e in s.events
    ensures EventTells(s.repo, signup, e) && e.tenantId in signup
  {
    hide Get;
  }

  lemma NamesKept(r: Repo, r': Repo, signup: Signups, e: Event)
    requires KeepsNames(r, r') && EventTells(r, signup, e)
    ensures var t := Get(r', e.tenantId); t.Some? && t.value.slug == e.slug && t.value.name == e.businessName
  {
    hide Get;
  }

  lemma SignupIsSaid(steps: seq<Step>, k: nat, lower: Lowering, signup: Signups, e: Event)
    requires EventTells(RunFrom(INITIAL, steps, lower).repo, signup, e) && e.tenantId in signup
    requires CreatedAt(steps, k, lower, e.tenantId, signup[e.tenantId])
    ensures SaysSignup(steps, k, lower, e)
  {
    hide RunFrom, Get, ByPhone, BySlug, Slugify, Candidate;
    CreatedSlug(steps, k, lower, e.tenantId, signup[e.tenantId]);
    var before := RunFrom(INITIAL, steps[..k], lower).repo;
    var base := Slugify(steps[k].payload.businessName, lower);
    var n := FirstFree(before, base, 0);
    assert e.slug == Candidate(base, n) && AllTaken(before, base, n);
  }

  /** Later steps keep events, names and slugs. */
  lemma {:induction false} RunKeepsNames(s: State, steps: seq<Step>, lower: Lowering, signup: Signups)
    requires Told(s, signup)
    ensures KeepsNames(s.repo, RunFrom(s, steps, lower).repo) && s.events <= RunFrom(s, steps, lower).events
    decreases |steps|
  {
    hide Told, Enabled, Apply, Get, SignedUp;
    if steps != [] && Enabled(s, steps[0]) {
      StepTells(s, steps[0], lower, signup);
      EventsGrow(s, steps[0], lower);
      RunKeepsNames(Apply(s, steps[0], lower), steps[1..], lower, SignedUp(s, steps[0], signup));
    } else if steps != [] {
      RunKeepsNames(s, steps[1..], lower, signup);
    }
  }

  lemma EventsGrow(s: State, a: Step, lower: Lowering)
    requires Enabled(s, a)
    ensures s.events <= Apply(s, a, lower).events
  {
    hide Get, Put, UniqueSlug, Slugify, ByPhone;
  }

  /** In every checked run the phone of every event resolves to the tenant with the event's id, slug and business
      name. */
  lemma EventsNameTheirOwners(steps: seq<Step>, lower: Lowering, e: Event)
    requires CheckedRun(INITIAL, steps, lower) && e in RunFrom(INITIAL, steps, lower).events
    ensures var t := ByPhone(RunFrom(INITIAL, steps, lower).repo, e.phone);
            t.Some? && t.value.id == e.tenantId && t.value.slug == e.slug && t.value.name == e.businessName
  {
    hide RunFrom, CheckedRun, Get, TasksPhones, TasksKnown, CallsOk, ResultsOk, ByPhone;
    InitialState();
    RunKeepsPhoneInv(INITIAL, steps, lower);
    var s := RunFrom(INITIAL, steps, lower);
    assert steps + [] == steps;
    EventsTellTheirSignup(steps, [], lower, e);
    OwnerIsByPhone(s.repo, e.tenantId, e.phone);
    GetId(s.repo, e.tenantId);
  }
}
