/** The sequential classes around the protocol: one uninterrupted call is one path through it. */
module OnboardingFlow {
  import opened PyText
  import opened Slug
  import opened Tenancy
  import opened Provisioning
  import opened Schedules
  import EventBus

  type Bus = EventBus.InMemoryEventBus<Event>

  /** The protocol state outside any call. */
  function Idle(r: Repo, running: set<string>, es: seq<Event>): State { State(r, running, es, [], map[]) }

  /** An uninterrupted `bring_up` or `bring_down` of a known tenant. */
  function BringAlone(s: State, kind: Kind, id: string): State
    requires Get(s.repo, id).Some?
  {
    var s1 := Begin(s, 0, kind, id);
    var s2 := Act(s1, 0, s1.tasks[0]);
    Finish(s2, 0, s2.tasks[0])
  }

  /** Whether the SOUL template renders for a tenant. */
  type Template = Tenant -> bool

  /** A callback for a new phone whose tenant the template cannot render. */
  predicate CannotRender(r: Repo, p: Payload, newId: string, lower: Lowering, soul: Template) {
    ByPhone(r, p.phone).None? && !soul(Provisioned(r, p, newId, lower))
  }

  /** An uninterrupted `run`; a template that does not render ends it before the spawner is asked. */
  function RunAlone(s: State, p: Payload, newId: string, lower: Lowering, soul: Template): State
    requires Enabled(s, StartRun(0, p, newId))
  {
    var s1 := Apply(s, StartRun(0, p, newId), lower);
    if ByPhone(s.repo, p.phone).Some? then s1 else
    if CannotRender(s.repo, p, newId, lower, soul) then Apply(s1, Fail(0), lower) else
    var s2 := Apply(s1, SpawnerActs(0), lower);
    var s3 := Apply(s2, Resume(0), lower);
    if Enabled(s3, Return(0)) then Apply(s3, Return(0), lower) else s3
  }

  lemma UpIs(r: Repo, running: set<string>, id: string)
    requires Get(r, id).Some?
    ensures BringAlone(Idle(r, running, []), Up, id) ==
            Idle(Put(r, Get(r, id).value.(status := Active)), running + {id}, [])
  {
    hide Put;
    assert Get(r, id).value.id == id;
  }

  lemma ReplayIs(
    r: Repo, running: set<string>, es: seq<Event>, p: Payload, newId: string, lower: Lowering, soul: Template)
    requires Get(r, newId).None? && ByPhone(r, p.phone).Some?
    ensures RunAlone(Idle(r, running, es), p, newId, lower, soul) ==
                State(r, running, es, [OnboardingResult(p.phone, ByPhone(r, p.phone).value.id, false)], map[])
  {
  }

  /** What a fresh call that cannot render its tenant leaves: the tenant with the phone, and nothing else. */
  lemma UnrenderedRunIs(
    r: Repo, running: set<string>, es: seq<Event>, p: Payload, newId: string, lower: Lowering, soul: Template)
    requires Get(r, newId).None? && CannotRender(r, p, newId, lower, soul)
    ensures RunAlone(Idle(r, running, es), p, newId, lower, soul) ==
                Idle(Put(r, Provisioned(r, p, newId, lower)), running, es)
  {
    hide Get, Put, UniqueSlug, Slugify;
    var s1 := BeginRun(Idle(r, running, es), 0, p, newId, lower);
    assert s1.tasks - {0} == map[];
  }

  /** What a fresh call adds up to. */
  lemma FreshRunIs(
    r: Repo, running: set<string>, es: seq<Event>, p: Payload, newId: string, lower: Lowering, soul: Template)
    requires Get(r, newId).None? && ByPhone(r, p.phone).None? && !CannotRender(r, p, newId, lower, soul)
    ensures var t := Provisioned(r, p, newId, lower); var active := t.(status := Active);
            && RunAlone(Idle(r, running, es), p, newId, lower, soul) ==
                State(Put(Put(r, t), active), running + {newId},
                      es + [Event(tenantId := newId, slug := t.slug, phone := p.phone, businessName := p.businessName,
                                  waba := p.waba, business := p.business)],
                      [OnboardingResult(phone := p.phone, tenantId := newId, isNew := true)], map[])
            && Get(Put(Put(r, t), active), newId) ==
               Some(Tenant(id := newId, name := p.businessName, slug := t.slug, status := Active,
                           phone := Some(p.phone), model := "anthropic/claude-3.5-sonnet"))
  {
    var t := Provisioned(r, p, newId, lower);
    PutGet(r, t, newId);
    PutGet(Put(r, t), t.(status := Active), newId);
    hide Get, Put, UniqueSlug, Slugify;
    var s := Idle(r, running, es);
    var s1 := BeginRun(s, 0, p, newId, lower);
    var s2 := Act(s1, 0, s1.tasks[0]);
    var s3 := Finish(s2, 0, s2.tasks[0]);
    assert s3.tasks - {0} == map[];
  }

  lemma NoneTried(r: Repo, base: string)
    ensures AllTaken(r, base, 0)
  {
  }

  lemma {:induction false} FirstFreeIs(r: Repo, base: string, k: nat, n: nat)
    requires k <= n && AllTaken(r, base, n) && !Taken(r, Candidate(base, n))
    ensures AllTaken(r, base, k) && FirstFree(r, base, k) == n
  {
    assert AllTaken(r, base, k);
    var m := FirstFree(r, base, k);
    assert AllTaken(r, base, n) && AllTaken(r, base, m);
    assert !(m < n) && !(n < m);
  }

  class TenantManager {
    const repo: InMemoryTenantRepository
    const spawner: InMemoryTenantSpawner

    constructor (repo: InMemoryTenantRepository, spawner: InMemoryTenantSpawner)
      ensures this.repo == repo && this.spawner == spawner
    {
      this.repo, this.spawner := repo, spawner;
    }

    /** A taken slug is a `ValueError` and changes nothing. */
    method Create(name: string, slug: string, model: Option<string>, newId: string) returns (r: Result<Tenant>)
      modifies repo
      ensures match Created(old(repo.byId), name, slug, model, newId)
              case None => r.Err? && repo.byId == old(repo.byId)
              case Some(t) => r == Ok(t) && repo.byId == Put(old(repo.byId), t)
      ensures r.Ok? <==> forall i :: 0 <= i < |old(repo.byId)| ==> old(repo.byId)[i].slug != slug
      ensures r.Ok? ==> r.value.id == newId && r.value.name == name && r.value.slug == slug && r.value.phone == None
                        && r.value.status == Provisioning
                        && (model.Some? && model.value != "" ==> r.value.model == model.value)
                        && (model.None? || model.value == "" ==> r.value.model == "anthropic/claude-3.5-sonnet")
    {
      if BySlug(repo.byId, slug).Some? {
        return Err("tenant slug already exists: " + slug);
      }
      var m := if model.Some? && model.value != "" then model.value else DEFAULT_MODEL;
      var t := repo.Add(Tenant(newId, name, slug, Provisioning, None, m));
      r := Ok(t);
    }
  }

  class TenantSupervisor {
    const repo: InMemoryTenantRepository
    const spawner: InMemoryTenantSpawner

    constructor (repo: InMemoryTenantRepository, spawner: InMemoryTenantSpawner)
      ensures this.repo == repo && this.spawner == spawner
    {
      this.repo, this.spawner := repo, spawner;
    }

    method BringUp(id: string) returns (r: Result<Tenant>)
      modifies repo, spawner
      ensures Get(old(repo.byId), id).None? ==>
                r.Err? && repo.byId == old(repo.byId) && spawner.running == old(spawner.running)
      ensures Get(old(repo.byId), id).Some? ==>
                var s := BringAlone(Idle(old(repo.byId), old(spawner.running), []), Up, id);
                && repo.byId == s.repo && spawner.running == s.running && s.tasks == map[]
                && r == Ok(Get(old(repo.byId), id).value.(status := Active))
      ensures r.Ok? ==> repo.byId == Put(old(repo.byId), r.value) && spawner.running == old(spawner.running) + {id}
    {
      var found := Get(repo.byId, id);
      if found.None? {
        return Err("unknown tenant: " + id);
      }
      spawner.Spawn(found.value);
      r := repo.Update(found.value.(status := Active));
    }

    method BringDown(id: string) returns (r: Result<Tenant>)
      modifies repo, spawner
      ensures Get(old(repo.byId), id).None? ==>
                r.Err? && repo.byId == old(repo.byId) && spawner.running == old(spawner.running)
      ensures Get(old(repo.byId), id).Some? ==>
                var s := BringAlone(Idle(old(repo.byId), old(spawner.running), []), Down, id);
                && repo.byId == s.repo && spawner.running == s.running && s.tasks == map[]
                && r == Ok(Get(old(repo.byId), id).value.(status := Suspended))
      ensures r.Ok? ==> repo.byId == Put(old(repo.byId), r.value) && spawner.running == old(spawner.running) - {id}
    {
      var found := Get(repo.byId, id);
      if found.None? {
        return Err("unknown tenant: " + id);
      }
      spawner.Stop(id);
      r := repo.Update(found.value.(status := Suspended));
    }
  }

  class Flow {
    const tenants: TenantManager
    const supervisor: TenantSupervisor
    const bus: Bus

    ghost predicate Valid()
      reads this, bus
    {
      && tenants.repo == supervisor.repo && tenants.spawner == supervisor.spawner && bus.Valid()
    }

    constructor (tenants: TenantManager, supervisor: TenantSupervisor, bus: Bus)
      requires tenants.repo == supervisor.repo && tenants.spawner == supervisor.spawner && bus.Valid()
      ensures Valid() && this.tenants == tenants && this.supervisor == supervisor && this.bus == bus
    {
      this.tenants, this.supervisor, this.bus := tenants, supervisor, bus;
    }

    /** First free name among `base`, `base-2`, `base-3`, ...; at most one more try than there are tenants. */
    method FreeSlug(base: string) returns (candidate: string)
      ensures candidate == UniqueSlug(tenants.repo.byId, base)
    {
      hide BySlug, AllTaken, FirstFree, Decimal;
      NoneTried(tenants.repo.byId, base);
      candidate := base;
      var suffix := 2;
      while BySlug(tenants.repo.byId, candidate).Some?
        invariant suffix >= 2 && candidate == Candidate(base, suffix - 2)
        invariant AllTaken(tenants.repo.byId, base, suffix - 2)
        decreases |tenants.repo.byId| + 3 - suffix
      {
        OneMoreTaken(tenants.repo.byId, base, suffix - 2);
        candidate := base + "-" + Decimal(suffix);
        suffix := suffix + 1;
      }
      FirstFreeIs(tenants.repo.byId, base, 0, suffix - 2);
    }

    /** An uninterrupted `run`: an error exactly when the template does not render the new tenant, and in every case the
        shared stores end where the protocol says. */
    method Run(p: Payload, newId: string, lower: Lowering, soul: Template, react: EventBus.Reaction<Event>)
      returns (r: Result<OnboardingResult>)
      requires Valid() && Get(tenants.repo.byId, newId).None?
      modifies tenants.repo, tenants.spawner, bus
      ensures Valid()
      ensures var s := RunAlone(Idle(old(tenants.repo.byId), old(tenants.spawner.running), old(bus.events)),
                               p, newId, lower, soul);
              && tenants.repo.byId == s.repo && tenants.spawner.running == s.running && bus.events == s.events
              && s.tasks == map[]
              && if CannotRender(old(tenants.repo.byId), p, newId, lower, soul) then r.Err? && s.results == []
                 else |s.results| == 1 && r == Ok(s.results[0])
      ensures ByPhone(old(tenants.repo.byId), p.phone).None?
              && !CannotRender(old(tenants.repo.byId), p, newId, lower, soul) ==>
                var slug := UniqueSlug(old(tenants.repo.byId), Slugify(p.businessName, lower));
                && bus.events == old(bus.events) +
                     [Event(tenantId := newId, slug := slug, phone := p.phone, businessName := p.businessName,
                            waba := p.waba, business := p.business)]
                && Get(tenants.repo.byId, newId) ==
                   Some(Tenant(id := newId, name := p.businessName, slug := slug, status := Active,
                               phone := Some(p.phone), model := "anthropic/claude-3.5-sonnet"))
                && r == Ok(OnboardingResult(phone := p.phone, tenantId := newId, isNew := true))
    {
      if ByPhone(tenants.repo.byId, p.phone).Some? {
        ReplayIs(tenants.repo.byId, tenants.spawner.running, bus.events, p, newId, lower, soul);
      } else if CannotRender(tenants.repo.byId, p, newId, lower, soul) {
        UnrenderedRunIs(tenants.repo.byId, tenants.spawner.running, bus.events, p, newId, lower, soul);
      } else {
        FreshRunIs(tenants.repo.byId, tenants.spawner.running, bus.events, p, newId, lower, soul);
      }
      hide RunAlone, BringAlone, ByPhone;
      var existing := ByPhone(tenants.repo.byId, p.phone);
      if existing.Some? {
        return Ok(OnboardingResult(p.phone, existing.value.id, false));
      }
      ghost var before := tenants.repo.byId;
      var slug := FreeSlug(Slugify(p.businessName, lower));
      var created := tenants.Create(p.businessName, slug, None, newId);
      if created.Err? {
        assert false;
        return Err("failed to create tenant");
      }
      ghost var added := tenants.repo.byId;
      PutGet(before, created.value, newId);
      var updated := tenants.repo.Update(created.value.(phone := Some(p.phone)));
      ghost var t := Provisioned(before, p, newId, lower);
      PutTwice(before, created.value, t);
      PutGet(before, t, newId);
      assert updated.value == t;
      if !soul(updated.value) {
        return Err("the SOUL template does not render");
      }
      UpIs(tenants.repo.byId, tenants.spawner.running, newId);
      hide Get, Put, UniqueSlug, Slugify;
      var up := supervisor.BringUp(newId);
      PutGet(Put(before, t), t.(status := Active), newId);
      assert up.Ok?;
      var tenant := up.value;
      bus.Publish(EventFor(p, tenant), react);
      r := Ok(OnboardingResult(p.phone, tenant.id, true));
    }
  }

  lemma PutTwice(r: Repo, t: Tenant, u: Tenant)
    requires t.id == u.id
    ensures Put(Put(r, t), u) == Put(r, u)
  {
    var k, p := Find(r, t.id), Put(r, t);
    assert p[k] == t;
    assert forall i :: 0 <= i < k ==> p[i] == r[i];
    assert Find(p, t.id) == k;
  }

  /** An uninterrupted call is one of the protocol's runs, so everything proved of all runs holds of it. */
  lemma AloneIsARun(s: State, p: Payload, newId: string, lower: Lowering, soul: Template)
    requires s.tasks == map[] && Get(s.repo, newId).None?
    ensures RunFrom(s, if CannotRender(s.repo, p, newId, lower, soul) then [StartRun(0, p, newId), Fail(0)]
                       else [StartRun(0, p, newId), SpawnerActs(0), Resume(0), Return(0)], lower)
            == RunAlone(s, p, newId, lower, soul)
  {
    hide RunFrom, RunAlone, Get, Put, UniqueSlug, Slugify;
    if CannotRender(s.repo, p, newId, lower, soul) {
      UnrenderedIsARun(s, p, newId, lower, soul);
    } else {
      RenderedIsARun(s, p, newId, lower, soul);
    }
  }

  lemma UnrenderedIsARun(s: State, p: Payload, newId: string, lower: Lowering, soul: Template)
    requires s.tasks == map[] && Get(s.repo, newId).None? && CannotRender(s.repo, p, newId, lower, soul)
    ensures RunFrom(s, [StartRun(0, p, newId), Fail(0)], lower) == RunAlone(s, p, newId, lower, soul)
  {
    hide RunFrom, Get, Put, UniqueSlug, Slugify;
    var a, b := StartRun(0, p, newId), Fail(0);
    var s1 := Apply(s, a, lower);
    assert [a, b] == [a] + [b] && [b] == [b] + [];
    FirstStep(s, a, [b], lower);
    FirstStep(s1, b, [], lower);
    NothingRuns(Apply(s1, b, lower), lower);
  }

  lemma RenderedIsARun(s: State, p: Payload, newId: string, lower: Lowering, soul: Template)
    requires s.tasks == map[] && Get(s.repo, newId).None? && !CannotRender(s.repo, p, newId, lower, soul)
    ensures RunFrom(s, [StartRun(0, p, newId), SpawnerActs(0), Resume(0), Return(0)], lower)
            == RunAlone(s, p, newId, lower, soul)
  {
    hide RunFrom, Get, Put, UniqueSlug, Slugify;
    var t := Provisioned(s.repo, p, newId, lower);
    PutGet(s.repo, t, newId);
    var a, b, c, d := StartRun(0, p, newId), SpawnerActs(0), Resume(0), Return(0);
    assert [a, b, c, d] == [a] + [b, c, d] && [b, c, d] == [b] + [c, d] && [c, d] == [c] + [d] && [d] == [d] + [];
    var s1 := Apply(s, a, lower);
    FirstStep(s, a, [b, c, d], lower);
    var s2 := if Enabled(s1, b) then Apply(s1, b, lower) else s1;
    FirstStep(s1, b, [c, d], lower);
    var s3 := if Enabled(s2, c) then Apply(s2, c, lower) else s2;
    FirstStep(s2, c, [d], lower);
    FirstStep(s3, d, [], lower);
    NothingRuns(if Enabled(s3, d) then Apply(s3, d, lower) else s3, lower);
  }
}
