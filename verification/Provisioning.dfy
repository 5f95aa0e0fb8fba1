/** Tenant provisioning as a protocol: every coroutine is cut at its awaits and the pieces may interleave freely. */
module Provisioning {
  import opened PyText
  import opened Slug
  import opened Tenancy

  // ----- Unique slugs ---------------------------------------------------------------------------------

  predicate Taken(r: Repo, slug: string) { BySlug(r, slug).Some? }

  predicate AllTaken(r: Repo, base: string, k: nat) {
    forall j :: 0 <= j < k ==> Taken(r, Candidate(base, j))
  }

  /** Pigeonhole: distinct candidates that are all taken need as many tenants. */
  lemma {:induction false} TakenNeedTenants(r: Repo, base: string, k: nat)
    requires AllTaken(r, base, k)
    ensures k <= |r|
  {
    var used: set<string> := {};
    for i := 0 to k
      invariant |used| == i
      invariant used <= Slugs(r)
      invariant forall s :: s in used ==> exists j :: 0 <= j < i && s == Candidate(base, j)
    {
      var s := Candidate(base, i);
      assert Taken(r, s);
      if s in used {
        var j :| 0 <= j < i && s == Candidate(base, j);
        CandidatesDiffer(base, j, i);
        assert false;
      }
      assert BySlug(r, s).value in r;
      used := used + {s};
    }
    SubsetSize(used, Slugs(r));
    SlugsSize(r);
  }

  function Slugs(r: Repo): set<string> { set i | 0 <= i < |r| :: r[i].slug }

  lemma {:induction false} SlugsSize(r: Repo)
    ensures |Slugs(r)| <= |r|
  {
    if r != [] {
      SlugsSize(r[1..]);
      assert Slugs(r) == {r[0].slug} + Slugs(r[1..]) by {
        assert forall i :: 0 < i < |r| ==> r[i] == r[1..][i - 1];
        assert forall i :: 0 <= i < |r[1..]| ==> r[1..][i] == r[i + 1];
      }
    } else {
      assert Slugs(r) == {};
    }
  }

  lemma SubsetSize<T>(a: set<T>, b: set<T>)
    requires a <= b
    ensures |a| <= |b|
  {
    assert b == a + (b - a);
  }

  /** A taken candidate takes one more tenant. */
  lemma OneMoreTaken(r: Repo, base: string, n: nat)
    requires AllTaken(r, base, n) && Taken(r, Candidate(base, n))
    ensures AllTaken(r, base, n + 1) && n < |r|
  {
    hide Taken, Candidate;
    TakenNeedTenants(r, base, n + 1);
  }

  /** Index of the first free candidate at or after `k`. */
  function FirstFree(r: Repo, base: string, k: nat): (n: nat)
    requires AllTaken(r, base, k)
    ensures k <= n <= |r| && !Taken(r, Candidate(base, n)) && AllTaken(r, base, n)
    decreases |r| + 1 - k
  {
    hide Taken, AllTaken, Candidate;
    TakenNeedTenants(r, base, k);
    if Taken(r, Candidate(base, k)) then
      OneMoreTaken(r, base, k);
      FirstFree(r, base, k + 1)
    else k
  }

  function UniqueSlug(r: Repo, base: string): (s: string)
    ensures !Taken(r, s)
  {
    Candidate(base, FirstFree(r, base, 0))
  }

  // ----- States and steps -------------------------------------------------------------------------------

  /** The normalised signup callback. */
  datatype Payload = Payload(phone: string, businessName: string, waba: Option<string>, business: Option<string>)

  /** `tenant.onboarded`. */
  datatype Event = Event(
    tenantId: string, slug: string, phone: string, businessName: string, waba: Option<string>, business: Option<string>)

  /** What a call of `OnboardingFlow.run` returned, with the phone id it was called with. */
  datatype OnboardingResult = OnboardingResult(phone: string, tenantId: string, isNew: bool)

  datatype Kind = Up | Down | Onboard(payload: Payload)

  /** Waiting for the spawner; the spawner has acted; the event is recorded and its handlers run. */
  datatype Phase = Waiting | Acted | Announced

  /** A suspended call, with the tenant it read before its first await. */
  datatype Task = Task(kind: Kind, phase: Phase, snapshot: Tenant)

  /** The call has not written its snapshot back yet. */
  predicate InFlight(k: Task) { k.phase != Announced }

  datatype State = State(
    repo: Repo, running: set<string>, events: seq<Event>, results: seq<OnboardingResult>, tasks: map<nat, Task>)

  const INITIAL := State([], {}, [], [], map[])

  const DEFAULT_MODEL := "anthropic/claude-3.5-sonnet"

  datatype Step =
    | StartRun(call: nat, payload: Payload, newId: string)  // `run` up to its first await
    | StartUp(call: nat, id: string)                        // `bring_up` or `activate` up to the await
    | StartDown(call: nat, id: string)                      // `bring_down` up to the await
    | SpawnerActs(call: nat)                                // the awaited spawn or stop takes effect
    | Resume(call: nat)                                     // the snapshot is written back; `run` records its event
    | Return(call: nat)                                     // `run` returns once the event's handlers are done
    | Fail(call: nat)                                       // an awaited call raises and the coroutine ends
    | Create(name: string, slug: string, model: Option<string>, newId: string)
    | SetModel(id: string, newModel: string)
    | SetPhone(id: string, phone: string)                   // the admin endpoints: no uniqueness check

  /** `TenantManager.create`: `None` when the slug is taken. */
  function Created(r: Repo, name: string, slug: string, model: Option<string>, newId: string): Option<Tenant> {
    if Taken(r, slug) then None else
    Some(Tenant(newId, name, slug, Provisioning, None,
                if model.Some? && model.value != "" then model.value else DEFAULT_MODEL))
  }

  /** The tenant that a fresh `run` provisions. */
  function Provisioned(r: Repo, p: Payload, newId: string, lower: Lowering): Tenant {
    Tenant(newId, p.businessName, UniqueSlug(r, Slugify(p.businessName, lower)), Provisioning,
           Some(p.phone), DEFAULT_MODEL)
  }

  function EventFor(p: Payload, t: Tenant): Event {
    Event(t.id, t.slug, p.phone, p.businessName, p.waba, p.business)
  }

  /** The new repository entry once the spawner has acted. */
  function Settled(kind: Kind, snapshot: Tenant): Tenant {
    snapshot.(status := if kind.Down? then Suspended else Active)
  }

  function Begin(s: State, call: nat, kind: Kind, id: string): State {
    match Get(s.repo, id)
    case None => s
    case Some(t) => s.(tasks := s.tasks[call := Task(kind, Waiting, t)])
  }

  function BeginRun(s: State, call: nat, p: Payload, newId: string, lower: Lowering): State {
    match ByPhone(s.repo, p.phone)
    case Some(t) => s.(results := s.results + [OnboardingResult(p.phone, t.id, false)])
    case None =>
      var t := Provisioned(s.repo, p, newId, lower);
      s.(repo := Put(s.repo, t), tasks := s.tasks[call := Task(Onboard(p), Waiting, t)])
  }

  function Act(s: State, call: nat, k: Task): State {
    s.(running := if k.kind.Down? then s.running - {k.snapshot.id} else s.running + {k.snapshot.id},
       tasks := s.tasks[call := k.(phase := Acted)])
  }

  function Finish(s: State, call: nat, k: Task): State {
    var t := Settled(k.kind, k.snapshot);
    if Get(s.repo, t.id).None? then s.(tasks := s.tasks - {call})
    else if k.kind.Onboard? then
      s.(repo := Put(s.repo, t), events := s.events + [EventFor(k.kind.payload, t)],
         tasks := s.tasks[call := Task(k.kind, Announced, t)])
    else s.(repo := Put(s.repo, t), tasks := s.tasks - {call})
  }

  /** A step can be taken: calls are fresh or in the right phase, and new ids are unused. */
  predicate Enabled(s: State, a: Step) {
    match a
    case StartRun(c, _, id) => c !in s.tasks && Get(s.repo, id).None?
    case StartUp(c, _) => c !in s.tasks
    case StartDown(c, _) => c !in s.tasks
    case SpawnerActs(c) => c in s.tasks && s.tasks[c].phase == Waiting
    case Resume(c) => c in s.tasks && s.tasks[c].phase == Acted
    case Return(c) => c in s.tasks && s.tasks[c].phase == Announced && s.tasks[c].kind.Onboard?
    case Fail(c) => c in s.tasks
    case Create(_, _, _, id) => Get(s.repo, id).None?
    case SetModel(_, _) => true
    case SetPhone(_, _) => true
  }

  function Apply(s: State, a: Step, lower: Lowering): State
    requires Enabled(s, a)
  {
    match a
    case StartRun(c, p, id) => BeginRun(s, c, p, id, lower)
    case StartUp(c, id) => Begin(s, c, Up, id)
    case StartDown(c, id) => Begin(s, c, Down, id)
    case SpawnerActs(c) => Act(s, c, s.tasks[c])
    case Resume(c) => Finish(s, c, s.tasks[c])
    case Return(c) =>
      var k := s.tasks[c];
      s.(results := s.results + [OnboardingResult(k.kind.payload.phone, k.snapshot.id, true)], tasks := s.tasks - {c})
    case Fail(c) => s.(tasks := s.tasks - {c})
    case Create(n, g, m, id) =>
      (match Created(s.repo, n, g, m, id)
       case None => s
       case Some(t) => s.(repo := Put(s.repo, t)))
    case SetModel(id, m) =>
      (match Get(s.repo, id)
       case None => s
       case Some(t) => s.(repo := Put(s.repo, t.(model := m))))
    case SetPhone(id, ph) =>
      (match Get(s.repo, id)
       case None => s
       case Some(t) => s.(repo := Put(s.repo, t.(phone := Some(ph)))))
  }

  /** A run from `s`: steps that are not enabled cannot be taken and are skipped. */
  function RunFrom(s: State, steps: seq<Step>, lower: Lowering): State
    decreases |steps|
  {
    if steps == [] then s
    else RunFrom(if Enabled(s, steps[0]) then Apply(s, steps[0], lower) else s, steps[1..], lower)
  }
}
