/** The slugs of tenants that messages can be routed to: signup yields normal forms, the admin endpoints need not. */
module RoutableSlugs {
  import opened PyText
  import opened Slug
  import opened Tenancy
  import opened Provisioning

  /** Every tenant with a phone has a good slug. */
  predicate RoutedAre(r: Repo, good: string -> bool) {
    forall i :: 0 <= i < |r| && r[i].phone.Some? ==> good(r[i].slug)
  }

  /** ... and so has every snapshot with a phone. */
  predicate RoutesAre(s: State, good: string -> bool) {
    RoutedAre(s.repo, good)
    && forall c :: c in s.tasks && s.tasks[c].snapshot.phone.Some? ==> good(s.tasks[c].snapshot.slug)
  }

  /** A phone write goes to a tenant with a good slug. */
  predicate WritesTo(s: State, a: Step, good: string -> bool) {
    a.SetPhone? && Get(s.repo, a.id).Some? ==> good(Get(s.repo, a.id).value.slug)
  }

  lemma PutKeepsRouted(r: Repo, t: Tenant, good: string -> bool)
    requires RoutedAre(r, good) && (t.phone.Some? ==> good(t.slug))
    ensures RoutedAre(Put(r, t), good)
  {
  }

  lemma GetIsRouted(r: Repo, id: string, good: string -> bool)
    requires RoutedAre(r, good) && Get(r, id).Some? && Get(r, id).value.phone.Some?
    ensures good(Get(r, id).value.slug)
  {
  }

  lemma ProvisionedIsSlug(r: Repo, p: Payload, id: string, lower: Lowering)
    ensures IsSlug(Provisioned(r, p, id, lower).slug)
  {
    hide Slugify, IsSlug;
    SlugifyIsSlug(p.businessName, lower);
    CandidateIsSlug(Slugify(p.businessName, lower), FirstFree(r, Slugify(p.businessName, lower), 0));
  }

  /** Every step whose phone writes go to good slugs keeps routable slugs good, however calls interleave. */
  lemma {:induction false} StepKeepsRoutes(s: State, a: Step, lower: Lowering, good: string -> bool)
    requires RoutesAre(s, good) && Enabled(s, a) && WritesTo(s, a, good) && forall x :: IsSlug(x) ==> good(x)
    ensures RoutesAre(Apply(s, a, lower), good)
  {
    hide Put, Get, RoutedAre, IsSlug, UniqueSlug, Slugify;
    match a
    case StartRun(c, p, id) =>
      if ByPhone(s.repo, p.phone).None? {
        ProvisionedIsSlug(s.repo, p, id, lower);
        PutKeepsRouted(s.repo, Provisioned(s.repo, p, id, lower), good);
      }
    case StartUp(c, id) => BeginKeepsRoutes(s, c, Up, id, good);
    case StartDown(c, id) => BeginKeepsRoutes(s, c, Down, id, good);
    case SpawnerActs(c) =>
    case Resume(c) => PutKeepsRouted(s.repo, Settled(s.tasks[c].kind, s.tasks[c].snapshot), good);
    case Return(c) =>
    case Fail(c) =>
    case Create(n, g, m, id) =>
      if !Taken(s.repo, g) { PutKeepsRouted(s.repo, Created(s.repo, n, g, m, id).value, good); }
    case SetModel(id, m) => ModelWriteKeepsRoutes(s, id, m, good);
    case SetPhone(id, ph) =>
      if Get(s.repo, id).Some? { PutKeepsRouted(s.repo, Get(s.repo, id).value.(phone := Some(ph)), good); }
  }

  lemma BeginKeepsRoutes(s: State, c: nat, kind: Kind, id: string, good: string -> bool)
    requires RoutesAre(s, good)
    ensures RoutesAre(Begin(s, c, kind, id), good)
  {
    hide Get, RoutedAre;
    if Get(s.repo, id).Some? && Get(s.repo, id).value.phone.Some? { GetIsRouted(s.repo, id, good); }
  }

  lemma ModelWriteKeepsRoutes(s: State, id: string, model: string, good: string -> bool)
    requires RoutesAre(s, good)
    ensures Get(s.repo, id).Some? ==> RoutedAre(Put(s.repo, Get(s.repo, id).value.(model := model)), good)
  {
    hide Put, Get, RoutedAre;
    if Get(s.repo, id).Some? {
      if Get(s.repo, id).value.phone.Some? { GetIsRouted(s.repo, id, good); }
      PutKeepsRouted(s.repo, Get(s.repo, id).value.(model := model), good);
    }
  }

  predicate AllWriteTo(s: State, steps: seq<Step>, lower: Lowering, good: string -> bool)
    decreases |steps|
  {
    steps == [] ||
    if Enabled(s, steps[0])
    then WritesTo(s, steps[0], good) && AllWriteTo(Apply(s, steps[0], lower), steps[1..], lower, good)
    else AllWriteTo(s, steps[1..], lower, good)
  }

  lemma {:induction false} RunKeepsRoutes(s: State, steps: seq<Step>, lower: Lowering, good: string -> bool)
    requires RoutesAre(s, good) && AllWriteTo(s, steps, lower, good) && forall x :: IsSlug(x) ==> good(x)
    ensures RoutesAre(RunFrom(s, steps, lower), good)
    decreases |steps|
  {
    hide Apply, Enabled, RoutesAre, WritesTo, IsSlug;
    if steps != [] {
      if Enabled(s, steps[0]) {
        StepKeepsRoutes(s, steps[0], lower, good);
        RunKeepsRoutes(Apply(s, steps[0], lower), steps[1..], lower, good);
      } else {
        RunKeepsRoutes(s, steps[1..], lower, good);
      }
    }
  }

  /** In every run whose phone writes go to slugs in normal form, and in particular in every run without phone
      writes, all routable tenants have slugs in normal form. */
  lemma {:induction false} RoutedSlugsAreNormal(steps: seq<Step>, lower: Lowering)
    requires AllWriteTo(INITIAL, steps, lower, s => IsSlug(s))
    ensures RoutedAre(RunFrom(INITIAL, steps, lower).repo, s => IsSlug(s))
  {
    hide IsSlug, RunFrom, AllWriteTo;
    RunKeepsRoutes(INITIAL, steps, lower, s => IsSlug(s));
  }
}
