/** When a model update survives: exactly when no call in flight holds another model for the tenant. */
module PatchDurability {
  import opened PyText
  import opened Slug
  import opened Tenancy
  import opened Provisioning
  import opened ProvisioningSafety
  import opened Schedules

  predicate HasModel(r: Repo, id: string, model: string) { Get(r, id).Some? && Get(r, id).value.model == model }

  /** The step does not itself set another model. */
  predicate Leaves(a: Step, id: string, model: string) { a.SetModel? && a.id == id ==> a.newModel == model }

  predicate AllLeave(steps: seq<Step>, id: string, model: string) {
    forall i :: 0 <= i < |steps| ==> Leaves(steps[i], id, model)
  }

  /** Every call in flight on the tenant holds the model. */
  predicate SnapshotsHave(s: State, id: string, model: string) {
    forall c :: c in s.tasks && InFlight(s.tasks[c]) && s.tasks[c].snapshot.id == id ==>
      s.tasks[c].snapshot.model == model
  }

  predicate Settles(s: State, id: string, model: string) { HasModel(s.repo, id, model) && SnapshotsHave(s, id, model) }

  lemma PutKeepsModel(r: Repo, t: Tenant, id: string, model: string)
    requires HasModel(r, id, model) && (t.id == id ==> t.model == model)
    ensures HasModel(Put(r, t), id, model)
  {
    PutGet(r, t, id);
  }

  /** Once the tenant and all its calls in flight agree on the model, no other step changes it. */
  lemma StepKeepsModel(s: State, a: Step, lower: Lowering, id: string, model: string)
    requires Settles(s, id, model) && Enabled(s, a) && Leaves(a, id, model)
    ensures Settles(Apply(s, a, lower), id, model)
  {
    hide Put, Get, UniqueSlug, Slugify;
    match a
    case StartRun(c, p, n) =>
      if ByPhone(s.repo, p.phone).None? { PutKeepsModel(s.repo, Provisioned(s.repo, p, n, lower), id, model); }
    case StartUp(c, x) => GetId(s.repo, x);
    case StartDown(c, x) => GetId(s.repo, x);
    case SpawnerActs(_) =>
    case Resume(c) =>
      PutKeepsModel(s.repo, Settled(s.tasks[c].kind, s.tasks[c].snapshot), id, model);
    case Return(_) =>
    case Fail(_) =>
    case Create(n, g, m, x) =>
      if !Taken(s.repo, g) { PutKeepsModel(s.repo, Created(s.repo, n, g, m, x).value, id, model); }
    case SetModel(x, m) =>
      GetId(s.repo, x);
      if Get(s.repo, x).Some? { PutKeepsModel(s.repo, Get(s.repo, x).value.(model := m), id, model); }
    case SetPhone(x, ph) =>
      GetId(s.repo, x);
      if Get(s.repo, x).Some? { PutKeepsModel(s.repo, Get(s.repo, x).value.(phone := Some(ph)), id, model); }
  }

  lemma {:induction false} RunKeepsModel(s: State, steps: seq<Step>, lower: Lowering, id: string, model: string)
    requires Settles(s, id, model) && AllLeave(steps, id, model)
    ensures HasModel(RunFrom(s, steps, lower).repo, id, model)
    decreases |steps|
  {
    hide Apply, Enabled, HasModel, SnapshotsHave, Leaves;
    if steps != [] {
      assert Leaves(steps[0], id, model);
      assert forall i :: 0 <= i < |steps[1..]| ==> steps[1..][i] == steps[i + 1];
      if Enabled(s, steps[0]) {
        StepKeepsModel(s, steps[0], lower, id, model);
        RunKeepsModel(Apply(s, steps[0], lower), steps[1..], lower, id, model);
      } else {
        RunKeepsModel(s, steps[1..], lower, id, model);
      }
    }
  }

  /** Any call in flight with another model in its snapshot can overwrite the tenant's. */
  lemma StaleModelWins(s: State, c: nat, lower: Lowering) returns (steps: seq<Step>)
    requires Inv(s) && c in s.tasks && InFlight(s.tasks[c])
    ensures forall id, model :: AllLeave(steps, id, model)
    ensures HasModel(RunFrom(s, steps, lower).repo, s.tasks[c].snapshot.id, s.tasks[c].snapshot.model)
  {
    hide RunFrom, Inv, Put, Get;
    var k := s.tasks[c];
    steps := FinishCall(s, c, lower);
    PutGet(s.repo, Settled(k.kind, k.snapshot), k.snapshot.id);
  }

  /** In every continuation the model stays what it is until it is set to another one. */
  ghost predicate Durable(s: State, id: string, model: string, lower: Lowering) {
    forall steps :: AllLeave(steps, id, model) ==> HasModel(RunFrom(s, steps, lower).repo, id, model)
  }

  /** A model update lasts until the next one, in every continuation, if and only if every call that is in flight on the
      tenant when it is made already holds that model. */
  lemma {:induction false} PatchLastsIff(s: State, id: string, model: string, lower: Lowering)
    requires Inv(s) && Get(s.repo, id).Some?
    ensures Durable(Apply(s, SetModel(id, model), lower), id, model, lower) <==> SnapshotsHave(s, id, model)
  {
    hide RunFrom, Inv, Put, Get, HasModel, AllLeave, UniqueSlug, Slugify;
    var s1 := Apply(s, SetModel(id, model), lower);
    ModelWritten(s, id, model, lower);
    StepKeepsInv(s, SetModel(id, model), lower);
    if SnapshotsHave(s, id, model) {
      forall steps | AllLeave(steps, id, model)
        ensures HasModel(RunFrom(s1, steps, lower).repo, id, model)
      {
        RunKeepsModel(s1, steps, lower, id, model);
      }
    } else {
      var c :| c in s.tasks && InFlight(s.tasks[c]) && s.tasks[c].snapshot.id == id
               && s.tasks[c].snapshot.model != model;
      var steps := StaleModelWins(s1, c, lower);
      OneModel(RunFrom(s1, steps, lower).repo, id, s.tasks[c].snapshot.model, model);
    }
  }

  lemma ModelWritten(s: State, id: string, model: string, lower: Lowering)
    requires Get(s.repo, id).Some?
    ensures HasModel(Apply(s, SetModel(id, model), lower).repo, id, model)
  {
    hide Put;
    GetId(s.repo, id);
    PutGet(s.repo, Get(s.repo, id).value.(model := model), id);
  }

  lemma OneModel(r: Repo, id: string, a: string, b: string)
    requires HasModel(r, id, a) && a != b
    ensures !HasModel(r, id, b)
  {
  }
}
