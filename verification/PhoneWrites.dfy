/** Phone-number ids under the admin endpoints' writes: exactly which steps keep them distinct in every continuation. */
module PhoneWrites {
  import opened PyText
  import opened Slug
  import opened Tenancy
  import opened Provisioning
  import opened ProvisioningSafety
  import opened Schedules

  // ----- What guarded runs keep ----------------------------------------------------------------------------

  /** Every call in flight holds its tenant's current phone. */
  predicate SnapshotsHold(s: State) {
    forall c :: c in s.tasks && InFlight(s.tasks[c]) ==>
      var t := s.tasks[c].snapshot; Get(s.repo, t.id).Some? && Get(s.repo, t.id).value.phone == t.phone
  }

  predicate PhonesOk(s: State) { Inv(s) && DistinctPhones(s.repo) && SnapshotsHold(s) }

  /** The invariant of onboarding includes this one. */
  lemma PhoneInvIsPhonesOk(s: State)
    requires PhoneInv(s)
    ensures PhonesOk(s)
  {
    hide Get, DistinctIds, DistinctSlugs, DistinctPhones;
  }

  lemma PutKeepsPhonesOk(s: State, t: Tenant)
    requires PhonesOk(s) && SlugFits(s.repo, t) && PhoneFits(s.repo, t)
    ensures PhonesOk(s.(repo := Put(s.repo, t))) && KeepsPhones(s.repo, Put(s.repo, t))
  {
    hide Put, DistinctIds, DistinctSlugs, DistinctPhones, SlugFits, PhoneFits;
    PutKeepsSlugs(s.repo, t);
    PutKeepsPhones(s.repo, t);
    hide Get;
  }

  lemma TaskKeepsPhonesOk(s: State, c: nat, k: Task)
    requires PhonesOk(s) && Get(s.repo, k.snapshot.id) == Some(k.snapshot)
    ensures PhonesOk(s.(tasks := s.tasks[c := k]))
  {
    hide Get, DistinctIds, DistinctSlugs, DistinctPhones;
  }

  /** `k'` is the same call, or what has become of it. */
  predicate Continues(k: Task, k': Task) {
    && k'.snapshot.id == k.snapshot.id && k'.snapshot.slug == k.snapshot.slug && k'.snapshot.phone == k.snapshot.phone
    && (InFlight(k') ==> InFlight(k))
  }

  lemma SameSnapshotsKeepPhonesOk(s: State, s': State)
    requires PhonesOk(s) && s'.repo == s.repo
    requires forall c :: c in s'.tasks ==> c in s.tasks && Continues(s.tasks[c], s'.tasks[c])
    ensures PhonesOk(s')
  {
    hide Get, DistinctIds, DistinctSlugs, DistinctPhones;
  }

  lemma FreshRunKeepsPhonesOk(s: State, c: nat, p: Payload, id: string, lower: Lowering)
    requires PhonesOk(s) && c !in s.tasks && Get(s.repo, id).None? && ByPhone(s.repo, p.phone).None?
    ensures PhonesOk(BeginRun(s, c, p, id, lower))
  {
    hide PhonesOk, Get, Put, UniqueSlug, Slugify, SlugFits, PhoneFits, ByPhone;
    var t := Provisioned(s.repo, p, id, lower);
    ProvisionedFits(s.repo, p, id, lower);
    PutKeepsPhonesOk(s, t);
    PutGet(s.repo, t, id);
    TaskKeepsPhonesOk(s.(repo := Put(s.repo, t)), c, Task(Onboard(p), Waiting, t));
  }

  lemma BeginKeepsPhonesOk(s: State, c: nat, kind: Kind, id: string)
    requires PhonesOk(s) && c !in s.tasks
    ensures PhonesOk(Begin(s, c, kind, id))
  {
    hide PhonesOk, Get;
    GetId(s.repo, id);
    if Get(s.repo, id).Some? { TaskKeepsPhonesOk(s, c, Task(kind, Waiting, Get(s.repo, id).value)); }
  }

  lemma ResumeKeepsPhonesOk(s: State, c: nat)
    requires PhonesOk(s) && c in s.tasks && s.tasks[c].phase == Acted
    ensures PhonesOk(Finish(s, c, s.tasks[c]))
  {
    hide Put, Get, DistinctIds, DistinctSlugs, DistinctPhones;
    var t := Settled(s.tasks[c].kind, s.tasks[c].snapshot);
    PutKeepsPhonesOk(s, t);
    hide PhonesOk;
    SameSnapshotsKeepPhonesOk(s.(repo := Put(s.repo, t)), Finish(s, c, s.tasks[c]));
  }

  lemma PhoneWriteKeepsPhonesOk(s: State, id: string, phone: string)
    requires PhonesOk(s) && Get(s.repo, id).Some? && Guarded(s, SetPhone(id, phone))
    ensures PhonesOk(s.(repo := Put(s.repo, Get(s.repo, id).value.(phone := Some(phone)))))
  {
    hide Put, DistinctIds, DistinctSlugs, DistinctPhones, ByPhone, Find;
    GetId(s.repo, id);
    var t := Get(s.repo, id).value;
    var t' := t.(phone := Some(phone));
    if t.phone == Some(phone) {
      assert t' == t;
      PutSame(s.repo, t);
    } else {
      PutKeepsSlugs(s.repo, t');
      PhoneWriteKeepsDistinctIff(s.repo, id, phone);
      forall x
        ensures x != id ==> Get(Put(s.repo, t'), x) == Get(s.repo, x)
      {
        PutGet(s.repo, t', x);
      }
    }
  }

  /** Every guarded step, including a guarded phone write, keeps phone ids distinct and snapshots current. */
  lemma StepKeepsPhonesOk(s: State, a: Step, lower: Lowering)
    requires PhonesOk(s) && Enabled(s, a) && Guarded(s, a)
    ensures PhonesOk(Apply(s, a, lower))
  {
    hide PhonesOk, Put, Guarded, UniqueSlug, Slugify;
    match a
    case StartRun(c, p, id) =>
      if ByPhone(s.repo, p.phone).None? { FreshRunKeepsPhonesOk(s, c, p, id, lower); }
      else { SameSnapshotsKeepPhonesOk(s, Apply(s, a, lower)); }
    case StartUp(c, id) => BeginKeepsPhonesOk(s, c, Up, id);
    case StartDown(c, id) => BeginKeepsPhonesOk(s, c, Down, id);
    case SpawnerActs(c) => SameSnapshotsKeepPhonesOk(s, Apply(s, a, lower));
    case Resume(c) => ResumeKeepsPhonesOk(s, c);
    case Return(c) => SameSnapshotsKeepPhonesOk(s, Apply(s, a, lower));
    case Fail(c) => SameSnapshotsKeepPhonesOk(s, Apply(s, a, lower));
    case Create(n, g, m, id) =>
      if !Taken(s.repo, g) { PutKeepsPhonesOk(s, Created(s.repo, n, g, m, id).value); }
    case SetModel(id, m) =>
      GetId(s.repo, id);
      if Get(s.repo, id).Some? { PutKeepsPhonesOk(s, Get(s.repo, id).value.(model := m)); }
    case SetPhone(id, ph) =>
      if Get(s.repo, id).Some? { PhoneWriteKeepsPhonesOk(s, id, ph); }
  }

  /** Every step of the run that is taken is guarded. */
  predicate GuardedRun(s: State, steps: seq<Step>, lower: Lowering)
    decreases |steps|
  {
    steps == [] ||
    if Enabled(s, steps[0]) then Guarded(s, steps[0]) && GuardedRun(Apply(s, steps[0], lower), steps[1..], lower)
    else GuardedRun(s, steps[1..], lower)
  }

  lemma {:induction false} RunKeepsPhonesOk(s: State, steps: seq<Step>, lower: Lowering)
    requires PhonesOk(s) && GuardedRun(s, steps, lower)
    ensures PhonesOk(RunFrom(s, steps, lower))
    decreases |steps|
  {
    hide PhonesOk, Apply, Enabled, Guarded;
    if steps != [] {
      if Enabled(s, steps[0]) {
        StepKeepsPhonesOk(s, steps[0], lower);
        RunKeepsPhonesOk(Apply(s, steps[0], lower), steps[1..], lower);
      } else {
        RunKeepsPhonesOk(s, steps[1..], lower);
      }
    }
  }

  // ----- Who owns a phone ----------------------------------------------------------------------------------

  /** The step does not write another phone to the tenant. */
  predicate Leaves(a: Step, id: string, phone: string) { a.SetPhone? && a.id == id ==> a.phone == phone }

  predicate AllLeave(steps: seq<Step>, id: string, phone: string) {
    forall i :: 0 <= i < |steps| ==> Leaves(steps[i], id, phone)
  }

  /** Storing a tenant disturbs an owner only if it is that owner with another phone. */
  lemma PutKeepsOwner(r: Repo, t: Tenant, id: string, phone: string)
    requires Owns(r, id, phone) && (t.id == id ==> t.phone == Some(phone))
    ensures Owns(Put(r, t), id, phone)
  {
    PutGet(r, t, id);
  }

  /** A tenant keeps its phone in every step that does not write it another one. */
  lemma OwnerStays(s: State, a: Step, lower: Lowering, id: string, phone: string)
    requires PhonesOk(s) && Enabled(s, a) && Owns(s.repo, id, phone) && Leaves(a, id, phone)
    ensures Owns(Apply(s, a, lower).repo, id, phone)
  {
    hide Put, Get, DistinctIds, DistinctSlugs, DistinctPhones, UniqueSlug, Slugify;
    match a
    case StartRun(c, p, n) =>
      if ByPhone(s.repo, p.phone).None? { PutKeepsOwner(s.repo, Provisioned(s.repo, p, n, lower), id, phone); }
    case StartUp(_, _) =>
    case StartDown(_, _) =>
    case SpawnerActs(_) =>
    case Resume(c) => PutKeepsOwner(s.repo, Settled(s.tasks[c].kind, s.tasks[c].snapshot), id, phone);
    case Return(_) =>
    case Fail(_) =>
    case Create(n, g, m, x) =>
      if !Taken(s.repo, g) { PutKeepsOwner(s.repo, Created(s.repo, n, g, m, x).value, id, phone); }
    case SetModel(x, m) =>
      GetId(s.repo, x);
      if Get(s.repo, x).Some? { PutKeepsOwner(s.repo, Get(s.repo, x).value.(model := m), id, phone); }
    case SetPhone(x, ph) =>
      GetId(s.repo, x);
      if Get(s.repo, x).Some? { PutKeepsOwner(s.repo, Get(s.repo, x).value.(phone := Some(ph)), id, phone); }
  }

  lemma {:induction false} OwnerStaysAlong(s: State, steps: seq<Step>, lower: Lowering, id: string, phone: string)
    requires PhonesOk(s) && GuardedRun(s, steps, lower) && Owns(s.repo, id, phone) && AllLeave(steps, id, phone)
    ensures Owns(RunFrom(s, steps, lower).repo, id, phone)
    decreases |steps|
  {
    hide PhonesOk, Apply, Enabled, Guarded, Owns, Leaves;
    if steps != [] {
      assert Leaves(steps[0], id, phone);
      assert forall i :: 0 <= i < |steps[1..]| ==> steps[1..][i] == steps[i + 1];
      if Enabled(s, steps[0]) {
        OwnerStays(s, steps[0], lower, id, phone);
        StepKeepsPhonesOk(s, steps[0], lower);
        OwnerStaysAlong(Apply(s, steps[0], lower), steps[1..], lower, id, phone);
      } else {
        OwnerStaysAlong(s, steps[1..], lower, id, phone);
      }
    }
  }

  // ----- What an unguarded write leads to ------------------------------------------------------------------

  predicate NoPhoneWrites(steps: seq<Step>) { forall i :: 0 <= i < |steps| ==> !steps[i].SetPhone? }

  lemma {:induction false} NoWritesIsGuarded(s: State, steps: seq<Step>, lower: Lowering)
    requires NoPhoneWrites(steps)
    ensures GuardedRun(s, steps, lower)
    decreases |steps|
  {
    hide Apply, Enabled;
    if steps != [] {
      assert forall i :: 0 <= i < |steps[1..]| ==> steps[1..][i] == steps[i + 1];
      if Enabled(s, steps[0]) {
        NoWritesIsGuarded(Apply(s, steps[0], lower), steps[1..], lower);
      } else {
        NoWritesIsGuarded(s, steps[1..], lower);
      }
    }
  }

  lemma SharedPhone(r: Repo, a: string, b: string, phone: string)
    requires a != b && Owns(r, a, phone) && Owns(r, b, phone)
    ensures !DistinctPhones(r)
  {
    var i, j := Find(r, a), Find(r, b);
    assert r[i].phone == r[j].phone == Some(phone) && i != j;
  }

  /** A phone that a tenant does not have can come to belong to another tenant, if need be by a signup for it. */
  lemma GiveAway(s: State, id: string, phone: string, c: nat, lower: Lowering) returns (steps: seq<Step>, owner: string)
    requires Inv(s) && c in s.tasks && Get(s.repo, id).Some? && Get(s.repo, id).value.phone != Some(phone)
    ensures NoPhoneWrites(steps) && owner != id
    ensures var s' := RunFrom(s, steps, lower);
            Inv(s') && Owns(s'.repo, owner, phone) && c in s'.tasks && s'.tasks[c] == s.tasks[c]
  {
    hide RunFrom, Inv, Put, UniqueSlug, Slugify, Find;
    if ByPhone(s.repo, phone).Some? {
      steps, owner := [], ByPhone(s.repo, phone).value.id;
      InvIds(s);
      ByPhoneOwns(s.repo, phone);
      NothingRuns(s, lower);
    } else {
      var call := FreshCall(s.tasks);
      owner := FreshId(s.repo);
      var p := Payload(phone, "", None, None);
      var a := StartRun(call, p, owner);
      steps := [a];
      RunOne(s, a, lower);
      StepKeepsInv(s, a, lower);
      PutGet(s.repo, Provisioned(s.repo, p, owner, lower), owner);
    }
  }

  lemma InvIds(s: State)
    requires Inv(s)
    ensures DistinctIds(s.repo)
  {
  }

  /** A call in flight whose snapshot holds a phone that its tenant has lost can bring it back beside its new owner. */
  lemma SnapshotRevivesPhone(s: State, c: nat, phone: string, lower: Lowering) returns (steps: seq<Step>)
    requires Inv(s) && c in s.tasks && InFlight(s.tasks[c]) && s.tasks[c].snapshot.phone == Some(phone)
    requires Get(s.repo, s.tasks[c].snapshot.id).Some? && Get(s.repo, s.tasks[c].snapshot.id).value.phone != Some(phone)
    ensures NoPhoneWrites(steps) && !DistinctPhones(RunFrom(s, steps, lower).repo)
  {
    hide RunFrom, Inv, Put, Get, DistinctPhones;
    var k := s.tasks[c];
    var first, owner := GiveAway(s, k.snapshot.id, phone, c, lower);
    var s1 := RunFrom(s, first, lower);
    var last := FinishCall(s1, c, lower);
    var t := Settled(k.kind, k.snapshot);
    steps := first + last;
    RunConcat(s, first, last, lower);
    PutGet(s1.repo, t, t.id);
    PutGet(s1.repo, t, owner);
    SharedPhone(Put(s1.repo, t), t.id, owner, phone);
  }

  /** A call in flight that does not hold its tenant's current phone makes duplicates possible: its write-back frees the
      current phone or takes back an old one. */
  lemma StaleSnapshotBreaks(s: State, c: nat, lower: Lowering) returns (steps: seq<Step>)
    requires Inv(s) && c in s.tasks && InFlight(s.tasks[c])
    requires Get(s.repo, s.tasks[c].snapshot.id).Some? && Get(s.repo, s.tasks[c].snapshot.id).value.phone.Some?
    requires Get(s.repo, s.tasks[c].snapshot.id).value.phone != s.tasks[c].snapshot.phone
    ensures NoPhoneWrites(steps) && !DistinctPhones(RunFrom(s, steps, lower).repo)
  {
    hide RunFrom, Inv, Put, Get, DistinctPhones;
    var k := s.tasks[c];
    var id := k.snapshot.id;
    if k.snapshot.phone.Some? {
      steps := SnapshotRevivesPhone(s, c, k.snapshot.phone.value, lower);
    } else {
      var d := FreshCall(s.tasks);
      var u := Get(s.repo, id).value;
      GetId(s.repo, id);
      RunOne(s, StartUp(d, id), lower);
      StepKeepsInv(s, StartUp(d, id), lower);
      var s1 := RunFrom(s, [StartUp(d, id)], lower);
      assert s1.tasks[d] == Task(Up, Waiting, u) && s1.tasks[c] == k && s1.repo == s.repo;
      var second := FinishCall(s1, c, lower);
      var s2 := RunFrom(s1, second, lower);
      PutGet(s1.repo, Settled(k.kind, k.snapshot), id);
      var third := SnapshotRevivesPhone(s2, d, u.phone.value, lower);
      steps := [StartUp(d, id)] + (second + third);
      RunConcat(s, [StartUp(d, id)], second + third, lower);
      RunConcat(s1, second, third, lower);
    }
  }

  /** A phone write that is not guarded leads to two tenants with one phone: at once when somebody else has the
      phone, and otherwise through a stale snapshot. */
  lemma UnguardedWriteBreaks(s: State, a: Step, lower: Lowering) returns (steps: seq<Step>)
    requires PhonesOk(s) && Enabled(s, a) && !Guarded(s, a)
    ensures NoPhoneWrites(steps) && !DistinctPhones(RunFrom(Apply(s, a, lower), steps, lower).repo)
  {
    hide RunFrom, Put, DistinctIds, DistinctSlugs, DistinctPhones, Find;
    var t := Get(s.repo, a.id).value;
    GetId(s.repo, a.id);
    var t' := t.(phone := Some(a.phone));
    var s1 := s.(repo := Put(s.repo, t'));
    PutGet(s.repo, t', a.id);
    StepKeepsInv(s, a, lower);
    if ByPhone(s.repo, a.phone).Some? {
      var owner := ByPhone(s.repo, a.phone).value.id;
      ByPhoneOwns(s.repo, a.phone);
      PutGet(s.repo, t', owner);
      SharedPhone(s1.repo, a.id, owner, a.phone);
      steps := [];
      NothingRuns(s1, lower);
    } else {
      var c :| c in s.tasks && InFlight(s.tasks[c]) && s.tasks[c].snapshot.id == a.id;
      steps := StaleSnapshotBreaks(s1, c, lower);
    }
  }

  // ----- The exact condition -------------------------------------------------------------------------------

  /** In every guarded continuation phone ids stay distinct. */
  ghost predicate PhonesStayDistinct(s: State, lower: Lowering) {
    forall steps :: GuardedRun(s, steps, lower) ==> DistinctPhones(RunFrom(s, steps, lower).repo)
  }

  /** A step keeps phone ids distinct in every guarded continuation if and only if it is guarded: it writes no phone, or
      the phone that the tenant has, or a phone that nobody has while no call on the tenant is in flight. */
  lemma {:induction false} PhonesStayDistinctIff(s: State, a: Step, lower: Lowering)
    requires PhonesOk(s) && Enabled(s, a)
    ensures PhonesStayDistinct(Apply(s, a, lower), lower) <==> Guarded(s, a)
  {
    hide RunFrom, Apply, Enabled, DistinctIds, DistinctSlugs, DistinctPhones, GuardedRun, Guarded;
    var s1 := Apply(s, a, lower);
    if Guarded(s, a) {
      StepKeepsPhonesOk(s, a, lower);
      forall steps | GuardedRun(s1, steps, lower)
        ensures DistinctPhones(RunFrom(s1, steps, lower).repo)
      {
        RunKeepsPhonesOk(s1, steps, lower);
      }
    } else {
      var steps := UnguardedWriteBreaks(s, a, lower);
      NoWritesIsGuarded(s1, steps, lower);
    }
  }
}
