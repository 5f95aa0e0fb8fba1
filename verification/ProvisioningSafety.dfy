/** What every interleaving of provisioning calls keeps. */
module ProvisioningSafety {
  import opened PyText
  import opened Slug
  import opened Tenancy
  import opened Provisioning

  // ----- Repositories only grow ----------------------------------------------------------------------------

  /** Every tenant of `r` is still in `r'` under its slug. */
  ghost predicate KeepsSlugs(r: Repo, r': Repo) {
    forall id :: Get(r, id).Some? ==> Get(r', id).Some? && Get(r', id).value.slug == Get(r, id).value.slug
  }

  /** ... and under its phone-number id. */
  ghost predicate KeepsPhones(r: Repo, r': Repo) {
    forall id :: Get(r, id).Some? ==> Get(r', id).Some? && Get(r', id).value.phone == Get(r, id).value.phone
  }

  predicate SlugFits(r: Repo, t: Tenant) {
    match Get(r, t.id)
    case None => !Taken(r, t.slug)
    case Some(u) => u.slug == t.slug
  }

  predicate PhoneFits(r: Repo, t: Tenant) {
    match Get(r, t.id)
    case None => t.phone.Some? ==> ByPhone(r, t.phone.value).None?
    case Some(u) => u.phone == t.phone && u.slug == t.slug
  }

  lemma PutKeepsSlugs(r: Repo, t: Tenant)
    requires DistinctIds(r) && DistinctSlugs(r) && SlugFits(r, t)
    ensures DistinctIds(Put(r, t)) && DistinctSlugs(Put(r, t)) && KeepsSlugs(r, Put(r, t))
  {
    forall id | Get(r, id).Some?
      ensures Get(Put(r, t), id).Some? && Get(Put(r, t), id).value.slug == Get(r, id).value.slug
    {
      PutGet(r, t, id);
    }
  }

  lemma PutKeepsPhones(r: Repo, t: Tenant)
    requires DistinctIds(r) && DistinctPhones(r) && PhoneFits(r, t)
    ensures DistinctPhones(Put(r, t)) && KeepsPhones(r, Put(r, t))
  {
    forall id | Get(r, id).Some?
      ensures Get(Put(r, t), id).Some? && Get(Put(r, t), id).value.phone == Get(r, id).value.phone
    {
      PutGet(r, t, id);
    }
  }

  // ----- Slugs, under every step ---------------------------------------------------------------------------

  /** A suspended call's snapshot names a tenant that is still there under the same slug. */
  predicate TasksKnown(s: State) {
    forall c :: c in s.tasks ==>
      var t := s.tasks[c].snapshot; Get(s.repo, t.id).Some? && Get(s.repo, t.id).value.slug == t.slug
  }

  predicate Inv(s: State) { DistinctIds(s.repo) && DistinctSlugs(s.repo) && TasksKnown(s) }

  /** Slugs stay pairwise distinct and snapshots stay attached to their tenants, whatever step is taken. */
  lemma StepKeepsInv(s: State, a: Step, lower: Lowering)
    requires Inv(s) && Enabled(s, a)
    ensures Inv(Apply(s, a, lower)) && KeepsSlugs(s.repo, Apply(s, a, lower).repo)
  {
    hide Get, IsSlug, UniqueSlug, Slugify;
    var s' := Apply(s, a, lower);
    match a
    case StartRun(c, p, id) =>
      if ByPhone(s.repo, p.phone).None? {
        var t := Provisioned(s.repo, p, id, lower);
        PutKeepsSlugs(s.repo, t);
        PutGet(s.repo, t, t.id);
      }
    case StartUp(c, id) => GetId(s.repo, id);
    case StartDown(c, id) => GetId(s.repo, id);
    case SpawnerActs(c) =>
    case Resume(c) =>
      var t := Settled(s.tasks[c].kind, s.tasks[c].snapshot);
      PutKeepsSlugs(s.repo, t);
      PutGet(s.repo, t, t.id);
    case Return(c) =>
    case Fail(c) =>
    case Create(n, g, m, id) =>
      if !Taken(s.repo, g) { PutKeepsSlugs(s.repo, Created(s.repo, n, g, m, id).value); }
    case SetModel(id, m) =>
      GetId(s.repo, id);
      if Get(s.repo, id).Some? { PutKeepsSlugs(s.repo, Get(s.repo, id).value.(model := m)); }
    case SetPhone(id, ph) =>
      GetId(s.repo, id);
      if Get(s.repo, id).Some? { PutKeepsSlugs(s.repo, Get(s.repo, id).value.(phone := Some(ph))); }
  }

  lemma GetId(r: Repo, id: string)
    ensures Get(r, id).Some? ==> Get(r, id).value.id == id
  {
  }

  // ----- Phone ids -----------------------------------------------------------------------------------------

  /** The tenant with the new phone, wherever it stands in the dictionary. */
  lemma PhoneWritten(r: Repo, id: string, phone: string)
    requires Get(r, id).Some?
    ensures var r' := Put(r, Get(r, id).value.(phone := Some(phone)));
            && Find(r, id) < |r| == |r'| && r'[Find(r, id)] == r[Find(r, id)].(phone := Some(phone))
            && forall i :: 0 <= i < |r| && i != Find(r, id) ==> r'[i] == r[i]
  {
  }

  /** Writing a phone id keeps phone ids distinct if and only if no other tenant has it: the check that neither endpoint
      makes. */
  lemma PhoneWriteKeepsDistinctIff(r: Repo, id: string, phone: string)
    requires DistinctIds(r) && DistinctPhones(r) && Get(r, id).Some?
    ensures DistinctPhones(Put(r, Get(r, id).value.(phone := Some(phone)))) <==>
            ByPhone(r, phone).None? || ByPhone(r, phone).value.id == id
  {
    hide Put;
    var r', k := Put(r, Get(r, id).value.(phone := Some(phone))), Find(r, id);
    PhoneWritten(r, id, phone);
    if ByPhone(r, phone).Some? {
      var j := ByPhoneIsFirst(r, phone);
      if r[j].id == id {
        FindAt(r, j);
        assert r' == r;
      } else {
        assert j != k && r'[j].phone == r'[k].phone == Some(phone);
      }
    }
  }

  /** Some call on the tenant has not written its snapshot back yet. */
  predicate PendingOn(s: State, id: string) {
    exists c :: c in s.tasks && InFlight(s.tasks[c]) && s.tasks[c].snapshot.id == id
  }

  /** The step writes a phone other than the one that the tenant has. */
  predicate ChangesPhone(s: State, a: Step) {
    a.SetPhone? && Get(s.repo, a.id).Some? && Get(s.repo, a.id).value.phone != Some(a.phone)
  }

  /** A phone is only changed to one that nobody has, and only while no call on the tenant is in flight. */
  predicate Guarded(s: State, a: Step) {
    ChangesPhone(s, a) ==> ByPhone(s.repo, a.phone).None? && !PendingOn(s, a.id)
  }

  /** The phone has had its `tenant.onboarded` event. */
  predicate Recorded(s: State, phone: string) { exists e :: e in s.events && e.phone == phone }

  /** ... and only if the old phone has had no event. */
  predicate Checked(s: State, a: Step) {
    && Guarded(s, a)
    && (ChangesPhone(s, a) && Get(s.repo, a.id).value.phone.Some? ==> !Recorded(s, Get(s.repo, a.id).value.phone.value))
  }

  // ----- Onboarding results and events ---------------------------------------------------------------------

  /** Tenant `id` owns phone-number id `phone`. */
  predicate Owns(r: Repo, id: string, phone: string) {
    Get(r, id).Some? && Get(r, id).value.phone == Some(phone)
  }

  predicate TasksPhones(s: State) {
    forall c :: c in s.tasks ==>
      var k := s.tasks[c];
      && Get(s.repo, k.snapshot.id).Some? && Get(s.repo, k.snapshot.id).value.phone == k.snapshot.phone
      && (k.kind.Onboard? ==> k.snapshot.phone == Some(k.kind.payload.phone))
  }

  function EventPhones(es: seq<Event>): set<string> { set e | e in es :: e.phone }

  function NewPhones(rs: seq<OnboardingResult>): set<string> { set r | r in rs && r.isNew :: r.phone }

  /** Events belong to the owners of their phones, one event a phone. */
  predicate EventsOk(s: State) {
    && (forall i :: 0 <= i < |s.events| ==> Owns(s.repo, s.events[i].tenantId, s.events[i].phone))
    && (forall i, j :: 0 <= i < j < |s.events| ==> s.events[i].phone != s.events[j].phone)
  }

  /** At most one result a phone is new; its event is recorded, and it names the owner of its phone. */
  predicate ResultsOk(s: State) {
    && (forall i :: 0 <= i < |s.results| && s.results[i].isNew ==>
          Owns(s.repo, s.results[i].tenantId, s.results[i].phone))
    && (forall i, j :: 0 <= i < j < |s.results| && s.results[i].isNew && s.results[j].isNew ==>
          s.results[i].phone != s.results[j].phone)
    && NewPhones(s.results) <= EventPhones(s.events)
  }

  /** No two suspended `run` calls serve one phone; each has recorded its event exactly from `Announced` on and has
      not returned. */
  predicate CallsOk(s: State) {
    && (forall c, d :: c in s.tasks && d in s.tasks && c != d
                       && s.tasks[c].kind.Onboard? && s.tasks[d].kind.Onboard? ==>
          s.tasks[c].kind.payload.phone != s.tasks[d].kind.payload.phone)
    && (forall c :: c in s.tasks && s.tasks[c].kind.Onboard? ==>
          var ph := s.tasks[c].kind.payload.phone;
          (s.tasks[c].phase == Announced <==> ph in EventPhones(s.events)) && ph !in NewPhones(s.results))
    && (forall c :: c in s.tasks && s.tasks[c].phase == Announced ==> s.tasks[c].kind.Onboard?)
  }

  predicate PhoneInv(s: State) {
    && Inv(s) && DistinctPhones(s.repo) && TasksPhones(s)
    && EventsOk(s) && ResultsOk(s) && CallsOk(s)
  }

  lemma OwnerIsByPhone(r: Repo, id: string, phone: string)
    requires DistinctIds(r) && DistinctPhones(r) && Owns(r, id, phone)
    ensures ByPhone(r, phone) == Some(Get(r, id).value)
  {
    var k := Find(r, id);
    var t := ByPhone(r, phone);
    assert r[k].phone == Some(phone);
    var j :| 0 <= j < |r| && r[j] == t.value;
    assert j == k;
  }

  lemma ByPhoneOwns(r: Repo, phone: string)
    requires DistinctIds(r) && ByPhone(r, phone).Some?
    ensures Owns(r, ByPhone(r, phone).value.id, phone)
  {
    var j :| 0 <= j < |r| && r[j] == ByPhone(r, phone).value;
    FindAt(r, j);
  }

  lemma FoundOwns(s: State, phone: string)
    requires PhoneInv(s) && ByPhone(s.repo, phone).Some?
    ensures Owns(s.repo, ByPhone(s.repo, phone).value.id, phone)
  {
    ByPhoneOwns(s.repo, phone);
  }

  lemma NotOwned(r: Repo, id: string, phone: string)
    requires ByPhone(r, phone).None?
    ensures !Owns(r, id, phone)
  {
  }

  lemma OwnsStays(r: Repo, r': Repo, id: string, phone: string)
    requires KeepsPhones(r, r') && Owns(r, id, phone)
    ensures Owns(r', id, phone)
  {
  }

  /** A repository change that keeps phones keeps everything that was recorded. */
  lemma RecordsStay(s: State, r': Repo)
    requires PhoneInv(s) && KeepsPhones(s.repo, r')
    ensures var s' := s.(repo := r'); EventsOk(s') && ResultsOk(s') && CallsOk(s') && TasksPhones(s')
  {
    var s' := s.(repo := r');
    forall i | 0 <= i < |s.events|
      ensures Owns(r', s.events[i].tenantId, s.events[i].phone)
    {
      OwnsStays(s.repo, r', s.events[i].tenantId, s.events[i].phone);
    }
    forall i | 0 <= i < |s.results| && s.results[i].isNew
      ensures Owns(r', s.results[i].tenantId, s.results[i].phone)
    {
      OwnsStays(s.repo, r', s.results[i].tenantId, s.results[i].phone);
    }
  }

  /** A step that stores `t` for a tenant whose phone and slug it keeps, or for a new phone. */
  lemma PutKeepsPhoneInv(s: State, t: Tenant)
    requires PhoneInv(s) && SlugFits(s.repo, t) && PhoneFits(s.repo, t)
    ensures PhoneInv(s.(repo := Put(s.repo, t)))
    ensures KeepsPhones(s.repo, Put(s.repo, t))
  {
    PutKeepsSlugs(s.repo, t);
    PutKeepsPhones(s.repo, t);
    RecordsStay(s, Put(s.repo, t));
  }

  /** A checked phone write touches nobody whom a call, an event or a new result names. */
  lemma PhoneWriteKeepsPhoneInv(s: State, id: string, phone: string)
    requires PhoneInv(s) && Get(s.repo, id).Some? && Checked(s, SetPhone(id, phone))
    ensures PhoneInv(s.(repo := Put(s.repo, Get(s.repo, id).value.(phone := Some(phone)))))
  {
    GetId(s.repo, id);
    var t := Get(s.repo, id).value;
    var t' := t.(phone := Some(phone));
    if t.phone == Some(phone) {
      assert t' == t;
      PutSame(s.repo, t);
    } else {
      PutKeepsSlugs(s.repo, t');
      PhoneWriteKeepsDistinctIff(s.repo, id, phone);
      OthersNamed(s, id);
      OthersKeep(s, t');
    }
  }

  /** A tenant without calls in flight and whose phone had no event is named by no call, event or new result. */
  lemma OthersNamed(s: State, id: string)
    requires PhoneInv(s) && Get(s.repo, id).Some? && !PendingOn(s, id)
    requires Get(s.repo, id).value.phone.Some? ==> !Recorded(s, Get(s.repo, id).value.phone.value)
    ensures forall c :: c in s.tasks ==> s.tasks[c].snapshot.id != id
    ensures forall i :: 0 <= i < |s.events| ==> s.events[i].tenantId != id
    ensures forall i :: 0 <= i < |s.results| && s.results[i].isNew ==> s.results[i].tenantId != id
  {
    hide Get, DistinctIds, DistinctSlugs, DistinctPhones, Recorded;
    forall c | c in s.tasks && !InFlight(s.tasks[c])
      ensures AnnouncedFor(s, s.tasks[c].snapshot.id)
    {
      AnnouncedIsRecorded(s, c);
    }
    forall i | 0 <= i < |s.events|
      ensures Recorded(s, s.events[i].phone)
    {
      EventIsRecorded(s, s.events[i]);
    }
    forall i | 0 <= i < |s.results| && s.results[i].isNew
      ensures Recorded(s, s.results[i].phone)
    {
      NewResultIsRecorded(s, s.results[i]);
    }
  }

  /** The tenant's current phone has had its event. */
  predicate AnnouncedFor(s: State, id: string) {
    Get(s.repo, id).Some? && Get(s.repo, id).value.phone.Some? && Recorded(s, Get(s.repo, id).value.phone.value)
  }

  lemma EventIsRecorded(s: State, e: Event)
    requires e in s.events
    ensures Recorded(s, e.phone)
  {
  }

  lemma NewResultIsRecorded(s: State, r: OnboardingResult)
    requires ResultsOk(s) && r in s.results && r.isNew
    ensures Recorded(s, r.phone)
  {
    hide Owns;
    assert r.phone in NewPhones(s.results);
    assert r.phone in EventPhones(s.events);
  }

  lemma AnnouncedIsRecorded(s: State, c: nat)
    requires PhoneInv(s) && c in s.tasks && !InFlight(s.tasks[c])
    ensures AnnouncedFor(s, s.tasks[c].snapshot.id)
  {
    hide Get, DistinctIds, DistinctSlugs, DistinctPhones, Recorded;
    var phone := s.tasks[c].kind.payload.phone;
    assert phone in EventPhones(s.events);
    var e :| e in s.events && e.phone == phone;
    EventIsRecorded(s, e);
  }

  lemma OthersKeep(s: State, t: Tenant)
    requires PhoneInv(s) && Get(s.repo, t.id).Some? && Inv(s.(repo := Put(s.repo, t))) && DistinctPhones(Put(s.repo, t))
    requires forall c :: c in s.tasks ==> s.tasks[c].snapshot.id != t.id
    requires forall i :: 0 <= i < |s.events| ==> s.events[i].tenantId != t.id
    requires forall i :: 0 <= i < |s.results| && s.results[i].isNew ==> s.results[i].tenantId != t.id
    ensures PhoneInv(s.(repo := Put(s.repo, t)))
  {
    hide Get, Put, EventPhones, NewPhones, DistinctIds, DistinctSlugs, DistinctPhones;
    forall id | id != t.id
      ensures Get(Put(s.repo, t), id) == Get(s.repo, id)
    {
      PutGet(s.repo, t, id);
    }
  }

  lemma ReplayKeepsPhoneInv(s: State, p: Payload, id: string)
    requires PhoneInv(s)
    ensures PhoneInv(s.(results := s.results + [OnboardingResult(p.phone, id, false)]))
  {
    NewPhonesMore(s.results, OnboardingResult(p.phone, id, false));
  }

  lemma ProvisionedFits(r: Repo, p: Payload, id: string, lower: Lowering)
    requires Get(r, id).None? && ByPhone(r, p.phone).None?
    ensures var t := Provisioned(r, p, id, lower); SlugFits(r, t) && PhoneFits(r, t)
  {
    hide IsSlug, Slugify;
  }

  predicate PhoneUsed(s: State, phone: string) {
    || phone in EventPhones(s.events) || phone in NewPhones(s.results)
    || exists c :: c in s.tasks && s.tasks[c].kind.Onboard? && s.tasks[c].kind.payload.phone == phone
  }

  lemma NewTaskKeepsPhoneInv(s: State, c: nat, p: Payload, t: Tenant)
    requires PhoneInv(s) && c !in s.tasks && Get(s.repo, t.id) == Some(t) && t.phone == Some(p.phone)
    requires !PhoneUsed(s, p.phone)
    ensures PhoneInv(s.(tasks := s.tasks[c := Task(Onboard(p), Waiting, t)]))
  {
    hide Get, DistinctIds, DistinctSlugs, DistinctPhones;
  }

  lemma FreshRunKeepsPhoneInv(s: State, c: nat, p: Payload, id: string, lower: Lowering)
    requires PhoneInv(s) && c !in s.tasks && Get(s.repo, id).None? && ByPhone(s.repo, p.phone).None?
    ensures PhoneInv(BeginRun(s, c, p, id, lower)) && KeepsPhones(s.repo, BeginRun(s, c, p, id, lower).repo)
  {
    hide Get, PhoneInv, Put, SlugFits, PhoneFits, IsSlug, UniqueSlug, Slugify;
    var t := Provisioned(s.repo, p, id, lower);
    ProvisionedFits(s.repo, p, id, lower);
    PutKeepsPhoneInv(s, t);
    PutGet(s.repo, t, id);
    PhoneUnused(s, p.phone);
    NewTaskKeepsPhoneInv(s.(repo := Put(s.repo, t)), c, p, t);
  }

  /** A phone that no tenant has occurs in no record and no call. */
  lemma PhoneUnused(s: State, phone: string)
    requires PhoneInv(s) && ByPhone(s.repo, phone).None?
    ensures !PhoneUsed(s, phone)
  {
    if phone in EventPhones(s.events) {
      var e :| e in s.events && e.phone == phone;
      NotOwned(s.repo, e.tenantId, phone);
    }
    forall c | c in s.tasks && s.tasks[c].kind.Onboard?
      ensures s.tasks[c].kind.payload.phone != phone
    {
      NotOwned(s.repo, s.tasks[c].snapshot.id, phone);
    }
  }

  lemma BeginKeepsPhoneInv(s: State, c: nat, kind: Kind, id: string)
    requires PhoneInv(s) && c !in s.tasks && !kind.Onboard?
    ensures PhoneInv(Begin(s, c, kind, id))
  {
    GetId(s.repo, id);
    hide Get, Owns, DistinctIds, DistinctSlugs, DistinctPhones, EventPhones, NewPhones;
  }

  lemma ActKeepsPhoneInv(s: State, c: nat)
    requires PhoneInv(s) && c in s.tasks && s.tasks[c].phase == Waiting
    ensures PhoneInv(Act(s, c, s.tasks[c]))
  {
    hide Get, Owns, DistinctIds, DistinctSlugs, DistinctPhones, EventPhones, NewPhones;
    var s' := Act(s, c, s.tasks[c]);
    ActedCalls(s, s', c);
    SameRecords(s, s');
  }

  lemma SameRecords(s: State, s': State)
    requires EventsOk(s) && ResultsOk(s) && s'.repo == s.repo && s'.events == s.events && s'.results == s.results
    ensures EventsOk(s') && ResultsOk(s')
  {
    hide Owns, EventPhones, NewPhones;
  }

  lemma ActedCalls(s: State, s': State, c: nat)
    requires TasksKnown(s) && TasksPhones(s) && CallsOk(s) && c in s.tasks && s.tasks[c].phase == Waiting
    requires s'.repo == s.repo && s'.events == s.events && s'.results == s.results
    requires s'.tasks == s.tasks[c := s.tasks[c].(phase := Acted)]
    ensures TasksKnown(s') && TasksPhones(s') && CallsOk(s')
  {
    hide Get, EventPhones, NewPhones;
  }

  lemma DropKeepsPhoneInv(s: State, c: nat)
    requires PhoneInv(s)
    ensures PhoneInv(s.(tasks := s.tasks - {c}))
  {
    hide Get, DistinctIds, DistinctSlugs, DistinctPhones;
  }

  lemma EventPhonesMore(es: seq<Event>, e: Event)
    ensures EventPhones(es + [e]) == EventPhones(es) + {e.phone}
  {
    assert (es + [e])[|es|] == e;
    assert forall x :: x in es ==> x in es + [e];
  }

  lemma NewPhonesMore(rs: seq<OnboardingResult>, r: OnboardingResult)
    ensures NewPhones(rs + [r]) == NewPhones(rs) + if r.isNew then {r.phone} else {}
  {
    assert (rs + [r])[|rs|] == r;
    assert forall x :: x in rs ==> x in rs + [r];
  }

  /** The next event of a phone that has none. */
  lemma EventRecorded(s: State, s': State, e: Event)
    requires EventsOk(s) && ResultsOk(s) && Owns(s.repo, e.tenantId, e.phone) && e.phone !in EventPhones(s.events)
    requires s'.repo == s.repo && s'.events == s.events + [e] && s'.results == s.results
    ensures EventsOk(s') && ResultsOk(s')
  {
    hide Owns, NewPhones;
    EventPhonesMore(s.events, e);
  }

  /** The next result of a phone that has its event but no new result yet. */
  lemma ResultRecorded(s: State, s': State, r: OnboardingResult)
    requires EventsOk(s) && ResultsOk(s) && Owns(s.repo, r.tenantId, r.phone)
    requires r.phone in EventPhones(s.events) && r.phone !in NewPhones(s.results)
    requires s'.repo == s.repo && s'.events == s.events && s'.results == s.results + [r]
    ensures EventsOk(s') && ResultsOk(s')
  {
    hide Owns, EventPhones;
    NewPhonesMore(s.results, r);
  }

  lemma TaskOwns(s: State, c: nat)
    requires TasksPhones(s) && c in s.tasks && s.tasks[c].kind.Onboard?
    ensures Owns(s.repo, s.tasks[c].snapshot.id, s.tasks[c].kind.payload.phone)
  {
  }

  /** Moving a call to `Announced`, or to its end, leaves what is known of the other calls. */
  lemma AnnouncedCalls(s: State, s': State, c: nat, t: Tenant)
    requires TasksKnown(s) && TasksPhones(s) && CallsOk(s) && c in s.tasks && s.tasks[c].kind.Onboard?
    requires t == Settled(s.tasks[c].kind, s.tasks[c].snapshot) && s'.repo == s.repo && s'.results == s.results
    requires s'.tasks == s.tasks[c := Task(s.tasks[c].kind, Announced, t)]
    requires EventPhones(s'.events) == EventPhones(s.events) + {s.tasks[c].kind.payload.phone}
    ensures TasksKnown(s') && TasksPhones(s') && CallsOk(s')
  {
    hide Get, EventPhones, NewPhones;
  }

  lemma ReturnedCalls(s: State, s': State, c: nat)
    requires TasksKnown(s) && TasksPhones(s) && CallsOk(s) && c in s.tasks && s.tasks[c].kind.Onboard?
    requires s'.repo == s.repo && s'.events == s.events && s'.tasks == s.tasks - {c}
    requires NewPhones(s'.results) == NewPhones(s.results) + {s.tasks[c].kind.payload.phone}
    ensures TasksKnown(s') && TasksPhones(s') && CallsOk(s')
  {
    hide Get, EventPhones, NewPhones;
  }

  /** Recording the event of a call that has not recorded it yet. */
  lemma AnnounceKeepsPhoneInv(s: State, c: nat, t: Tenant)
    requires PhoneInv(s) && c in s.tasks && s.tasks[c].kind.Onboard? && s.tasks[c].phase != Announced
    requires t == Settled(s.tasks[c].kind, s.tasks[c].snapshot)
    ensures var p := s.tasks[c].kind.payload;
            PhoneInv(s.(events := s.events + [EventFor(p, t)],
                        tasks := s.tasks[c := Task(s.tasks[c].kind, Announced, t)]))
  {
    hide Owns, EventPhones, NewPhones, EventsOk, ResultsOk, TasksKnown, TasksPhones, DistinctIds, DistinctSlugs;
    hide DistinctPhones;
    var e := EventFor(s.tasks[c].kind.payload, t);
    var s' := s.(events := s.events + [e], tasks := s.tasks[c := Task(s.tasks[c].kind, Announced, t)]);
    TaskOwns(s, c);
    EventPhonesMore(s.events, e);
    EventRecorded(s, s', e);
    AnnouncedCalls(s, s', c, t);
  }

  lemma ResumeKeepsPhoneInv(s: State, c: nat)
    requires PhoneInv(s) && c in s.tasks && s.tasks[c].phase == Acted
    ensures PhoneInv(Finish(s, c, s.tasks[c])) && KeepsPhones(s.repo, Finish(s, c, s.tasks[c]).repo)
  {
    var k := s.tasks[c];
    var t := Settled(k.kind, k.snapshot);
    assert Get(s.repo, t.id).Some? && SlugFits(s.repo, t) && PhoneFits(s.repo, t);
    hide Get, PhoneInv, Put, SlugFits, PhoneFits;
    PutKeepsPhoneInv(s, t);
    var s1 := s.(repo := Put(s.repo, t));
    if k.kind.Onboard? { AnnounceKeepsPhoneInv(s1, c, t); } else { DropKeepsPhoneInv(s1, c); }
  }

  lemma ReturnKeepsPhoneInv(s: State, c: nat)
    requires PhoneInv(s) && c in s.tasks && s.tasks[c].phase == Announced && s.tasks[c].kind.Onboard?
    ensures var k := s.tasks[c];
            PhoneInv(s.(results := s.results + [OnboardingResult(k.kind.payload.phone, k.snapshot.id, true)],
                        tasks := s.tasks - {c}))
  {
    hide Owns, EventPhones, NewPhones, EventsOk, ResultsOk, TasksKnown, TasksPhones, DistinctIds, DistinctSlugs;
    hide DistinctPhones;
    var k := s.tasks[c];
    var r := OnboardingResult(k.kind.payload.phone, k.snapshot.id, true);
    var s' := s.(results := s.results + [r], tasks := s.tasks - {c});
    TaskOwns(s, c);
    NewPhonesMore(s.results, r);
    ResultRecorded(s, s', r);
    ReturnedCalls(s, s', c);
  }

  /** Every checked step keeps the whole invariant, and every step but a phone write keeps every tenant's phone. */
  lemma StepKeepsPhoneInv(s: State, a: Step, lower: Lowering)
    requires PhoneInv(s) && Enabled(s, a) && Checked(s, a)
    ensures PhoneInv(Apply(s, a, lower))
    ensures !a.SetPhone? ==> KeepsPhones(s.repo, Apply(s, a, lower).repo)
  {
    hide PhoneInv, Put, Checked, IsSlug, UniqueSlug, Slugify;
    match a
    case StartRun(c, p, id) =>
      if ByPhone(s.repo, p.phone).None? {
        FreshRunKeepsPhoneInv(s, c, p, id, lower);
      } else {
        FoundOwns(s, p.phone);
        ReplayKeepsPhoneInv(s, p, ByPhone(s.repo, p.phone).value.id);
      }
    case StartUp(c, id) => BeginKeepsPhoneInv(s, c, Up, id);
    case StartDown(c, id) => BeginKeepsPhoneInv(s, c, Down, id);
    case SpawnerActs(c) => ActKeepsPhoneInv(s, c);
    case Resume(c) => ResumeKeepsPhoneInv(s, c);
    case Return(c) => ReturnKeepsPhoneInv(s, c);
    case Fail(c) => DropKeepsPhoneInv(s, c);
    case Create(n, g, m, id) =>
      if !Taken(s.repo, g) { PutKeepsPhoneInv(s, Created(s.repo, n, g, m, id).value); }
    case SetModel(id, m) => ModelWriteKeepsPhoneInv(s, id, m);
    case SetPhone(id, ph) =>
      if Get(s.repo, id).Some? { PhoneWriteKeepsPhoneInv(s, id, ph); }
  }

  lemma ModelWriteKeepsPhoneInv(s: State, id: string, model: string)
    requires PhoneInv(s)
    ensures Get(s.repo, id).Some? ==>
              var r := Put(s.repo, Get(s.repo, id).value.(model := model));
              PhoneInv(s.(repo := r)) && KeepsPhones(s.repo, r)
  {
    hide PhoneInv, Put;
    GetId(s.repo, id);
    if Get(s.repo, id).Some? { PutKeepsPhoneInv(s, Get(s.repo, id).value.(model := model)); }
  }
}
