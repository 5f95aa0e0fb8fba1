/** Closed runs from the empty system that lose an update or end with two tenants on one phone. */
module ProvisioningWitness {
  import opened PyText
  import opened Slug
  import opened Tenancy
  import opened Provisioning
  import opened Schedules

  // ----- Repositories with one or two tenants -----------------------------------------------------------------

  function Plain(id: string, slug: string): Tenant { Tenant(id, slug, slug, Provisioning, None, DEFAULT_MODEL) }

  lemma One(t: Tenant, t': Tenant)
    requires t'.id == t.id
    ensures Put([], t) == [t] && Put([t], t') == [t'] && Get([t], t.id) == Some(t)
    ensures forall id :: id != t.id ==> Get([t], id).None?
    ensures forall slug :: slug != t.slug ==> BySlug([t], slug).None?
    ensures forall phone :: t.phone != Some(phone) ==> ByPhone([t], phone).None?
  {
    assert [t][1..] == [];
  }

  lemma Two(t: Tenant, u: Tenant, t': Tenant, u': Tenant)
    requires t.id != u.id && t'.id == t.id && u'.id == u.id
    ensures Put([t], u) == [t, u] && Put([t, u], t') == [t', u] && Put([t, u], u') == [t, u']
    ensures Get([t, u], t.id) == Some(t) && Get([t, u], u.id) == Some(u)
  {
    assert Find([t], u.id) == 1 && Find([t, u], t.id) == 0 && Find([t, u], u.id) == 1;
    assert [t, u][0 := t'] == [t', u] && [t, u][1 := u'] == [t, u'];
  }

  lemma CreateFirst(lower: Lowering)
    ensures Apply(INITIAL, Create("a", "a", None, "1"), lower) == INITIAL.(repo := [Plain("1", "a")])
  {
    One(Plain("1", "a"), Plain("1", "a"));
  }

  lemma CreateSecond(s: State, t: Tenant, slug: string, id: string, lower: Lowering)
    requires s.repo == [t] && t.slug != slug && t.id != id
    ensures Enabled(s, Create(slug, slug, None, id))
    ensures Apply(s, Create(slug, slug, None, id), lower) == s.(repo := [t, Plain(id, slug)])
  {
    One(t, t);
    Two(t, Plain(id, slug), t, Plain(id, slug));
  }

  lemma WriteFirst(s: State, t: Tenant, phone: string, lower: Lowering)
    requires s.repo == [t]
    ensures Apply(s, SetPhone(t.id, phone), lower) == s.(repo := [t.(phone := Some(phone))])
  {
    One(t, t.(phone := Some(phone)));
  }

  lemma StartFirst(s: State, t: Tenant, c: nat, lower: Lowering)
    requires s.repo == [t] && c !in s.tasks
    ensures Apply(s, StartUp(c, t.id), lower) == s.(tasks := s.tasks[c := Task(Up, Waiting, t)])
  {
    One(t, t);
  }

  // ----- Two tenants on one phone ------------------------------------------------------------------------------

  /** The plainest duplicate: two tenants are given one phone. */
  lemma TwoWritesShareAPhone(lower: Lowering)
    ensures var steps := [Create("a", "a", None, "1"), Create("b", "b", None, "2"),
                          SetPhone("1", "P"), SetPhone("2", "P")];
            !DistinctPhones(RunFrom(INITIAL, steps, lower).repo)
  {
    hide RunFrom, Apply, Put, Get, BySlug;
    var a, b, c, d := Create("a", "a", None, "1"), Create("b", "b", None, "2"), SetPhone("1", "P"), SetPhone("2", "P");
    assert [a, b, c, d] == [a] + [b, c, d] && [b, c, d] == [b] + [c, d] && [c, d] == [c] + [d] && [d] == [d] + [];
    var t, u := Plain("1", "a"), Plain("2", "b");
    assert "a"[0] != "b"[0] && "1"[0] != "2"[0];
    var s1 := INITIAL.(repo := [t]);
    var s2 := s1.(repo := [t, u]);
    FirstIsEnabled();
    CreateFirst(lower);
    FirstStep(INITIAL, a, [b, c, d], lower);
    CreateSecond(s1, t, "b", "2", lower);
    FirstStep(s1, b, [c, d], lower);
    WriteBoth(s2, t, u, "P", lower);
    FirstStep(s2, c, [d], lower);
    var s3 := s2.(repo := [t.(phone := Some("P")), u]);
    FirstStep(s3, d, [], lower);
    var s4 := s3.(repo := [t.(phone := Some("P")), u.(phone := Some("P"))]);
    NothingRuns(s4, lower);
    assert s4.repo[0].phone == s4.repo[1].phone;
  }

  lemma FirstIsEnabled()
    ensures Enabled(INITIAL, Create("a", "a", None, "1"))
  {
  }

  lemma WriteBoth(s: State, t: Tenant, u: Tenant, phone: string, lower: Lowering)
    requires s.repo == [t, u] && t.id != u.id
    ensures var t', u' := t.(phone := Some(phone)), u.(phone := Some(phone));
            && Apply(s, SetPhone(t.id, phone), lower) == s.(repo := [t', u])
            && Apply(s.(repo := [t', u]), SetPhone(u.id, phone), lower) == s.(repo := [t', u'])
  {
    var t', u' := t.(phone := Some(phone)), u.(phone := Some(phone));
    Two(t, u, t', u');
    Two(t', u, t', u');
  }

  /** A signup beside one tenant with another phone. */
  lemma SignupBeside(s: State, t: Tenant, c: nat, p: Payload, id: string, lower: Lowering)
    requires s.repo == [t] && c !in s.tasks && t.id != id && t.phone != Some(p.phone)
    ensures Enabled(s, StartRun(c, p, id))
    ensures var u := Provisioned([t], p, id, lower);
            Apply(s, StartRun(c, p, id), lower)
            == s.(repo := [t, u], tasks := s.tasks[c := Task(Onboard(p), Waiting, u)])
  {
    hide UniqueSlug, Slugify;
    var u := Provisioned([t], p, id, lower);
    One(t, t);
    Two(t, u, t, u);
  }

  /** The first tenant's `bring_up` finishes. */
  lemma FinishFirst(s: State, q: Tenant, u: Tenant, c: nat, p: Tenant, lower: Lowering)
    requires s.repo == [q, u] && q.id != u.id && p.id == q.id && c in s.tasks && s.tasks[c] == Task(Up, Waiting, p)
    ensures RunFrom(s, [SpawnerActs(c), Resume(c)], lower).repo == [p.(status := Active), u]
  {
    hide RunFrom, Put, Get;
    var s1 := Act(s, c, s.tasks[c]);
    assert [SpawnerActs(c), Resume(c)] == [SpawnerActs(c)] + [Resume(c)] && [Resume(c)] == [Resume(c)] + [];
    FirstStep(s, SpawnerActs(c), [Resume(c)], lower);
    FirstStep(s1, Resume(c), [], lower);
    NothingRuns(Finish(s1, c, s1.tasks[c]), lower);
    Two(q, u, p.(status := Active), u);
  }

  /** The subtle one: every write is to a phone that nobody has, and the duplicate comes from a stale snapshot. */
  lemma StaleWriteSharesAPhone(lower: Lowering)
    ensures var steps := [Create("a", "a", None, "1"), SetPhone("1", "P"), StartUp(0, "1"), SetPhone("1", "Q"),
                          StartRun(1, Payload("P", "b", None, None), "2"), SpawnerActs(0), Resume(0)];
            !DistinctPhones(RunFrom(INITIAL, steps, lower).repo)
  {
    hide RunFrom, Apply, Put, Get, BySlug, ByPhone, UniqueSlug, Slugify;
    var a, b, c, d := Create("a", "a", None, "1"), SetPhone("1", "P"), StartUp(0, "1"), SetPhone("1", "Q");
    var signup := Payload("P", "b", None, None);
    var e, rest := StartRun(1, signup, "2"), [SpawnerActs(0), Resume(0)];
    assert [a, b, c, d, e, SpawnerActs(0), Resume(0)] == [a] + ([b] + ([c] + ([d] + ([e] + rest))));
    assert "P"[0] != "Q"[0] && "1"[0] != "2"[0];
    var t := Plain("1", "a");
    var p, q := t.(phone := Some("P")), t.(phone := Some("Q"));
    var s1 := INITIAL.(repo := [t]);
    var s2 := INITIAL.(repo := [p]);
    var s3 := s2.(tasks := map[0 := Task(Up, Waiting, p)]);
    var s4 := s3.(repo := [q]);
    FirstIsEnabled();
    CreateFirst(lower);
    FirstStep(INITIAL, a, [b] + ([c] + ([d] + ([e] + rest))), lower);
    WriteFirst(s1, t, "P", lower);
    FirstStep(s1, b, [c] + ([d] + ([e] + rest)), lower);
    StartFirst(s2, p, 0, lower);
    FirstStep(s2, c, [d] + ([e] + rest), lower);
    WriteFirst(s3, p, "Q", lower);
    FirstStep(s3, d, [e] + rest, lower);
    SignupBeside(s4, q, 1, signup, "2", lower);
    FirstStep(s4, e, rest, lower);
    var u := Provisioned([q], signup, "2", lower);
    var s5 := Apply(s4, e, lower);
    FinishFirst(s5, q, u, 0, p, lower);
    var last := RunFrom(s5, rest, lower).repo;
    assert last[0].phone == last[1].phone == Some("P");
  }

  // ----- A lost update -----------------------------------------------------------------------------------------

  /** The update is made while `bring_up` awaits the spawner, and gone when it has finished. */
  lemma PatchIsLost(model: string, lower: Lowering)
    ensures var steps := [Create("a", "a", None, "1"), StartUp(0, "1"), SetModel("1", model),
                          SpawnerActs(0), Resume(0)];
            RunFrom(INITIAL, steps, lower).repo == [Plain("1", "a").(status := Active)]
  {
    hide RunFrom, Apply, Put, Get, BySlug;
    var a, b, c := Create("a", "a", None, "1"), StartUp(0, "1"), SetModel("1", model);
    var rest := [SpawnerActs(0), Resume(0)];
    assert [a, b, c, SpawnerActs(0), Resume(0)] == [a] + ([b] + ([c] + rest));
    var t := Plain("1", "a");
    var s1 := INITIAL.(repo := [t]);
    var s2 := s1.(tasks := map[0 := Task(Up, Waiting, t)]);
    var s3 := s2.(repo := [t.(model := model)]);
    FirstIsEnabled();
    CreateFirst(lower);
    FirstStep(INITIAL, a, [b] + ([c] + rest), lower);
    StartFirst(s1, t, 0, lower);
    FirstStep(s1, b, [c] + rest, lower);
    UpdateFirst(s2, t, model, lower);
    FirstStep(s2, c, rest, lower);
    FinishOnly(s3, t.(model := model), 0, t, lower);
  }

  lemma UpdateFirst(s: State, t: Tenant, model: string, lower: Lowering)
    requires s.repo == [t]
    ensures Apply(s, SetModel(t.id, model), lower) == s.(repo := [t.(model := model)])
  {
    One(t, t.(model := model));
  }

  lemma FinishOnly(s: State, q: Tenant, c: nat, p: Tenant, lower: Lowering)
    requires s.repo == [q] && p.id == q.id && c in s.tasks && s.tasks[c] == Task(Up, Waiting, p)
    ensures RunFrom(s, [SpawnerActs(c), Resume(c)], lower).repo == [p.(status := Active)]
  {
    hide RunFrom, Put, Get;
    var s1 := Act(s, c, s.tasks[c]);
    assert [SpawnerActs(c), Resume(c)] == [SpawnerActs(c)] + [Resume(c)] && [Resume(c)] == [Resume(c)] + [];
    FirstStep(s, SpawnerActs(c), [Resume(c)], lower);
    FirstStep(s1, Resume(c), [], lower);
    NothingRuns(Finish(s1, c, s1.tasks[c]), lower);
    One(q, p.(status := Active));
  }
}
