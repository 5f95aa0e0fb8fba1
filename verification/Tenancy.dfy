/** Tenants, the in-memory repository and the in-memory spawner. */
module Tenancy {
  import opened PyText

  datatype Status = Provisioning | Active | Suspended

  datatype Tenant = Tenant(
    id: string, name: string, slug: string, status: Status, phone: Option<string>, model: string)

  /** The values of the repository's dictionary, in insertion order. */
  type Repo = seq<Tenant>

  datatype Result<+T> = Ok(value: T) | Err(error: string)

  /** Ids are dictionary keys. */
  predicate DistinctIds(r: Repo) { forall i, j :: 0 <= i < j < |r| ==> r[i].id != r[j].id }

  predicate DistinctSlugs(r: Repo) { forall i, j :: 0 <= i < j < |r| ==> r[i].slug != r[j].slug }

  /** Phone-number ids of different tenants differ where they are set. */
  predicate DistinctPhones(r: Repo) {
    forall i, j :: 0 <= i < j < |r| && r[i].phone.Some? ==> r[i].phone != r[j].phone
  }

  /** Position of the tenant with this id, or the length. */
  function Find(r: Repo, id: string): (k: nat)
    ensures k <= |r|
    ensures k < |r| ==> r[k].id == id
    ensures forall i :: 0 <= i < k ==> r[i].id != id
  {
    if r == [] || r[0].id == id then 0 else 1 + Find(r[1..], id)
  }

  function Get(r: Repo, id: string): Option<Tenant> {
    var k := Find(r, id);
    if k < |r| then Some(r[k]) else None
  }

  /** First tenant with this slug. */
  function BySlug(r: Repo, slug: string): (t: Option<Tenant>)
    ensures t.Some? ==> t.value in r && t.value.slug == slug
    ensures t.None? ==> forall i :: 0 <= i < |r| ==> r[i].slug != slug
  {
    if r == [] then None else if r[0].slug == slug then Some(r[0]) else BySlug(r[1..], slug)
  }

  /** First tenant that owns this phone-number id. */
  function ByPhone(r: Repo, phone: string): (t: Option<Tenant>)
    ensures t.Some? ==> t.value in r && t.value.phone == Some(phone)
    ensures t.None? ==> forall i :: 0 <= i < |r| ==> r[i].phone != Some(phone)
  {
    if r == [] then None else if r[0].phone == Some(phone) then Some(r[0]) else ByPhone(r[1..], phone)
  }

  /** `by_slug` answers with the earliest entry that has the slug. */
  lemma {:induction false} BySlugIsFirst(r: Repo, slug: string) returns (k: nat)
    requires BySlug(r, slug).Some?
    ensures k < |r| && r[k] == BySlug(r, slug).value && forall i :: 0 <= i < k ==> r[i].slug != slug
  {
    k := 0;
    if r[0].slug != slug {
      var d := BySlugIsFirst(r[1..], slug);
      k := d + 1;
      assert forall i :: 0 < i <= k ==> r[i] == r[1..][i - 1];
    }
  }

  /** ... and so does the lookup by phone-number id. */
  lemma {:induction false} ByPhoneIsFirst(r: Repo, phone: string) returns (k: nat)
    requires ByPhone(r, phone).Some?
    ensures k < |r| && r[k] == ByPhone(r, phone).value && forall i :: 0 <= i < k ==> r[i].phone != Some(phone)
  {
    k := 0;
    if r[0].phone != Some(phone) {
      var d := ByPhoneIsFirst(r[1..], phone);
      k := d + 1;
      assert forall i :: 0 < i <= k ==> r[i] == r[1..][i - 1];
    }
  }

  /** Dictionary assignment: an existing key keeps its position, a new one goes last. */
  function Put(r: Repo, t: Tenant): Repo {
    var k := Find(r, t.id);
    if k < |r| then r[k := t] else r + [t]
  }

  lemma FindAt(r: Repo, i: nat)
    requires DistinctIds(r) && i < |r|
    ensures Find(r, r[i].id) == i && Get(r, r[i].id) == Some(r[i])
  {
  }

  lemma PutGet(r: Repo, t: Tenant, id: string)
    ensures Get(Put(r, t), id) == if id == t.id then Some(t) else Get(r, id)
  {
    var k, p := Find(r, t.id), Put(r, t);
    var j, q := Find(r, id), Find(p, id);
    if k < |r| {
      assert forall i :: 0 <= i < |r| && i != k ==> p[i] == r[i];
    } else {
      assert forall i :: 0 <= i < |r| ==> p[i] == r[i];
    }
    if id == t.id {
      assert p[k] == t;
      assert q <= k;
    } else if j < |r| {
      assert p[j].id == id;
      assert q == j;
    }
  }

  /** Storing what is already there changes nothing. */
  lemma PutSame(r: Repo, t: Tenant)
    requires Get(r, t.id) == Some(t)
    ensures Put(r, t) == r
  {
  }

  class InMemoryTenantRepository {
    var byId: Repo

    constructor ()
      ensures byId == []
    {
      byId := [];
    }

    method Add(t: Tenant) returns (added: Tenant)
      modifies this
      ensures byId == Put(old(byId), t) && added == t
    {
      byId := Put(byId, t);
      added := t;
    }

    /** Overwrite an existing tenant; an unknown id is a `KeyError` and changes nothing. */
    method Update(t: Tenant) returns (r: Result<Tenant>)
      modifies this
      ensures Get(old(byId), t.id).None? ==> r.Err? && byId == old(byId)
      ensures Get(old(byId), t.id).Some? ==> r == Ok(t) && byId == Put(old(byId), t)
    {
      if Get(byId, t.id).None? {
        return Err("unknown tenant: " + t.id);
      }
      byId := Put(byId, t);
      r := Ok(t);
    }
  }

  class InMemoryTenantSpawner {
    var running: set<string>

    constructor ()
      ensures running == {}
    {
      running := {};
    }

    method Spawn(t: Tenant)
      modifies this
      ensures running == old(running) + {t.id}
    {
      running := running + {t.id};
    }

    method Stop(id: string)
      modifies this
      ensures running == old(running) - {id}
    {
      running := running - {id};
    }
  }
}
