/** The in-memory fact store: tenant-scoped substring search in insertion order. */
module Hindsight {
  import opened PyText

  datatype Fact = Fact(tenantId: string, source: string, content: string, metadata: map<string, string>)

  function Needle(text: string, lower: Lowering): string { Strip(Spaces, Lower(text, lower)) }

  predicate InScope(f: Fact, tenant: Option<string>) { tenant.None? || f.tenantId == tenant.value }

  predicate Hit(f: Fact, needle: string, lower: Lowering) { Contains(Lower(f.content, lower), needle) }

  function Scope(fs: seq<Fact>, tenant: Option<string>): seq<Fact> {
    if fs == [] then []
    else (if InScope(fs[0], tenant) then [fs[0]] else []) + Scope(fs[1..], tenant)
  }

  function Hits(fs: seq<Fact>, needle: string, lower: Lowering): seq<Fact> {
    if fs == [] then []
    else (if Hit(fs[0], needle, lower) then [fs[0]] else []) + Hits(fs[1..], needle, lower)
  }

  /** `s[:k]`, where a negative `k` counts from the end. */
  function Take<T>(s: seq<T>, k: int): seq<T> {
    var n := if k < 0 then |s| + k else k;
    if n <= 0 then [] else if n >= |s| then s else s[..n]
  }

  /** What `query` answers on a list of facts. */
  function Answer(fs: seq<Fact>, text: string, tenant: Option<string>, topK: int, lower: Lowering): seq<Fact> {
    var needle := Needle(text, lower);
    Take(if needle == "" then [] else Hits(Scope(fs, tenant), needle, lower), topK)
  }

  /** `r` lists the facts at the positions `at`, which increase. */
  ghost predicate Selects(fs: seq<Fact>, at: seq<nat>, r: seq<Fact>) {
    && |at| == |r|
    && (forall i :: 0 <= i < |at| ==> at[i] < |fs| && r[i] == fs[at[i]])
    && (forall i, j :: 0 <= i < j < |at| ==> at[i] < at[j])
  }

  /** A scope selects exactly the positions in scope. */
  lemma ScopeSelects(fs: seq<Fact>, tenant: Option<string>) returns (at: seq<nat>)
    ensures Selects(fs, at, Scope(fs, tenant))
    ensures forall k :: 0 <= k < |fs| ==> (InScope(fs[k], tenant) <==> k in at)
  {
    hide Scope, InScope;
    at := ScopeSelectsFrom(fs, 0, tenant);
    assert fs[0..] == fs;
  }

  lemma {:induction false} ScopeSelectsFrom(fs: seq<Fact>, from: nat, tenant: Option<string>) returns (at: seq<nat>)
    requires from <= |fs|
    ensures Selects(fs, at, Scope(fs[from..], tenant)) && forall i :: 0 <= i < |at| ==> from <= at[i]
    ensures forall k :: from <= k < |fs| ==> (InScope(fs[k], tenant) <==> k in at)
    decreases |fs| - from
  {
    hide Scope, InScope, Selects;
    ScopeUnfold(fs, from, tenant);
    if from == |fs| {
      at := [];
      NothingSelected(fs);
    } else {
      var rest := ScopeSelectsFrom(fs, from + 1, tenant);
      OneMoreSelected(fs, from, rest, Scope(fs[from + 1..], tenant));
      at := if InScope(fs[from], tenant) then [from] + rest else rest;
    }
  }

  lemma NothingSelected(fs: seq<Fact>)
    ensures Selects(fs, [], [])
  {
  }

  lemma OneMoreSelected(fs: seq<Fact>, from: nat, rest: seq<nat>, r: seq<Fact>)
    requires from < |fs| && Selects(fs, rest, r) && forall i :: 0 <= i < |rest| ==> from < rest[i]
    ensures Selects(fs, [from] + rest, [fs[from]] + r)
    ensures from !in rest && forall k :: k in [from] + rest <==> k == from || k in rest
  {
  }

  lemma ScopeUnfold(fs: seq<Fact>, from: nat, tenant: Option<string>)
    requires from <= |fs|
    ensures Scope(fs[from..], tenant) ==
            if from == |fs| then []
            else if InScope(fs[from], tenant) then [fs[from]] + Scope(fs[from + 1..], tenant)
            else Scope(fs[from + 1..], tenant)
  {
    hide InScope;
    if from < |fs| { assert fs[from..][1..] == fs[from + 1..]; }
  }

  // ----- A whole answer ----------------------------------------------------------------------------------

  /** The fact is one that a query may answer: in the tenant's scope, if there is one, with the trimmed, lower-cased
      text somewhere in its lower-cased content. */
  predicate Matches(f: Fact, text: string, tenant: Option<string>, lower: Lowering) {
    && (tenant.Some? ==> f.tenantId == tenant.value)
    && Strip(Spaces, Lower(text, lower)) != ""
    && Contains(Lower(f.content, lower), Strip(Spaces, Lower(text, lower)))
  }

  lemma MatchUnfold(fs: seq<Fact>, from: nat, tenant: Option<string>, needle: string, lower: Lowering)
    requires from <= |fs|
    ensures Hits(Scope(fs[from..], tenant), needle, lower) ==
            if from == |fs| then []
            else if InScope(fs[from], tenant) && Hit(fs[from], needle, lower)
              then [fs[from]] + Hits(Scope(fs[from + 1..], tenant), needle, lower)
            else Hits(Scope(fs[from + 1..], tenant), needle, lower)
  {
    hide InScope, Hit, Scope;
    ScopeUnfold(fs, from, tenant);
    if from < |fs| && InScope(fs[from], tenant) {
      assert ([fs[from]] + Scope(fs[from + 1..], tenant))[1..] == Scope(fs[from + 1..], tenant);
    }
  }

  lemma {:induction false} MatchesFrom(
    fs: seq<Fact>, from: nat, tenant: Option<string>, needle: string, lower: Lowering) returns (at: seq<nat>)
    requires from <= |fs|
    ensures Selects(fs, at, Hits(Scope(fs[from..], tenant), needle, lower))
    ensures forall i :: 0 <= i < |at| ==> from <= at[i]
    ensures forall k :: from <= k < |fs| ==> (InScope(fs[k], tenant) && Hit(fs[k], needle, lower) <==> k in at)
    decreases |fs| - from
  {
    hide Scope, Hits, InScope, Hit, Selects;
    MatchUnfold(fs, from, tenant, needle, lower);
    if from == |fs| {
      at := [];
      NothingSelected(fs);
    } else {
      var rest := MatchesFrom(fs, from + 1, tenant, needle, lower);
      OneMoreSelected(fs, from, rest, Hits(Scope(fs[from + 1..], tenant), needle, lower));
      at := if InScope(fs[from], tenant) && Hit(fs[from], needle, lower) then [from] + rest else rest;
    }
  }

  lemma SelectsFirst(fs: seq<Fact>, at: seq<nat>, r: seq<Fact>, n: nat)
    requires Selects(fs, at, r) && n <= |at|
    ensures Selects(fs, at[..n], r[..n])
  {
  }

  /** How many of `n` matches a limit leaves; a negative one counts from the end. */
  function Kept(n: nat, topK: int): nat {
    if topK < 0 then (if n + topK < 0 then 0 else n + topK) else if topK < n then topK else n
  }

  /** An answer lists, in insertion order, the first of the matching facts, as many as the limit leaves: `at` holds the
      positions of all matching facts, in increasing order. */
  lemma AnswerSelects(fs: seq<Fact>, text: string, tenant: Option<string>, topK: int, lower: Lowering)
    returns (at: seq<nat>)
    ensures forall k :: 0 <= k < |fs| ==> (k in at <==> Matches(fs[k], text, tenant, lower))
    ensures Kept(|at|, topK) <= |at| && Selects(fs, at[..Kept(|at|, topK)], Answer(fs, text, tenant, topK, lower))
    ensures forall i, j :: 0 <= i < j < |at| ==> at[i] < at[j]
    ensures forall i :: 0 <= i < |at| ==> at[i] < |fs|
  {
    hide Hits, Scope, Lower, Strip, Contains;
    var needle := Needle(text, lower);
    if needle == "" {
      at := [];
      NothingSelected(fs);
    } else {
      at := MatchesFrom(fs, 0, tenant, needle, lower);
      assert fs[0..] == fs;
      SelectsFirst(fs, at, Hits(Scope(fs, tenant), needle, lower), Kept(|at|, topK));
    }
  }

  class InMemoryHindsight {
    var facts: seq<Fact>

    constructor ()
      ensures facts == []
    {
      facts := [];
    }

    method AddFact(f: Fact) returns (added: Fact)
      modifies this
      ensures facts == old(facts) + [f] && added == f
    {
      facts := facts + [f];
      added := f;
    }

    method Query(text: string, tenant: Option<string>, topK: int, lower: Lowering) returns (r: seq<Fact>)
      ensures r == Answer(facts, text, tenant, topK, lower)
    {
      var needle := Needle(text, lower);
      var scope := if needle != "" then Scope(facts, tenant) else [];
      var matches := Hits(scope, needle, lower);
      r := Take(matches, topK);
    }

    /** The facts at exactly the positions that hold the tenant's, in insertion order. */
    method AllFor(tenant: string) returns (r: seq<Fact>)
      ensures exists at :: Selects(facts, at, r)
                && forall k :: 0 <= k < |facts| ==> (facts[k].tenantId == tenant <==> k in at)
      ensures r == Scope(facts, Some(tenant))
    {
      r := Scope(facts, Some(tenant));
      ghost var at := ScopeSelects(facts, Some(tenant));
      assert forall k :: 0 <= k < |facts| ==> (facts[k].tenantId == tenant <==> k in at);
    }
  }

  // ----- Non-interference ------------------------------------------------------------------------------

  lemma {:induction false} ScopeConcat(a: seq<Fact>, b: seq<Fact>, tenant: Option<string>)
    ensures Scope(a + b, tenant) == Scope(a, tenant) + Scope(b, tenant)
  {
    hide InScope, Scope;
    ScopeUnfold(a, 0, tenant);
    ScopeUnfold(a + b, 0, tenant);
    assert a[0..] == a && (a + b)[0..] == a + b;
    if a == [] {
      assert a + b == b;
    } else {
      assert (a + b)[1..] == a[1..] + b && (a + b)[0] == a[0];
      ScopeConcat(a[1..], b, tenant);
    }
  }

  lemma {:induction false} ScopeTwice(fs: seq<Fact>, t: string)
    ensures Scope(Scope(fs, Some(t)), Some(t)) == Scope(fs, Some(t)) == Scope(Scope(fs, Some(t)), None)
  {
    if fs != [] {
      ScopeTwice(fs[1..], t);
      var head := if fs[0].tenantId == t then [fs[0]] else [];
      ScopeConcat(head, Scope(fs[1..], Some(t)), Some(t));
      ScopeConcat(head, Scope(fs[1..], Some(t)), None);
    }
  }

  lemma {:induction false} ScopeHasOnlyTenant(fs: seq<Fact>, t: string)
    ensures forall f :: f in Scope(fs, Some(t)) <==> f in fs && f.tenantId == t
  {
    if fs != [] { ScopeHasOnlyTenant(fs[1..], t); }
  }

  lemma {:induction false} HitsAreHits(fs: seq<Fact>, needle: string, lower: Lowering)
    ensures forall f :: f in Hits(fs, needle, lower) <==> f in fs && Hit(f, needle, lower)
  {
    if fs != [] { HitsAreHits(fs[1..], needle, lower); }
  }

  /** A tenant-scoped query sees only that tenant's facts: on any two stores with the same facts of `t`, in the same
      order, it answers the same, and so does an unscoped query on a store that holds nothing else. */
  lemma {:induction false} TenantsDoNotInterfere(
    a: seq<Fact>, b: seq<Fact>, text: string, t: string, topK: int, lower: Lowering)
    requires Scope(a, Some(t)) == Scope(b, Some(t))
    ensures Answer(a, text, Some(t), topK, lower) == Answer(b, text, Some(t), topK, lower)
    ensures Answer(a, text, Some(t), topK, lower) == Answer(Scope(a, Some(t)), text, None, topK, lower)
  {
    ScopeTwice(a, t);
  }

  /** A scoped answer lists exactly the tenant's matching facts when it is not cut, and an answer for a larger limit
      extends one for a smaller limit. */
  lemma AnswersAreMatches(fs: seq<Fact>, text: string, t: string, j: nat, k: nat, lower: Lowering)
    requires j <= k
    ensures Answer(fs, text, Some(t), j, lower) <= Answer(fs, text, Some(t), k, lower)
    ensures forall f :: f in Answer(fs, text, Some(t), k, lower) ==>
                          f in fs && f.tenantId == t && Hit(f, Needle(text, lower), lower) && Needle(text, lower) != ""
    ensures |fs| <= k && Needle(text, lower) != "" ==>
              forall f :: f in fs && f.tenantId == t && Hit(f, Needle(text, lower), lower) ==>
                            f in Answer(fs, text, Some(t), k, lower)
  {
    ScopeHasOnlyTenant(fs, t);
    var needle := Needle(text, lower);
    var scope := Scope(fs, Some(t));
    HitsAreHits(scope, needle, lower);
    Shorter(fs, t, needle, lower);
    hide Hit, Needle;
  }

  lemma Shorter(fs: seq<Fact>, t: string, needle: string, lower: Lowering)
    ensures |Scope(fs, Some(t))| <= |fs| && |Hits(Scope(fs, Some(t)), needle, lower)| <= |fs|
  {
    ScopeShorter(fs, t);
    HitsShorter(Scope(fs, Some(t)), needle, lower);
  }

  lemma {:induction false} ScopeShorter(fs: seq<Fact>, t: string)
    ensures |Scope(fs, Some(t))| <= |fs|
  {
    if fs != [] { ScopeShorter(fs[1..], t); }
  }

  lemma {:induction false} HitsShorter(fs: seq<Fact>, needle: string, lower: Lowering)
    ensures |Hits(fs, needle, lower)| <= |fs|
  {
    if fs != [] { HitsShorter(fs[1..], needle, lower); }
  }
}
