/** Building blocks for continuations of a provisioning run: joining runs, fresh names, and letting a call finish. */
module Schedules {
  import opened PyText
  import opened Tenancy
  import opened Provisioning
  import opened ProvisioningSafety

  lemma RunOne(s: State, a: Step, lower: Lowering)
    ensures RunFrom(s, [a], lower) == if Enabled(s, a) then Apply(s, a, lower) else s
  {
    hide Enabled, Apply;
    assert [a][1..] == [];
  }

  lemma FirstStep(s: State, a: Step, rest: seq<Step>, lower: Lowering)
    ensures RunFrom(s, [a] + rest, lower) == RunFrom(if Enabled(s, a) then Apply(s, a, lower) else s, rest, lower)
  {
    hide Enabled, Apply;
    assert ([a] + rest)[1..] == rest;
  }

  lemma NothingRuns(s: State, lower: Lowering)
    ensures RunFrom(s, [], lower) == s
  {
  }

  lemma {:induction false} RunConcat(s: State, a: seq<Step>, b: seq<Step>, lower: Lowering)
    ensures RunFrom(s, a + b, lower) == RunFrom(RunFrom(s, a, lower), b, lower)
    decreases |a|
  {
    hide Enabled, Apply;
    if a == [] {
      assert a + b == b;
    } else {
      assert (a + b)[1..] == a[1..] + b;
      RunConcat(if Enabled(s, a[0]) then Apply(s, a[0], lower) else s, a[1..], b, lower);
    }
  }

  /** A call number that is not in use. */
  lemma FreshCall(tasks: map<nat, Task>) returns (c: nat)
    ensures c !in tasks
  {
    c := Above(tasks.Keys);
  }

  lemma {:induction false} Above(used: set<nat>) returns (c: nat)
    ensures forall d :: d in used ==> d < c
  {
    if used == {} {
      c := 0;
    } else {
      var d :| d in used;
      var e := Above(used - {d});
      c := if e <= d then d + 1 else e;
      assert forall x :: x in used ==> x == d || x in used - {d};
    }
  }

  /** A tenant id that is not in use: one longer than all others. */
  lemma FreshId(r: Repo) returns (id: string)
    ensures Get(r, id).None?
  {
    var n := LongestId(r);
    id := seq(n + 1, _ => 'x');
    assert forall i :: 0 <= i < |r| ==> r[i].id != id;
  }

  lemma {:induction false} LongestId(r: Repo) returns (n: nat)
    ensures forall i :: 0 <= i < |r| ==> |r[i].id| <= n
  {
    n := 0;
    if r != [] {
      var m := LongestId(r[1..]);
      n := if |r[0].id| > m then |r[0].id| else m;
      assert forall i :: 0 < i < |r| ==> r[i] == r[1..][i - 1];
    }
  }

  /** Only the spawner and calls in flight move: no call starts, none fails, and no endpoint writes. */
  predicate Finishing(steps: seq<Step>) {
    forall i :: 0 <= i < |steps| ==> steps[i].SpawnerActs? || steps[i].Resume?
  }

  /** Calls other than `c` are where they were. */
  ghost predicate OthersWait(s: State, s': State, c: nat) {
    forall d :: d != c ==> (d in s'.tasks <==> d in s.tasks) && (d in s.tasks ==> s'.tasks[d] == s.tasks[d])
  }

  lemma SpawnerActsFor(s: State, c: nat, lower: Lowering)
    requires Inv(s) && c in s.tasks && s.tasks[c].phase == Waiting
    ensures var s' := RunFrom(s, [SpawnerActs(c)], lower);
            s' == Act(s, c, s.tasks[c]) && Inv(s') && OthersWait(s, s', c)
  {
    hide RunFrom, Inv;
    RunOne(s, SpawnerActs(c), lower);
    StepKeepsInv(s, SpawnerActs(c), lower);
  }

  /** Writing back: the snapshot, with the call's status, becomes the tenant. */
  lemma WritesBack(s: State, c: nat, lower: Lowering)
    requires Inv(s) && c in s.tasks && s.tasks[c].phase == Acted
    ensures var s' := RunFrom(s, [Resume(c)], lower); var k := s.tasks[c];
            && s'.repo == Put(s.repo, Settled(k.kind, k.snapshot)) && s'.running == s.running
            && (k.kind.Onboard? ==> s'.events == s.events + [EventFor(k.kind.payload, Settled(k.kind, k.snapshot))])
            && Inv(s') && OthersWait(s, s', c) && (c in s'.tasks ==> s'.tasks[c].phase == Announced)
  {
    hide RunFrom, Put, Get, Inv;
    RunOne(s, Resume(c), lower);
    StepKeepsInv(s, Resume(c), lower);
    SnapshotKnown(s, c);
  }

  lemma SnapshotKnown(s: State, c: nat)
    requires Inv(s) && c in s.tasks
    ensures Get(s.repo, s.tasks[c].snapshot.id).Some?
  {
    hide Get, DistinctIds, DistinctSlugs;
  }

  /** Any call in flight can finish at once, and then the tenant is what its snapshot was. */
  lemma FinishCall(s: State, c: nat, lower: Lowering) returns (steps: seq<Step>)
    requires Inv(s) && c in s.tasks && InFlight(s.tasks[c])
    ensures Finishing(steps)
    ensures var s' := RunFrom(s, steps, lower); var k := s.tasks[c];
            && s'.repo == Put(s.repo, Settled(k.kind, k.snapshot)) && Inv(s') && OthersWait(s, s', c)
            && (k.kind.Onboard? ==> s'.events == s.events + [EventFor(k.kind.payload, Settled(k.kind, k.snapshot))])
  {
    hide RunFrom, Put, Inv;
    if s.tasks[c].phase == Acted {
      steps := [Resume(c)];
      WritesBack(s, c, lower);
    } else {
      steps := [SpawnerActs(c)] + [Resume(c)];
      var s1 := Act(s, c, s.tasks[c]);
      SpawnerActsFor(s, c, lower);
      WritesBack(s1, c, lower);
      RunConcat(s, [SpawnerActs(c)], [Resume(c)], lower);
    }
  }
}
