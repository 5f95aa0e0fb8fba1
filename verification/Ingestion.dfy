/** The ingestion worker: a queue of jobs drained through the preprocessor into the fact store. */
module Ingestion {
  import opened PyText
  import opened Hindsight

  datatype Path = Path(name: string, suffix: string)

  datatype Chunk = Chunk(text: string, metadata: map<string, string>)

  datatype Outcome<+T> = Done(value: T) | Raised(error: string)

  /** An extractor reads a file: it yields chunks or raises. */
  type Extractor = Path -> Outcome<seq<Chunk>>

  datatype Job = Job(tenantId: string, path: Path, sourceLabel: Option<string>)

  /** The extractor map and how suffixes are lower-cased. */
  datatype Config = Config(extractors: map<string, Extractor>, lower: Lowering)

  function Source(job: Job): string {
    if job.sourceLabel.Some? && job.sourceLabel.value != "" then job.sourceLabel.value else job.path.name
  }

  function ChunkFact(job: Job, c: Chunk): Fact { Fact(job.tenantId, Source(job), c.text, c.metadata) }

  function ChunkFacts(job: Job, cs: seq<Chunk>): seq<Fact> {
    if cs == [] then [] else ChunkFacts(job, cs[..|cs| - 1]) + [ChunkFact(job, cs[|cs| - 1])]
  }

  function Chunks(g: Config, job: Job): Outcome<seq<Chunk>> {
    var ext := Lower(job.path.suffix, g.lower);
    if ext in g.extractors then g.extractors[ext](job.path) else Raised("no extractor for " + ext)
  }

  /** The facts one job adds, or the exception it raises. */
  function Produced(g: Config, job: Job): Outcome<seq<Fact>> {
    match Chunks(g, job)
    case Raised(e) => Raised(e)
    case Done(cs) => Done(ChunkFacts(job, cs))
  }

  class Preprocessor {
    const config: Config
    const hindsight: InMemoryHindsight

    constructor (config: Config, hindsight: InMemoryHindsight)
      ensures this.config == config && this.hindsight == hindsight
    {
      this.config, this.hindsight := config, hindsight;
    }

    /** All chunks of the file become facts, in order; a raising job adds none. */
    method Process(job: Job) returns (r: Outcome<seq<Fact>>)
      modifies hindsight
      ensures r == Produced(config, job)
      ensures hindsight.facts == old(hindsight.facts) + if r.Done? then r.value else []
    {
      var extracted := Chunks(config, job);
      if extracted.Raised? {
        return Raised(extracted.error);
      }
      var chunks := extracted.value;
      var facts: seq<Fact> := [];
      for i := 0 to |chunks|
        invariant facts == ChunkFacts(job, chunks[..i])
        invariant hindsight.facts == old(hindsight.facts) + facts
      {
        assert chunks[..i + 1][..i] == chunks[..i];
        var fact := hindsight.AddFact(ChunkFact(job, chunks[i]));
        facts := facts + [fact];
      }
      assert chunks[..|chunks|] == chunks;
      r := Done(facts);
    }
  }

  class IngestionQueue {
    var jobs: seq<Job>

    /** Jobs taken or waiting for which `task_done` has not been called. */
    var unfinished: nat

    ghost predicate Valid() reads this { unfinished == |jobs| }

    constructor ()
      ensures Valid() && jobs == []
    {
      jobs, unfinished := [], 0;
    }

    method Put(job: Job)
      modifies this
      ensures jobs == old(jobs) + [job] && unfinished == old(unfinished) + 1
    {
      jobs, unfinished := jobs + [job], unfinished + 1;
    }

    method Take() returns (job: Job)
      requires jobs != []
      modifies this
      ensures old(jobs) == [job] + jobs && unfinished == old(unfinished)
    {
      job, jobs := jobs[0], jobs[1..];
    }

    method TaskDone()
      requires unfinished > 0
      modifies this
      ensures unfinished == old(unfinished) - 1 && jobs == old(jobs)
    {
      unfinished := unfinished - 1;
    }
  }

  /** Whether the stop event is set when the `i`-th job is about to be taken. */
  type StopSignal = nat -> bool

  /** Facts added, jobs left, and the returned count or the exception that ended the drain. */
  datatype Drained = Drained(facts: seq<Fact>, rest: seq<Job>, result: Outcome<nat>)

  function DrainFrom(g: Config, jobs: seq<Job>, i: nat, stop: StopSignal): Drained {
    if jobs == [] || stop(i) then Drained([], jobs, Done(i)) else
    match Produced(g, jobs[0])
    case Raised(e) => Drained([], jobs[1..], Raised(e))
    case Done(fs) =>
      var d := DrainFrom(g, jobs[1..], i + 1, stop);
      d.(facts := fs + d.facts)
  }

  lemma DrainStep(g: Config, jobs: seq<Job>, i: nat, stop: StopSignal)
    requires jobs != [] && !stop(i)
    ensures match Produced(g, jobs[0])
            case Raised(e) => DrainFrom(g, jobs, i, stop) == Drained([], jobs[1..], Raised(e))
            case Done(fs) =>
              var d := DrainFrom(g, jobs[1..], i + 1, stop); DrainFrom(g, jobs, i, stop) == d.(facts := fs + d.facts)
  {
  }

  /** Drain the queue until it is empty, the stop event is set, or a job raises. */
  method Drain(p: Preprocessor, q: IngestionQueue, stop: StopSignal) returns (r: Outcome<nat>)
    requires q.Valid()
    modifies p.hindsight, q
    ensures q.Valid()
    ensures var d := DrainFrom(p.config, old(q.jobs), 0, stop);
            p.hindsight.facts == old(p.hindsight.facts) + d.facts && q.jobs == d.rest && r == d.result
  {
    hide Produced;
    var processed := 0;
    ghost var added: seq<Fact> := [];
    ghost var whole := DrainFrom(p.config, q.jobs, 0, stop);
    while q.jobs != []
      invariant q.Valid()
      invariant p.hindsight.facts == old(p.hindsight.facts) + added
      invariant var d := DrainFrom(p.config, q.jobs, processed, stop);
                whole.facts == added + d.facts && whole.rest == d.rest && whole.result == d.result
      decreases |q.jobs|
    {
      if stop(processed) {
        break;
      }
      ghost var waiting := q.jobs;
      DrainStep(p.config, waiting, processed, stop);
      var job := q.Take();
      assert waiting[0] == job && waiting[1..] == q.jobs;
      var outcome := p.Process(job);
      q.TaskDone();
      if outcome.Raised? {
        return Raised(outcome.error);
      }
      added := added + outcome.value;
      processed := processed + 1;
    }
    r := Done(processed);
  }

  // ----- What a drain amounts to -------------------------------------------------------------------------

  /** The facts a job contributes; none when it raises. */
  function FactsOf(g: Config, job: Job): seq<Fact> {
    match Produced(g, job) case Done(fs) => fs case Raised(_) => []
  }

  /** The facts of a list of jobs, in queue order. */
  function AllFacts(g: Config, jobs: seq<Job>): seq<Fact> {
    if jobs == [] then [] else FactsOf(g, jobs[0]) + AllFacts(g, jobs[1..])
  }

  predicate Succeeds(g: Config, job: Job) { Produced(g, job).Done? }

  /** A drain handles a prefix of the queue: it stops for the first signal, the first raising job or the end,
      whichever comes first. Exactly the jobs before that point contribute, in order; a raising job is consumed and
      adds nothing. */
  lemma {:induction false} DrainHandlesAPrefix(g: Config, jobs: seq<Job>, i: nat, stop: StopSignal) returns (n: nat)
    ensures n <= |jobs|
    ensures forall k :: 0 <= k < n ==> Succeeds(g, jobs[k])
    ensures forall k :: i <= k < i + n ==> !stop(k)
    ensures n < |jobs| ==> stop(i + n) || !Succeeds(g, jobs[n])
    ensures var d := DrainFrom(g, jobs, i, stop);
            && d.facts == AllFacts(g, jobs[..n])
            && (if n == |jobs| || stop(i + n) then d.result == Done(i + n) && d.rest == jobs[n..]
                else d.result == Raised(Produced(g, jobs[n]).error) && d.rest == jobs[n + 1..])
  {
    hide Produced;
    if jobs == [] || stop(i) || !Succeeds(g, jobs[0]) {
      n := 0;
    } else {
      DrainStep(g, jobs, i, stop);
      hide DrainFrom;
      n := DrainHandlesAPrefix(g, jobs[1..], i + 1, stop);
      n := n + 1;
      assert jobs[..n][1..] == jobs[1..][..n - 1];
      assert forall k :: 0 < k < n ==> jobs[k] == jobs[1..][k - 1];
    }
  }

  /** The fact tells the job's tenant, its label or else its file's name, and the chunk's text and metadata. */
  predicate Tells(f: Fact, job: Job, c: Chunk) {
    && f.tenantId == job.tenantId && f.content == c.text && f.metadata == c.metadata
    && (job.sourceLabel.Some? && job.sourceLabel.value != "" ==> f.source == job.sourceLabel.value)
    && (job.sourceLabel.None? || job.sourceLabel.value == "" ==> f.source == job.path.name)
  }

  lemma {:induction false} FactsCarryTheTenant(job: Job, cs: seq<Chunk>)
    ensures |ChunkFacts(job, cs)| == |cs|
    ensures forall k :: 0 <= k < |cs| ==> Tells(ChunkFacts(job, cs)[k], job, cs[k])
  {
    if cs != [] { FactsCarryTheTenant(job, cs[..|cs| - 1]); }
  }

  /** What one job amounts to: an unknown suffix, in any spelling that lower-cases to it, raises; so does a failing
      extractor, with its error; and otherwise there is one fact for every chunk, in order. */
  lemma JobFactsAre(g: Config, job: Job)
    ensures var ext := Lower(job.path.suffix, g.lower);
            var r := Produced(g, job);
            if ext !in g.extractors then r.Raised?
            else match g.extractors[ext](job.path)
              case Raised(e) => r == Raised(e)
              case Done(cs) =>
                r.Done? && |r.value| == |cs| && forall k :: 0 <= k < |cs| ==> Tells(r.value[k], job, cs[k])
  {
    hide Lower, Tells, ChunkFacts;
    var ext := Lower(job.path.suffix, g.lower);
    if ext in g.extractors && g.extractors[ext](job.path).Done? {
      FactsCarryTheTenant(job, g.extractors[ext](job.path).value);
    }
  }

  /** The fact tells one of the chunks that the job's extractor finds in its file. */
  ghost predicate ComesFrom(g: Config, job: Job, f: Fact) {
    var ext := Lower(job.path.suffix, g.lower);
    && ext in g.extractors && g.extractors[ext](job.path).Done?
    && exists k :: 0 <= k < |g.extractors[ext](job.path).value| && Tells(f, job, g.extractors[ext](job.path).value[k])
  }

  lemma FactsOfComeFrom(g: Config, job: Job, f: Fact)
    ensures f in FactsOf(g, job) <==> ComesFrom(g, job, f)
  {
    hide Lower, Produced;
    JobFactsAre(g, job);
    var ext := Lower(job.path.suffix, g.lower);
    if ComesFrom(g, job, f) {
      var cs := g.extractors[ext](job.path).value;
      var k :| 0 <= k < |cs| && Tells(f, job, cs[k]);
      assert Tells(FactsOf(g, job)[k], job, cs[k]);
      SameFact(f, FactsOf(g, job)[k], job, cs[k]);
    }
  }

  lemma SameFact(f: Fact, h: Fact, job: Job, c: Chunk)
    requires Tells(f, job, c) && Tells(h, job, c)
    ensures f == h
  {
  }

  lemma {:induction false} AllFactsComeFrom(g: Config, jobs: seq<Job>, f: Fact)
    ensures f in AllFacts(g, jobs) <==> exists k :: 0 <= k < |jobs| && ComesFrom(g, jobs[k], f)
  {
    hide FactsOf, ComesFrom;
    if jobs != [] {
      FactsOfComeFrom(g, jobs[0], f);
      AllFactsComeFrom(g, jobs[1..], f);
      assert forall k :: 0 < k < |jobs| ==> jobs[k] == jobs[1..][k - 1];
      assert forall k :: 0 <= k < |jobs[1..]| ==> jobs[1..][k] == jobs[k + 1];
    }
  }

  /** A drain stores a fact if and only if the extractor of some job that it handled finds a chunk which the fact
      tells. */
  lemma DrainedFactsTell(g: Config, jobs: seq<Job>, i: nat, stop: StopSignal, f: Fact)
    ensures f in DrainFrom(g, jobs, i, stop).facts <==>
            exists k :: 0 <= k < Handled(g, jobs, i, stop) && ComesFrom(g, jobs[k], f)
  {
    hide DrainFrom, Handled, ComesFrom, AllFacts;
    DrainIsHandled(g, jobs, i, stop);
    AllFactsComeFrom(g, jobs[..Handled(g, jobs, i, stop)], f);
  }

  function JobsOf(jobs: seq<Job>, t: string): seq<Job> {
    if jobs == [] then [] else (if jobs[0].tenantId == t then [jobs[0]] else []) + JobsOf(jobs[1..], t)
  }

  lemma {:induction false} ScopeAll(fs: seq<Fact>, t: string, mine: bool)
    requires forall f :: f in fs ==> (f.tenantId == t <==> mine)
    ensures Scope(fs, Some(t)) == if mine then fs else []
  {
    if fs != [] {
      assert fs[0] in fs;
      assert forall f :: f in fs[1..] ==> f in fs;
      ScopeAll(fs[1..], t, mine);
      assert fs == [fs[0]] + fs[1..];
    }
  }

  lemma JobScope(g: Config, job: Job, t: string)
    ensures Scope(FactsOf(g, job), Some(t)) == if job.tenantId == t then FactsOf(g, job) else []
  {
    if Succeeds(g, job) { FactsCarryTheTenant(job, Chunks(g, job).value); }
    ScopeAll(FactsOf(g, job), t, job.tenantId == t);
  }

  lemma {:induction false} FactsOfTenant(g: Config, jobs: seq<Job>, t: string)
    ensures Scope(AllFacts(g, jobs), Some(t)) == AllFacts(g, JobsOf(jobs, t))
  {
    hide FactsOf;
    if jobs != [] {
      ScopeConcat(FactsOf(g, jobs[0]), AllFacts(g, jobs[1..]), Some(t));
      JobScope(g, jobs[0], t);
      FactsOfTenant(g, jobs[1..], t);
      if jobs[0].tenantId == t {
        assert JobsOf(jobs, t)[1..] == JobsOf(jobs[1..], t);
      } else {
        assert JobsOf(jobs, t) == JobsOf(jobs[1..], t);
      }
    }
  }

  /** How many jobs a drain handles before it ends. */
  function Handled(g: Config, jobs: seq<Job>, i: nat, stop: StopSignal): (n: nat)
    ensures n <= |jobs|
  {
    if jobs == [] || stop(i) || !Succeeds(g, jobs[0]) then 0 else 1 + Handled(g, jobs[1..], i + 1, stop)
  }

  lemma {:induction false} DrainIsHandled(g: Config, jobs: seq<Job>, i: nat, stop: StopSignal)
    ensures DrainFrom(g, jobs, i, stop).facts == AllFacts(g, jobs[..Handled(g, jobs, i, stop)])
  {
    hide Produced, FactsOf;
    var n := Handled(g, jobs, i, stop);
    if jobs != [] && !stop(i) {
      DrainStep(g, jobs, i, stop);
      OneJob(g, jobs[0]);
      if Succeeds(g, jobs[0]) {
        DrainIsHandled(g, jobs[1..], i + 1, stop);
        assert jobs[..n][1..] == jobs[1..][..n - 1];
      }
    }
  }

  lemma OneJob(g: Config, job: Job)
    ensures Produced(g, job).Done? ==> FactsOf(g, job) == Produced(g, job).value
  {
  }

  /** Without a stop signal a drain handles everything exactly up to the first job that raises. */
  lemma {:induction false} HandledIsFirstRaising(g: Config, jobs: seq<Job>, i: nat)
    ensures var n := Handled(g, jobs, i, _ => false);
            (forall k :: 0 <= k < n ==> Succeeds(g, jobs[k])) && (n < |jobs| ==> !Succeeds(g, jobs[n]))
  {
    hide Succeeds;
    if jobs != [] && Succeeds(g, jobs[0]) {
      HandledIsFirstRaising(g, jobs[1..], i + 1);
      assert forall k :: 0 < k < |jobs| ==> jobs[k] == jobs[1..][k - 1];
    }
  }

  lemma {:induction false} JobsOfPrefix(jobs: seq<Job>, n: nat, t: string)
    requires n <= |jobs|
    ensures |JobsOf(jobs[..n], t)| <= |JobsOf(jobs, t)|
    ensures JobsOf(jobs[..n], t) == JobsOf(jobs, t)[..|JobsOf(jobs[..n], t)|]
  {
    if n > 0 {
      assert jobs[..n][1..] == jobs[1..][..n - 1];
      JobsOfPrefix(jobs[1..], n - 1, t);
    }
  }

  lemma {:induction false} AllFactsConcat(g: Config, a: seq<Job>, b: seq<Job>)
    ensures AllFacts(g, a + b) == AllFacts(g, a) + AllFacts(g, b)
  {
    hide FactsOf;
    if a == [] {
      assert a + b == b;
    } else {
      assert (a + b)[1..] == a[1..] + b;
      AllFactsConcat(g, a[1..], b);
    }
  }

  lemma {:induction false} NoFactsIff(g: Config, jobs: seq<Job>)
    ensures AllFacts(g, jobs) == [] <==> forall k :: 0 <= k < |jobs| ==> FactsOf(g, jobs[k]) == []
  {
    hide FactsOf;
    if jobs != [] {
      NoFactsIff(g, jobs[1..]);
      assert forall k :: 0 < k < |jobs| ==> jobs[k] == jobs[1..][k - 1];
      assert forall k :: 0 <= k < |jobs[1..]| ==> jobs[1..][k] == jobs[k + 1];
    }
  }

  /** The tenant's share of the jobs before two points is the same exactly when its jobs between them yield nothing. */
  lemma SharesAgreeIff(g: Config, mine: seq<Job>, j: nat, k: nat)
    requires j <= k <= |mine|
    ensures AllFacts(g, mine[..j]) == AllFacts(g, mine[..k]) <==> forall x :: j <= x < k ==> FactsOf(g, mine[x]) == []
  {
    hide FactsOf, AllFacts;
    assert mine[..k] == mine[..j] + mine[j..k];
    AllFactsConcat(g, mine[..j], mine[j..k]);
    NoFactsIff(g, mine[j..k]);
    assert forall x :: j <= x < k ==> mine[x] == mine[j..k][x - j];
    assert forall x :: 0 <= x < k - j ==> mine[j..k][x] == mine[j + x];
  }

  /** What a tenant gets from a mixed drain, and from one of its own jobs alone, each up to where that drain ends. */
  lemma DrainShares(g: Config, jobs: seq<Job>, t: string, stop: StopSignal, alone: StopSignal)
    ensures var mine := JobsOf(jobs, t);
            && Scope(DrainFrom(g, jobs, 0, stop).facts, Some(t)) ==
               AllFacts(g, JobsOf(jobs[..Handled(g, jobs, 0, stop)], t))
            && Scope(DrainFrom(g, mine, 0, alone).facts, Some(t)) == DrainFrom(g, mine, 0, alone).facts
            && DrainFrom(g, mine, 0, alone).facts == AllFacts(g, mine[..Handled(g, mine, 0, alone)])
  {
    hide DrainFrom, Handled, AllFacts, Scope, JobsOf;
    var mine := JobsOf(jobs, t);
    var m := Handled(g, mine, 0, alone);
    DrainIsHandled(g, jobs, 0, stop);
    FactsOfTenant(g, jobs[..Handled(g, jobs, 0, stop)], t);
    DrainIsHandled(g, mine, 0, alone);
    FactsOfTenant(g, mine[..m], t);
    OwnPrefix(jobs, m, t);
  }

  /** A tenant's own jobs are its own. */
  lemma OwnPrefix(jobs: seq<Job>, m: nat, t: string)
    requires m <= |JobsOf(jobs, t)|
    ensures JobsOf(JobsOf(jobs, t)[..m], t) == JobsOf(jobs, t)[..m]
  {
    AllOfTenant(jobs, t);
    OfTenantIsAll(JobsOf(jobs, t)[..m], t);
  }

  lemma {:induction false} AllOfTenant(jobs: seq<Job>, t: string)
    ensures forall j :: j in JobsOf(jobs, t) ==> j.tenantId == t
  {
    if jobs != [] { AllOfTenant(jobs[1..], t); }
  }

  lemma {:induction false} OfTenantIsAll(jobs: seq<Job>, t: string)
    requires forall j :: j in jobs ==> j.tenantId == t
    ensures JobsOf(jobs, t) == jobs
  {
    if jobs != [] {
      assert jobs[0] in jobs && forall j :: j in jobs[1..] ==> j in jobs;
      OfTenantIsAll(jobs[1..], t);
      assert jobs == [jobs[0]] + jobs[1..];
    }
  }

  lemma SamePrefix<T>(p: seq<T>, x: seq<T>, y: seq<T>)
    ensures p + x == p + y <==> x == y
  {
    if p + x == p + y {
      assert (p + x)[|p|..] == x && (p + y)[|p|..] == y;
    }
  }

  /** Position, among the tenant's own jobs, of the first one that the mixed drain did not handle. */
  function Reached(g: Config, jobs: seq<Job>, t: string, stop: StopSignal): nat {
    |JobsOf(jobs[..Handled(g, jobs, 0, stop)], t)|
  }

  /** Exactly when tenants drain independently: after draining a mixed queue into any store, `all_for` answers for
      a tenant what it would answer had only that tenant's jobs been queued, if and only if the tenant's jobs
      between the points where the two drains end yield no facts. The signals may stop either drain at any time. */
  lemma TenantsDrainIndependentlyIff(
    g: Config, store: seq<Fact>, jobs: seq<Job>, t: string, stop: StopSignal, alone: StopSignal)
    ensures var mine := JobsOf(jobs, t);
            var j, k := Reached(g, jobs, t, stop), Handled(g, mine, 0, alone);
            && j <= |mine|
            && (Scope(store + DrainFrom(g, jobs, 0, stop).facts, Some(t)) ==
                Scope(store + DrainFrom(g, mine, 0, alone).facts, Some(t))
                <==> forall x :: j <= x < k || k <= x < j ==> FactsOf(g, mine[x]) == [])
  {
    hide DrainFrom, Handled, AllFacts, Scope, JobsOf, FactsOf;
    var mine := JobsOf(jobs, t);
    var j, k := Reached(g, jobs, t, stop), Handled(g, mine, 0, alone);
    JobsOfPrefix(jobs, Handled(g, jobs, 0, stop), t);
    DrainShares(g, jobs, t, stop, alone);
    ScopeConcat(store, DrainFrom(g, jobs, 0, stop).facts, Some(t));
    ScopeConcat(store, DrainFrom(g, mine, 0, alone).facts, Some(t));
    SamePrefix(Scope(store, Some(t)), AllFacts(g, mine[..j]), AllFacts(g, mine[..k]));
    if j <= k { SharesAgreeIff(g, mine, j, k); } else { SharesAgreeIff(g, mine, k, j); }
  }

  /** ... and then every query of that tenant answers the same as well. */
  lemma AnswersAfterDrain(
    g: Config, store: seq<Fact>, jobs: seq<Job>, t: string, stop: StopSignal, alone: StopSignal,
    text: string, topK: int, lower: Lowering)
    requires var mine := JobsOf(jobs, t);
             var j, k := Reached(g, jobs, t, stop), Handled(g, mine, 0, alone);
             forall x :: (j <= x < k || k <= x < j) && x < |mine| ==> FactsOf(g, mine[x]) == []
    ensures Answer(store + DrainFrom(g, jobs, 0, stop).facts, text, Some(t), topK, lower)
            == Answer(store + DrainFrom(g, JobsOf(jobs, t), 0, alone).facts, text, Some(t), topK, lower)
  {
    hide DrainFrom, Handled, Reached, Scope, JobsOf, FactsOf, Answer;
    TenantsDrainIndependentlyIff(g, store, jobs, t, stop, alone);
    TenantsDoNotInterfere(store + DrainFrom(g, jobs, 0, stop).facts,
                          store + DrainFrom(g, JobsOf(jobs, t), 0, alone).facts,
                          text, t, topK, lower);
  }

  /** Without stop signals a tenant is never ahead of its own drain: another tenant's raising job can only cost it
      facts. */
  lemma OthersOnlyDelay(g: Config, jobs: seq<Job>, t: string)
    ensures Reached(g, jobs, t, _ => false) <= Handled(g, JobsOf(jobs, t), 0, _ => false)
    ensures Scope(DrainFrom(g, jobs, 0, _ => false).facts, Some(t))
            <= DrainFrom(g, JobsOf(jobs, t), 0, _ => false).facts
  {
    hide DrainFrom, Handled, AllFacts, Scope, JobsOf, FactsOf, Succeeds;
    var never: StopSignal := _ => false;
    var mine := JobsOf(jobs, t);
    var n, m := Handled(g, jobs, 0, never), Handled(g, mine, 0, never);
    var j := |JobsOf(jobs[..n], t)|;
    HandledIsFirstRaising(g, jobs, 0);
    HandledIsFirstRaising(g, mine, 0);
    JobsOfPrefix(jobs, n, t);
    MineSucceed(g, jobs[..n], t);
    assert forall x :: 0 <= x < j ==> Succeeds(g, JobsOf(jobs[..n], t)[x]) && mine[x] == JobsOf(jobs[..n], t)[x];
    assert j <= m;
    DrainShares(g, jobs, t, never, never);
    assert mine[..m] == mine[..j] + mine[j..m];
    AllFactsConcat(g, mine[..j], mine[j..m]);
  }

  /** Drains are not independent in general: one tenant's raising job keeps the next tenant's job waiting. */
  lemma RaisingJobStarvesOthers(g: Config, bad: Job, good: Job)
    requires !Succeeds(g, bad) && Succeeds(g, good) && bad.tenantId != good.tenantId
    ensures var d := DrainFrom(g, [bad, good], 0, _ => false);
            d.rest == [good] && Scope(d.facts, Some(good.tenantId)) == []
    ensures DrainFrom(g, JobsOf([bad, good], good.tenantId), 0, _ => false).facts == FactsOf(g, good)
  {
    var never: StopSignal := _ => false;
    assert [bad, good][1..] == [good] && [good][1..] == [];
    assert JobsOf([good], good.tenantId) == [good];
    assert JobsOf([bad, good], good.tenantId) == [good];
    DrainStep(g, [bad, good], 0, never);
    DrainStep(g, [good], 0, never);
  }

  lemma {:induction false} MineSucceed(g: Config, jobs: seq<Job>, t: string)
    requires forall k :: 0 <= k < |jobs| ==> Succeeds(g, jobs[k])
    ensures forall k :: 0 <= k < |JobsOf(jobs, t)| ==> Succeeds(g, JobsOf(jobs, t)[k])
  {
    hide Succeeds;
    if jobs != [] {
      assert forall k :: 0 <= k < |jobs[1..]| ==> jobs[1..][k] == jobs[k + 1];
      MineSucceed(g, jobs[1..], t);
    }
  }
}
