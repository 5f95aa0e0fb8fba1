/** Whole runs of the conversation protocol: pairs, sends, prompts, isolation. */
module ConversationRuns {
  import opened PyText
  import opened Slug
  import opened Tenancy
  import opened Hindsight
  import opened BuyerMemory
  import opened AgentLoop
  import opened Conversation
  import Provisioning
  import ProvisioningSafety
  import ProvisioningRuns
  import RoutableSlugs

  const SILENT := Conv(map[], [], 0, map[], {})

  function RunFrom(g: Setup, maxItems: int, s: Conv, steps: seq<Step>): Conv
    decreases |steps|
  {
    if steps == [] then s
    else RunFrom(g, maxItems, if Enabled(s, steps[0]) then Apply(g, maxItems, s, steps[0]) else s, steps[1..])
  }

  predicate ExclusiveRun(slugs: map<string, string>, g: Setup, maxItems: int, s: Conv, steps: seq<Step>)
    decreases |steps|
  {
    steps == [] ||
    if Enabled(s, steps[0])
    then Exclusive(slugs, s, steps[0]) && ExclusiveRun(slugs, g, maxItems, Apply(g, maxItems, s, steps[0]), steps[1..])
    else ExclusiveRun(slugs, g, maxItems, s, steps[1..])
  }

  lemma SilentIsOk(slugs: map<string, string>)
    ensures ConvInv(slugs, SILENT)
  {
  }

  lemma {:induction false} RunKeeps(slugs: map<string, string>, g: Setup, maxItems: int, s: Conv, steps: seq<Step>)
    requires Directory(slugs) && ConvInv(slugs, s) && ExclusiveRun(slugs, g, maxItems, s, steps)
    ensures ConvInv(slugs, RunFrom(g, maxItems, s, steps))
    decreases |steps|
  {
    hide ConvInv, Apply, Enabled, Exclusive, Directory;
    if steps != [] {
      if Enabled(s, steps[0]) {
        StepKeeps(slugs, g, maxItems, s, steps[0]);
        RunKeeps(slugs, g, maxItems, Apply(g, maxItems, s, steps[0]), steps[1..]);
      } else {
        RunKeeps(slugs, g, maxItems, s, steps[1..]);
      }
    }
  }

  /** In every run that handles each buyer's messages one after the other, and none after an unanswered one,
      however buyers and tenants interleave and whether the model answers or fails: the agent's texts in an idle
      buyer's conversation are exactly the texts sent to that buyer, in order, and the conversation is complete
      buyer/agent pairs, but for one last message whose send failed. */
  lemma ConversationsAreComplete(
    slugs: map<string, string>, g: Setup, maxItems: int, steps: seq<Step>, id: string, n: string)
    requires Directory(slugs) && ExclusiveRun(slugs, g, maxItems, SILENT, steps) && id in slugs
    requires !Busy(RunFrom(g, maxItems, SILENT, steps), BuyerId(slugs[id], n))
    ensures var s := RunFrom(g, maxItems, SILENT, steps);
            var b := BuyerId(slugs[id], n);
            var log := LogOf(s.logs, b);
            && AgentTexts(log) == BodiesTo(s.sent, id, n)
            && (b !in s.unanswered ==> Paired(log) && 2 * |BodiesTo(s.sent, id, n)| == |log|)
            && (b in s.unanswered ==>
                  log != [] && Paired(log[..|log| - 1]) && log[|log| - 1].role == Buyer)
  {
    SilentIsOk(slugs);
    RunKeeps(slugs, g, maxItems, SILENT, steps);
    hide RunFrom, ExclusiveRun;
    var s := RunFrom(g, maxItems, SILENT, steps);
    var b := BuyerId(slugs[id], n);
    assert LogOk(s, b) && SendsOk(s, id, n, b);
    assert forall c :: !Serves(s, c, b);
    if b !in s.unanswered { HalfAreAgents(LogOf(s.logs, b)); }
  }

  lemma {:induction false} HalfAreAgents(log: seq<Interaction>)
    requires Paired(log)
    ensures 2 * |AgentTexts(log)| == |log|
    decreases |log|
  {
    if log != [] {
      var a := log[..|log| - 1];
      var c := log[..|log| - 2];
      assert a[..|a| - 1] == c;
      HalfAreAgents(c);
    }
  }

  /** The stored history of an idle buyer starts with a buyer turn and holds complete pairs exactly when `maxItems`
      is even, or keeps nothing, or has not been exceeded. */
  lemma StoredHistoryPairedIff(log: seq<Interaction>, maxItems: int)
    requires Paired(log)
    ensures Paired(Last(log, maxItems)) <==> maxItems <= 0 || maxItems % 2 == 0 || |log| <= maxItems
  {
    if 0 < maxItems < |log| {
      var tail := Last(log, maxItems);
      assert forall i :: 0 <= i < |tail| ==> tail[i] == log[|log| - maxItems + i];
    }
  }

  /** Two messages of one buyer in flight together leave two buyer turns in a row. */
  lemma OverlapBreaksPairs(g: Setup, maxItems: int, t: Tenant, n: string, x: string, y: string)
    ensures var s := Apply(g, maxItems, Apply(g, maxItems, SILENT, Hear(0, t, n, x)), Hear(1, t, n, y));
            LogOf(s.logs, BuyerId(t.slug, n)) == [Interaction(x, Buyer), Interaction(y, Buyer)]
  {
  }

  /** A failed send does the same, even to messages that do not overlap: the unanswered message and the next one. */
  lemma FailedSendBreaksPairs(
    g: Setup, maxItems: int, t: Tenant, n: string, x: string, y: string, facts: seq<Fact>)
    ensures var steps := [Hear(0, t, n, x), Ask(0, facts), Drop(0), Hear(1, t, n, y)];
            LogOf(RunFrom(g, maxItems, SILENT, steps).logs, BuyerId(t.slug, n))
            == [Interaction(x, Buyer), Interaction(y, Buyer)]
  {
    hide RunFrom, TurnPrompt, BuyerId;
    var a, b, c, d := Hear(0, t, n, x), Ask(0, facts), Drop(0), Hear(1, t, n, y);
    var s1 := Apply(g, maxItems, SILENT, a);
    var s2 := Apply(g, maxItems, s1, b);
    var s3 := Apply(g, maxItems, s2, c);
    assert [a, b, c, d] == [a] + [b, c, d] && [b, c, d] == [b] + [c, d] && [c, d] == [c] + [d] && [d] == [d] + [];
    FirstStep(g, maxItems, SILENT, a, [b, c, d]);
    FirstStep(g, maxItems, s1, b, [c, d]);
    FirstStep(g, maxItems, s2, c, [d]);
    FirstStep(g, maxItems, s3, d, []);
    NoSteps(g, maxItems, Apply(g, maxItems, s3, d));
  }

  lemma FirstStep(g: Setup, maxItems: int, s: Conv, a: Step, rest: seq<Step>)
    ensures RunFrom(g, maxItems, s, [a] + rest)
            == RunFrom(g, maxItems, if Enabled(s, a) then Apply(g, maxItems, s, a) else s, rest)
  {
    hide Enabled, Apply;
    assert ([a] + rest)[1..] == rest;
  }

  lemma NoSteps(g: Setup, maxItems: int, s: Conv)
    ensures RunFrom(g, maxItems, s, []) == s
  {
  }

  // ----- The prompt ---------------------------------------------------------------------------------------

  function Smaller(a: int, b: int): int { if a < b then a else b }

  lemma HistoryIsRecent(g: Setup, logs: Logs, maxItems: int, b: string)
    ensures History(g, logs, maxItems, b) == Last(LogOf(logs, b), Smaller(g.historyTurns, maxItems))
  {
  }

  lemma LastEndsTheSame(log: seq<Interaction>, m: int)
    requires log != []
    ensures Last(log, m) != [] <==> m > 0
    ensures m > 0 ==> Last(log, m)[|Last(log, m)| - 1] == log[|log| - 1]
  {
  }

  lemma InFlightEndsInbound(slugs: map<string, string>, s: Conv, c: nat)
    requires ConvInv(slugs, s) && c in s.turns
    ensures var log := LogOf(s.logs, s.turns[c].Buyer());
            log != [] && log[|log| - 1] == Interaction(s.turns[c].text, Buyer)
  {
    hide LogOf, SendsOk;
    assert LogOk(s, s.turns[c].Buyer()) && Serves(s, c, s.turns[c].Buyer());
  }

  /** The prompt of a turn, on any logs and any store: the rendered template with the block of the cited facts, the last
      `min(history_turns, max_items)` turns of the buyer's full log under their speakers, and the inbound text. */
  lemma TurnPromptSays(g: Setup, logs: Logs, maxItems: int, facts: seq<Fact>, t: Tenant, b: string, message: string)
    ensures var recent := Last(LogOf(logs, b), Smaller(g.historyTurns, maxItems));
            var cited := Cited(g, facts, t, message);
            var p := TurnPrompt(g, logs, maxItems, facts, t, b, message);
            && |p| == |recent| + 2
            && p[0].role == System
            && p[0].content == (if cited == [] then g.soul(t) else g.soul(t) + "\n\n" + Joined(FactLines(cited), "\n"))
            && (forall i :: 0 <= i < |recent| ==>
                  && p[i + 1].content == recent[i].text
                  && p[i + 1].role == match recent[i].role case Agent => Assistant case Buyer => User)
            && p[|p| - 1].role == User && p[|p| - 1].content == message
  {
    hide Prompt, SystemText, LogOf, History, Recalled, Last, Cited, Joined, FactLines;
    HistoryIsRecent(g, logs, maxItems, b);
    PromptSays(g, t, History(g, logs, maxItems, b), Cited(g, facts, t, message), message);
  }

  /** When the turn of a message in flight asks the model, the prompt ends in the inbound text twice, exactly when it
      has any history. */
  lemma PromptReadsTheLog(slugs: map<string, string>, g: Setup, maxItems: int, s: Conv, c: nat, facts: seq<Fact>)
    requires ConvInv(slugs, s) && c in s.turns
    ensures var k := s.turns[c];
            var m := Smaller(g.historyTurns, maxItems);
            var p := TurnPrompt(g, s.logs, maxItems, facts, k.tenant, k.Buyer(), k.text);
            && |p| == |Last(LogOf(s.logs, k.Buyer()), m)| + 2
            && p[|p| - 1] == LLMMessage(User, k.text)
            && (p[|p| - 2] == p[|p| - 1] <==> m > 0)
  {
    hide ConvInv, LogOk, LogOf, Last, TurnPrompt, Joined, FactLines, Cited;
    var k := s.turns[c];
    var m := Smaller(g.historyTurns, maxItems);
    InFlightEndsInbound(slugs, s, c);
    TurnPromptSays(g, s.logs, maxItems, facts, k.tenant, k.Buyer(), k.text);
    LastEndsTheSame(LogOf(s.logs, k.Buyer()), m);
  }

  // ----- Tenants that can be routed to never share a buyer -------------------------------------------------

  /** The routable tenants of a repository, id to slug. */
  function Routable(r: Repo): map<string, string>
    requires DistinctIds(r)
  {
    map i | 0 <= i < |r| && r[i].phone.Some? :: r[i].id := r[i].slug
  }

  lemma SlugIsColonFree(s: string)
    requires IsSlug(s)
    ensures ColonFree(s)
  {
  }

  /** In every interleaving of provisioning calls whose phone writes go to tenants with colon-free slugs, the
      routable tenants form a directory: their slugs are distinct and colon-free, so different tenants, or
      different numbers of one tenant, never share a conversation. Phone ids need not be distinct for that. */
  lemma {:induction false} ProvisionedTenantsAreADirectory(steps: seq<Provisioning.Step>, lower: Lowering)
    requires RoutableSlugs.AllWriteTo(Provisioning.INITIAL, steps, lower, s => ColonFree(s))
    ensures var r := Provisioning.RunFrom(Provisioning.INITIAL, steps, lower).repo;
            DistinctIds(r) && Directory(Routable(r))
  {
    hide Provisioning.RunFrom, RoutableSlugs.AllWriteTo, IsSlug, ColonFree;
    ProvisioningRuns.InitialState();
    ProvisioningRuns.RunKeepsInv(Provisioning.INITIAL, steps, lower);
    forall s | IsSlug(s)
      ensures ColonFree(s)
    {
      SlugIsColonFree(s);
    }
    RoutableSlugs.RunKeepsRoutes(Provisioning.INITIAL, steps, lower, s => ColonFree(s));
    RoutableDirectory(Provisioning.RunFrom(Provisioning.INITIAL, steps, lower).repo);
  }

  lemma RoutableDirectory(r: Repo)
    requires DistinctIds(r) && DistinctSlugs(r) && RoutableSlugs.RoutedAre(r, s => ColonFree(s))
    ensures Directory(Routable(r))
  {
    hide ColonFree;
    var d := Routable(r);
    forall i | i in d
      ensures ColonFree(d[i])
    {
      var k :| 0 <= k < |r| && r[k].phone.Some? && r[k].id == i && d[i] == r[k].slug;
    }
  }

  // ----- When tenants share buyers, exactly ----------------------------------------------------------------

  /** No two routable tenants share a buyer id, whatever numbers write to them. */
  ghost predicate Isolated(r: Repo) {
    forall i, j, m, n :: 0 <= i < j < |r| && r[i].phone.Some? && r[j].phone.Some? ==>
      BuyerId(r[i].slug, m) != BuyerId(r[j].slug, n)
  }

  /** One slug, followed by a colon, begins the other. */
  predicate Nested(s: string, t: string) { s + ":" <= t || t + ":" <= s }

  /** Isolation is a matter of slugs. */
  lemma IsolatedIff(r: Repo)
    requires DistinctSlugs(r)
    ensures Isolated(r) <==>
            forall i, j :: 0 <= i < j < |r| && r[i].phone.Some? && r[j].phone.Some? ==> !Nested(r[i].slug, r[j].slug)
  {
    hide BuyerId;
    forall i, j | 0 <= i < j < |r| && r[i].phone.Some? && r[j].phone.Some?
      ensures Nested(r[i].slug, r[j].slug) <==> exists m, n :: BuyerId(r[i].slug, m) == BuyerId(r[j].slug, n)
    {
      BuyerIdsCollideIff(r[i].slug, r[j].slug);
    }
  }

  /** Storing a routable tenant, be it by a signup, a phone write or a write-back, keeps the routable tenants
      isolated if and only if no other routable tenant's slug is nested with its slug. */
  lemma PutKeepsIsolatedIff(r: Repo, t: Tenant)
    requires DistinctIds(r) && DistinctSlugs(r) && ProvisioningSafety.SlugFits(r, t) && t.phone.Some? && Isolated(r)
    ensures Isolated(Put(r, t)) <==>
            forall i :: 0 <= i < |r| && r[i].id != t.id && r[i].phone.Some? ==> !Nested(r[i].slug, t.slug)
  {
    hide Isolated, Nested;
    var k, r' := Find(r, t.id), Put(r, t);
    ProvisioningSafety.PutKeepsSlugs(r, t);
    IsolatedIff(r);
    IsolatedIff(r');
    PutAt(r, t);
    forall i, j
      ensures Nested(i, j) == Nested(j, i)
    {
      NestedBothWays(i, j);
    }
    if i :| 0 <= i < |r| && r[i].id != t.id && r[i].phone.Some? && Nested(r[i].slug, t.slug) {
      assert r'[i] == r[i] && r'[k] == t && i != k;
    }
  }

  lemma NestedBothWays(s: string, t: string)
    ensures Nested(s, t) == Nested(t, s)
  {
  }

  lemma PutAt(r: Repo, t: Tenant)
    requires DistinctIds(r)
    ensures var k, r' := Find(r, t.id), Put(r, t);
            && |r| <= |r'| <= |r| + 1 && k < |r'| && r'[k] == t && |r'| == (if k < |r| then |r| else |r| + 1)
            && forall i :: 0 <= i < |r'| && i != k ==> i < |r| && r'[i] == r[i] && r[i].id != t.id
  {
  }

  /** A phone write keeps the routable tenants isolated if and only if no other routable tenant's slug is nested
      with the slug of the tenant that it goes to. */
  lemma PhoneWriteKeepsIsolatedIff(r: Repo, id: string, phone: string)
    requires DistinctIds(r) && DistinctSlugs(r) && Isolated(r) && Get(r, id).Some?
    ensures Isolated(Put(r, Get(r, id).value.(phone := Some(phone)))) <==>
            forall i :: 0 <= i < |r| && r[i].id != id && r[i].phone.Some? ==> !Nested(r[i].slug, Get(r, id).value.slug)
  {
    hide Isolated, Nested, Find, Put;
    ProvisioningSafety.GetId(r, id);
    PutKeepsIsolatedIff(r, Get(r, id).value.(phone := Some(phone)));
  }

  /** A signup for a new phone keeps the routable tenants isolated if and only if no routable slug starts with the
      new slug and a colon; so an admin-chosen slug can spoil a later signup. */
  lemma SignupKeepsIsolatedIff(r: Repo, p: Provisioning.Payload, newId: string, lower: Lowering)
    requires DistinctIds(r) && DistinctSlugs(r) && Isolated(r) && Get(r, newId).None?
    ensures var t := Provisioning.Provisioned(r, p, newId, lower);
            Isolated(Put(r, t)) <==> forall i :: 0 <= i < |r| && r[i].phone.Some? ==> !(t.slug + ":" <= r[i].slug)
  {
    hide Isolated, Put, Get, IsSlug, Slugify, Provisioning.UniqueSlug;
    var t := Provisioning.Provisioned(r, p, newId, lower);
    NewId(r, newId);
    RoutableSlugs.ProvisionedIsSlug(r, p, newId, lower);
    SlugIsColonFree(t.slug);
    PutKeepsIsolatedIff(r, t);
    forall i | 0 <= i < |r|
      ensures Nested(r[i].slug, t.slug) <==> t.slug + ":" <= r[i].slug
    {
      PrefixHasColon(r[i].slug, t.slug);
    }
  }

  lemma NewId(r: Repo, id: string)
    requires Get(r, id).None?
    ensures forall i :: 0 <= i < |r| ==> r[i].id != id
  {
  }

  /** Colon-free slugs are enough. */
  lemma DirectoryIsIsolated(r: Repo)
    requires DistinctIds(r) && DistinctSlugs(r) && Directory(Routable(r))
    ensures Isolated(r)
  {
    hide Isolated, BuyerId, ColonFree, Nested, Routable, Directory;
    IsolatedIff(r);
    forall i, j | 0 <= i < j < |r| && r[i].phone.Some? && r[j].phone.Some?
      ensures !Nested(r[i].slug, r[j].slug)
    {
      RoutableIsColonFree(r, i);
      RoutableIsColonFree(r, j);
      ColonFreeIsNotNested(r[i].slug, r[j].slug);
    }
  }

  lemma RoutableIsColonFree(r: Repo, i: nat)
    requires DistinctIds(r) && Directory(Routable(r)) && i < |r| && r[i].phone.Some?
    ensures ColonFree(r[i].slug)
  {
    hide ColonFree;
    assert r[i].id in Routable(r) && Routable(r)[r[i].id] == r[i].slug;
  }

  lemma ColonFreeIsNotNested(s: string, t: string)
    requires ColonFree(s) && ColonFree(t)
    ensures !Nested(s, t)
  {
    PrefixHasColon(s, t);
    PrefixHasColon(t, s);
  }
}
