/** Where sent bodies come from, over all interleavings: every one is the model's answer, or the apology for its
    failure, to a prompt that was read off the log when it was asked. */
module ConversationReplies {
  import opened Hindsight
  import opened BuyerMemory
  import opened AgentLoop
  import opened Conversation
  import opened ConversationRuns

  lemma {:induction false} RunConcat(g: Setup, maxItems: int, s: Conv, a: seq<Step>, b: seq<Step>)
    ensures RunFrom(g, maxItems, s, a + b) == RunFrom(g, maxItems, RunFrom(g, maxItems, s, a), b)
    decreases |a|
  {
    hide Enabled, Apply;
    if a == [] {
      assert a + b == b;
    } else {
      assert (a + b)[1..] == a[1..] + b;
      RunConcat(g, maxItems, if Enabled(s, a[0]) then Apply(g, maxItems, s, a[0]) else s, a[1..], b);
    }
  }

  /** One more step of a run. */
  lemma OneMore(g: Setup, maxItems: int, steps: seq<Step>, n: nat)
    requires n < |steps|
    ensures var before := RunFrom(g, maxItems, SILENT, steps[..n]);
            RunFrom(g, maxItems, SILENT, steps[..n + 1]) ==
            if Enabled(before, steps[n]) then Apply(g, maxItems, before, steps[n]) else before
  {
    hide RunFrom, Enabled, Apply;
    var before := RunFrom(g, maxItems, SILENT, steps[..n]);
    assert steps[..n + 1] == steps[..n] + [steps[n]] && [steps[n]] == [steps[n]] + [];
    RunConcat(g, maxItems, SILENT, steps[..n], [steps[n]]);
    FirstStep(g, maxItems, before, steps[n], []);
    NoSteps(g, maxItems, if Enabled(before, steps[n]) then Apply(g, maxItems, before, steps[n]) else before);
  }

  /** The `j`-th step asks the model about the turn, with the facts that it names and the logs of that moment. */
  ghost predicate AskedAt(
    g: Setup, maxItems: int, steps: seq<Step>, j: nat, c: nat, k: Turn, prompt: seq<LLMMessage>)
  {
    && j < |steps| && steps[j].Ask? && steps[j].call == c
    && var before := RunFrom(g, maxItems, SILENT, steps[..j]);
       && c in before.turns && before.turns[c] == Turn(k.tenant, k.from, k.text, Heard)
       && prompt == TurnPrompt(
            g, before.logs, maxItems, steps[j].facts, k.tenant, BuyerId(k.tenant.slug, k.from), k.text)
  }

  /** Every question in flight was asked at some earlier step. */
  ghost predicate AllAsked(g: Setup, maxItems: int, steps: seq<Step>, n: nat, s: Conv) {
    forall c :: c in s.turns && s.turns[c].phase.Asked? ==>
      exists j :: 0 <= j < n && AskedAt(g, maxItems, steps, j, c, s.turns[c], s.turns[c].phase.prompt)
  }

  /** The `k`-th step is the answer that sends `o`, and the body is what the model said to the prompt that the turn's
      own `Ask` had read off the log. */
  ghost predicate SentAt(g: Setup, maxItems: int, steps: seq<Step>, k: nat, i: nat, o: Outbound) {
    && k < |steps| && steps[k].Answer?
    && var before := RunFrom(g, maxItems, SILENT, steps[..k]);
       && steps[k].call in before.turns && |before.sent| == i
       && var turn := before.turns[steps[k].call];
          && turn.phase.Asked? && o.tenantId == turn.tenant.id && o.to == turn.from
          && (exists j :: 0 <= j < k && AskedAt(g, maxItems, steps, j, steps[k].call, turn, turn.phase.prompt))
          && Conveys(g.llm(before.calls, turn.phase.prompt, turn.tenant.model), o.body)
  }

  ghost predicate SentBefore(g: Setup, maxItems: int, steps: seq<Step>, n: nat, i: nat, o: Outbound) {
    exists k :: 0 <= k < n && SentAt(g, maxItems, steps, k, i, o)
  }

  ghost predicate AllSent(g: Setup, maxItems: int, steps: seq<Step>, n: nat, s: Conv) {
    forall i :: 0 <= i < |s.sent| ==> SentBefore(g, maxItems, steps, n, i, s.sent[i])
  }

  lemma StepAsked(g: Setup, maxItems: int, steps: seq<Step>, n: nat, s: Conv)
    requires n < |steps| && s == RunFrom(g, maxItems, SILENT, steps[..n]) && AllAsked(g, maxItems, steps, n, s)
    requires Enabled(s, steps[n])
    ensures AllAsked(g, maxItems, steps, n + 1, Apply(g, maxItems, s, steps[n]))
  {
    hide RunFrom, TurnPrompt, BuyerId, Logged, ReplyText, AskedAt;
    var s' := Apply(g, maxItems, s, steps[n]);
    forall c | c in s'.turns && s'.turns[c].phase.Asked?
      ensures exists j :: 0 <= j < n + 1 && AskedAt(g, maxItems, steps, j, c, s'.turns[c], s'.turns[c].phase.prompt)
    {
      if steps[n].Ask? && steps[n].call == c {
        AskedHere(g, maxItems, steps, n, s);
      } else {
        assert c in s.turns && s'.turns[c] == s.turns[c];
      }
    }
  }

  lemma AskedHere(g: Setup, maxItems: int, steps: seq<Step>, n: nat, s: Conv)
    requires n < |steps| && s == RunFrom(g, maxItems, SILENT, steps[..n]) && steps[n].Ask? && Enabled(s, steps[n])
    ensures var c, s' := steps[n].call, Apply(g, maxItems, s, steps[n]);
            AskedAt(g, maxItems, steps, n, c, s'.turns[c], s'.turns[c].phase.prompt)
  {
    hide RunFrom, TurnPrompt;
  }

  lemma StepSent(g: Setup, maxItems: int, steps: seq<Step>, n: nat, s: Conv)
    requires n < |steps| && s == RunFrom(g, maxItems, SILENT, steps[..n]) && AllAsked(g, maxItems, steps, n, s)
    requires Enabled(s, steps[n]) && AllSent(g, maxItems, steps, n, s)
    ensures AllSent(g, maxItems, steps, n + 1, Apply(g, maxItems, s, steps[n]))
  {
    hide RunFrom, TurnPrompt, BuyerId, Logged, ReplyText, SentAt, AllAsked;
    var s' := Apply(g, maxItems, s, steps[n]);
    forall i: nat | i < |s'.sent|
      ensures SentBefore(g, maxItems, steps, n + 1, i, s'.sent[i])
    {
      if i < |s.sent| {
        assert s'.sent[i] == s.sent[i] && SentBefore(g, maxItems, steps, n, i, s.sent[i]);
      } else {
        SentHere(g, maxItems, steps, n, s);
      }
    }
  }

  lemma SentHere(g: Setup, maxItems: int, steps: seq<Step>, n: nat, s: Conv)
    requires n < |steps| && s == RunFrom(g, maxItems, SILENT, steps[..n]) && AllAsked(g, maxItems, steps, n, s)
    requires steps[n].Answer? && Enabled(s, steps[n])
    ensures var sent := Apply(g, maxItems, s, steps[n]).sent;
            |sent| == |s.sent| + 1 && SentAt(g, maxItems, steps, n, |s.sent|, sent[|s.sent|])
  {
    hide RunFrom, TurnPrompt, AskedAt, ReplyText, Conveys;
    var k := s.turns[steps[n].call];
    var outcome := g.llm(s.calls, k.phase.prompt, k.tenant.model);
    ReplyConveys(outcome);
  }

  lemma {:induction false} RunSent(g: Setup, maxItems: int, steps: seq<Step>, n: nat)
    requires n <= |steps|
    ensures var s := RunFrom(g, maxItems, SILENT, steps[..n]);
            AllAsked(g, maxItems, steps, n, s) && AllSent(g, maxItems, steps, n, s)
    decreases n
  {
    hide RunFrom, Apply, Enabled, AllAsked, AllSent;
    if n == 0 {
      NothingSent(g, maxItems, steps);
    } else {
      RunSent(g, maxItems, steps, n - 1);
      OneMore(g, maxItems, steps, n - 1);
      var s := RunFrom(g, maxItems, SILENT, steps[..n - 1]);
      if Enabled(s, steps[n - 1]) {
        StepAsked(g, maxItems, steps, n - 1, s);
        StepSent(g, maxItems, steps, n - 1, s);
      } else {
        StillSent(g, maxItems, steps, n - 1, s);
      }
    }
  }

  lemma NothingSent(g: Setup, maxItems: int, steps: seq<Step>)
    ensures var s := RunFrom(g, maxItems, SILENT, steps[..0]);
            AllAsked(g, maxItems, steps, 0, s) && AllSent(g, maxItems, steps, 0, s)
  {
  }

  lemma StillSent(g: Setup, maxItems: int, steps: seq<Step>, n: nat, s: Conv)
    requires AllAsked(g, maxItems, steps, n, s) && AllSent(g, maxItems, steps, n, s)
    ensures AllAsked(g, maxItems, steps, n + 1, s) && AllSent(g, maxItems, steps, n + 1, s)
  {
    hide AskedAt, SentAt;
    forall i: nat | i < |s.sent|
      ensures SentBefore(g, maxItems, steps, n + 1, i, s.sent[i])
    {
      assert SentBefore(g, maxItems, steps, n, i, s.sent[i]);
    }
  }

  /** In every interleaving, with overlapping messages, failing models and failing sends, each body sent is the text of
      the model's answer to its own turn's question, or the apology exactly when the model failed on it. */
  lemma SentBodiesAreAnswers(g: Setup, maxItems: int, steps: seq<Step>, i: nat)
    requires i < |RunFrom(g, maxItems, SILENT, steps).sent|
    ensures exists k :: SentAt(g, maxItems, steps, k, i, RunFrom(g, maxItems, SILENT, steps).sent[i])
  {
    hide RunFrom, SentAt;
    RunSent(g, maxItems, steps, |steps|);
    assert steps[..|steps|] == steps;
    assert SentBefore(g, maxItems, steps, |steps|, i, RunFrom(g, maxItems, SILENT, steps).sent[i]);
  }
}
