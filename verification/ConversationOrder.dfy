/** When a buyer's conversation alternates, exactly: over all interleavings, with overlapping messages and failing
    sends. */
module ConversationOrder {
  import opened BuyerMemory
  import opened AgentLoop
  import opened Conversation
  import opened ConversationRuns

  /** The step does not start a message of `b` while another message of `b` is in flight or after one was left
      unanswered. */
  predicate Waits(s: Conv, a: Step, b: string) {
    a.Hear? && BuyerId(a.tenant.slug, a.from) == b ==> Ready(s, b)
  }

  /** No message of `b` in the run overtakes another one or follows an unanswered one. */
  predicate WaitsAlong(g: Setup, maxItems: int, s: Conv, steps: seq<Step>, b: string)
    decreases |steps|
  {
    steps == [] ||
    if Enabled(s, steps[0])
    then Waits(s, steps[0], b) && WaitsAlong(g, maxItems, Apply(g, maxItems, s, steps[0]), steps[1..], b)
    else WaitsAlong(g, maxItems, s, steps[1..], b)
  }

  /** At most one message of `b` is in flight, and the log ends in an unfinished pair exactly when one is in flight
      or was left unanswered. */
  ghost predicate InTurn(s: Conv, b: string) {
    && (forall c, d :: Serves(s, c, b) && Serves(s, d, b) ==> c == d)
    && Alternates(LogOf(s.logs, b))
    && (|LogOf(s.logs, b)| % 2 == 1 <==> !Ready(s, b))
    && !(b in s.unanswered && Busy(s, b))
  }

  lemma OneMore(log: seq<Interaction>, i: Interaction)
    requires Alternates(log)
    ensures Alternates(log + [i]) <==> (i.role == Buyer <==> |log| % 2 == 0)
  {
    assert (log + [i])[|log|] == i;
  }

  lemma AlternatesPrefix(a: seq<Interaction>, b: seq<Interaction>)
    requires a <= b && Alternates(b)
    ensures Alternates(a)
  {
    assert forall i :: 0 <= i < |a| ==> a[i] == b[i];
  }

  /** What a step does to one buyer's log and calls. */
  lemma StepEffect(g: Setup, maxItems: int, s: Conv, a: Step, b: string)
    requires Enabled(s, a)
    ensures var s' := Apply(g, maxItems, s, a);
            && (LogOf(s'.logs, b) == LogOf(s.logs, b)
                || exists i :: LogOf(s'.logs, b) == LogOf(s.logs, b) + [i])
  {
    hide BuyerId, TurnPrompt, ReplyText;
  }

  lemma {:induction false} LogsGrow(g: Setup, maxItems: int, s: Conv, steps: seq<Step>, b: string)
    ensures LogOf(s.logs, b) <= LogOf(RunFrom(g, maxItems, s, steps).logs, b)
    decreases |steps|
  {
    hide Apply, LogOf, Enabled;
    if steps != [] {
      if Enabled(s, steps[0]) {
        StepEffect(g, maxItems, s, steps[0], b);
        LogsGrow(g, maxItems, Apply(g, maxItems, s, steps[0]), steps[1..], b);
      } else {
        LogsGrow(g, maxItems, s, steps[1..], b);
      }
    }
  }

  lemma HearInTurn(s: Conv, c: nat, k: Turn, b: string)
    requires InTurn(s, b) && c !in s.turns && (k.Buyer() == b ==> Ready(s, b))
    ensures InTurn(s.(logs := Logged(s.logs, k.Buyer(), Interaction(k.text, Buyer)), turns := s.turns[c := k]), b)
  {
    hide BuyerId, Alternates, LogOf, Logged;
    var i := Interaction(k.text, Buyer);
    var s' := s.(logs := Logged(s.logs, k.Buyer(), i), turns := s.turns[c := k]);
    LoggedElsewhere(s.logs, k.Buyer(), i);
    OneMore(LogOf(s.logs, b), i);
    assert forall d :: Serves(s', d, b) <==> Serves(s, d, b) || (d == c && k.Buyer() == b);
    BusyIf(s, s', b, c, k.Buyer() == b);
  }

  lemma BusyIf(s: Conv, s': Conv, b: string, c: nat, more: bool)
    requires forall d :: Serves(s', d, b) <==> Serves(s, d, b) || (d == c && more)
    ensures Busy(s', b) <==> Busy(s, b) || more
  {
    hide BuyerId;
    if more { assert Serves(s', c, b); }
    if Busy(s, b) {
      var d :| d in s.turns && Serves(s, d, b);
      assert Serves(s', d, b);
    }
  }

  lemma PhaseInTurn(s: Conv, s': Conv, c: nat, phase: Phase, b: string)
    requires InTurn(s, b) && c in s.turns && s'.logs == s.logs && s'.unanswered == s.unanswered
    requires s'.turns == s.turns[c := s.turns[c].(phase := phase)]
    ensures InTurn(s', b)
  {
    hide BuyerId, Alternates, LogOf;
    assert forall d :: Serves(s', d, b) <==> Serves(s, d, b);
    BusyIf(s, s', b, c, false);
  }

  lemma RecordInTurn(s: Conv, c: nat, reply: string, b: string)
    requires InTurn(s, b) && c in s.turns
    ensures InTurn(s.(logs := Logged(s.logs, s.turns[c].Buyer(), Interaction(reply, Agent)), turns := s.turns - {c}), b)
  {
    hide BuyerId, Alternates, LogOf, Logged;
    var k, i := s.turns[c], Interaction(reply, Agent);
    var s' := s.(logs := Logged(s.logs, k.Buyer(), i), turns := s.turns - {c});
    LoggedElsewhere(s.logs, k.Buyer(), i);
    OneMore(LogOf(s.logs, b), i);
    assert forall d :: Serves(s', d, b) <==> Serves(s, d, b) && d != c;
    if k.Buyer() == b {
      assert Serves(s, c, b);
      assert forall d :: !Serves(s', d, b);
    } else {
      assert !Serves(s, c, b);
      BusyIf(s, s', b, c, false);
    }
  }

  lemma DropInTurn(s: Conv, s': Conv, c: nat, b: string)
    requires InTurn(s, b) && c in s.turns && s'.logs == s.logs && s'.turns == s.turns - {c}
    requires s'.unanswered == s.unanswered + {s.turns[c].Buyer()}
    ensures InTurn(s', b)
  {
    hide BuyerId, Alternates, LogOf;
    assert forall d :: Serves(s', d, b) <==> Serves(s, d, b) && d != c;
    if s.turns[c].Buyer() == b {
      assert Serves(s, c, b);
      assert forall d :: !Serves(s', d, b);
    } else {
      assert !Serves(s, c, b);
      BusyIf(s, s', b, c, false);
    }
  }

  lemma StepInTurn(g: Setup, maxItems: int, s: Conv, a: Step, b: string)
    requires InTurn(s, b) && Enabled(s, a) && Waits(s, a, b)
    ensures InTurn(Apply(g, maxItems, s, a), b)
  {
    hide InTurn, TurnPrompt, ReplyText, Logged, BuyerId;
    match a
    case Hear(c, t, n, x) => HearInTurn(s, c, Turn(t, n, x, Heard), b);
    case Ask(c, facts) =>
      PhaseInTurn(s, Apply(g, maxItems, s, a), c, Apply(g, maxItems, s, a).turns[c].phase, b);
    case Answer(c) =>
      PhaseInTurn(s, Apply(g, maxItems, s, a), c, Apply(g, maxItems, s, a).turns[c].phase, b);
    case Drop(c) => DropInTurn(s, Apply(g, maxItems, s, a), c, b);
    case Record(c) => RecordInTurn(s, c, s.turns[c].phase.reply, b);
  }

  /** A message that overtakes another one of its buyer, or follows an unanswered one, puts two buyer turns in a row. */
  lemma OvertakingBreaks(g: Setup, maxItems: int, s: Conv, a: Step, b: string)
    requires InTurn(s, b) && Enabled(s, a) && !Waits(s, a, b)
    ensures !Alternates(LogOf(Apply(g, maxItems, s, a).logs, b))
  {
    hide BuyerId, LogOf, Logged, Busy, Alternates;
    LoggedElsewhere(s.logs, b, Interaction(a.text, Buyer));
    OneMore(LogOf(s.logs, b), Interaction(a.text, Buyer));
  }

  /** Whatever the calls, their order, the model and the gateway do, a buyer's full log alternates at the end of a
      run if and only if no message of that buyer was started while another one was in flight or after one was left
      unanswered because its send failed. */
  lemma AlternatesIff(g: Setup, maxItems: int, steps: seq<Step>, b: string)
    ensures Alternates(LogOf(RunFrom(g, maxItems, SILENT, steps).logs, b))
            <==> WaitsAlong(g, maxItems, SILENT, steps, b)
  {
    hide RunFrom, WaitsAlong;
    AlternatesIffFrom(g, maxItems, SILENT, steps, b);
  }

  lemma {:induction false} AlternatesIffFrom(g: Setup, maxItems: int, s: Conv, steps: seq<Step>, b: string)
    requires InTurn(s, b)
    ensures Alternates(LogOf(RunFrom(g, maxItems, s, steps).logs, b)) <==> WaitsAlong(g, maxItems, s, steps, b)
    decreases |steps|
  {
    hide Apply, Enabled, LogOf, Alternates, Waits, Serves, Busy;
    if steps != [] {
      if Enabled(s, steps[0]) {
        var s' := Apply(g, maxItems, s, steps[0]);
        if Waits(s, steps[0], b) {
          StepInTurn(g, maxItems, s, steps[0], b);
          AlternatesIffFrom(g, maxItems, s', steps[1..], b);
        } else {
          OvertakingBreaks(g, maxItems, s, steps[0], b);
          LogsGrow(g, maxItems, s', steps[1..], b);
          NotAlternating(LogOf(s'.logs, b), LogOf(RunFrom(g, maxItems, s', steps[1..]).logs, b));
        }
      } else {
        AlternatesIffFrom(g, maxItems, s, steps[1..], b);
      }
    }
  }

  lemma NotAlternating(a: seq<Interaction>, b: seq<Interaction>)
    requires a <= b && !Alternates(a)
    ensures !Alternates(b)
  {
    hide Alternates;
    if Alternates(b) { AlternatesPrefix(a, b); }
  }
}
