/** Sent replies and remembered replies when one buyer's messages overlap: nothing is lost, doubled or invented. */
module ConversationSends {
  import opened BuyerMemory
  import opened AgentLoop
  import opened Conversation
  import opened ConversationRuns

  /** Only listed tenants are served; messages may overlap and follow unanswered ones. */
  predicate ServesListed(slugs: map<string, string>, a: Step) { a.Hear? ==> Listed(slugs, a.tenant) }

  predicate AllServeListed(slugs: map<string, string>, steps: seq<Step>) {
    forall i :: 0 <= i < |steps| ==> ServesListed(slugs, steps[i])
  }

  predicate TurnsListed(slugs: map<string, string>, s: Conv) {
    forall c :: c in s.turns ==> Listed(slugs, s.turns[c].tenant)
  }

  /** The calls that have sent `x` to buyer `b` and not remembered it yet. */
  function Owing(s: Conv, b: string, x: string): set<nat> {
    set c | c in s.turns && Serves(s, c, b) && s.turns[c].phase == Sent(x)
  }

  function Times(xs: seq<string>, x: string): nat { multiset(xs)[x] }

  lemma TimesMore(xs: seq<string>, y: string, x: string)
    ensures Times(xs + [y], x) == Times(xs, x) + if y == x then 1 else 0
    ensures Times(xs + [], x) == Times(xs, x)
  {
    assert xs + [] == xs;
  }

  /** What was sent to a number is what its conversation remembers and what is still owed to it. */
  ghost predicate Balanced(s: Conv, id: string, n: string, b: string, x: string) {
    Times(BodiesTo(s.sent, id, n), x) == Times(AgentTexts(LogOf(s.logs, b)), x) + |Owing(s, b, x)|
  }

  ghost predicate AllBalanced(slugs: map<string, string>, s: Conv) {
    forall id, n, x :: id in slugs ==> Balanced(s, id, n, BuyerId(slugs[id], n), x)
  }

  /** A call serves the number of tenant `id` exactly when it is that tenant's and that number's. */
  lemma ServesWhom(slugs: map<string, string>, s: Conv, c: nat, id: string, n: string)
    requires Directory(slugs) && TurnsListed(slugs, s) && c in s.turns && id in slugs
    ensures Serves(s, c, BuyerId(slugs[id], n)) <==> s.turns[c].tenant.id == id && s.turns[c].from == n
  {
    hide BuyerId, ColonFree;
    var k := s.turns[c];
    assert slugs[k.tenant.id] == k.tenant.slug;
    if Serves(s, c, BuyerId(slugs[id], n)) { BuyerIdsDetermine(k.tenant.slug, k.from, slugs[id], n); }
  }

  lemma HearBalances(s: Conv, s': Conv, c: nat, i: Interaction, to: string, id: string, n: string, b: string, x: string)
    requires Balanced(s, id, n, b, x) && s'.sent == s.sent && c !in s.turns && c in s'.turns
    requires s'.turns == s.turns[c := s'.turns[c]] && s'.turns[c].phase.Heard? && i.role == Buyer
    requires LogOf(s'.logs, b) == if b == to then LogOf(s.logs, b) + [i] else LogOf(s.logs, b)
    ensures Balanced(s', id, n, b, x)
  {
    hide BuyerId, LogOf, AgentTexts, BodiesTo, Times;
    AgentTextsMore(LogOf(s.logs, b), i);
    NoMoreTexts(AgentTexts(LogOf(s.logs, b)));
    assert Owing(s', b, x) == Owing(s, b, x);
  }

  lemma NoMoreTexts(xs: seq<string>)
    ensures xs + [] == xs
  {
  }

  lemma AskBalances(s: Conv, s': Conv, c: nat, phase: Phase, id: string, n: string, b: string, x: string)
    requires Balanced(s, id, n, b, x) && c in s.turns && s.turns[c].phase.Heard? && phase.Asked?
    requires s'.sent == s.sent && s'.logs == s.logs && s'.turns == s.turns[c := s.turns[c].(phase := phase)]
    ensures Balanced(s', id, n, b, x)
  {
    hide BuyerId, LogOf, AgentTexts, BodiesTo, Times;
    assert Owing(s', b, x) == Owing(s, b, x);
  }

  lemma AnswerBalances(s: Conv, s': Conv, c: nat, reply: string, id: string, n: string, b: string, x: string)
    requires Balanced(s, id, n, b, x) && c in s.turns && s.turns[c].phase.Asked?
    requires s'.sent == s.sent + [Outbound(s.turns[c].tenant.id, s.turns[c].from, reply)] && s'.logs == s.logs
    requires s'.turns == s.turns[c := s.turns[c].(phase := Sent(reply))]
    requires Serves(s, c, b) <==> s.turns[c].tenant.id == id && s.turns[c].from == n
    ensures Balanced(s', id, n, b, x)
  {
    hide BuyerId, LogOf, AgentTexts, BodiesTo, Times, Owing, Serves;
    BodiesToMore(s.sent, Outbound(s.turns[c].tenant.id, s.turns[c].from, reply), id, n);
    TimesMore(BodiesTo(s.sent, id, n), reply, x);
    OneMoreOwed(s, s', c, reply, b, x);
  }

  lemma OneMoreOwed(s: Conv, s': Conv, c: nat, reply: string, b: string, x: string)
    requires c in s.turns && s.turns[c].phase.Asked? && s'.turns == s.turns[c := s.turns[c].(phase := Sent(reply))]
    ensures |Owing(s', b, x)| == |Owing(s, b, x)| + if Serves(s, c, b) && reply == x then 1 else 0
  {
    hide BuyerId;
    if Serves(s, c, b) && reply == x {
      assert Owing(s', b, x) == Owing(s, b, x) + {c} && c !in Owing(s, b, x);
    } else {
      assert Owing(s', b, x) == Owing(s, b, x);
    }
  }

  lemma DropBalances(s: Conv, s': Conv, c: nat, id: string, n: string, b: string, x: string)
    requires Balanced(s, id, n, b, x) && c in s.turns && s.turns[c].phase.Asked?
    requires s'.sent == s.sent && s'.logs == s.logs && s'.turns == s.turns - {c}
    ensures Balanced(s', id, n, b, x)
  {
    hide BuyerId, LogOf, AgentTexts, BodiesTo, Times;
    assert Owing(s', b, x) == Owing(s, b, x);
  }

  lemma RecordBalances(s: Conv, s': Conv, c: nat, id: string, n: string, b: string, x: string)
    requires Balanced(s, id, n, b, x) && c in s.turns && s.turns[c].phase.Sent?
    requires s'.sent == s.sent && s'.turns == s.turns - {c}
    requires var i := Interaction(s.turns[c].phase.reply, Agent);
             LogOf(s'.logs, b) == if b == s.turns[c].Buyer() then LogOf(s.logs, b) + [i] else LogOf(s.logs, b)
    ensures Balanced(s', id, n, b, x)
  {
    hide BuyerId, LogOf, AgentTexts, BodiesTo, Times, Owing, Serves;
    var reply := s.turns[c].phase.reply;
    AgentTextsMore(LogOf(s.logs, b), Interaction(reply, Agent));
    TimesMore(AgentTexts(LogOf(s.logs, b)), reply, x);
    OneLessOwed(s, s', c, b, x);
  }

  lemma OneLessOwed(s: Conv, s': Conv, c: nat, b: string, x: string)
    requires c in s.turns && s.turns[c].phase.Sent? && s'.turns == s.turns - {c}
    ensures |Owing(s, b, x)| ==
            |Owing(s', b, x)| + if b == s.turns[c].Buyer() && s.turns[c].phase.reply == x then 1 else 0
  {
    hide BuyerId;
    if b == s.turns[c].Buyer() && s.turns[c].phase.reply == x {
      assert Owing(s, b, x) == Owing(s', b, x) + {c} && c !in Owing(s', b, x);
    } else {
      assert Owing(s', b, x) == Owing(s, b, x);
    }
  }

  /** Every step keeps the balance of every number and every text. */
  lemma StepBalances(
    slugs: map<string, string>, g: Setup, maxItems: int, s: Conv, a: Step, id: string, n: string, x: string)
    requires Directory(slugs) && TurnsListed(slugs, s) && Enabled(s, a) && id in slugs
    requires Balanced(s, id, n, BuyerId(slugs[id], n), x)
    ensures Balanced(Apply(g, maxItems, s, a), id, n, BuyerId(slugs[id], n), x)
  {
    hide Balanced, BuyerId, LogOf, Logged, TurnPrompt, ReplyText, Directory, TurnsListed, Serves;
    var b, s' := BuyerId(slugs[id], n), Apply(g, maxItems, s, a);
    match a
    case Hear(c, t, m, y) =>
      LoggedElsewhere(s.logs, BuyerId(t.slug, m), Interaction(y, Buyer));
      HearBalances(s, s', c, Interaction(y, Buyer), BuyerId(t.slug, m), id, n, b, x);
    case Ask(c, facts) => AskBalances(s, s', c, s'.turns[c].phase, id, n, b, x);
    case Answer(c) =>
      ServesWhom(slugs, s, c, id, n);
      AnswerBalances(s, s', c, s'.turns[c].phase.reply, id, n, b, x);
    case Drop(c) => DropBalances(s, s', c, id, n, b, x);
    case Record(c) =>
      LoggedElsewhere(s.logs, s.turns[c].Buyer(), Interaction(s.turns[c].phase.reply, Agent));
      RecordBalances(s, s', c, id, n, b, x);
  }

  lemma StepKeepsListed(slugs: map<string, string>, g: Setup, maxItems: int, s: Conv, a: Step)
    requires TurnsListed(slugs, s) && Enabled(s, a) && ServesListed(slugs, a)
    ensures TurnsListed(slugs, Apply(g, maxItems, s, a))
  {
    hide TurnPrompt, ReplyText, Logged, BuyerId;
  }

  lemma {:induction false} RunBalances(
    slugs: map<string, string>, g: Setup, maxItems: int, s: Conv, steps: seq<Step>, id: string, n: string, x: string)
    requires Directory(slugs) && TurnsListed(slugs, s) && AllServeListed(slugs, steps) && id in slugs
    requires Balanced(s, id, n, BuyerId(slugs[id], n), x)
    ensures Balanced(RunFrom(g, maxItems, s, steps), id, n, BuyerId(slugs[id], n), x)
    decreases |steps|
  {
    hide Balanced, BuyerId, Apply, Enabled, Directory, TurnsListed, ServesListed;
    if steps != [] {
      assert ServesListed(slugs, steps[0]);
      assert forall i :: 0 <= i < |steps[1..]| ==> steps[1..][i] == steps[i + 1];
      if Enabled(s, steps[0]) {
        StepBalances(slugs, g, maxItems, s, steps[0], id, n, x);
        StepKeepsListed(slugs, g, maxItems, s, steps[0]);
        RunBalances(slugs, g, maxItems, Apply(g, maxItems, s, steps[0]), steps[1..], id, n, x);
      } else {
        RunBalances(slugs, g, maxItems, s, steps[1..], id, n, x);
      }
    }
  }

  /** Over all interleavings, with overlapping messages and failing sends: when no message of a buyer is in flight, the
      agent's texts in its conversation are the texts sent to it, each as often, in whatever order they were
      remembered. */
  lemma RepliesAreThoseSent(
    slugs: map<string, string>, g: Setup, maxItems: int, steps: seq<Step>, id: string, n: string)
    requires Directory(slugs) && AllServeListed(slugs, steps) && id in slugs
    requires !Busy(RunFrom(g, maxItems, SILENT, steps), BuyerId(slugs[id], n))
    ensures var s := RunFrom(g, maxItems, SILENT, steps);
            multiset(AgentTexts(LogOf(s.logs, BuyerId(slugs[id], n)))) == multiset(BodiesTo(s.sent, id, n))
  {
    hide RunFrom, BuyerId, LogOf, AgentTexts, BodiesTo, Directory, AllServeListed, Times;
    var s, b := RunFrom(g, maxItems, SILENT, steps), BuyerId(slugs[id], n);
    forall x
      ensures Times(AgentTexts(LogOf(s.logs, b)), x) == Times(BodiesTo(s.sent, id, n), x)
    {
      SilentBalances(id, n, b, x);
      RunBalances(slugs, g, maxItems, SILENT, steps, id, n, x);
      assert Owing(s, b, x) == {};
    }
    SameTexts(AgentTexts(LogOf(s.logs, b)), BodiesTo(s.sent, id, n));
  }

  lemma SilentBalances(id: string, n: string, b: string, x: string)
    ensures Balanced(SILENT, id, n, b, x)
  {
    hide BuyerId;
    assert Owing(SILENT, b, x) == {};
  }

  lemma SameTexts(xs: seq<string>, ys: seq<string>)
    requires forall x :: Times(xs, x) == Times(ys, x)
    ensures multiset(xs) == multiset(ys)
  {
    forall x
      ensures multiset(xs)[x] == multiset(ys)[x]
    {
      assert Times(xs, x) == Times(ys, x);
    }
  }
}
