/** One agent turn: recall, retrieve, compose the prompt, ask the model. */
module AgentLoop {
  import opened PyText
  import opened Slug
  import opened Tenancy
  import opened Hindsight
  import opened BuyerMemory

  datatype LLMRole = System | User | Assistant

  datatype LLMMessage = LLMMessage(role: LLMRole, content: string)

  /** An answer names the model that gave it. */
  datatype LLMOutcome = Reply(text: string, model: string) | Failure(error: string)

  datatype AgentTurn = AgentTurn(reply: string, model: string, factsCited: seq<Fact>, historyUsed: nat)

  /** What `respond` returns or raises. */
  datatype Responded = Responded(turn: AgentTurn) | Raised(error: string)

  /** The model port: the answer may depend on how often it was called, on the prompt and on the model name. */
  type Llm = (nat, seq<LLMMessage>, string) -> LLMOutcome

  /** The parts of a deployment that a turn only reads: the model, the SOUL template, lower-casing and the two knobs. */
  datatype Setup = Setup(llm: Llm, soul: Tenant -> string, lower: Lowering, historyTurns: int, ragTopK: int)

  function Joined(lines: seq<string>, sep: string): string {
    if lines == [] then "" else if |lines| == 1 then lines[0] else lines[0] + sep + Joined(lines[1..], sep)
  }

  function FactLine(i: nat, f: Fact): string { Decimal(i) + ". [" + f.source + "] " + f.content }

  function FactLines(fs: seq<Fact>): seq<string> {
    if fs == [] then ["## Catalog facts (use only what's here; never invent prices or stock)"]
    else FactLines(fs[..|fs| - 1]) + [FactLine(|fs|, fs[|fs| - 1])]
  }

  /** The heading comes first; line `i` is the `i`-th fact under its number. */
  lemma {:induction false} FactLinesAre(fs: seq<Fact>)
    ensures |FactLines(fs)| == |fs| + 1
    ensures FactLines(fs)[0] == "## Catalog facts (use only what's here; never invent prices or stock)"
    ensures forall i :: 1 <= i <= |fs| ==>
                          FactLines(fs)[i] == Decimal(i) + ". [" + fs[i - 1].source + "] " + fs[i - 1].content
  {
    if fs != [] { FactLinesAre(fs[..|fs| - 1]); }
  }

  method RenderFacts(fs: seq<Fact>) returns (block: string)
    ensures block == Joined(FactLines(fs), "\n")
  {
    var lines := ["## Catalog facts (use only what's here; never invent prices or stock)"];
    for i := 0 to |fs|
      invariant lines == FactLines(fs[..i])
    {
      assert fs[..i + 1][..i] == fs[..i];
      lines := lines + [FactLine(i + 1, fs[i])];
    }
    assert fs[..|fs|] == fs;
    block := Joined(lines, "\n");
  }

  function SystemText(g: Setup, t: Tenant, facts: seq<Fact>): string {
    Joined([g.soul(t)] + if facts == [] then [] else [Joined(FactLines(facts), "\n")], "\n\n")
  }

  /** One remembered turn as the model sees it. */
  function AsMessage(i: Interaction): LLMMessage {
    LLMMessage(if i.role == Agent then Assistant else User, i.text)
  }

  function Dialogue(turns: seq<Interaction>): seq<LLMMessage> {
    seq(|turns|, i requires 0 <= i < |turns| => AsMessage(turns[i]))
  }

  /** System message, recalled dialogue, inbound text. */
  function Prompt(g: Setup, t: Tenant, history: seq<Interaction>, facts: seq<Fact>, message: string): seq<LLMMessage> {
    [LLMMessage(System, SystemText(g, t, facts))] + Dialogue(history) + [LLMMessage(User, message)]
  }

  method ComposePrompt(g: Setup, t: Tenant, history: seq<Interaction>, facts: seq<Fact>, message: string)
    returns (messages: seq<LLMMessage>)
    ensures messages == Prompt(g, t, history, facts, message)
  {
    var parts := [g.soul(t)];
    if facts != [] {
      var block := RenderFacts(facts);
      parts := parts + [block];
    }
    messages := [LLMMessage(System, Joined(parts, "\n\n"))];
    for i := 0 to |history|
      invariant messages == [LLMMessage(System, SystemText(g, t, facts))] + Dialogue(history)[..i]
    {
      messages := messages + [AsMessage(history[i])];
    }
    messages := messages + [LLMMessage(User, message)];
  }

  /** The history that a turn recalls. */
  function History(g: Setup, logs: Logs, maxItems: int, b: string): seq<Interaction> {
    Recalled(LogOf(logs, b), maxItems, Some(g.historyTurns))
  }

  /** The facts that a turn cites. */
  function Cited(g: Setup, facts: seq<Fact>, t: Tenant, message: string): seq<Fact> {
    Answer(facts, message, Some(t.id), g.ragTopK, g.lower)
  }

  /** The prompt of a turn, read off the unbounded log and the fact store. */
  function TurnPrompt(
    g: Setup, logs: Logs, maxItems: int, facts: seq<Fact>, t: Tenant, b: string, message: string): seq<LLMMessage>
  {
    Prompt(g, t, History(g, logs, maxItems, b), Cited(g, facts, t, message), message)
  }

  // ----- What a prompt and its facts say -------------------------------------------------------------------

  lemma JoinedMore(lines: seq<string>, x: string, sep: string)
    ensures Joined([x], sep) == x
    ensures lines != [] ==> Joined(lines + [x], sep) == Joined(lines, sep) + sep + x
    decreases |lines|
  {
    if |lines| == 1 {
      assert (lines + [x])[1..] == [x];
      assert (lines + [x])[0] == lines[0];
    } else if lines != [] {
      assert (lines + [x])[1..] == lines[1..] + [x];
      JoinedMore(lines[1..], x, sep);
      assert Joined(lines + [x], sep) == lines[0] + sep + (Joined(lines[1..], sep) + sep + x);
    }
  }

  /** The facts block, said from its front: the heading, and then a line break and a numbered line for every fact. */
  lemma BlockGrows(fs: seq<Fact>, f: Fact)
    ensures Joined(FactLines(fs + [f]), "\n") ==
            Joined(FactLines(fs), "\n") + "\n" + (Decimal(|fs| + 1) + ". [" + f.source + "] " + f.content)
  {
    hide FactLines, Joined;
    HasLines(fs);
    LastLine(fs, f);
    JoinedMore(FactLines(fs), Decimal(|fs| + 1) + ". [" + f.source + "] " + f.content, "\n");
  }

  lemma HasLines(fs: seq<Fact>)
    ensures FactLines(fs) != []
  {
  }

  lemma LastLine(fs: seq<Fact>, f: Fact)
    ensures FactLines(fs + [f]) ==
            FactLines(fs) + [Decimal(|fs| + 1) + ". [" + f.source + "] " + f.content]
  {
    assert (fs + [f])[..|fs|] == fs;
  }

  /** ... and the block of no facts is the heading. */
  lemma HeadingAlone()
    ensures Joined(FactLines([]), "\n") == "## Catalog facts (use only what's here; never invent prices or stock)"
  {
    assert FactLines([]) == ["## Catalog facts (use only what's here; never invent prices or stock)"];
  }

  /** A prompt is a system message that holds the rendered template and, when there are facts, an empty line and their
      block; then one message a turn of the history, spoken by the assistant exactly when the agent did; then the
      inbound text, spoken by the user. */
  lemma PromptSays(g: Setup, t: Tenant, history: seq<Interaction>, facts: seq<Fact>, message: string)
    ensures var p := Prompt(g, t, history, facts, message);
            && |p| == |history| + 2
            && p[0].role == System
            && p[0].content == (if facts == [] then g.soul(t) else g.soul(t) + "\n\n" + Joined(FactLines(facts), "\n"))
            && (forall i :: 0 <= i < |history| ==>
                  && p[i + 1].content == history[i].text
                  && p[i + 1].role == match history[i].role case Agent => Assistant case Buyer => User)
            && p[|p| - 1].role == User && p[|p| - 1].content == message
  {
    hide FactLines, Joined;
    TwoParts(g.soul(t), Joined(FactLines(facts), "\n"));
    assert [g.soul(t)] + [] == [g.soul(t)];
  }

  lemma TwoParts(soul: string, block: string)
    ensures Joined([soul], "\n\n") == soul
    ensures Joined([soul] + [block], "\n\n") == soul + "\n\n" + block
  {
    JoinedMore([soul], block, "\n\n");
    JoinedMore([], soul, "\n\n");
  }

  /** A turn cites facts of its own tenant's only: they are in the store and match the message, and they are the first
      that do, as many as the limit leaves. */
  lemma CitedSelects(g: Setup, facts: seq<Fact>, t: Tenant, message: string) returns (at: seq<nat>)
    ensures forall k :: 0 <= k < |facts| ==> (k in at <==> Matches(facts[k], message, Some(t.id), g.lower))
    ensures Kept(|at|, g.ragTopK) <= |at| && Selects(facts, at[..Kept(|at|, g.ragTopK)], Cited(g, facts, t, message))
    ensures forall i, j :: 0 <= i < j < |at| ==> at[i] < at[j]
    ensures forall f :: f in Cited(g, facts, t, message) ==>
                          f in facts && f.tenantId == t.id && Matches(f, message, Some(t.id), g.lower)
  {
    hide Answer, Lower, Strip, Contains;
    at := AnswerSelects(facts, message, Some(t.id), g.ragTopK, g.lower);
    var n, r := Kept(|at|, g.ragTopK), Cited(g, facts, t, message);
    forall f | f in r
      ensures f in facts && Matches(f, message, Some(t.id), g.lower)
    {
      var i :| 0 <= i < |r| && r[i] == f;
      assert at[..n][i] == at[i] && at[i] in at;
    }
  }

  /** Other tenants' facts do not show: on two stores that hold the same facts of the tenant, in the same order, a turn
      cites the same facts and asks the model the same. */
  lemma OwnFactsDecide(
    g: Setup, logs: Logs, maxItems: int, a: seq<Fact>, b: seq<Fact>, t: Tenant, buyer: string, message: string)
    requires Scope(a, Some(t.id)) == Scope(b, Some(t.id))
    ensures Cited(g, a, t, message) == Cited(g, b, t, message)
    ensures TurnPrompt(g, logs, maxItems, a, t, buyer, message) == TurnPrompt(g, logs, maxItems, b, t, buyer, message)
  {
    hide Answer, Prompt, History;
    TenantsDoNotInterfere(a, b, message, t.id, g.ragTopK, g.lower);
  }

  class Loop {
    const memory: InMemoryBuyerMemory
    const hindsight: InMemoryHindsight
    const setup: Setup

    /** Calls made to the model so far. */
    var calls: nat

    constructor (memory: InMemoryBuyerMemory, hindsight: InMemoryHindsight, setup: Setup)
      ensures this.memory == memory && this.hindsight == hindsight && this.setup == setup && calls == 0
    {
      this.memory, this.hindsight, this.setup := memory, hindsight, setup;
      calls := 0;
    }

    /** Read-only for memory and facts. The model is asked once; a failing model makes the turn fail, and otherwise the
        turn carries its answer, the facts that were cited and how much of the prompt was history. */
    method Respond(t: Tenant, b: string, message: string) returns (r: Responded)
      requires memory.Valid()
      modifies this`calls
      ensures calls == old(calls) + 1
      ensures var prompt := TurnPrompt(setup, memory.logs, memory.maxItems, hindsight.facts, t, b, message);
              match setup.llm(old(calls), prompt, t.model)
              case Failure(e) => r == Raised(e)
              case Reply(text, model) =>
                && r.Responded? && r.turn.reply == text && r.turn.model == model
                && r.turn.factsCited == Cited(setup, hindsight.facts, t, message)
                && |prompt| == r.turn.historyUsed + 2
      ensures r.Responded? ==>
                forall f :: f in r.turn.factsCited ==>
                              && f in hindsight.facts && f.tenantId == t.id
                              && Matches(f, message, Some(t.id), setup.lower)
    {
      hide Matches, Answer;
      ghost var at := CitedSelects(setup, hindsight.facts, t, message);
      var history := memory.Recall(b, Some(setup.historyTurns));
      var facts := hindsight.Query(message, Some(t.id), setup.ragTopK, setup.lower);
      var prompt := ComposePrompt(setup, t, history, facts, message);
      var answer := setup.llm(calls, prompt, t.model);
      calls := calls + 1;
      r := match answer
           case Failure(e) => Raised(e)
           case Reply(text, model) => Responded(AgentTurn(text, model, facts, |history|));
    }
  }
}
