/** Conversation turns as a protocol: the webhook's handling of one message, cut at its awaits. */
module Conversation {
  import opened Tenancy
  import opened Hindsight
  import opened BuyerMemory
  import opened AgentLoop

  /** The canonical buyer id. */
  function BuyerId(slug: string, number: string): string { slug + ":" + number }

  const FALLBACK := "Tuvimos un inconveniente procesando tu mensaje. Te respondemos en unos minutos."

  datatype Outbound = Outbound(tenantId: string, to: string, body: string)

  /** The inbound text is remembered; the model is being asked; the reply is sent but not yet remembered. */
  datatype Phase = Heard | Asked(prompt: seq<LLMMessage>) | Sent(reply: string)

  datatype Turn = Turn(tenant: Tenant, from: string, text: string, phase: Phase) {
    function Buyer(): string { BuyerId(tenant.slug, from) }
  }

  /** Full logs, the gateway's record, model calls so far, the turns in flight, and the buyers with a message whose turn
      ended without a reply. */
  datatype Conv = Conv(
    logs: Logs, sent: seq<Outbound>, calls: nat, turns: map<nat, Turn>, unanswered: set<string>)

  datatype Step =
    | Hear(call: nat, tenant: Tenant, from: string, text: string)
    | Ask(call: nat, facts: seq<Fact>)   // the fact store may have grown meanwhile
    | Answer(call: nat)                  // the model answers or fails, and the reply is sent
    | Drop(call: nat)                    // the model answers or fails, and the gateway raises: the turn ends
    | Record(call: nat)

  predicate Enabled(s: Conv, a: Step) {
    match a
    case Hear(c, _, _, _) => c !in s.turns
    case Ask(c, _) => c in s.turns && s.turns[c].phase.Heard?
    case Answer(c) => c in s.turns && s.turns[c].phase.Asked?
    case Drop(c) => c in s.turns && s.turns[c].phase.Asked?
    case Record(c) => c in s.turns && s.turns[c].phase.Sent?
  }

  /** The reply that is sent: a failing model never fails the turn. */
  function ReplyText(o: LLMOutcome): string { if o.Reply? then o.text else FALLBACK }

  /** What is sent when the model has answered so: its text, or the apology exactly when it failed. */
  predicate Conveys(o: LLMOutcome, body: string) {
    match o
    case Reply(text, _) => body == text
    case Failure(_) => body == "Tuvimos un inconveniente procesando tu mensaje. Te respondemos en unos minutos."
  }

  lemma ReplyConveys(o: LLMOutcome)
    ensures Conveys(o, ReplyText(o))
  {
  }

  function Apply(g: Setup, maxItems: int, s: Conv, a: Step): Conv
    requires Enabled(s, a)
  {
    match a
    case Hear(c, t, n, x) =>
      s.(logs := Logged(s.logs, BuyerId(t.slug, n), Interaction(x, Buyer)), turns := s.turns[c := Turn(t, n, x, Heard)])
    case Ask(c, facts) =>
      var k := s.turns[c];
      s.(turns := s.turns[c := k.(phase := Asked(TurnPrompt(g, s.logs, maxItems, facts, k.tenant, k.Buyer(), k.text)))])
    case Answer(c) =>
      var k := s.turns[c];
      var reply := ReplyText(g.llm(s.calls, k.phase.prompt, k.tenant.model));
      s.(sent := s.sent + [Outbound(k.tenant.id, k.from, reply)], calls := s.calls + 1,
         turns := s.turns[c := k.(phase := Sent(reply))])
    case Drop(c) =>
      s.(calls := s.calls + 1, turns := s.turns - {c}, unanswered := s.unanswered + {s.turns[c].Buyer()})
    case Record(c) =>
      var k := s.turns[c];
      s.(logs := Logged(s.logs, k.Buyer(), Interaction(k.phase.reply, Agent)), turns := s.turns - {c})
  }

  // ----- Buyer ids --------------------------------------------------------------------------------------

  /** Two tenants can share a buyer id exactly when one slug, followed by a colon, begins the other. */
  lemma BuyerIdsCollideIff(s: string, t: string)
    requires s != t
    ensures (exists m, n :: BuyerId(s, m) == BuyerId(t, n)) <==> s + ":" <= t || t + ":" <= s
  {
    forall m, n | BuyerId(s, m) == BuyerId(t, n)
      ensures s + ":" <= t || t + ":" <= s
    {
      SharedPrefix(s, m, t, n);
    }
    if s + ":" <= t { PrefixCollides(s, t); }
    if t + ":" <= s { PrefixCollides(t, s); }
  }

  lemma SharedPrefix(s: string, m: string, t: string, n: string)
    requires s != t && BuyerId(s, m) == BuyerId(t, n)
    ensures s + ":" <= t || t + ":" <= s
  {
    var x := BuyerId(s, m);
    assert forall i :: 0 <= i < |s| ==> x[i] == s[i];
    assert forall i :: 0 <= i < |t| ==> x[i] == t[i];
    assert x[|s|] == ':' && x[|t|] == ':';
    assert s == x[..|s|] && t == x[..|t|];
    if |s| < |t| { assert s + ":" == x[..|s| + 1] == t[..|s| + 1]; }
    if |t| < |s| { assert t + ":" == x[..|t| + 1] == s[..|t| + 1]; }
  }

  lemma PrefixCollides(s: string, t: string)
    requires s + ":" <= t
    ensures exists m, n :: BuyerId(s, m) == BuyerId(t, n)
  {
    var m := t[|s| + 1..] + ":";
    assert t == s + ":" + t[|s| + 1..];
    assert BuyerId(s, m) == BuyerId(t, "");
  }

  predicate ColonFree(s: string) { ':' !in s }

  lemma PrefixHasColon(s: string, t: string)
    ensures s + ":" <= t ==> ':' in t
  {
    if s + ":" <= t { assert t[|s|] == (s + ":")[|s|]; }
  }

  /** Under colon-free slugs a buyer id determines the slug and the number. */
  lemma BuyerIdsDetermine(s: string, m: string, t: string, n: string)
    requires ColonFree(s) && ColonFree(t) && BuyerId(s, m) == BuyerId(t, n)
    ensures s == t && m == n
  {
    PrefixHasColon(s, t);
    PrefixHasColon(t, s);
    if s != t {
      SharedPrefix(s, m, t, n);
    }
    assert m == BuyerId(s, m)[|s| + 1..];
    assert n == BuyerId(t, n)[|t| + 1..];
  }

  // ----- What every exclusive run keeps -------------------------------------------------------------------

  /** Buyer and agent take turns, the buyer first; the last pair may be unfinished. */
  predicate Alternates(log: seq<Interaction>) {
    forall i :: 0 <= i < |log| ==> log[i].role == if i % 2 == 0 then Buyer else Agent
  }

  /** Complete buyer/agent pairs, buyer first. */
  predicate Paired(log: seq<Interaction>) { |log| % 2 == 0 && Alternates(log) }

  function AgentTexts(log: seq<Interaction>): seq<string> {
    if log == [] then []
    else AgentTexts(log[..|log| - 1]) + if log[|log| - 1].role == Agent then [log[|log| - 1].text] else []
  }

  /** The bodies sent for tenant `id` to `number`, in order. */
  function BodiesTo(sent: seq<Outbound>, id: string, number: string): seq<string> {
    if sent == [] then []
    else
      var o := sent[|sent| - 1];
      BodiesTo(sent[..|sent| - 1], id, number) + if o.tenantId == id && o.to == number then [o.body] else []
  }

  /** The call, if any, that serves buyer `b`. */
  predicate Serves(s: Conv, c: nat, b: string) { c in s.turns && s.turns[c].Buyer() == b }

  predicate Busy(s: Conv, b: string) { exists c :: c in s.turns && Serves(s, c, b) }

  /** Tenant ids and their slugs: distinct tenants have distinct, colon-free slugs. */
  predicate Directory(slugs: map<string, string>) {
    && (forall i :: i in slugs ==> ColonFree(slugs[i]))
    && (forall i, j :: i in slugs && j in slugs && i != j ==> slugs[i] != slugs[j])
  }

  predicate Listed(slugs: map<string, string>, t: Tenant) { t.id in slugs && slugs[t.id] == t.slug }

  /** No message of the buyer is in flight or was left unanswered. */
  predicate Ready(s: Conv, b: string) { !Busy(s, b) && b !in s.unanswered }

  /** Messages of one buyer are handled one after the other, none after an unanswered one, and only listed tenants are
      served. */
  predicate Exclusive(slugs: map<string, string>, s: Conv, a: Step) {
    a.Hear? ==> Listed(slugs, a.tenant) && Ready(s, BuyerId(a.tenant.slug, a.from))
  }

  /** The log of a buyer who is ready is complete pairs; otherwise it is complete pairs and the inbound text. */
  ghost predicate LogOk(s: Conv, b: string) {
    var log := LogOf(s.logs, b);
    && (Ready(s, b) ==> Paired(log))
    && (b in s.unanswered ==>
          !Busy(s, b) && log != [] && Paired(log[..|log| - 1]) && log[|log| - 1].role == Buyer)
    && (forall c :: Serves(s, c, b) ==>
          log != [] && Paired(log[..|log| - 1]) && log[|log| - 1] == Interaction(s.turns[c].text, Buyer))
  }

  /** Every reply that was sent to a buyer is remembered, in order, or about to be; nothing else is. */
  ghost predicate SendsOk(s: Conv, id: string, n: string, b: string) {
    var remembered := AgentTexts(LogOf(s.logs, b));
    && (forall c :: Serves(s, c, b) && s.turns[c].phase.Sent? ==>
          BodiesTo(s.sent, id, n) == remembered + [s.turns[c].phase.reply])
    && ((forall c :: Serves(s, c, b) ==> !s.turns[c].phase.Sent?) ==> BodiesTo(s.sent, id, n) == remembered)
  }

  /** Calls in flight serve different buyers of listed tenants. */
  ghost predicate TurnsOk(slugs: map<string, string>, s: Conv) {
    && (forall c, d, b :: Serves(s, c, b) && Serves(s, d, b) ==> c == d)
    && (forall c :: c in s.turns ==> Listed(slugs, s.turns[c].tenant))
  }

  ghost predicate ConvInv(slugs: map<string, string>, s: Conv) {
    && TurnsOk(slugs, s)
    && (forall b :: LogOk(s, b))
    && (forall id, n :: id in slugs ==> SendsOk(s, id, n, BuyerId(slugs[id], n)))
  }

  /** Nothing that concerns buyer `b` differs. */
  ghost predicate SameFor(s: Conv, s': Conv, b: string) {
    && LogOf(s'.logs, b) == LogOf(s.logs, b)
    && (b in s'.unanswered <==> b in s.unanswered)
    && (forall c :: Serves(s', c, b) == Serves(s, c, b) && (Serves(s, c, b) ==> s'.turns[c] == s.turns[c]))
  }

  lemma SameLogOk(s: Conv, s': Conv, b: string)
    requires SameFor(s, s', b) && LogOk(s, b)
    ensures LogOk(s', b)
  {
    hide Paired;
    assert Busy(s', b) ==> Busy(s, b) by { assert forall c :: Serves(s', c, b) ==> Serves(s, c, b); }
    assert Busy(s, b) ==> Busy(s', b) by { assert forall c :: Serves(s, c, b) ==> Serves(s', c, b); }
  }

  lemma SameSendsOk(s: Conv, s': Conv, id: string, n: string, b: string)
    requires SameFor(s, s', b) && SendsOk(s, id, n, b) && BodiesTo(s'.sent, id, n) == BodiesTo(s.sent, id, n)
    ensures SendsOk(s', id, n, b)
  {
    if forall c :: Serves(s', c, b) ==> !s'.turns[c].phase.Sent? {
      assert forall c :: Serves(s, c, b) ==> Serves(s', c, b);
    }
  }

  lemma LoggedElsewhere(logs: Logs, b: string, i: Interaction)
    ensures LogOf(Logged(logs, b, i), b) == LogOf(logs, b) + [i]
    ensures forall c :: c != b ==> LogOf(Logged(logs, b, i), c) == LogOf(logs, c)
  {
  }

  lemma AgentTextsMore(log: seq<Interaction>, i: Interaction)
    ensures AgentTexts(log + [i]) == AgentTexts(log) + if i.role == Agent then [i.text] else []
  {
    assert (log + [i])[..|log|] == log;
  }

  lemma BodiesToMore(sent: seq<Outbound>, o: Outbound, id: string, n: string)
    ensures BodiesTo(sent + [o], id, n) ==
            BodiesTo(sent, id, n) + if o.tenantId == id && o.to == n then [o.body] else []
  {
    assert (sent + [o])[..|sent|] == sent;
  }

  /** A step that touches one buyer keeps the invariant if that buyer's part is re-established. */
  lemma OneBuyer(slugs: map<string, string>, s: Conv, s': Conv, id0: string, n0: string)
    requires Directory(slugs) && ConvInv(slugs, s) && TurnsOk(slugs, s') && id0 in slugs
    requires var b0 := BuyerId(slugs[id0], n0); LogOk(s', b0) && SendsOk(s', id0, n0, b0)
    requires forall b :: b != BuyerId(slugs[id0], n0) ==> SameFor(s, s', b)
    requires forall id, n :: id != id0 || n != n0 ==> BodiesTo(s'.sent, id, n) == BodiesTo(s.sent, id, n)
    ensures ConvInv(slugs, s')
  {
    hide LogOk, SendsOk, SameFor, Busy, Serves, BodiesTo;
    var b0 := BuyerId(slugs[id0], n0);
    forall b
      ensures LogOk(s', b)
    {
      if b != b0 { SameLogOk(s, s', b); }
    }
    forall id, n | id in slugs
      ensures SendsOk(s', id, n, BuyerId(slugs[id], n))
    {
      if id != id0 || n != n0 {
        if BuyerId(slugs[id], n) == b0 { BuyerIdsDetermine(slugs[id], n, slugs[id0], n0); }
        SameSendsOk(s, s', id, n, BuyerId(slugs[id], n));
      }
    }
  }

  lemma NewTurnOk(slugs: map<string, string>, s: Conv, s': Conv, c: nat)
    requires TurnsOk(slugs, s) && c !in s.turns && c in s'.turns && s'.turns == s.turns[c := s'.turns[c]]
    requires Listed(slugs, s'.turns[c].tenant) && !Busy(s, s'.turns[c].Buyer())
    ensures TurnsOk(slugs, s')
  {
    hide BuyerId;
    assert forall d, e :: Serves(s', d, e) ==> Serves(s, d, e) || (d == c && e == s'.turns[c].Buyer());
  }

  /** The log of an idle buyer after its next message. */
  lemma HeardOk(s: Conv, s': Conv, c: nat, id: string, n: string, b: string, i: Interaction)
    requires LogOk(s, b) && SendsOk(s, id, n, b) && Ready(s, b) && b !in s'.unanswered
    requires LogOf(s'.logs, b) == LogOf(s.logs, b) + [i] && s'.sent == s.sent
    requires Serves(s', c, b) && forall d :: Serves(s', d, b) ==> d == c
    requires s'.turns[c].phase.Heard? && i == Interaction(s'.turns[c].text, Buyer)
    ensures LogOk(s', b) && SendsOk(s', id, n, b)
  {
    hide Paired, BuyerId, LogOf;
    AgentTextsMore(LogOf(s.logs, b), i);
    assert (LogOf(s.logs, b) + [i])[..|LogOf(s.logs, b)|] == LogOf(s.logs, b);
    assert forall d :: !Serves(s, d, b);
  }

  lemma HeardServes(s: Conv, s': Conv, c: nat, b: string)
    requires c !in s.turns && c in s'.turns && s'.turns == s.turns[c := s'.turns[c]]
    requires s'.turns[c].Buyer() == b && !Busy(s, b)
    requires s'.unanswered == s.unanswered && forall e :: e != b ==> LogOf(s'.logs, e) == LogOf(s.logs, e)
    ensures Serves(s', c, b) && forall d :: Serves(s', d, b) ==> d == c
    ensures forall e :: e != b ==> SameFor(s, s', e)
  {
    hide BuyerId, LogOf;
  }

  lemma HearKeeps(slugs: map<string, string>, s: Conv, c: nat, t: Tenant, n: string, x: string)
    requires Directory(slugs) && ConvInv(slugs, s) && c !in s.turns && Listed(slugs, t) && Ready(s, BuyerId(t.slug, n))
    ensures var k := Turn(t, n, x, Heard);
            ConvInv(slugs, s.(logs := Logged(s.logs, k.Buyer(), Interaction(x, Buyer)), turns := s.turns[c := k]))
  {
    hide Paired, BuyerId;
    var b := BuyerId(t.slug, n);
    var i := Interaction(x, Buyer);
    var s' := s.(logs := Logged(s.logs, b, i), turns := s.turns[c := Turn(t, n, x, Heard)]);
    LoggedElsewhere(s.logs, b, i);
    NewTurnOk(slugs, s, s', c);
    HeardServes(s, s', c, b);
    hide LogOk, SendsOk, Logged, LogOf, Busy, Serves, TurnsOk;
    assert LogOk(s, b) && SendsOk(s, t.id, n, b);
    HeardOk(s, s', c, t.id, n, b, i);
    OneBuyer(slugs, s, s', t.id, n);
  }

  /** The buyer, tenant and text of a call stay what they are while it is in flight. */
  lemma SameTurnOk(slugs: map<string, string>, s: Conv, s': Conv, c: nat, phase: Phase)
    requires TurnsOk(slugs, s) && c in s.turns && s'.turns == s.turns[c := s.turns[c].(phase := phase)]
    ensures TurnsOk(slugs, s') && forall d, e :: Serves(s', d, e) == Serves(s, d, e)
  {
    hide BuyerId;
    assert forall d, e :: Serves(s', d, e) == Serves(s, d, e);
  }

  lemma OnlyServer(slugs: map<string, string>, s: Conv, c: nat)
    requires TurnsOk(slugs, s) && c in s.turns
    ensures var k := s.turns[c]; Serves(s, c, k.Buyer()) && forall d :: Serves(s, d, k.Buyer()) ==> d == c
    ensures var t := s.turns[c].tenant; t.id in slugs && slugs[t.id] == t.slug
  {
    hide BuyerId;
  }

  lemma PhaseSame(s: Conv, s': Conv, c: nat, phase: Phase)
    requires c in s.turns && s'.turns == s.turns[c := s.turns[c].(phase := phase)] && s'.logs == s.logs
    requires s'.unanswered == s.unanswered
    ensures forall e :: e != s.turns[c].Buyer() ==> SameFor(s, s', e)
  {
    hide BuyerId, LogOf;
  }

  /** A busy buyer's log while its call moves on without remembering anything. */
  lemma AskedOk(s: Conv, s': Conv, c: nat, id: string, n: string)
    requires c in s.turns && s.turns[c].phase.Heard? && LogOk(s, s.turns[c].Buyer())
             && SendsOk(s, id, n, s.turns[c].Buyer())
    requires Serves(s, c, s.turns[c].Buyer()) && forall d :: Serves(s, d, s.turns[c].Buyer()) ==> d == c
    requires s'.logs == s.logs && s'.sent == s.sent && s'.unanswered == s.unanswered
    requires forall d, e :: Serves(s', d, e) == Serves(s, d, e)
    requires c in s'.turns && s'.turns[c].phase.Asked? && s'.turns[c].text == s.turns[c].text
    ensures LogOk(s', s.turns[c].Buyer()) && SendsOk(s', id, n, s.turns[c].Buyer())
  {
    hide Paired, BuyerId, LogOf;
  }

  lemma AnsweredOk(s: Conv, s': Conv, c: nat, id: string, n: string, reply: string)
    requires c in s.turns && s.turns[c].phase.Asked? && LogOk(s, s.turns[c].Buyer())
             && SendsOk(s, id, n, s.turns[c].Buyer())
    requires Serves(s, c, s.turns[c].Buyer()) && forall d :: Serves(s, d, s.turns[c].Buyer()) ==> d == c
    requires s'.logs == s.logs && s'.sent == s.sent + [Outbound(id, n, reply)] && s'.unanswered == s.unanswered
    requires forall d, e :: Serves(s', d, e) == Serves(s, d, e)
    requires c in s'.turns && s'.turns[c].phase == Sent(reply) && s'.turns[c].text == s.turns[c].text
    ensures LogOk(s', s.turns[c].Buyer()) && SendsOk(s', id, n, s.turns[c].Buyer())
  {
    hide Paired, BuyerId, LogOf;
    BodiesToMore(s.sent, Outbound(id, n, reply), id, n);
  }

  lemma AskKeeps(slugs: map<string, string>, s: Conv, c: nat, prompt: seq<LLMMessage>)
    requires Directory(slugs) && ConvInv(slugs, s) && c in s.turns && s.turns[c].phase.Heard?
    ensures ConvInv(slugs, s.(turns := s.turns[c := s.turns[c].(phase := Asked(prompt))]))
  {
    hide Paired, BuyerId, LogOk, SendsOk, LogOf, Busy, Serves, TurnsOk, BodiesTo, SameFor;
    var k := s.turns[c];
    var s' := s.(turns := s.turns[c := k.(phase := Asked(prompt))]);
    SameTurnOk(slugs, s, s', c, Asked(prompt));
    OnlyServer(slugs, s, c);
    PhaseSame(s, s', c, Asked(prompt));
    AskedOk(s, s', c, k.tenant.id, k.from);
    OneBuyer(slugs, s, s', k.tenant.id, k.from);
  }

  lemma AnswerKeeps(slugs: map<string, string>, s: Conv, c: nat, reply: string)
    requires Directory(slugs) && ConvInv(slugs, s) && c in s.turns && s.turns[c].phase.Asked?
    ensures var k := s.turns[c];
            ConvInv(slugs, s.(sent := s.sent + [Outbound(k.tenant.id, k.from, reply)], calls := s.calls + 1,
                              turns := s.turns[c := k.(phase := Sent(reply))]))
  {
    hide Paired, BuyerId, LogOk, SendsOk, LogOf, Busy, Serves, TurnsOk, BodiesTo, SameFor;
    var k := s.turns[c];
    var o := Outbound(k.tenant.id, k.from, reply);
    var s' := s.(sent := s.sent + [o], calls := s.calls + 1, turns := s.turns[c := k.(phase := Sent(reply))]);
    SameTurnOk(slugs, s, s', c, Sent(reply));
    OnlyServer(slugs, s, c);
    PhaseSame(s, s', c, Sent(reply));
    AnsweredOk(s, s', c, k.tenant.id, k.from, reply);
    forall id, n | id != k.tenant.id || n != k.from
      ensures BodiesTo(s'.sent, id, n) == BodiesTo(s.sent, id, n)
    {
      BodiesToMore(s.sent, o, id, n);
    }
    OneBuyer(slugs, s, s', k.tenant.id, k.from);
  }

  lemma EndedServes(slugs: map<string, string>, s: Conv, s': Conv, c: nat)
    requires TurnsOk(slugs, s) && c in s.turns && s'.turns == s.turns - {c}
    requires forall e :: e != s.turns[c].Buyer() ==> (e in s'.unanswered <==> e in s.unanswered)
    requires forall e :: e != s.turns[c].Buyer() ==> LogOf(s'.logs, e) == LogOf(s.logs, e)
    ensures TurnsOk(slugs, s') && forall d :: !Serves(s', d, s.turns[c].Buyer())
    ensures forall e :: e != s.turns[c].Buyer() ==> SameFor(s, s', e)
  {
    hide BuyerId, LogOf;
    assert forall d, e :: Serves(s', d, e) <==> Serves(s, d, e) && d != c;
    assert Serves(s, c, s.turns[c].Buyer());
  }

  /** The log of a buyer after its reply. */
  lemma RecordedOk(s: Conv, s': Conv, c: nat, id: string, n: string, b: string, i: Interaction)
    requires LogOk(s, b) && SendsOk(s, id, n, b) && Serves(s, c, b)
    requires s.turns[c].phase.Sent? && i == Interaction(s.turns[c].phase.reply, Agent)
    requires LogOf(s'.logs, b) == LogOf(s.logs, b) + [i] && s'.sent == s.sent && s'.unanswered == s.unanswered
    requires forall d :: !Serves(s', d, b)
    ensures LogOk(s', b) && SendsOk(s', id, n, b)
  {
    hide Paired, BuyerId, LogOf;
    AgentTextsMore(LogOf(s.logs, b), i);
    PairCompleted(LogOf(s.logs, b), i);
    assert LogOf(s'.logs, b) != LogOf(s.logs, b);
  }

  lemma RecordKeeps(slugs: map<string, string>, s: Conv, c: nat)
    requires Directory(slugs) && ConvInv(slugs, s) && c in s.turns && s.turns[c].phase.Sent?
    ensures var k := s.turns[c];
            ConvInv(slugs, s.(logs := Logged(s.logs, k.Buyer(), Interaction(k.phase.reply, Agent)),
                              turns := s.turns - {c}))
  {
    hide Paired, BuyerId, LogOk, SendsOk, Logged, LogOf, Busy, Serves, TurnsOk, BodiesTo, SameFor;
    var k := s.turns[c];
    var b, i := k.Buyer(), Interaction(k.phase.reply, Agent);
    var s' := s.(logs := Logged(s.logs, b, i), turns := s.turns - {c});
    LoggedElsewhere(s.logs, b, i);
    OnlyServer(slugs, s, c);
    EndedServes(slugs, s, s', c);
    RecordedOk(s, s', c, k.tenant.id, k.from, b, i);
    OneBuyer(slugs, s, s', k.tenant.id, k.from);
  }

  /** The log of a buyer whose message is left unanswered. */
  lemma DroppedOk(s: Conv, s': Conv, c: nat, id: string, n: string, b: string)
    requires LogOk(s, b) && SendsOk(s, id, n, b) && Serves(s, c, b) && s.turns[c].phase.Asked?
    requires forall d :: Serves(s, d, b) ==> d == c
    requires LogOf(s'.logs, b) == LogOf(s.logs, b) && s'.sent == s.sent && b in s'.unanswered
    requires forall d :: !Serves(s', d, b)
    ensures LogOk(s', b) && SendsOk(s', id, n, b)
  {
    hide Paired, BuyerId, LogOf;
  }

  lemma DropKeeps(slugs: map<string, string>, s: Conv, c: nat)
    requires Directory(slugs) && ConvInv(slugs, s) && c in s.turns && s.turns[c].phase.Asked?
    ensures ConvInv(slugs, s.(calls := s.calls + 1, turns := s.turns - {c},
                              unanswered := s.unanswered + {s.turns[c].Buyer()}))
  {
    hide Paired, BuyerId, LogOk, SendsOk, LogOf, Busy, Serves, TurnsOk, BodiesTo, SameFor;
    var k := s.turns[c];
    var s' := s.(calls := s.calls + 1, turns := s.turns - {c}, unanswered := s.unanswered + {k.Buyer()});
    OnlyServer(slugs, s, c);
    EndedServes(slugs, s, s', c);
    DroppedOk(s, s', c, k.tenant.id, k.from, k.Buyer());
    OneBuyer(slugs, s, s', k.tenant.id, k.from);
  }

  lemma PairCompleted(log: seq<Interaction>, i: Interaction)
    requires log != [] && Paired(log[..|log| - 1]) && log[|log| - 1].role == Buyer && i.role == Agent
    ensures Paired(log + [i])
  {
    assert forall k :: 0 <= k < |log| - 1 ==> log[k] == log[..|log| - 1][k];
  }

  /** Every exclusive step keeps the invariant, whatever the model answers and however buyers interleave. */
  lemma StepKeeps(slugs: map<string, string>, g: Setup, maxItems: int, s: Conv, a: Step)
    requires Directory(slugs) && ConvInv(slugs, s) && Enabled(s, a) && Exclusive(slugs, s, a)
    ensures ConvInv(slugs, Apply(g, maxItems, s, a))
  {
    hide ConvInv, TurnPrompt, ReplyText, Logged, BuyerId;
    match a
    case Hear(c, t, n, x) => HearKeeps(slugs, s, c, t, n, x);
    case Ask(c, facts) =>
      var k := s.turns[c];
      AskKeeps(slugs, s, c, TurnPrompt(g, s.logs, maxItems, facts, k.tenant, k.Buyer(), k.text));
    case Answer(c) =>
      var k := s.turns[c];
      AnswerKeeps(slugs, s, c, ReplyText(g.llm(s.calls, k.phase.prompt, k.tenant.model)));
    case Drop(c) => DropKeeps(slugs, s, c);
    case Record(c) => RecordKeeps(slugs, s, c);
  }
}
