/** The inbound webhook: payload parsing, routing, and the loop that handles one delivery. */
module Webhook {
  import opened PyText
  import opened Tenancy
  import opened Hindsight
  import opened BuyerMemory
  import opened AgentLoop
  import opened Conversation

  /** The parts of Meta's payload that are read; absent strings are empty. */
  datatype RawMessage = RawMessage(kind: string, from: string, body: string, id: string)

  datatype Change = Change(phoneNumberId: Option<string>, messages: seq<RawMessage>)

  datatype Payload = Payload(entries: seq<seq<Change>>)

  datatype InboundMessage = InboundMessage(tenantId: string, from: string, text: string, id: string)

  /** All changes of all entries, in order. */
  function Changes(entries: seq<seq<Change>>): seq<Change> {
    if entries == [] then [] else Changes(entries[..|entries| - 1]) + entries[|entries| - 1]
  }

  /** The text messages of a list, in order. */
  function Texts(tenantId: string, ms: seq<RawMessage>): seq<InboundMessage> {
    if ms == [] then []
    else
      var m := ms[|ms| - 1];
      Texts(tenantId, ms[..|ms| - 1])
      + if m.kind == "text" then [InboundMessage(tenantId, m.from, m.body, m.id)] else []
  }

  function AllTexts(tenantId: string, cs: seq<Change>): seq<InboundMessage> {
    if cs == [] then [] else AllTexts(tenantId, cs[..|cs| - 1]) + Texts(tenantId, cs[|cs| - 1].messages)
  }

  lemma {:induction false} AllTextsConcat(tenantId: string, a: seq<Change>, b: seq<Change>)
    ensures AllTexts(tenantId, a + b) == AllTexts(tenantId, a) + AllTexts(tenantId, b)
  {
    hide AllTexts, Texts;
    if b == [] {
      NothingYet(tenantId);
      assert a + b == a;
    } else {
      var c := b[|b| - 1];
      assert a + b == (a + b[..|b| - 1]) + [c] && b == b[..|b| - 1] + [c];
      AllTextsLast(tenantId, a + b[..|b| - 1], c);
      AllTextsLast(tenantId, b[..|b| - 1], c);
      AllTextsConcat(tenantId, a, b[..|b| - 1]);
    }
  }

  lemma AllTextsLast(tenantId: string, cs: seq<Change>, c: Change)
    ensures AllTexts(tenantId, cs + [c]) == AllTexts(tenantId, cs) + Texts(tenantId, c.messages)
  {
    assert (cs + [c])[..|cs|] == cs;
  }

  lemma TextsMore(tenantId: string, ms: seq<RawMessage>, k: nat)
    requires k < |ms|
    ensures Texts(tenantId, ms[..k + 1]) ==
            Texts(tenantId, ms[..k])
            + if ms[k].kind == "text" then [InboundMessage(tenantId, ms[k].from, ms[k].body, ms[k].id)] else []
  {
    assert ms[..k + 1][..k] == ms[..k];
  }

  lemma AllTextsMore(tenantId: string, cs: seq<Change>, k: nat)
    requires k < |cs|
    ensures AllTexts(tenantId, cs[..k + 1]) == AllTexts(tenantId, cs[..k]) + Texts(tenantId, cs[k].messages)
  {
    assert cs[..k + 1][..k] == cs[..k];
  }

  lemma EntriesMore(tenantId: string, es: seq<seq<Change>>, k: nat)
    requires k < |es|
    ensures AllTexts(tenantId, Changes(es[..k + 1])) == AllTexts(tenantId, Changes(es[..k])) + AllTexts(tenantId, es[k])
  {
    assert es[..k + 1][..k] == es[..k];
    AllTextsConcat(tenantId, Changes(es[..k]), es[k]);
  }

  /** Where a raw message stands in the document. */
  datatype Place = Place(entry: nat, change: nat, message: nat)

  predicate Earlier(p: Place, q: Place) {
    || p.entry < q.entry
    || (p.entry == q.entry && (p.change < q.change || (p.change == q.change && p.message < q.message)))
  }

  predicate InDocument(es: seq<seq<Change>>, p: Place) {
    p.entry < |es| && p.change < |es[p.entry]| && p.message < |es[p.entry][p.change].messages|
  }

  function RawAt(es: seq<seq<Change>>, p: Place): RawMessage
    requires InDocument(es, p)
  {
    es[p.entry][p.change].messages[p.message]
  }

  predicate TextAt(es: seq<seq<Change>>, p: Place) { InDocument(es, p) && RawAt(es, p).kind == "text" }

  /** `ms` are the raw messages at the places `at`, field by field, in document order. */
  ghost predicate Lists(es: seq<seq<Change>>, at: seq<Place>, ms: seq<InboundMessage>, tenantId: string) {
    && |at| == |ms|
    && (forall i, j :: 0 <= i < j < |at| ==> Earlier(at[i], at[j]))
    && (forall i :: 0 <= i < |at| ==>
          && TextAt(es, at[i]) && ms[i].tenantId == tenantId
          && ms[i].from == RawAt(es, at[i]).from && ms[i].text == RawAt(es, at[i]).body
          && ms[i].id == RawAt(es, at[i]).id)
  }

  /** The places are those of all text messages before `q`. */
  ghost predicate UpTo(es: seq<seq<Change>>, at: seq<Place>, q: Place) {
    forall p :: p in at <==> TextAt(es, p) && Earlier(p, q)
  }

  lemma OneMoreText(es: seq<seq<Change>>, at: seq<Place>, ms: seq<InboundMessage>, tenantId: string, q: Place)
    requires Lists(es, at, ms, tenantId) && UpTo(es, at, q) && InDocument(es, q)
    ensures var raw, next := RawAt(es, q), q.(message := q.message + 1);
            if raw.kind == "text"
            then Lists(es, at + [q], ms + [InboundMessage(tenantId, raw.from, raw.body, raw.id)], tenantId)
                 && UpTo(es, at + [q], next)
            else UpTo(es, at, next)
  {
    var next := q.(message := q.message + 1);
    assert forall p :: Earlier(p, next) <==> Earlier(p, q) || p == q;
    assert forall p :: p in at + [q] <==> p in at || p == q;
    forall i | 0 <= i < |at|
      ensures Earlier(at[i], q)
    {
      assert at[i] in at;
    }
  }

  lemma ChangeDone(es: seq<seq<Change>>, at: seq<Place>, i: nat, j: nat)
    requires i < |es| && j < |es[i]| && UpTo(es, at, Place(i, j, |es[i][j].messages|))
    ensures UpTo(es, at, Place(i, j + 1, 0))
  {
    var here, next := Place(i, j, |es[i][j].messages|), Place(i, j + 1, 0);
    assert forall p :: InDocument(es, p) ==> (Earlier(p, here) <==> Earlier(p, next));
  }

  lemma EntryDone(es: seq<seq<Change>>, at: seq<Place>, i: nat)
    requires i < |es| && UpTo(es, at, Place(i, |es[i]|, 0))
    ensures UpTo(es, at, Place(i + 1, 0, 0))
  {
    var here, next := Place(i, |es[i]|, 0), Place(i + 1, 0, 0);
    assert forall p :: InDocument(es, p) ==> (Earlier(p, here) <==> Earlier(p, next));
  }

  lemma DocumentDone(es: seq<seq<Change>>, at: seq<Place>)
    requires UpTo(es, at, Place(|es|, 0, 0))
    ensures forall p :: p in at <==> TextAt(es, p)
  {
  }

  lemma NoTexts(es: seq<seq<Change>>, tenantId: string)
    ensures Lists(es, [], [], tenantId) && UpTo(es, [], Place(0, 0, 0))
  {
  }

  /** Every text message of the payload, in document order, and nothing else: one message for each place in the document
      that holds a text, with that raw message's sender, body and id. */
  method ParseMessages(tenantId: string, p: Payload) returns (messages: seq<InboundMessage>)
    ensures messages == AllTexts(tenantId, Changes(p.entries))
    ensures exists at :: Lists(p.entries, at, messages, tenantId) && forall q :: q in at <==> TextAt(p.entries, q)
  {
    hide AllTexts, Changes, Texts, Lists, UpTo, Earlier, TextAt;
    NothingYet(tenantId);
    NoTexts(p.entries, tenantId);
    messages := [];
    ghost var at: seq<Place> := [];
    for i := 0 to |p.entries|
      invariant messages == AllTexts(tenantId, Changes(p.entries[..i]))
      invariant Lists(p.entries, at, messages, tenantId) && UpTo(p.entries, at, Place(i, 0, 0))
    {
      var entry := p.entries[i];
      ghost var before := messages;
      for j := 0 to |entry|
        invariant messages == before + AllTexts(tenantId, entry[..j])
        invariant Lists(p.entries, at, messages, tenantId) && UpTo(p.entries, at, Place(i, j, 0))
      {
        ghost var sofar := messages;
        for k := 0 to |entry[j].messages|
          invariant messages == sofar + Texts(tenantId, entry[j].messages[..k])
          invariant Lists(p.entries, at, messages, tenantId) && UpTo(p.entries, at, Place(i, j, k))
        {
          var msg := entry[j].messages[k];
          TextsMore(tenantId, entry[j].messages, k);
          OneMoreText(p.entries, at, messages, tenantId, Place(i, j, k));
          if msg.kind != "text" {
            continue;
          }
          messages := messages + [InboundMessage(tenantId, msg.from, msg.body, msg.id)];
          at := at + [Place(i, j, k)];
        }
        ChangeDone(p.entries, at, i, j);
        assert entry[j].messages[..|entry[j].messages|] == entry[j].messages;
        AllTextsMore(tenantId, entry, j);
      }
      assert entry[..|entry|] == entry;
      EntriesMore(tenantId, p.entries, i);
      EntryDone(p.entries, at, i);
    }
    assert p.entries[..|p.entries|] == p.entries;
    DocumentDone(p.entries, at);
  }

  lemma NothingYet(tenantId: string)
    ensures AllTexts(tenantId, []) == [] && Texts(tenantId, []) == [] && Changes([]) == []
  {
  }

  predicate Carries(c: Change) { c.phoneNumberId.Some? && c.phoneNumberId.value != "" }

  /** The id of the first change that carries one. */
  function FirstPhone(cs: seq<Change>): Option<string> {
    if cs == [] then None
    else
      var before := FirstPhone(cs[..|cs| - 1]);
      if before.None? && Carries(cs[|cs| - 1]) then cs[|cs| - 1].phoneNumberId else before
  }

  lemma {:induction false} FirstPhoneConcat(a: seq<Change>, b: seq<Change>)
    ensures FirstPhone(a + b) == if FirstPhone(a).Some? then FirstPhone(a) else FirstPhone(b)
  {
    if b == [] {
      assert a + b == a;
    } else {
      assert (a + b)[..|a + b| - 1] == a + b[..|b| - 1];
      FirstPhoneConcat(a, b[..|b| - 1]);
    }
  }

  lemma FirstPhoneMore(cs: seq<Change>, k: nat)
    requires k < |cs| && FirstPhone(cs[..k]).None?
    ensures FirstPhone(cs[..k + 1]) == if Carries(cs[k]) then cs[k].phoneNumberId else None
  {
    assert cs[..k + 1][..k] == cs[..k];
  }

  lemma FirstPhoneOfEntries(es: seq<seq<Change>>, k: nat)
    requires k < |es| && FirstPhone(Changes(es[..k])).None?
    ensures FirstPhone(Changes(es[..k + 1])) == FirstPhone(es[k])
  {
    assert es[..k + 1][..k] == es[..k];
    FirstPhoneConcat(Changes(es[..k]), es[k]);
  }

  /** Later parts of the payload do not change the first id. */
  lemma {:induction false} FirstPhoneStays(cs: seq<Change>, k: nat)
    requires k <= |cs| && FirstPhone(cs[..k]).Some?
    ensures FirstPhone(cs) == FirstPhone(cs[..k])
  {
    assert cs == cs[..k] + cs[k..];
    FirstPhoneConcat(cs[..k], cs[k..]);
  }

  lemma {:induction false} FirstPhoneOfEntriesStays(es: seq<seq<Change>>, k: nat)
    requires k <= |es| && FirstPhone(Changes(es[..k])).Some?
    ensures FirstPhone(Changes(es)) == FirstPhone(Changes(es[..k]))
    decreases |es| - k
  {
    if k < |es| {
      assert es[..k + 1][..k] == es[..k];
      FirstPhoneConcat(Changes(es[..k]), es[k]);
      FirstPhoneOfEntriesStays(es, k + 1);
    } else {
      assert es[..k] == es;
    }
  }

  /** The first non-empty phone-number id of the payload, if there is one. */
  method ExtractPhoneNumberId(p: Payload) returns (r: Option<string>)
    ensures r == FirstPhone(Changes(p.entries))
    ensures r.None? ==>
              forall i, j :: 0 <= i < |p.entries| && 0 <= j < |p.entries[i]| ==>
                p.entries[i][j].phoneNumberId == None || p.entries[i][j].phoneNumberId == Some("")
    ensures r.Some? ==> r.value != ""
    ensures r.Some? ==>
              exists i, j :: 0 <= i < |p.entries| && 0 <= j < |p.entries[i]| && p.entries[i][j].phoneNumberId == r
                && (forall x, y :: 0 <= x < i && 0 <= y < |p.entries[x]| ==>
                      p.entries[x][y].phoneNumberId == None || p.entries[x][y].phoneNumberId == Some(""))
                && (forall y :: 0 <= y < j ==>
                      p.entries[i][y].phoneNumberId == None || p.entries[i][y].phoneNumberId == Some(""))
  {
    hide Changes, FirstPhone;
    NoPhoneYet();
    for i := 0 to |p.entries|
      invariant forall x, y :: 0 <= x < i && 0 <= y < |p.entries[x]| ==> !Carries(p.entries[x][y])
      invariant FirstPhone(Changes(p.entries[..i])).None?
    {
      ghost var entry := p.entries[i];
      FirstPhoneOfEntries(p.entries, i);
      for j := 0 to |p.entries[i]|
        invariant forall y :: 0 <= y < j ==> !Carries(p.entries[i][y])
        invariant FirstPhone(entry[..j]).None?
      {
        FirstPhoneMore(entry, j);
        if Carries(p.entries[i][j]) {
          FirstPhoneStays(entry, j + 1);
          FirstPhoneOfEntriesStays(p.entries, i + 1);
          return p.entries[i][j].phoneNumberId;
        }
      }
      assert entry[..|entry|] == entry;
    }
    assert p.entries[..|p.entries|] == p.entries;
    r := None;
  }

  lemma NoPhoneYet()
    ensures FirstPhone([]).None? && Changes([]) == []
  {
  }

  class InMemoryGateway {
    var sent: seq<Outbound>

    constructor ()
      ensures sent == []
    {
      sent := [];
    }

    method SendText(to: string, text: string, tenantId: string)
      modifies this
      ensures sent == old(sent) + [Outbound(tenantId, to, text)]
    {
      sent := sent + [Outbound(tenantId, to, text)];
    }
  }

  /** One message handled without interruption: the four steps of its turn. */
  function HandleOne(g: Setup, maxItems: int, facts: seq<Fact>, s: Conv, t: Tenant, m: InboundMessage): (r: Conv)
    requires s.turns == map[]
    ensures r.turns == map[] && r.unanswered == s.unanswered
  {
    hide TurnPrompt, BuyerId, ReplyText, Logged;
    var s1 := Apply(g, maxItems, s, Hear(0, t, m.from, m.text));
    var s2 := Apply(g, maxItems, s1, Ask(0, facts));
    var s3 := Apply(g, maxItems, s2, Answer(0));
    Apply(g, maxItems, s3, Record(0))
  }

  /** What the four steps add up to. */
  lemma HandleOneIs(g: Setup, maxItems: int, facts: seq<Fact>, s: Conv, t: Tenant, m: InboundMessage)
    requires s.turns == map[]
    ensures var b := BuyerId(t.slug, m.from);
            var heard := Logged(s.logs, b, Interaction(m.text, Buyer));
            var reply := ReplyText(g.llm(s.calls, TurnPrompt(g, heard, maxItems, facts, t, b, m.text), t.model));
            HandleOne(g, maxItems, facts, s, t, m)
            == Conv(Logged(heard, b, Interaction(reply, Agent)), s.sent + [Outbound(t.id, m.from, reply)],
                    s.calls + 1, map[], s.unanswered)
  {
    hide TurnPrompt, BuyerId, ReplyText, Logged;
  }

  function HandleAll(g: Setup, maxItems: int, facts: seq<Fact>, s: Conv, t: Tenant, ms: seq<InboundMessage>): (r: Conv)
    requires s.turns == map[]
    ensures r.turns == map[] && r.unanswered == s.unanswered
  {
    hide HandleOne;
    if ms == [] then s
    else HandleOne(g, maxItems, facts, HandleAll(g, maxItems, facts, s, t, ms[..|ms| - 1]), t, ms[|ms| - 1])
  }

  /** The tenant that a payload is for. */
  function Routed(r: Repo, p: Payload): Option<Tenant> {
    var phone := FirstPhone(Changes(p.entries));
    if phone.Some? then ByPhone(r, phone.value) else None
  }

  datatype Response = InvalidSignature | NoTenant | Received(count: nat, slug: string)

  class Endpoint {
    const repo: InMemoryTenantRepository
    const loop: Loop
    const gateway: InMemoryGateway

    constructor (repo: InMemoryTenantRepository, loop: Loop, gateway: InMemoryGateway)
      ensures this.repo == repo && this.loop == loop && this.gateway == gateway
    {
      this.repo, this.loop, this.gateway := repo, loop, gateway;
    }

    /** The conversation state that the endpoint's stores hold. */
    ghost function State(): Conv
      reads loop, loop.memory, gateway
    {
      Conv(loop.memory.logs, gateway.sent, loop.calls, map[], {})
    }

    /** One delivery. `signed` is the outcome of the HMAC check. A signed delivery is handled, for exactly the
        tenant that the payload's first phone-number id resolves to, if and only if there is such a tenant; nothing
        else has an effect. */
    method Receive(signed: bool, p: Payload) returns (r: Response)
      requires loop.memory.Valid()
      modifies loop`calls, loop.memory, gateway
      ensures loop.memory.Valid()
      ensures match (if signed then Routed(repo.byId, p) else None)
              case None => State() == old(State()) && r == if signed then NoTenant else InvalidSignature
              case Some(t) =>
                var ms := AllTexts(t.id, Changes(p.entries));
                && r == Received(|ms|, t.slug)
                && State() == HandleAll(loop.setup, loop.memory.maxItems, loop.hindsight.facts, old(State()), t, ms)
    {
      hide ByPhone, AllTexts, Changes, Carries, HandleOne, FirstPhone, Lists, TextAt, Answers;
      if !signed {
        return InvalidSignature;
      }
      var phone := ExtractPhoneNumberId(p);
      var tenant := if phone.Some? then ByPhone(repo.byId, phone.value) else None;
      if tenant.None? {
        return NoTenant;
      }
      var t := tenant.value;
      var messages := ParseMessages(t.id, p);
      for i := 0 to |messages|
        invariant loop.memory.Valid()
        invariant State() ==
                    HandleAll(loop.setup, loop.memory.maxItems, loop.hindsight.facts, old(State()), t, messages[..i])
      {
        assert messages[..i + 1][..i] == messages[..i];
        HandleMessage(t, messages[i]);
      }
      assert messages[..|messages|] == messages;
      r := Received(|messages|, t.slug);
    }

    /** The body of the message loop. */
    method HandleMessage(t: Tenant, msg: InboundMessage)
      requires loop.memory.Valid()
      modifies loop`calls, loop.memory, gateway
      ensures loop.memory.Valid()
      ensures State() == HandleOne(loop.setup, loop.memory.maxItems, loop.hindsight.facts, old(State()), t, msg)
      ensures |gateway.sent| == |old(gateway.sent)| + 1
              && var o := gateway.sent[|old(gateway.sent)|];
                 && o.tenantId == t.id && o.to == msg.from
                 && Answers(loop.setup, loop.memory.maxItems, loop.hindsight.facts, old(State()), t, msg, o.body)
    {
      hide HandleOne, TurnPrompt, BuyerId, Logged, LogOf, Answers;
      ghost var body := OneMessage(loop.setup, loop.memory.maxItems, loop.hindsight.facts, State(), t, msg);
      HandleOneIs(loop.setup, loop.memory.maxItems, loop.hindsight.facts, State(), t, msg);
      var bid := BuyerId(t.slug, msg.from);
      loop.memory.Remember(bid, Interaction(msg.text, Buyer));
      var turn := loop.Respond(t, bid, msg.text);
      var reply := if turn.Responded? then turn.turn.reply else FALLBACK;
      gateway.SendText(msg.from, reply, t.id);
      loop.memory.Remember(bid, Interaction(reply, Agent));
    }
  }

  // ----- Uninterrupted handling is an exclusive run --------------------------------------------------------

  /** Handling one message without interruption keeps the conversation invariant, so every delivery does that holds no
      message of a buyer who is owed a reply. */
  lemma {:induction false} DeliveriesKeepConversations(
    slugs: map<string, string>, g: Setup, maxItems: int, facts: seq<Fact>, s: Conv, t: Tenant, ms: seq<InboundMessage>)
    requires Directory(slugs) && ConvInv(slugs, s) && s.turns == map[] && Listed(slugs, t)
    requires forall i :: 0 <= i < |ms| ==> BuyerId(t.slug, ms[i].from) !in s.unanswered
    ensures ConvInv(slugs, HandleAll(g, maxItems, facts, s, t, ms))
    decreases |ms|
  {
    hide ConvInv, Directory, HandleOne, Listed, BuyerId;
    if ms != [] {
      DeliveriesKeepConversations(slugs, g, maxItems, facts, s, t, ms[..|ms| - 1]);
      OneKeeps(slugs, g, maxItems, facts, HandleAll(g, maxItems, facts, s, t, ms[..|ms| - 1]), t, ms[|ms| - 1]);
    }
  }

  lemma OneKeeps(
    slugs: map<string, string>, g: Setup, maxItems: int, facts: seq<Fact>, s: Conv, t: Tenant, m: InboundMessage)
    requires Directory(slugs) && ConvInv(slugs, s) && s.turns == map[] && Listed(slugs, t)
    requires BuyerId(t.slug, m.from) !in s.unanswered
    ensures ConvInv(slugs, HandleOne(g, maxItems, facts, s, t, m))
  {
    hide ConvInv, TurnPrompt, Logged, ReplyText, BuyerId;
    var s1 := Apply(g, maxItems, s, Hear(0, t, m.from, m.text));
    StepKeeps(slugs, g, maxItems, s, Hear(0, t, m.from, m.text));
    var s2 := Apply(g, maxItems, s1, Ask(0, facts));
    StepKeeps(slugs, g, maxItems, s1, Ask(0, facts));
    var s3 := Apply(g, maxItems, s2, Answer(0));
    StepKeeps(slugs, g, maxItems, s2, Answer(0));
    StepKeeps(slugs, g, maxItems, s3, Record(0));
  }

  /** `body` is what the model makes of the message: its answer to the prompt that is read off the buyer's log with the
      message remembered and the tenant's facts, or the apology exactly when the model fails. */
  ghost predicate Answers(
    g: Setup, maxItems: int, facts: seq<Fact>, s: Conv, t: Tenant, m: InboundMessage, body: string)
  {
    var b := BuyerId(t.slug, m.from);
    var heard := Logged(s.logs, b, Interaction(m.text, Buyer));
    Conveys(g.llm(s.calls, TurnPrompt(g, heard, maxItems, facts, t, b, m.text), t.model), body)
  }

  /** What one uninterrupted message does: one send of what the model makes of it, and one buyer/agent pair with the
      sent text. */
  lemma OneMessage(g: Setup, maxItems: int, facts: seq<Fact>, s: Conv, t: Tenant, m: InboundMessage)
    returns (reply: string)
    requires s.turns == map[]
    ensures var r := HandleOne(g, maxItems, facts, s, t, m); var b := BuyerId(t.slug, m.from);
            && Answers(g, maxItems, facts, s, t, m, reply)
            && r.sent == s.sent + [Outbound(tenantId := t.id, to := m.from, body := reply)] && r.calls == s.calls + 1
            && LogOf(r.logs, b) == LogOf(s.logs, b) + [Interaction(m.text, Buyer)] + [Interaction(reply, Agent)]
            && forall c :: c != b ==> LogOf(r.logs, c) == LogOf(s.logs, c)
  {
    hide HandleOne, TurnPrompt, BuyerId, ReplyText, Logged, LogOf, Conveys;
    var b := BuyerId(t.slug, m.from);
    var heard := Logged(s.logs, b, Interaction(m.text, Buyer));
    var outcome := g.llm(s.calls, TurnPrompt(g, heard, maxItems, facts, t, b, m.text), t.model);
    reply := ReplyText(outcome);
    ReplyConveys(outcome);
    HandleOneIs(g, maxItems, facts, s, t, m);
    LoggedElsewhere(s.logs, b, Interaction(m.text, Buyer));
    LoggedElsewhere(heard, b, Interaction(reply, Agent));
  }

  /** Each message's sender gets the send at the message's place, under the tenant's id. */
  predicate Addressed(sent: seq<Outbound>, ms: seq<InboundMessage>, tenantId: string) {
    |sent| == |ms| && forall i :: 0 <= i < |ms| ==> sent[i].to == ms[i].from && sent[i].tenantId == tenantId
  }

  lemma NothingHandled(g: Setup, maxItems: int, facts: seq<Fact>, s: Conv, t: Tenant)
    requires s.turns == map[]
    ensures HandleAll(g, maxItems, facts, s, t, []) == s
  {
  }

  lemma LastHandled(g: Setup, maxItems: int, facts: seq<Fact>, s: Conv, t: Tenant, ms: seq<InboundMessage>)
    requires s.turns == map[] && ms != []
    ensures HandleAll(g, maxItems, facts, s, t, ms)
            == HandleOne(g, maxItems, facts, HandleAll(g, maxItems, facts, s, t, ms[..|ms| - 1]), t, ms[|ms| - 1])
  {
    hide HandleOne;
  }

  /** Sends match parsed messages one for one, in order: the `i`-th message's sender gets the `i`-th new reply,
      under the tenant's id, and the same text ends that buyer's conversation. */
  lemma {:induction false} SendsMatchMessages(
    g: Setup, maxItems: int, facts: seq<Fact>, s: Conv, t: Tenant, ms: seq<InboundMessage>)
    requires s.turns == map[]
    ensures var r := HandleAll(g, maxItems, facts, s, t, ms);
            && |r.sent| == |s.sent| + |ms| && s.sent <= r.sent && r.calls == s.calls + |ms|
            && Addressed(r.sent[|s.sent|..], ms, t.id)
    ensures ms != [] ==>
              var r := HandleAll(g, maxItems, facts, s, t, ms);
              var log := LogOf(r.logs, BuyerId(t.slug, ms[|ms| - 1].from));
              |log| >= 2 && log[|log| - 2] == Interaction(ms[|ms| - 1].text, Buyer)
              && log[|log| - 1] == Interaction(r.sent[|r.sent| - 1].body, Agent)
    decreases |ms|
  {
    hide HandleAll, HandleOne, BuyerId, LogOf, Answers;
    if ms == [] {
      NothingHandled(g, maxItems, facts, s, t);
    } else {
      var k := |ms| - 1;
      LastHandled(g, maxItems, facts, s, t, ms);
      SendsMatchMessages(g, maxItems, facts, s, t, ms[..k]);
      var r0 := HandleAll(g, maxItems, facts, s, t, ms[..k]);
      var reply := OneMessage(g, maxItems, facts, r0, t, ms[k]);
      var r := HandleAll(g, maxItems, facts, s, t, ms);
      assert r.sent == r0.sent + [Outbound(t.id, ms[k].from, reply)];
      assert r.sent[|s.sent|..] == r0.sent[|s.sent|..] + [Outbound(t.id, ms[k].from, reply)];
      assert ms == ms[..k] + [ms[k]];
    }
  }

  lemma {:induction false} SendsGrow(
    g: Setup, maxItems: int, facts: seq<Fact>, s: Conv, t: Tenant, ms: seq<InboundMessage>, k: nat)
    requires s.turns == map[] && k <= |ms|
    ensures HandleAll(g, maxItems, facts, s, t, ms[..k]).sent <= HandleAll(g, maxItems, facts, s, t, ms).sent
    decreases |ms|
  {
    hide HandleAll, HandleOne, BuyerId, LogOf, Answers;
    if k == |ms| {
      assert ms[..k] == ms;
    } else {
      LastHandled(g, maxItems, facts, s, t, ms);
      SendsGrow(g, maxItems, facts, s, t, ms[..|ms| - 1], k);
      assert ms[..|ms| - 1][..k] == ms[..k];
      var r := OneMessage(g, maxItems, facts, HandleAll(g, maxItems, facts, s, t, ms[..|ms| - 1]), t, ms[|ms| - 1]);
    }
  }

  /** In a delivery the `i`-th body sent is what the model makes of the `i`-th message, asked in the state that the
      messages before it leave; it goes to that message's sender under the tenant's id. */
  lemma BodiesAreAnswers(
    g: Setup, maxItems: int, facts: seq<Fact>, s: Conv, t: Tenant, ms: seq<InboundMessage>, i: nat)
    requires s.turns == map[] && i < |ms|
    ensures var r, before := HandleAll(g, maxItems, facts, s, t, ms), HandleAll(g, maxItems, facts, s, t, ms[..i]);
            && |s.sent| + i < |r.sent| && before.calls == s.calls + i
            && r.sent[|s.sent| + i].to == ms[i].from && r.sent[|s.sent| + i].tenantId == t.id
            && Answers(g, maxItems, facts, before, t, ms[i], r.sent[|s.sent| + i].body)
  {
    hide HandleAll, HandleOne, BuyerId, LogOf, Answers;
    var before := HandleAll(g, maxItems, facts, s, t, ms[..i]);
    SendsMatchMessages(g, maxItems, facts, s, t, ms[..i]);
    LastHandled(g, maxItems, facts, s, t, ms[..i + 1]);
    assert ms[..i + 1][..i] == ms[..i];
    var reply := OneMessage(g, maxItems, facts, before, t, ms[i]);
    SendsGrow(g, maxItems, facts, s, t, ms, i + 1);
    var early := HandleAll(g, maxItems, facts, s, t, ms[..i + 1]).sent;
    assert early[|s.sent| + i] == Outbound(t.id, ms[i].from, reply);
  }

  /** Other tenants' facts do not show in a delivery: on two stores that hold the same facts of the tenant, in the same
      order, it leaves the same logs, sends and model calls. */
  lemma {:induction false} OwnFactsDecideDeliveries(
    g: Setup, maxItems: int, a: seq<Fact>, b: seq<Fact>, s: Conv, t: Tenant, ms: seq<InboundMessage>)
    requires s.turns == map[] && Scope(a, Some(t.id)) == Scope(b, Some(t.id))
    ensures HandleAll(g, maxItems, a, s, t, ms) == HandleAll(g, maxItems, b, s, t, ms)
    decreases |ms|
  {
    hide HandleAll, HandleOne, Scope;
    if ms == [] {
      NothingHandled(g, maxItems, a, s, t);
      NothingHandled(g, maxItems, b, s, t);
    } else {
      LastHandled(g, maxItems, a, s, t, ms);
      LastHandled(g, maxItems, b, s, t, ms);
      OwnFactsDecideDeliveries(g, maxItems, a, b, s, t, ms[..|ms| - 1]);
      OwnFactsDecideOne(g, maxItems, a, b, HandleAll(g, maxItems, a, s, t, ms[..|ms| - 1]), t, ms[|ms| - 1]);
    }
  }

  lemma OwnFactsDecideOne(
    g: Setup, maxItems: int, a: seq<Fact>, b: seq<Fact>, s: Conv, t: Tenant, m: InboundMessage)
    requires s.turns == map[] && Scope(a, Some(t.id)) == Scope(b, Some(t.id))
    ensures HandleOne(g, maxItems, a, s, t, m) == HandleOne(g, maxItems, b, s, t, m)
  {
    hide HandleOne, Scope, TurnPrompt, Cited, BuyerId, Logged, ReplyText;
    var buyer := BuyerId(t.slug, m.from);
    OwnFactsDecide(g, Logged(s.logs, buyer, Interaction(m.text, Buyer)), maxItems, a, b, t, buyer, m.text);
    HandleOneIs(g, maxItems, a, s, t, m);
    HandleOneIs(g, maxItems, b, s, t, m);
  }

  function Bodies(sent: seq<Outbound>): (bs: seq<string>)
    ensures |bs| == |sent|
  {
    if sent == [] then [] else Bodies(sent[..|sent| - 1]) + [sent[|sent| - 1].body]
  }

  /** The buyer/agent pairs that messages and the bodies sent for them add to the conversation of `b`. */
  function Exchanges(slug: string, ms: seq<InboundMessage>, bodies: seq<string>, b: string): seq<Interaction>
    requires |ms| == |bodies|
  {
    if ms == [] then []
    else
      var k := |ms| - 1;
      Exchanges(slug, ms[..k], bodies[..k], b)
      + if BuyerId(slug, ms[k].from) == b then [Interaction(ms[k].text, Buyer), Interaction(bodies[k], Agent)] else []
  }

  /** What a delivery does to every conversation: it gains one pair for each of its messages, in order, whose agent
      turn is the body that was sent for that message, and nothing else. */
  lemma {:induction false} ConversationsGainExchanges(
    g: Setup, maxItems: int, facts: seq<Fact>, s: Conv, t: Tenant, ms: seq<InboundMessage>, b: string)
    requires s.turns == map[]
    ensures var r := HandleAll(g, maxItems, facts, s, t, ms);
            && |r.sent| == |s.sent| + |ms| && s.sent <= r.sent
            && LogOf(r.logs, b) == LogOf(s.logs, b) + Exchanges(t.slug, ms, Bodies(r.sent[|s.sent|..]), b)
    decreases |ms|
  {
    hide HandleAll, HandleOne, BuyerId, LogOf, Bodies, Exchanges, Answers;
    if ms == [] {
      NothingHandled(g, maxItems, facts, s, t);
      assert s.sent[|s.sent|..] == [];
      NoExchanges(t.slug, b);
    } else {
      var k := |ms| - 1;
      LastHandled(g, maxItems, facts, s, t, ms);
      ConversationsGainExchanges(g, maxItems, facts, s, t, ms[..k], b);
      var r0 := HandleAll(g, maxItems, facts, s, t, ms[..k]);
      var reply := OneMessage(g, maxItems, facts, r0, t, ms[k]);
      var o := Outbound(t.id, ms[k].from, reply);
      assert (r0.sent + [o])[|s.sent|..] == r0.sent[|s.sent|..] + [o];
      ExchangesMore(t.slug, ms, r0.sent[|s.sent|..], o, b);
    }
  }

  lemma NoExchanges(slug: string, b: string)
    ensures Bodies([]) == [] && Exchanges(slug, [], [], b) == []
  {
  }

  lemma ExchangesMore(slug: string, ms: seq<InboundMessage>, sent: seq<Outbound>, o: Outbound, b: string)
    requires |ms| == |sent| + 1
    ensures var k := |ms| - 1;
            Exchanges(slug, ms, Bodies(sent + [o]), b) == Exchanges(slug, ms[..k], Bodies(sent), b)
            + if BuyerId(slug, ms[k].from) == b
              then [Interaction(ms[k].text, Buyer), Interaction(o.body, Agent)] else []
  {
    assert (sent + [o])[..|sent|] == sent;
    assert Bodies(sent + [o])[..|sent|] == Bodies(sent);
  }

  /** A delivery for one tenant leaves every conversation of every other tenant, and of every other number, as it
      was. */
  lemma {:induction false} DeliveriesAreIsolated(
    g: Setup, maxItems: int, facts: seq<Fact>, s: Conv, t: Tenant, ms: seq<InboundMessage>, slug: string, n: string)
    requires s.turns == map[] && ColonFree(slug) && ColonFree(t.slug)
    requires slug != t.slug || forall i :: 0 <= i < |ms| ==> ms[i].from != n
    ensures LogOf(HandleAll(g, maxItems, facts, s, t, ms).logs, BuyerId(slug, n)) == LogOf(s.logs, BuyerId(slug, n))
    decreases |ms|
  {
    hide HandleOne, ColonFree, LogOf;
    if ms != [] {
      var m := ms[|ms| - 1];
      DeliveriesAreIsolated(g, maxItems, facts, s, t, ms[..|ms| - 1], slug, n);
      var reply := OneMessage(g, maxItems, facts, HandleAll(g, maxItems, facts, s, t, ms[..|ms| - 1]), t, m);
      if BuyerId(slug, n) == BuyerId(t.slug, m.from) { BuyerIdsDetermine(slug, n, t.slug, m.from); }
      hide BuyerId;
    }
  }
}
