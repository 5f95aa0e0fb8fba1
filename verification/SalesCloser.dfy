/** The sales-closer stage machine and the exact languages of its runs. */
module SalesCloser {
  import opened PyText

  datatype Stage = IDENTIFY | PRESENT | OBJECTIONS | CONFIRM | NOTIFY | CLOSED | ESCALATED

  predicate HasAny(msg: string, words: seq<string>) { exists w :: w in words && Contains(msg, w) }

  const DOUBT := ["no", "caro", "otro", "alternativa"]
  const ESCALATE := ["escalar", "humano", "hablar con"]
  const BUY := ["ok", "s\U{ed}", "si", "compro", "quiero", "dame"]
  const PAID := ["pagado", "transfer\U{ed}", "ok", "listo"]

  predicate Doubts(m: string, lower: Lowering) { HasAny(Lower(m, lower), DOUBT) }
  predicate Escalates(m: string, lower: Lowering) { HasAny(Lower(m, lower), ESCALATE) }
  predicate Buys(m: string, lower: Lowering) { HasAny(Lower(m, lower), BUY) }
  predicate Pays(m: string, lower: Lowering) { HasAny(Lower(m, lower), PAID) }

  function Transition(current: Stage, m: string, lower: Lowering): Stage {
    match current
    case IDENTIFY => PRESENT
    case PRESENT => if Doubts(m, lower) then OBJECTIONS else CONFIRM
    case OBJECTIONS =>
      // Escalation signals win over buy signals.
      if Escalates(m, lower) then ESCALATED else if Buys(m, lower) then CONFIRM else OBJECTIONS
    case CONFIRM => if Pays(m, lower) then NOTIFY else CONFIRM
    case NOTIFY => CLOSED
    case _ => current
  }

  /** The stage after a conversation, one invocation a message, each fed the previous answer. */
  function RunFrom(s: Stage, ms: seq<string>, lower: Lowering): Stage {
    if ms == [] then s else Transition(RunFrom(s, ms[..|ms| - 1], lower), ms[|ms| - 1], lower)
  }

  lemma RunMore(s: Stage, ms: seq<string>, k: nat, lower: Lowering)
    requires k < |ms|
    ensures RunFrom(s, ms[..k + 1], lower) == Transition(RunFrom(s, ms[..k], lower), ms[k], lower)
  {
    assert ms[..k + 1][..k] == ms[..k];
  }

  /** The objections block: messages 2 to `j - 1` escalate nothing, and message `j` buys and does not escalate. */
  ghost predicate WonOver(ms: seq<string>, j: nat, lower: Lowering) {
    && 2 <= j < |ms| && Doubts(ms[1], lower) && Buys(ms[j], lower)
    && forall x :: 2 <= x <= j ==> !Escalates(ms[x], lower)
  }

  /** An escalation word at `j` before any buying message. */
  ghost predicate LostAt(ms: seq<string>, j: nat, lower: Lowering) {
    && 2 <= j < |ms| && Doubts(ms[1], lower) && Escalates(ms[j], lower)
    && forall x :: 2 <= x < j ==> !Escalates(ms[x], lower) && !Buys(ms[x], lower)
  }

  /** Within the first `n` messages the buyer agreed: at once on the second message, or after objections. */
  ghost predicate Agreed(ms: seq<string>, n: nat, lower: Lowering) {
    && 2 <= n <= |ms|
    && (!Doubts(ms[1], lower) || exists j :: 2 <= j < n && WonOver(ms, j, lower))
  }

  /** Within the first `n` messages the buyer agreed and a later message said that the payment was made. */
  ghost predicate Paid(ms: seq<string>, n: nat, lower: Lowering) {
    n <= |ms| && exists k :: 2 <= k < n && Agreed(ms, k, lower) && Pays(ms[k], lower)
  }

  ghost predicate Lost(ms: seq<string>, n: nat, lower: Lowering) {
    exists j :: 2 <= j < n && LostAt(ms, j, lower)
  }

  lemma LostIsNotAgreed(ms: seq<string>, n: nat, m: nat, lower: Lowering)
    ensures !(Lost(ms, n, lower) && Agreed(ms, m, lower))
  {
  }

  lemma AgreedGrows(ms: seq<string>, n: nat, lower: Lowering)
    requires 2 <= n < |ms|
    ensures Agreed(ms, n + 1, lower) <==> Agreed(ms, n, lower) || WonOver(ms, n, lower)
  {
  }

  lemma PaidGrows(ms: seq<string>, n: nat, lower: Lowering)
    requires n < |ms|
    ensures Paid(ms, n + 1, lower) <==> Paid(ms, n, lower) || (Agreed(ms, n, lower) && Pays(ms[n], lower))
  {
  }

  /** Which stage the first `n` messages lead to, said without running the machine. */
  ghost function StageAfter(ms: seq<string>, n: nat, lower: Lowering): Stage
    requires n <= |ms|
  {
    if n == 0 then IDENTIFY
    else if n == 1 then PRESENT
    else if Paid(ms, n - 1, lower) then CLOSED
    else if Paid(ms, n, lower) then NOTIFY
    else if Agreed(ms, n, lower) then CONFIRM
    else if Lost(ms, n, lower) then ESCALATED
    else OBJECTIONS
  }

  lemma PaidAgreed(ms: seq<string>, n: nat, lower: Lowering)
    requires Paid(ms, n, lower)
    ensures Agreed(ms, n, lower)
  {
    var k :| 2 <= k < n && Agreed(ms, k, lower) && Pays(ms[k], lower);
    if Doubts(ms[1], lower) {
      var j :| 2 <= j < k && WonOver(ms, j, lower);
      assert j < n;
    }
  }

  /** While objections last, no message so far escalated or bought. */
  lemma {:induction false} StillObjecting(ms: seq<string>, n: nat, lower: Lowering)
    requires 2 <= n <= |ms| && !Agreed(ms, n, lower) && !Lost(ms, n, lower)
    ensures Doubts(ms[1], lower)
    ensures forall x :: 2 <= x < n ==> !Escalates(ms[x], lower) && !Buys(ms[x], lower)
  {
    if n > 2 {
      StillObjecting(ms, n - 1, lower);
      assert !LostAt(ms, n - 1, lower) && !WonOver(ms, n - 1, lower);
    }
  }

  lemma StageStep(ms: seq<string>, n: nat, lower: Lowering)
    requires 2 <= n < |ms|
    ensures StageAfter(ms, n + 1, lower) == Transition(StageAfter(ms, n, lower), ms[n], lower)
  {
    hide Doubts, Escalates, Buys, Pays, Agreed, Paid;
    AgreedGrows(ms, n, lower);
    PaidGrows(ms, n - 1, lower);
    PaidGrows(ms, n, lower);
    LostIsNotAgreed(ms, n, n, lower);
    LostIsNotAgreed(ms, n + 1, n + 1, lower);
    if Paid(ms, n, lower) { PaidAgreed(ms, n, lower); }
    if !Agreed(ms, n, lower) {
      if Lost(ms, n, lower) {
        assert Lost(ms, n + 1, lower);
      } else {
        StillObjecting(ms, n, lower);
        assert LostAt(ms, n, lower) <==> Escalates(ms[n], lower);
        assert WonOver(ms, n, lower) <==> Buys(ms[n], lower) && !Escalates(ms[n], lower);
      }
    }
  }

  /** Every run of the machine, from any prefix of the conversation, ends in the stage the languages name. */
  lemma {:induction false} StageIs(ms: seq<string>, n: nat, lower: Lowering)
    requires n <= |ms|
    ensures RunFrom(IDENTIFY, ms[..n], lower) == StageAfter(ms, n, lower)
  {
    if n > 0 {
      StageIs(ms, n - 1, lower);
      RunMore(IDENTIFY, ms, n - 1, lower);
      if n > 2 { StageStep(ms, n - 1, lower); }
    }
  }

  /** A sale closes exactly on an opener, a second message that either does not doubt or opens an objections block won
      without an escalation word, then a payment message, and at least one message after that payment. */
  lemma {:induction false} ClosedIff(ms: seq<string>, lower: Lowering)
    ensures RunFrom(IDENTIFY, ms, lower) == CLOSED
       <==> exists k :: 2 <= k < |ms| - 1 && Agreed(ms, k, lower) && Pays(ms[k], lower)
  {
    hide *;
    assert ms[..|ms|] == ms;
    StageIs(ms, |ms|, lower);
    ClosedAfter(ms, lower);
  }

  lemma ClosedAfter(ms: seq<string>, lower: Lowering)
    ensures StageAfter(ms, |ms|, lower) == CLOSED
       <==> exists k :: 2 <= k < |ms| - 1 && Agreed(ms, k, lower) && Pays(ms[k], lower)
  {
    hide RunFrom, Agreed, Pays, Lost;
  }

  /** A sale escalates exactly when, after a doubting second message, an escalation word comes no later than the first
      buying message. */
  lemma {:induction false} EscalatedIff(ms: seq<string>, lower: Lowering)
    ensures RunFrom(IDENTIFY, ms, lower) == ESCALATED <==> exists j :: 2 <= j < |ms| && LostAt(ms, j, lower)
  {
    assert ms[..|ms|] == ms;
    hide RunFrom, Agreed, Paid, LostAt;
    StageIs(ms, |ms|, lower);
    LostIsNotAgreed(ms, |ms|, |ms|, lower);
    if |ms| >= 2 && Paid(ms, |ms|, lower) { PaidAgreed(ms, |ms|, lower); }
    if |ms| >= 2 && Paid(ms, |ms| - 1, lower) {
      PaidGrows(ms, |ms| - 1, lower);
      PaidAgreed(ms, |ms|, lower);
    }
  }

  /** How far along the funnel a stage is; the two final stages share the top. */
  function Rank(s: Stage): nat {
    match s
    case IDENTIFY => 0
    case PRESENT => 1
    case OBJECTIONS => 2
    case CONFIRM => 3
    case NOTIFY => 4
    case _ => 5
  }

  /** How many of the messages changed the stage. */
  function Changes(s: Stage, ms: seq<string>, lower: Lowering): nat {
    if ms == [] then 0
    else
      var before := RunFrom(s, ms[..|ms| - 1], lower);
      Changes(s, ms[..|ms| - 1], lower) + (if RunFrom(s, ms, lower) != before then 1 else 0)
  }

  /** From any stage, no message moves a conversation back: each change of stage climbs, so five changes are the most
      that any conversation sees. */
  lemma {:induction false} RunsOnlyClimb(s: Stage, ms: seq<string>, lower: Lowering)
    ensures Rank(s) + Changes(s, ms, lower) <= Rank(RunFrom(s, ms, lower)) <= 5
  {
    hide HasAny;
    if ms != [] { RunsOnlyClimb(s, ms[..|ms| - 1], lower); }
  }

  function Name(s: Stage): string {
    match s
    case IDENTIFY => "IDENTIFY"
    case PRESENT => "PRESENT"
    case OBJECTIONS => "OBJECTIONS"
    case CONFIRM => "CONFIRM"
    case NOTIFY => "NOTIFY"
    case CLOSED => "CLOSED"
    case ESCALATED => "ESCALATED"
  }

  /** Upper case of one ASCII character. */
  function UpperChar(c: char): char { if 'a' <= c <= 'z' then c - 'a' + 'A' else c }

  /** How Python upper-cases text; as for `Lower`, `other` supplies the non-ASCII characters. */
  function UpperFrom(s: string, i: nat, other: Lowering): string
    requires i <= |s|
    decreases |s| - i
  {
    if i == |s| then ""
    else (if s[i] < '\U{80}' then [UpperChar(s[i])] else other(s, i)) + UpperFrom(s, i + 1, other)
  }

  /** `Stage(name)`, which raises on a name that no stage has. */
  function Parse(name: string): (r: Option<Stage>)
    ensures r.Some? ==> Name(r.value) == name
    ensures r.None? ==> forall s :: Name(s) != name
  {
    if name == "IDENTIFY" then Some(IDENTIFY)
    else if name == "PRESENT" then Some(PRESENT)
    else if name == "OBJECTIONS" then Some(OBJECTIONS)
    else if name == "CONFIRM" then Some(CONFIRM)
    else if name == "NOTIFY" then Some(NOTIFY)
    else if name == "CLOSED" then Some(CLOSED)
    else if name == "ESCALATED" then Some(ESCALATED)
    else None
  }

  datatype SkillResult =
    | Ok(currentStage: string, nextStage: string, isTerminal: bool, needsEscalation: bool)
    | Fail(error: string)

  /** One invocation of the skill; a missing parameter and an empty one are both replaced by the default. */
  function Execute(stage: Option<string>, message: Option<string>, upper: Lowering, lower: Lowering): SkillResult {
    var raw := UpperFrom(if stage.Some? && stage.value != "" then stage.value else "IDENTIFY", 0, upper);
    match Parse(raw)
    case None => Fail("invalid stage: " + raw)
    case Some(current) =>
      var next := Transition(current, if message.Some? then message.value else "", lower);
      Ok(Name(current), Name(next), next in {CLOSED, ESCALATED}, next == ESCALATED)
  }

  /** A caller that hands each answer's `next_stage` back as the next call's `current_stage`. */
  function Conversation(ms: seq<string>, upper: Lowering, lower: Lowering): SkillResult
    requires ms != []
  {
    var m := Some(ms[|ms| - 1]);
    if |ms| == 1 then Execute(None, m, upper, lower)
    else
      match Conversation(ms[..|ms| - 1], upper, lower)
      case Ok(_, next, _, _) => Execute(Some(next), m, upper, lower)
      case Fail(e) => Fail(e)
  }

  lemma {:induction false} UpperKeepsCapitals(s: string, i: nat, other: Lowering)
    requires i <= |s| && forall k :: 0 <= k < |s| ==> 'A' <= s[k] <= 'Z'
    ensures UpperFrom(s, i, other) == s[i..]
    decreases |s| - i
  {
    if i < |s| { UpperKeepsCapitals(s, i + 1, other); }
  }

  lemma NamedStage(s: Stage, m: string, upper: Lowering, lower: Lowering)
    ensures Name(s) != ""
    ensures var next := Transition(s, m, lower);
      Execute(Some(Name(s)), Some(m), upper, lower)
      == Ok(Name(s), Name(next), next in {CLOSED, ESCALATED}, next == ESCALATED)
  {
    hide HasAny, UpperFrom, Transition;
    UpperKeepsCapitals(Name(s), 0, upper);
    assert Name(s)[0..] == Name(s);
    assert Parse(Name(s)) == Some(s);
  }

  /** The stage names survive the trip through strings, so a caller that feeds the answers back never sees a failure,
      follows the machine's run, and is told the truth about where that run stands. */
  lemma {:induction false} FeedingBackIsARun(ms: seq<string>, upper: Lowering, lower: Lowering)
    requires ms != []
    ensures var before, after := RunFrom(IDENTIFY, ms[..|ms| - 1], lower), RunFrom(IDENTIFY, ms, lower);
      Conversation(ms, upper, lower) == Ok(Name(before), Name(after), after in {CLOSED, ESCALATED}, after == ESCALATED)
  {
    hide Transition, Name, Execute;
    var before, m := RunFrom(IDENTIFY, ms[..|ms| - 1], lower), ms[|ms| - 1];
    NamedStage(before, m, upper, lower);
    if |ms| > 1 {
      FeedingBackIsARun(ms[..|ms| - 1], upper, lower);
    } else {
      NoStageIsIdentify(m, upper, lower);
    }
  }

  /** A call without a stage starts at the first one. */
  lemma NoStageIsIdentify(m: string, upper: Lowering, lower: Lowering)
    ensures Execute(None, Some(m), upper, lower) == Execute(Some(Name(IDENTIFY)), Some(m), upper, lower)
  {
    hide UpperFrom, Transition;
  }

  lemma OkMovesOn(lower: Lowering)
    ensures Buys("ok", lower) && Pays("ok", lower)
  {
    var m := "ok";
    assert LowerFrom(m, 2, lower) == "";
    assert LowerFrom(m, 1, lower) == "k";
    assert Lower(m, lower) == m;
    assert StandsAt(m, 0, m) && Contains(m, m);
    assert BUY[0] == m && PAID[2] == m;
  }

  /** No later sequence of messages leaves this stage. */
  ghost predicate Over(s: Stage, lower: Lowering) { forall ms: seq<string> :: RunFrom(s, ms, lower) == s }

  /** A conversation is over, for every later sequence of messages, exactly in the two stages reported as terminal. */
  lemma TerminalIff(s: Stage, lower: Lowering)
    ensures s in {CLOSED, ESCALATED} <==> Over(s, lower)
  {
    if s in {CLOSED, ESCALATED} {
      forall ms: seq<string> ensures RunFrom(s, ms, lower) == s { StaysFinal(s, ms, lower); }
    } else if Over(s, lower) {
      OkMovesOn(lower);
      assert RunFrom(s, ["ok"], lower) == Transition(s, "ok", lower) by { assert ["ok"][..0] == []; }
      assert false;
    }
  }

  lemma {:induction false} StaysFinal(s: Stage, ms: seq<string>, lower: Lowering)
    requires s in {CLOSED, ESCALATED}
    ensures RunFrom(s, ms, lower) == s
  {
    if ms != [] { StaysFinal(s, ms[..|ms| - 1], lower); }
  }
}
