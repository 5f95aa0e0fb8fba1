/** The sales closer from outside: which words, in which spelling, move a conversation. */
module SalesWords {
  import opened PyText
  import opened Alphabets
  import opened SalesCloser

  // ----- Words in the lower-cased message ----------------------------------------------------------------

  /** From `i` on the message spells `lit`: an ASCII letter in either case, another character as what it lower-cases
      to. */
  predicate Spells(m: string, i: nat, lit: string, lower: Lowering) {
    && i + |lit| <= |m|
    && forall j :: 0 <= j < |lit| ==>
         if m[i + j] < '\U{80}' then CaseOf(m[i + j], lit[j]) else lower(m, i + j) == [lit[j]]
  }

  lemma {:induction false} LowerSplits(m: string, i: nat, k: nat, lower: Lowering) returns (a: string)
    requires i <= k <= |m|
    ensures LowerFrom(m, i, lower) == a + LowerFrom(m, k, lower)
    decreases k - i
  {
    hide LowerChar;
    if i == k {
      a := "";
    } else {
      var rest := LowerSplits(m, i + 1, k, lower);
      a := (if m[i] < '\U{80}' then [LowerChar(m[i])] else lower(m, i)) + rest;
    }
  }

  lemma LowerStep(m: string, i: nat, lower: Lowering)
    requires i < |m|
    ensures LowerFrom(m, i, lower) ==
            (if m[i] < '\U{80}' then [LowerChar(m[i])] else lower(m, i)) + LowerFrom(m, i + 1, lower)
  {
  }

  lemma SpelledChar(m: string, i: nat, lit: string, j: nat, lower: Lowering)
    requires Spells(m, i, lit, lower) && NoCapitals(lit) && j < |lit|
    ensures i + j < |m| && (if m[i + j] < '\U{80}' then [LowerChar(m[i + j])] else lower(m, i + j)) == [lit[j]]
  {
    hide CaseOf, LowerChar;
    CaseOfIs(m[i + j], lit[j]);
  }

  lemma {:induction false} SpelledHere(m: string, i: nat, lit: string, j: nat, lower: Lowering)
    requires Spells(m, i, lit, lower) && NoCapitals(lit) && j <= |lit| && i + |lit| <= |m|
    ensures LowerFrom(m, i + j, lower) == lit[j..] + LowerFrom(m, i + |lit|, lower)
    decreases |lit| - j
  {
    hide Spells, NoCapitals, LowerFrom, LowerChar;
    if j < |lit| {
      LowerStep(m, i + j, lower);
      SpelledChar(m, i, lit, j, lower);
      SpelledHere(m, i, lit, j + 1, lower);
      assert lit[j..] == [lit[j]] + lit[j + 1..];
    }
  }

  /** A word that the message spells, wherever and with whatever around it, is found. */
  lemma SpelledIsFound(m: string, i: nat, lit: string, lower: Lowering)
    requires Spells(m, i, lit, lower) && NoCapitals(lit)
    ensures Contains(Lower(m, lower), lit)
  {
    hide Spells, LowerFrom, NoCapitals;
    SpelledFits(m, i, lit, lower);
    var a := LowerSplits(m, 0, i, lower);
    SpelledHere(m, i, lit, 0, lower);
    assert lit[0..] == lit;
    var low, rest := Lower(m, lower), LowerFrom(m, i + |lit|, lower);
    assert low == a + (lit + rest);
    assert low[|a|..|a| + |lit|] == lit;
    assert StandsAt(low, |a|, lit);
  }

  lemma SpelledFits(m: string, i: nat, lit: string, lower: Lowering)
    requires Spells(m, i, lit, lower)
    ensures i + |lit| <= |m|
  {
  }

  lemma NoAccents(m: string, lit: string, k: nat, lower: Lowering)
    requires Ascii(m) && k < |lit| && lit[k] >= '\U{80}'
    ensures !Contains(Lower(m, lower), lit)
  {
    LowerFromAsciiWhole(m, lower);
    var low := Lower(m, lower);
    hide Lower;
    forall i: nat | i <= |low|
      ensures !StandsAt(low, i, lit)
    {
      if i + |lit| <= |low| { assert low[i..i + |lit|][k] == low[i + k] == LowerChar(m[i + k]); }
    }
  }

  // ----- The four lists ------------------------------------------------------------------------------------

  predicate SaysDoubt(m: string) { Says(m, "no") || Says(m, "caro") || Says(m, "otro") || Says(m, "alternativa") }

  predicate SaysEscalate(m: string) { Says(m, "escalar") || Says(m, "humano") || Says(m, "hablar con") }

  predicate SaysBuy(m: string) {
    Says(m, "ok") || Says(m, "si") || Says(m, "compro") || Says(m, "quiero") || Says(m, "dame")
  }

  predicate SaysPaid(m: string) { Says(m, "pagado") || Says(m, "ok") || Says(m, "listo") }

  lemma DoubtIs(m: string, lower: Lowering)
    requires Ascii(m)
    ensures Doubts(m, lower) <==> SaysDoubt(m)
  {
    hide Contains, Says, Lower, Ascii;
    ContainsIsSays(m, "no", lower);
    ContainsIsSays(m, "caro", lower);
    ContainsIsSays(m, "otro", lower);
    ContainsIsSays(m, "alternativa", lower);
    assert DOUBT[0] == "no" && DOUBT[1] == "caro" && DOUBT[2] == "otro" && DOUBT[3] == "alternativa";
  }

  lemma EscalateIs(m: string, lower: Lowering)
    requires Ascii(m)
    ensures Escalates(m, lower) <==> SaysEscalate(m)
  {
    hide Contains, Says, Lower, Ascii;
    ContainsIsSays(m, "escalar", lower);
    ContainsIsSays(m, "humano", lower);
    ContainsIsSays(m, "hablar con", lower);
    assert ESCALATE[0] == "escalar" && ESCALATE[1] == "humano" && ESCALATE[2] == "hablar con";
  }

  lemma BuyIs(m: string, lower: Lowering)
    requires Ascii(m)
    ensures Buys(m, lower) <==> SaysBuy(m)
  {
    hide Contains, Says, Lower, Ascii;
    ContainsIsSays(m, "ok", lower);
    NoAccents(m, "s\U{ed}", 1, lower);
    ContainsIsSays(m, "si", lower);
    ContainsIsSays(m, "compro", lower);
    ContainsIsSays(m, "quiero", lower);
    ContainsIsSays(m, "dame", lower);
    assert BUY[0] == "ok" && BUY[1] == "s\U{ed}" && BUY[2] == "si";
    assert BUY[3] == "compro" && BUY[4] == "quiero" && BUY[5] == "dame";
  }

  lemma PaidIs(m: string, lower: Lowering)
    requires Ascii(m)
    ensures Pays(m, lower) <==> SaysPaid(m)
  {
    hide Contains, Says, Lower, Ascii;
    ContainsIsSays(m, "pagado", lower);
    NoAccents(m, "transfer\U{ed}", 8, lower);
    ContainsIsSays(m, "ok", lower);
    ContainsIsSays(m, "listo", lower);
    assert PAID[0] == "pagado" && PAID[1] == "transfer\U{ed}" && PAID[2] == "ok" && PAID[3] == "listo";
  }

  /** Where a message takes the conversation, for every message in ASCII, in any mixture of cases. */
  lemma WordsDecide(m: string, lower: Lowering)
    requires Ascii(m)
    ensures Transition(IDENTIFY, m, lower) == PRESENT
    ensures Transition(PRESENT, m, lower) == if SaysDoubt(m) then OBJECTIONS else CONFIRM
    ensures Transition(OBJECTIONS, m, lower) ==
            if SaysEscalate(m) then ESCALATED else if SaysBuy(m) then CONFIRM else OBJECTIONS
    ensures Transition(CONFIRM, m, lower) == if SaysPaid(m) then NOTIFY else CONFIRM
    ensures Transition(NOTIFY, m, lower) == CLOSED
    ensures Transition(CLOSED, m, lower) == CLOSED && Transition(ESCALATED, m, lower) == ESCALATED
  {
    hide Doubts, Escalates, Buys, Pays, SaysDoubt, SaysEscalate, SaysBuy, SaysPaid, Ascii;
    DoubtIs(m, lower);
    EscalateIs(m, lower);
    BuyIs(m, lower);
    PaidIs(m, lower);
  }

  lemma Listed(m: string, i: nat, w: string, words: seq<string>, lower: Lowering)
    requires w in words && NoCapitals(w) && Spells(m, i, w, lower)
    ensures HasAny(Lower(m, lower), words)
  {
    hide Contains, Lower, Spells;
    SpelledIsFound(m, i, w, lower);
  }

  /** In any message at all, with any characters around it, a listed word has its effect: the doubting words lead to
      the objections, ... */
  lemma DoubtAnywhere(m: string, i: nat, w: string, lower: Lowering)
    requires w == "no" || w == "caro" || w == "otro" || w == "alternativa"
    requires Spells(m, i, w, lower)
    ensures Transition(PRESENT, m, lower) == OBJECTIONS
  {
    hide HasAny, Spells;
    assert DOUBT[0] == "no" && DOUBT[1] == "caro" && DOUBT[2] == "otro" && DOUBT[3] == "alternativa";
    Listed(m, i, w, DOUBT, lower);
  }

  /** ... the escalating words hand over, whatever else is said, ... */
  lemma EscalateAnywhere(m: string, i: nat, w: string, lower: Lowering)
    requires w == "escalar" || w == "humano" || w == "hablar con"
    requires Spells(m, i, w, lower)
    ensures Transition(OBJECTIONS, m, lower) == ESCALATED
  {
    hide HasAny, Spells;
    assert ESCALATE[0] == "escalar" && ESCALATE[1] == "humano" && ESCALATE[2] == "hablar con";
    Listed(m, i, w, ESCALATE, lower);
  }

  /** ... the buying words, the accented one included, end the objections, ... */
  lemma BuyAnywhere(m: string, i: nat, w: string, lower: Lowering)
    requires w == "ok" || w == "s\U{ed}" || w == "si" || w == "compro" || w == "quiero" || w == "dame"
    requires Spells(m, i, w, lower)
    ensures Transition(OBJECTIONS, m, lower) == ESCALATED || Transition(OBJECTIONS, m, lower) == CONFIRM
  {
    hide HasAny, Spells;
    assert BUY[0] == "ok" && BUY[1] == "s\U{ed}" && BUY[2] == "si";
    assert BUY[3] == "compro" && BUY[4] == "quiero" && BUY[5] == "dame";
    Listed(m, i, w, BUY, lower);
  }

  /** ... and the paying words notify. */
  lemma PaidAnywhere(m: string, i: nat, w: string, lower: Lowering)
    requires w == "pagado" || w == "transfer\U{ed}" || w == "ok" || w == "listo"
    requires Spells(m, i, w, lower)
    ensures Transition(CONFIRM, m, lower) == NOTIFY
  {
    hide HasAny, Spells;
    assert PAID[0] == "pagado" && PAID[1] == "transfer\U{ed}" && PAID[2] == "ok" && PAID[3] == "listo";
    Listed(m, i, w, PAID, lower);
  }

  // ----- The skill, by stage names -------------------------------------------------------------------------

  lemma {:induction false} UpperFromAscii(s: string, i: nat, other: Lowering)
    requires Ascii(s) && i <= |s|
    ensures |UpperFrom(s, i, other)| == |s| - i
    ensures forall k :: i <= k < |s| ==> UpperFrom(s, i, other)[k - i] == UpperChar(s[k])
    decreases |s| - i
  {
    hide UpperChar;
    if i < |s| { UpperFromAscii(s, i + 1, other); }
  }

  /** `cap` is `lit` in capitals. */
  predicate Capitals(lit: string, cap: string) {
    |lit| == |cap| && forall j :: 0 <= j < |lit| ==> 'a' <= lit[j] <= 'z' && cap[j] == lit[j] - 'a' + 'A'
  }

  /** Upper-casing an ASCII text gives a name in capitals exactly when the text is that name in some mixture of
      cases. */
  lemma UpperIs(s: string, lit: string, cap: string, other: Lowering)
    requires Ascii(s) && Capitals(lit, cap)
    ensures UpperFrom(s, 0, other) == cap <==> AnyCase(s, lit)
  {
    hide CaseOf, LowerChar, UpperFrom, UpperChar;
    UpperFromAscii(s, 0, other);
    if |s| == |lit| {
      forall j | 0 <= j < |s|
        ensures UpperFrom(s, 0, other)[j] == cap[j] <==> CaseOf(s[j], lit[j])
      {
        UpperCharIs(s[j], lit[j]);
      }
    }
  }

  lemma UpperCharIs(c: char, l: char)
    requires 'a' <= l <= 'z'
    ensures UpperChar(c) == l - 'a' + 'A' <==> CaseOf(c, l)
  {
    CaseOfIs(c, l);
    hide CaseOf;
  }

  /** The stage that a name means, in any mixture of cases. */
  function StageOf(name: string): Option<Stage> {
    if AnyCase(name, "identify") then Some(IDENTIFY)
    else if AnyCase(name, "present") then Some(PRESENT)
    else if AnyCase(name, "objections") then Some(OBJECTIONS)
    else if AnyCase(name, "confirm") then Some(CONFIRM)
    else if AnyCase(name, "notify") then Some(NOTIFY)
    else if AnyCase(name, "closed") then Some(CLOSED)
    else if AnyCase(name, "escalated") then Some(ESCALATED)
    else None
  }

  lemma ParsesAs(name: string, upper: Lowering)
    requires Ascii(name)
    ensures Parse(UpperFrom(name, 0, upper)) == StageOf(name)
  {
    hide AnyCase, UpperFrom, Ascii;
    UpperIs(name, "identify", "IDENTIFY", upper);
    UpperIs(name, "present", "PRESENT", upper);
    UpperIs(name, "objections", "OBJECTIONS", upper);
    UpperIs(name, "confirm", "CONFIRM", upper);
    UpperIs(name, "notify", "NOTIFY", upper);
    UpperIs(name, "closed", "CLOSED", upper);
    UpperIs(name, "escalated", "ESCALATED", upper);
  }

  /** One invocation of the skill on ASCII strings: an unknown stage name fails, and otherwise the answer names the
      stage in capitals, the stage that the message's words lead to, whether that is a final one, and whether it hands
      over. */
  lemma SkillAnswers(name: string, m: string, upper: Lowering, lower: Lowering)
    requires Ascii(name) && Ascii(m) && name != ""
    ensures var r := Execute(Some(name), Some(m), upper, lower);
            match StageOf(name)
            case None => r.Fail?
            case Some(IDENTIFY) => r == Ok("IDENTIFY", "PRESENT", false, false)
            case Some(PRESENT) => r == Ok("PRESENT", if SaysDoubt(m) then "OBJECTIONS" else "CONFIRM", false, false)
            case Some(OBJECTIONS) =>
              r == if SaysEscalate(m) then Ok("OBJECTIONS", "ESCALATED", true, true)
                   else Ok("OBJECTIONS", if SaysBuy(m) then "CONFIRM" else "OBJECTIONS", false, false)
            case Some(CONFIRM) => r == Ok("CONFIRM", if SaysPaid(m) then "NOTIFY" else "CONFIRM", false, false)
            case Some(NOTIFY) => r == Ok("NOTIFY", "CLOSED", true, false)
            case Some(CLOSED) => r == Ok("CLOSED", "CLOSED", true, false)
            case Some(ESCALATED) => r == Ok("ESCALATED", "ESCALATED", true, true)
  {
    hide StageOf, UpperFrom, Transition, SaysDoubt, SaysEscalate, SaysBuy, SaysPaid, Ascii;
    ParsesAs(name, upper);
    WordsDecide(m, lower);
  }

  /** A missing or empty stage is the first one, and a missing message is an empty one. */
  lemma SkillDefaults(stage: Option<string>, message: Option<string>, upper: Lowering, lower: Lowering)
    requires stage == None || stage == Some("")
    ensures Execute(stage, message, upper, lower) == Execute(Some("identify"), message, upper, lower)
    ensures Execute(stage, None, upper, lower) == Execute(stage, Some(""), upper, lower)
  {
    hide UpperFrom, Parse;
    UpperIs("identify", "identify", "IDENTIFY", upper);
    UpperIs("IDENTIFY", "identify", "IDENTIFY", upper);
    IdentifyInAnyCase();
  }

  lemma IdentifyInAnyCase()
    ensures AnyCase("identify", "identify") && AnyCase("IDENTIFY", "identify")
  {
    forall j | 0 <= j < 8
      ensures CaseOf("identify"[j], "identify"[j]) && CaseOf("IDENTIFY"[j], "identify"[j])
    {
      UpperCharIs("IDENTIFY"[j], "identify"[j]);
    }
  }
}
