/** A text on which the documented unconditional idempotence of `redact` fails. */
module RedactionWitness {
  import opened PyText
  import opened LogFilter
  import opened RedactionShapes
  import opened RedactionPasses
  import opened SignaturePass
  import opened RedactionIdempotence

  // ----- The documented claim fails on a concrete text ---------------------------------------------------

  const TOKEN := "1G_TOKEN" + ['='] + "x"
  const VALUE := "sha256" + ['='] + TOKEN
  const NUMBER := "256" + [':'] + ([' '] + VALUE)
  const NAME := "Signature" + ['-'] + NUMBER
  const GLUED := "X" + ['-'] + ("Hub" + ['-'] + NAME)

  lemma GluedText()
    ensures GLUED == "X-Hub-Signature-256: sha256=1G_TOKEN=x"
  {
    GluedNameText();
    assert GLUED == "X-Hub-" + "Signature-256: sha256=1G_TOKEN=x";
  }

  lemma GluedNameText()
    ensures NAME == "Signature-256: sha256=1G_TOKEN=x"
  {
    GluedEnd();
    assert NAME == "Signature-" + "256: sha256=1G_TOKEN=x";
  }

  lemma GluedEnd()
    ensures NUMBER == "256: sha256=1G_TOKEN=x"
  {
  }

  /** A word that is neither a key nor a header name can be skipped. */
  lemma SkipWord(q: Pattern, w: string, k: nat)
    requires q != Sig && 0 < k <= |w| && Run(Word, w, 0) == k && Match(q, false, w).None?
    requires Clean(q, true, w[k..])
    ensures Clean(q, false, w)
  {
    hide Match, Run, Clean;
    SkipInside(q, w, k, 0);
    assert w[0..] == w;
  }

  lemma {:induction false} SkipInside(q: Pattern, w: string, k: nat, i: nat)
    requires q != Sig && i <= k <= |w| && (forall j :: 0 <= j < k ==> IsWord(w[j]))
    requires i == 0 ==> Match(q, false, w).None?
    requires Clean(q, true, w[k..]) && 0 < k
    ensures Clean(q, i > 0, w[i..])
    decreases k - i
  {
    hide Match, IsWord;
    if i < k {
      SkipInside(q, w, k, i + 1);
      assert w[i..][1..] == w[i + 1..];
      if i == 0 { assert w[0..] == w; } else { NeverAfterWord(q, w[i..]); }
    }
  }

  lemma SkipGap(q: Pattern, w: string)
    requires q != Sig && w != "" && !IsWord(w[0]) && Clean(q, false, w[1..])
    ensures Clean(q, false, w) && Clean(q, true, w)
  {
    BoundaryFree(q, false, w);
    BoundaryFree(q, true, w);
  }

  lemma NotSuffixed(w: string, lit: string)
    requires lit != "" && (|w| <= |lit| || !IsLetter(w[0]) || LowerChar(w[|w| - |lit|]) != lit[0])
    ensures !Suffixed(w, lit)
  {
    assert lit[0] == lit[0];
  }

  lemma ShortNotKey(w: string)
    requires |w| <= 6 || (|w| <= 9 && (!IsLetter(w[0]) || (w[|w| - 6] != '_' && w[|w| - 7] != '_')))
    ensures !IsKey(w)
  {
    NotSuffixed(w, "_token");
    NotSuffixed(w, "_secret");
    NotSuffixed(w, "_password");
    hide Suffixed;
  }

  /** No pattern but the signature's matches at a short harmless word. */
  lemma HarmlessWord(q: Pattern, w: string, k: nat)
    requires q != Sig && 0 < k < |w| && Run(Word, w, 0) == k && !IsKey(w[..k])
    requires LowerChar(w[0]) != 'a' && (w[0] == 's' ==> w[1] != 'k')
    ensures Match(q, false, w).None?
  {
    NotCaseless(w, 0, "authorization");
    assert |w| >= 3 ==> w[..3][0] == w[0] && w[..3][1] == w[1];
    hide Run, Caseless, IsKey;
  }

  /** Skip a short word and the character after it. */
  lemma SkipShortWord(q: Pattern, word: string, c: char, rest: string)
    requires q != Sig && 0 < |word| <= 9 && (forall j :: 0 <= j < |word| ==> IsWord(word[j])) && !IsWord(c)
    requires LowerChar(word[0]) != 'a' && (word[0] == 's' ==> |word| > 1 && word[1] != 'k')
    requires |word| <= 6 || !IsLetter(word[0]) || (word[|word| - 6] != '_' && word[|word| - 7] != '_')
    requires Clean(q, false, rest)
    ensures Clean(q, false, word + [c] + rest)
  {
    hide Clean, IsKey, Match, IsWord, IsLetter;
    var w := word + [c] + rest;
    var k := |word|;
    assert forall j :: 0 <= j < k ==> w[j] == word[j];
    assert w[..k] == word;
    assert w[k..] == [c] + rest && w[k..][1..] == rest;
    SkipGap(q, w[k..]);
    RunIs(Word, w, 0, k);
    hide Run;
    ShortNotKey(word);
    HarmlessWord(q, w, k);
    SkipWord(q, w, k);
  }

  lemma GluedIsClean(q: Pattern)
    requires q != Sig
    ensures Clean(q, false, GLUED)
  {
    hide Clean;
    GluedTail(q);
    SkipShortWord(q, "1G_TOKEN", '=', "x");
    SkipShortWord(q, "sha256", '=', TOKEN);
    assert ([' '] + VALUE)[1..] == VALUE;
    SkipGap(q, [' '] + VALUE);
    SkipShortWord(q, "256", ':', [' '] + VALUE);
    GluedName(q);
  }

  lemma GluedName(q: Pattern)
    requires q != Sig && Clean(q, false, NUMBER)
    ensures Clean(q, false, GLUED)
  {
    hide Clean;
    SkipShortWord(q, "Signature", '-', NUMBER);
    SkipShortWord(q, "Hub", '-', NAME);
    SkipShortWord(q, "X", '-', "Hub" + ['-'] + NAME);
  }

  lemma GluedTail(q: Pattern)
    requires q != Sig
    ensures Clean(q, false, "x")
  {
    ShortNotKey("x");
    ShortNotKey("");
    assert "x"[1..] == "";
    RunIs(Word, "x", 0, 1);
    assert "x"[..1] == "x";
    assert Match(q, false, "x").None?;
    assert Match(q, true, "").None?;
  }

  lemma GluedHeader()
    ensures Caseless(GLUED, 0, "x-hub-signature-256")
  {
    var lit := "x-hub-signature-256";
    assert forall j :: 0 <= j < 10 ==> LowerChar(GLUED[j]) == lit[j];
    assert forall j :: 10 <= j < 19 ==> LowerChar(GLUED[j]) == lit[j];
  }

  lemma GluedHash()
    ensures Caseless(GLUED, 21, "sha256=") && Run(Hex, GLUED, 28) == 29
  {
    GluedText();
  }

  /** The signature value in `GLUED` ends in front of the token assignment. */
  lemma GluedSignature()
    ensures MatchSig(GLUED) == Some(Span(21, 29))
  {
    GluedHeader();
    GluedHash();
    GluedText();
    assert GLUED[19] == ':' && GLUED[20] == ' ' && GLUED[21] == 's';
    hide Caseless;
    assert Run(Space, GLUED, 19) == 19;
    assert Run(Space, GLUED, 20) == 21;
  }

  lemma GluedSecret()
    ensures MatchEnv(false, "G_TOKEN=x") == Some(Span(8, 9))
  {
    hide Run, IsKey;
    var w := "G_TOKEN=x";
    RunIs(Word, w, 0, 7);
    assert w[..7] == "G_TOKEN";
    GluedKey();
    RunIs(Space, w, 7, 7);
    RunIs(Space, w, 8, 8);
    RunIs(EnvValue, w, 8, 9);
  }

  lemma GluedKey()
    ensures IsKey("G_TOKEN")
  {
    assert Suffixed("G_TOKEN", "_token");
  }

  /** The docstring's unconditional idempotence is false: redacting this text twice is not redacting it once. */
  lemma RedactNotIdempotent()
    ensures var out := Redacted(GLUED, DEFAULT_PATTERNS); Redacted(out, DEFAULT_PATTERNS) != out
  {
    hide Clean, Redacted, MatchEnv, MatchSig, Sub;
    GluedIsClean(Env);
    GluedIsClean(Auth);
    GluedIsClean(Sk);
    CleanIsFixed(Env, false, GLUED);
    CleanIsFixed(Auth, false, GLUED);
    CleanIsFixed(Sk, false, GLUED);
    PipelineSteps(GLUED);
    assert FirstThree(GLUED) == GLUED;
    GluedSignature();
    GluedSecret();
    assert Match(Sig, false, GLUED) == Some(Span(21, 29));
    GluedText();
    assert GLUED[29..] == "G_TOKEN=x";
    assert Match(Env, false, "G_TOKEN=x") == Some(Span(8, 9));
    assert !GoodAt(Env, false, "G_TOKEN=x");
    assert !NoFusedSecret(false, GLUED);
    RedactIdempotentIff(GLUED);
  }
}
