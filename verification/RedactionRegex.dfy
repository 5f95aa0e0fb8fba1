/** The four patterns as regular-expression languages, and the proof that the scanners of `LogFilter`
    find exactly what a backtracking matcher finds: there is only one place where the value group can
    start, and the greedy last group takes the longest run. */
module RedactionRegex {
  import opened PyText
  import opened LogFilter

  /** `\b` between the preceding character and the start of `w`. */
  ghost predicate Boundary(b: bool, w: string) { b != (w != "" && IsWord(w[0])) }

  /** `w[i..j]` is in `[k]*`. */
  ghost predicate All(k: Class, w: string, i: nat, j: nat) {
    i <= j <= |w| && forall x :: i <= x < j ==> In(k, w[x])
  }

  /** `w` is in `[A-Z][A-Z0-9_]*` followed by `lit`, ignoring case. */
  ghost predicate Affixed(w: string, lit: string) {
    exists s: nat :: 1 <= s && s + |lit| == |w| && IsLetter(w[0]) && All(Word, w, 1, s) && Caseless(w, s, lit)
  }

  /** The alternation of the key group. */
  ghost predicate KeyLanguage(w: string) {
    || Same(w, "openrouter_api_key") || Same(w, "openai_api_key") || Same(w, "gemini_api_key")
    || Same(w, "meta_app_secret") || Same(w, "meta_verify_token") || Same(w, "app_encryption_key")
    || Affixed(w, "_token") || Affixed(w, "_secret") || Affixed(w, "_password")
  }

  /** The key ends at `k`, the separator stands at `j`, the optional quote would stand at `m`. */
  ghost predicate EnvWord(b: bool, w: string, k: nat, j: nat, m: nat, v: Span) {
    && k <= j < m <= v.start < v.end <= |w|
    && Boundary(b, w) && KeyLanguage(w[..k])
    && All(Space, w, k, j) && IsSeparator(w[j]) && All(Space, w, j + 1, m)
    && (v.start == m || (v.start == m + 1 && IsQuote(w[m])))
    && All(EnvValue, w, v.start, v.end)
  }

  /** The colon stands at `j`, the scheme at `[m, e)`. */
  ghost predicate AuthWord(b: bool, w: string, j: nat, m: nat, e: nat, v: Span) {
    && 13 <= j < m < e < v.start < v.end <= |w|
    && Boundary(b, w) && Caseless(w, 0, "authorization")
    && All(Space, w, 13, j) && w[j] == ':' && All(Space, w, j + 1, m)
    && ((e == m + 6 && Caseless(w, m, "bearer")) || (e == m + 5 && Caseless(w, m, "basic")))
    && All(Space, w, e, v.start) && All(AuthValue, w, v.start, v.end)
  }

  ghost predicate SkWord(b: bool, w: string, v: Span) {
    && v.start == 0 && 19 <= v.end <= |w| && Boundary(b, w) && w[..3] == "sk-" && All(KeyBody, w, 3, v.end)
  }

  /** The colon stands at `c`. */
  ghost predicate SigWord(w: string, c: nat, v: Span) {
    && 19 <= c < v.start && v.start + 7 < v.end <= |w|
    && Caseless(w, 0, "x-hub-signature-256") && All(Space, w, 19, c) && w[c] == ':' && All(Space, w, c + 1, v.start)
    && Caseless(w, v.start, "sha256=") && All(Hex, w, v.start + 7, v.end)
  }

  /** Some prefix of `w` is in the language of `p`, with `v` as the span of its last group. */
  ghost predicate InLanguage(p: Pattern, b: bool, w: string, v: Span) {
    match p
    case Env => exists k, j, m :: EnvWord(b, w, k, j, m, v)
    case Auth => exists j, m, e :: AuthWord(b, w, j, m, e, v)
    case Sk => SkWord(b, w, v)
    case Sig => exists c :: SigWord(w, c, v)
  }

  lemma CaselessWords(w: string, i: nat, lit: string)
    requires Caseless(w, i, lit) && (forall c :: c in lit ==> IsWord(c))
    ensures All(Word, w, i, i + |lit|)
  {
    forall x | i <= x < i + |lit|
      ensures IsWord(w[x])
    {
      assert LowerChar(w[i + (x - i)]) == lit[x - i];
    }
  }

  lemma AffixedIsSuffixed(w: string, lit: string)
    requires forall c :: c in lit ==> IsWord(c)
    ensures Affixed(w, lit) ==> Suffixed(w, lit) && All(Word, w, 0, |w|)
    ensures Suffixed(w, lit) && All(Word, w, 0, |w|) ==> Affixed(w, lit)
  {
    if Affixed(w, lit) {
      var s: nat :| 1 <= s && s + |lit| == |w| && IsLetter(w[0]) && All(Word, w, 1, s) && Caseless(w, s, lit);
      CaselessWords(w, s, lit);
    }
    if Suffixed(w, lit) && All(Word, w, 0, |w|) {
      var s: nat := |w| - |lit|;
      assert All(Word, w, 1, s);
    }
  }

  lemma SameIsWords(w: string, lit: string)
    requires forall c :: c in lit ==> IsWord(c)
    ensures Same(w, lit) ==> All(Word, w, 0, |w|)
  {
    if Same(w, lit) { CaselessWords(w, 0, lit); }
  }

  /** On word characters `IsKey` is the alternation; off them the alternation is empty. */
  lemma KeyIsKey(w: string)
    ensures KeyLanguage(w) <==> IsKey(w) && All(Word, w, 0, |w|)
    ensures IsKey(w) ==> w != ""
  {
    SameIsWords(w, "openrouter_api_key");
    SameIsWords(w, "openai_api_key");
    SameIsWords(w, "gemini_api_key");
    SameIsWords(w, "meta_app_secret");
    SameIsWords(w, "meta_verify_token");
    SameIsWords(w, "app_encryption_key");
    AffixedIsSuffixed(w, "_token");
    AffixedIsSuffixed(w, "_secret");
    AffixedIsSuffixed(w, "_password");
    hide Same, Suffixed, Affixed;
    if IsKey(w) { KeyNonEmpty(w); }
  }

  lemma KeyNonEmpty(w: string)
    requires IsKey(w)
    ensures w != ""
  {
  }

  lemma RunIsLongest(k: Class, w: string, i: nat, e: nat)
    requires All(k, w, i, e)
    ensures e <= Run(k, w, i)
    ensures e < |w| && !In(k, w[e]) ==> Run(k, w, i) == e
    ensures All(k, w, i, Run(k, w, i))
  {
    hide In;
  }

  lemma EnvJoin(w: string, k: nat, j: nat, m: nat, a: nat)
    requires k <= j < m <= a < |w|
    requires Run(Word, w, 0) == k && IsKey(w[..k])
    requires Run(Space, w, k) == j && IsSeparator(w[j]) && Run(Space, w, j + 1) == m
    requires a == if IsQuote(w[m]) then m + 1 else m
    requires In(EnvValue, w[a])
    ensures MatchEnv(false, w) == Some(Span(a, Run(EnvValue, w, a)))
  {
    hide IsKey, IsSeparator, IsQuote;
  }

  /** The value group of an assignment can only start in one place. */
  lemma EnvUnique(b: bool, w: string, k: nat, j: nat, m: nat, u: Span)
    requires EnvWord(b, w, k, j, m, u)
    ensures MatchEnv(b, w).Some? && MatchEnv(b, w).value.start == u.start && u.end <= MatchEnv(b, w).value.end
  {
    hide MatchEnv, Run;
    KeyIsKey(w[..k]);
    hide IsKey, KeyLanguage;
    assert All(Word, w, 0, k) by { assert forall x :: 0 <= x < k ==> w[x] == w[..k][x]; }
    assert IsWord(w[0]);
    assert !In(Space, w[j]) && !In(Word, w[j]);
    RunIsLongest(Word, w, 0, k);
    RunIsLongest(Space, w, k, j);
    RunIsLongest(Space, w, j + 1, m);
    RunIsLongest(EnvValue, w, u.start, u.end);
    EnvJoin(w, k, j, m, u.start);
  }

  lemma EnvFound(b: bool, w: string)
    requires MatchEnv(b, w).Some?
    ensures InLanguage(Env, b, w, MatchEnv(b, w).value)
  {
    var v := MatchEnv(b, w).value;
    var k := Run(Word, w, 0);
    var j := Run(Space, w, k);
    var m := Run(Space, w, j + 1);
    hide IsKey;
    assert forall x :: 0 <= x < k ==> w[..k][x] == w[x];
    assert All(Word, w[..k], 0, k);
    KeyIsKey(w[..k]);
    hide KeyLanguage;
    assert IsWord(w[0]);
    assert EnvWord(b, w, k, j, m, v);
  }

  lemma AuthUnique(b: bool, w: string, j: nat, m: nat, e: nat, u: Span)
    requires AuthWord(b, w, j, m, e, u)
    ensures MatchAuth(b, w).Some? && MatchAuth(b, w).value.start == u.start && u.end <= MatchAuth(b, w).value.end
  {
    hide MatchAuth, Run;
    LiteralHead(w, 0, "authorization");
    if Caseless(w, m, "bearer") {
      LiteralHead(w, m, "bearer");
      BearerIsNotBasic(w, m);
    } else {
      LiteralHead(w, m, "basic");
    }
    hide Caseless;
    RunIsLongest(Space, w, 13, j);
    RunIsLongest(Space, w, j + 1, m);
    assert In(AuthValue, w[u.start]) && !In(Space, w[u.start]);
    RunIsLongest(Space, w, e, u.start);
    RunIsLongest(AuthValue, w, u.start, u.end);
    AuthJoined(w, j, m, e, u.start);
  }

  lemma AuthJoined(w: string, j: nat, m: nat, e: nat, a: nat)
    requires 13 <= j < m < e < a < |w|
    requires Caseless(w, 0, "authorization") && Run(Space, w, 13) == j && w[j] == ':' && Run(Space, w, j + 1) == m
    requires e == (if Caseless(w, m, "bearer") then m + 6 else m + 5)
    requires Caseless(w, m, "bearer") || Caseless(w, m, "basic")
    requires Run(Space, w, e) == a && a < Run(AuthValue, w, a)
    ensures MatchAuth(false, w) == Some(Span(a, Run(AuthValue, w, a)))
  {
    hide Caseless, In;
  }

  lemma LiteralHead(w: string, i: nat, lit: string)
    requires Caseless(w, i, lit) && lit != "" && (forall c :: c in lit ==> IsWord(c))
    ensures IsWord(w[i]) && !In(Space, w[i])
  {
    CaselessWords(w, i, lit);
  }

  lemma BearerIsNotBasic(w: string, m: nat)
    requires Caseless(w, m, "bearer")
    ensures !Caseless(w, m, "basic")
  {
    assert LowerChar(w[m + 1]) == "bearer"[1];
    assert LowerChar(w[m + 1]) != "basic"[1];
  }

  lemma AuthFound(b: bool, w: string)
    requires MatchAuth(b, w).Some?
    ensures InLanguage(Auth, b, w, MatchAuth(b, w).value)
  {
    var v := MatchAuth(b, w).value;
    LiteralHead(w, 0, "authorization");
    var j := Run(Space, w, 13);
    var m := Run(Space, w, j + 1);
    var e := if Caseless(w, m, "bearer") then m + 6 else m + 5;
    hide Caseless;
    assert AuthWord(b, w, j, m, e, v);
  }

  lemma SkAgreesWithRegex(b: bool, w: string, u: Span)
    ensures SkWord(b, w, u) ==>
              MatchSk(b, w).Some? && MatchSk(b, w).value.start == u.start && u.end <= MatchSk(b, w).value.end
    ensures MatchSk(b, w).Some? ==> SkWord(b, w, MatchSk(b, w).value)
  {
    if |w| >= 3 && w[..3] == "sk-" {
      assert w[0] == w[..3][0];
      if SkWord(b, w, u) { RunIsLongest(KeyBody, w, 3, u.end); }
    }
  }

  lemma SigUnique(w: string, c: nat, u: Span)
    requires SigWord(w, c, u)
    ensures MatchSig(w).Some? && MatchSig(w).value.start == u.start && u.end <= MatchSig(w).value.end
  {
    assert LowerChar(w[u.start + 0]) == "sha256="[0];
    hide Caseless;
    RunIsLongest(Space, w, 19, c);
    RunIsLongest(Space, w, c + 1, u.start);
    RunIsLongest(Hex, w, u.start + 7, u.end);
  }

  lemma SigFound(w: string)
    requires MatchSig(w).Some?
    ensures InLanguage(Sig, false, w, MatchSig(w).value)
  {
    hide Caseless;
    var c := Run(Space, w, 19);
    assert SigWord(w, c, MatchSig(w).value);
  }

  lemma RegexUnique(p: Pattern, b: bool, w: string, u: Span)
    requires InLanguage(p, b, w, u)
    ensures Match(p, b, w).Some? && u.start == Match(p, b, w).value.start && u.end <= Match(p, b, w).value.end
  {
    hide MatchEnv, MatchAuth, MatchSk, MatchSig, EnvWord, AuthWord, SkWord, SigWord;
    match p
    case Env => var k, j, m :| EnvWord(b, w, k, j, m, u); EnvUnique(b, w, k, j, m, u);
    case Auth => var j, m, e :| AuthWord(b, w, j, m, e, u); AuthUnique(b, w, j, m, e, u);
    case Sk => SkAgreesWithRegex(b, w, u);
    case Sig => var c :| SigWord(w, c, u); SigUnique(w, c, u);
  }

  lemma RegexFound(p: Pattern, b: bool, w: string)
    requires Match(p, b, w).Some?
    ensures InLanguage(p, b, w, Match(p, b, w).value)
  {
    hide MatchEnv, MatchAuth, MatchSk, MatchSig, EnvWord, AuthWord, SkWord, SigWord;
    match p
    case Env => EnvFound(b, w);
    case Auth => AuthFound(b, w);
    case Sk => SkAgreesWithRegex(b, w, Span(0, 0));
    case Sig => SigFound(w);
  }

  /** Every scanner decides its regular expression: it succeeds exactly when some prefix is in the
      language, and then the value group starts where every match puts it and is the longest one. */
  lemma ScannerIsTheRegex(p: Pattern, b: bool, w: string)
    ensures Match(p, b, w).Some? ==> InLanguage(p, b, w, Match(p, b, w).value)
    ensures forall u :: InLanguage(p, b, w, u) ==>
                          && Match(p, b, w).Some?
                          && u.start == Match(p, b, w).value.start
                          && u.end <= Match(p, b, w).value.end
  {
    hide Match, InLanguage;
    if Match(p, b, w).Some? { RegexFound(p, b, w); }
    forall u | InLanguage(p, b, w, u)
      ensures Match(p, b, w).Some? && u.start == Match(p, b, w).value.start && u.end <= Match(p, b, w).value.end
    {
      RegexUnique(p, b, w, u);
    }
  }
}
