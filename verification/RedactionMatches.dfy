/** The converse of conservation: whatever a pattern matches is a secret in its context, said from outside. */
module RedactionMatches {
  import opened PyText
  import opened Alphabets
  import opened LogFilter
  import opened RedactionRegex
  import opened RedactionConservation
  import opened AssignmentConservation

  lemma OverAll(k: Class, alphabet: string, w: string, i: nat, j: nat)
    requires All(k, w, i, j) && forall c :: In(k, c) ==> c in alphabet
    ensures Over(w[i..j], alphabet)
  {
    hide In;
  }

  lemma BlankBetween(w: string, i: nat, j: nat)
    requires All(Space, w, i, j)
    ensures Blank(w[i..j])
  {
    hide In;
    forall c
      ensures In(Space, c) ==> c in WHITE
    {
      ClassesAre(c);
    }
    OverAll(Space, WHITE, w, i, j);
  }

  lemma CredentialBetween(w: string, i: nat, j: nat)
    requires All(AuthValue, w, i, j)
    ensures Credential(w[i..j])
  {
    hide In;
    forall c
      ensures In(AuthValue, c) ==> c in CREDENTIAL_CHARS
    {
      ClassesAre(c);
    }
    OverAll(AuthValue, CREDENTIAL_CHARS, w, i, j);
  }

  lemma KeyCharsBetween(w: string, i: nat, j: nat)
    requires All(KeyBody, w, i, j)
    ensures KeyChars(w[i..j])
  {
    hide In;
    forall c
      ensures In(KeyBody, c) ==> c in KEY_CHARS
    {
      ClassesAre(c);
    }
    OverAll(KeyBody, KEY_CHARS, w, i, j);
  }

  lemma HexBetween(w: string, i: nat, j: nat)
    requires All(Hex, w, i, j)
    ensures HexDigits(w[i..j])
  {
    hide In;
    forall c
      ensures In(Hex, c) ==> c in HEX_CHARS
    {
      ClassesAre(c);
    }
    OverAll(Hex, HEX_CHARS, w, i, j);
  }

  /** The literal that stands at `i`, as a slice. */
  lemma LiteralBetween(w: string, i: nat, lit: string)
    requires NoCapitals(lit) && Caseless(w, i, lit)
    ensures i + |lit| <= |w| && AnyCase(w[i..i + |lit|], lit)
  {
    CaselessLength(w, i, lit);
    CaselessIs(w, i, w[i..i + |lit|], lit);
  }

  // ----- Authorization headers ---------------------------------------------------------------------------

  lemma AuthParted(w: string, j: nat, m: nat, e: nat, a: nat)
    requires 13 <= j < m <= e <= a <= |w| && w[j] == ':'
    ensures w[..a] == w[0..13] + w[13..j] + ":" + w[j + 1..m] + w[m..e] + w[e..a]
  {
    assert w[..a] == w[..e] + w[e..a];
    assert w[..e] == w[..m] + w[m..e];
    assert w[..m] == w[..j + 1] + w[j + 1..m];
    assert w[..j + 1] == w[..j] + ":";
    assert w[..j] == w[0..13] + w[13..j];
  }

  lemma AuthWordIsHeader(b: bool, w: string, j: nat, m: nat, e: nat, v: Span)
    requires AuthWord(b, w, j, m, e, v)
    ensures v.start < v.end <= |w| && IsAuthHeader(w[..v.start]) && Credential(w[v.start..v.end])
  {
    hide AnyCase, Caseless, Blank, Credential, All, Boundary;
    AuthParted(w, j, m, e, v.start);
    LiteralBetween(w, 0, "authorization");
    if e == m + 6 { LiteralBetween(w, m, "bearer"); } else { LiteralBetween(w, m, "basic"); }
    BlankBetween(w, 13, j);
    BlankBetween(w, j + 1, m);
    BlankBetween(w, e, v.start);
    CredentialBetween(w, v.start, v.end);
    assert AuthHeaderParts(w[..v.start], w[0..13], w[13..j], w[j + 1..m], w[m..e], w[e..v.start]);
  }

  /** The header pattern, exactly: it matches at the start of a text that follows no word character if and only if the
      text is a header, credentials and something that does not continue them; then the credentials are the value. */
  lemma HeaderMatchIff(w: string, v: Span)
    ensures Match(Auth, false, w) == Some(v) <==>
            exists h, c, post :: IsHeaderLine(w, h, c, post) && v == Span(|h|, |h| + |c|)
  {
    hide Match, IsAuthHeader, Credential, InLanguage, AuthWord;
    if Match(Auth, false, w) == Some(v) {
      RegexFound(Auth, false, w);
      var j, m, e := AuthWordOf(w, v);
      AuthWordIsHeader(false, w, j, m, e, v);
      AuthValueEnds(w, v);
      assert w == w[..v.start] + w[v.start..v.end] + w[v.end..];
      assert IsHeaderLine(w, w[..v.start], w[v.start..v.end], w[v.end..]);
    }
    if h, c, post :| IsHeaderLine(w, h, c, post) && v == Span(|h|, |h| + |c|) {
      AuthHere(h, c, post);
    }
  }

  ghost predicate IsHeaderLine(w: string, h: string, c: string, post: string) {
    && w == h + c + post && IsAuthHeader(h) && c != "" && Credential(c)
    && (post == "" || post[0] !in CREDENTIAL_CHARS)
  }

  lemma AuthWordOf(w: string, v: Span) returns (j: nat, m: nat, e: nat)
    requires InLanguage(Auth, false, w, v)
    ensures AuthWord(false, w, j, m, e, v)
  {
    hide AuthWord;
    j, m, e :| AuthWord(false, w, j, m, e, v);
  }

  lemma AuthValueEnds(w: string, v: Span)
    requires Match(Auth, false, w) == Some(v)
    ensures v.end <= |w| && (v.end < |w| ==> w[v.end] !in CREDENTIAL_CHARS)
  {
    hide Caseless, In;
    if v.end < |w| { ClassesAre(w[v.end]); }
  }

  // ----- Naked keys --------------------------------------------------------------------------------------

  ghost predicate IsKeyLine(w: string, k: string, post: string) {
    w == "sk-" + k + post && |k| >= 16 && KeyChars(k) && (post == "" || post[0] !in KEY_CHARS)
  }

  /** The same for naked keys: `sk-` and at least sixteen key characters, all of it the value. */
  lemma KeyMatchIff(w: string, v: Span)
    ensures Match(Sk, false, w) == Some(v) <==> exists k, post :: IsKeyLine(w, k, post) && v == Span(0, 3 + |k|)
  {
    hide Match, KeyChars, InLanguage;
    if Match(Sk, false, w) == Some(v) {
      RegexFound(Sk, false, w);
      SkWordIsKey(w, v);
      assert IsKeyLine(w, w[3..v.end], w[v.end..]);
    }
    if k, post :| IsKeyLine(w, k, post) && v == Span(0, 3 + |k|) {
      KeyHere(k, post);
    }
  }

  lemma SkWordIsKey(w: string, v: Span)
    requires InLanguage(Sk, false, w, v) && Match(Sk, false, w) == Some(v)
    ensures v.start == 0 && 19 <= v.end <= |w| && w == "sk-" + w[3..v.end] + w[v.end..] && KeyChars(w[3..v.end])
    ensures v.end < |w| ==> w[v.end] !in KEY_CHARS
  {
    hide In, KeyChars;
    KeyCharsBetween(w, 3, v.end);
    assert w == w[..3] + w[3..v.end] + w[v.end..];
    if v.end < |w| { ClassesAre(w[v.end]); }
  }

  // ----- Signatures --------------------------------------------------------------------------------------

  lemma SigParted(w: string, c: nat, a: nat)
    requires 19 <= c < a <= |w| && w[c] == ':'
    ensures w[..a] == w[0..19] + w[19..c] + ":" + w[c + 1..a]
  {
    assert w[..a] == w[..c + 1] + w[c + 1..a];
    assert w[..c + 1] == w[..c] + ":";
    assert w[..c] == w[0..19] + w[19..c];
  }

  lemma SigWordIsHeader(w: string, c: nat, v: Span)
    requires SigWord(w, c, v)
    ensures v.start < v.end <= |w| && IsSignatureHeader(w[..v.start]) && IsSignature(w[v.start..v.end])
  {
    hide AnyCase, Caseless, Blank, All, HexDigits;
    SigParted(w, c, v.start);
    LiteralBetween(w, 0, "x-hub-signature-256");
    LiteralBetween(w, v.start, "sha256=");
    BlankBetween(w, 19, c);
    BlankBetween(w, c + 1, v.start);
    HexBetween(w, v.start + 7, v.end);
    SliceOfSlice(w, v.start, v.end, 0, 7);
    SliceOfSlice(w, v.start, v.end, 7, v.end - v.start);
    var u := w[v.start..v.end];
    assert u[..7] == u[0..7] && u[7..] == u[7..v.end - v.start];
    assert SignatureHeaderParts(w[..v.start], w[0..19], w[19..c], w[c + 1..v.start]);
  }

  ghost predicate IsSignatureLine(w: string, h: string, u: string, post: string) {
    w == h + u + post && IsSignatureHeader(h) && IsSignature(u) && (post == "" || post[0] !in HEX_CHARS)
  }

  /** The same for signatures, whatever precedes them. */
  lemma SignatureMatchIff(b: bool, w: string, v: Span)
    ensures Match(Sig, b, w) == Some(v) <==>
            exists h, u, post :: IsSignatureLine(w, h, u, post) && v == Span(|h|, |h| + |u|)
  {
    hide Match, IsSignatureHeader, IsSignature, InLanguage, SigWord;
    if Match(Sig, b, w) == Some(v) {
      RegexFound(Sig, b, w);
      var c := SigWordOf(b, w, v);
      SigWordIsHeader(w, c, v);
      SigValueEnds(b, w, v);
      assert w == w[..v.start] + w[v.start..v.end] + w[v.end..];
      assert IsSignatureLine(w, w[..v.start], w[v.start..v.end], w[v.end..]);
    }
    if h, u, post :| IsSignatureLine(w, h, u, post) && v == Span(|h|, |h| + |u|) {
      SignatureHere(b, h, u, post);
    }
  }

  lemma SigWordOf(b: bool, w: string, v: Span) returns (c: nat)
    requires InLanguage(Sig, b, w, v)
    ensures SigWord(w, c, v)
  {
    hide SigWord;
    c :| SigWord(w, c, v);
  }

  lemma SigValueEnds(b: bool, w: string, v: Span)
    requires Match(Sig, b, w) == Some(v)
    ensures v.end <= |w| && (v.end < |w| ==> w[v.end] !in HEX_CHARS)
  {
    hide Caseless, In;
    if v.end < |w| { ClassesAre(w[v.end]); }
  }

  // ----- Assignments ---------------------------------------------------------------------------------------

  lemma WordBetween(w: string)
    requires All(Word, w, 0, |w|)
    ensures WordChars(w)
  {
    hide In;
    forall c
      ensures In(Word, c) ==> c in WORD_CHARS
    {
      ClassesAre(c);
    }
    OverAll(Word, WORD_CHARS, w, 0, |w|);
    assert w[0..|w|] == w;
  }

  lemma SameIsAnyCase(w: string, lit: string)
    requires NoCapitals(lit) && Same(w, lit)
    ensures AnyCase(w, lit)
  {
    LiteralBetween(w, 0, lit);
    assert w[0..|lit|] == w;
  }

  lemma SuffixedIsNameWith(w: string, lit: string)
    requires NoCapitals(lit) && Suffixed(w, lit) && All(Word, w, 0, |w|)
    ensures NameWith(w, lit)
  {
    hide AnyCase, Caseless, WordChars, All;
    LiteralBetween(w, |w| - |lit|, lit);
    assert w[|w| - |lit|..|w|] == w[|w| - |lit|..];
    WordBetween(w);
    InUppers(w[0]);
    InLowers(w[0]);
  }

  lemma KeyIsListed(w: string)
    requires || Same(w, "openrouter_api_key") || Same(w, "openai_api_key") || Same(w, "gemini_api_key")
             || Same(w, "meta_app_secret") || Same(w, "meta_verify_token") || Same(w, "app_encryption_key")
    ensures IsListed(w)
  {
    hide AnyCase, Same;
    if Same(w, "openrouter_api_key") {
      SameIsAnyCase(w, "openrouter_api_key");
    } else if Same(w, "openai_api_key") {
      SameIsAnyCase(w, "openai_api_key");
    } else if Same(w, "gemini_api_key") {
      SameIsAnyCase(w, "gemini_api_key");
    } else if Same(w, "meta_app_secret") {
      SameIsAnyCase(w, "meta_app_secret");
    } else if Same(w, "meta_verify_token") {
      SameIsAnyCase(w, "meta_verify_token");
    } else {
      SameIsAnyCase(w, "app_encryption_key");
    }
  }

  /** A key is a secret's name, and nothing else is one. */
  lemma KeyIsSecretName(w: string)
    ensures IsKey(w) && All(Word, w, 0, |w|) <==> IsSecretName(w)
  {
    hide Same, Suffixed, IsListed, NameWith, All;
    if IsSecretName(w) { SecretNameIsKey(w); }
    if IsKey(w) && All(Word, w, 0, |w|) {
      if Suffixed(w, "_token") {
        SuffixedIsNameWith(w, "_token");
      } else if Suffixed(w, "_secret") {
        SuffixedIsNameWith(w, "_secret");
      } else if Suffixed(w, "_password") {
        SuffixedIsNameWith(w, "_password");
      } else {
        KeyIsListed(w);
      }
    }
  }

  lemma AssignmentParted(w: string, k: nat, j: nat, m: nat, a: nat)
    requires k <= j < m <= a <= |w|
    ensures w[..a] == w[..k] + w[k..j] + [w[j]] + w[j + 1..m] + w[m..a]
  {
    assert w[..a] == w[..m] + w[m..a];
    assert w[..m] == w[..j + 1] + w[j + 1..m];
    assert w[..j + 1] == w[..j] + [w[j]];
    assert w[..j] == w[..k] + w[k..j];
  }

  lemma EnvWordIsAssignment(w: string, k: nat, j: nat, m: nat, v: Span)
    requires EnvWord(false, w, k, j, m, v)
    ensures v.start < v.end <= |w| && IsAssignment(w[..v.start]) && IsValue(w[v.start..v.end])
  {
    hide IsSecretName, Blank, All, Boundary, KeyLanguage, IsKey, IsValue;
    AssignmentParted(w, k, j, m, v.start);
    KeyIsKey(w[..k]);
    KeyIsSecretName(w[..k]);
    BlankBetween(w, k, j);
    BlankBetween(w, j + 1, m);
    ValueBetween(w, v.start, v.end);
    assert w[m..v.start] == "" || (v.start == m + 1 && w[m..v.start] == [w[m]]);
    assert AssignmentParts(w[..v.start], w[..k], w[k..j], [w[j]], w[j + 1..m], w[m..v.start]);
  }

  lemma ValueBetween(w: string, i: nat, j: nat)
    requires All(EnvValue, w, i, j) && i < j
    ensures IsValue(w[i..j])
  {
    hide In;
    forall n | i <= n < j
      ensures w[n] !in VALUE_ENDS
    {
      ClassesAre(w[n]);
    }
  }

  ghost predicate IsAssignmentLine(w: string, h: string, u: string, post: string) {
    w == h + u + post && IsAssignment(h) && IsValue(u) && (post == "" || post[0] in VALUE_ENDS)
  }

  /** The same for assignments. */
  lemma AssignmentMatchIff(w: string, v: Span)
    ensures Match(Env, false, w) == Some(v) <==>
            exists h, u, post :: IsAssignmentLine(w, h, u, post) && v == Span(|h|, |h| + |u|)
  {
    hide Match, IsAssignment, IsValue, InLanguage, EnvWord;
    if Match(Env, false, w) == Some(v) {
      RegexFound(Env, false, w);
      var k, j, m := EnvWordOf(w, v);
      EnvWordIsAssignment(w, k, j, m, v);
      EnvValueEnds(w, v);
      assert w == w[..v.start] + w[v.start..v.end] + w[v.end..];
      assert IsAssignmentLine(w, w[..v.start], w[v.start..v.end], w[v.end..]);
    }
    if h, u, post :| IsAssignmentLine(w, h, u, post) && v == Span(|h|, |h| + |u|) {
      AssignmentHere(h, u, post);
    }
  }

  lemma EnvWordOf(w: string, v: Span) returns (k: nat, j: nat, m: nat)
    requires InLanguage(Env, false, w, v)
    ensures EnvWord(false, w, k, j, m, v)
  {
    hide EnvWord;
    k, j, m :| EnvWord(false, w, k, j, m, v);
  }

  lemma EnvValueEnds(w: string, v: Span)
    requires Match(Env, false, w) == Some(v)
    ensures v.end <= |w| && (v.end < |w| ==> w[v.end] in VALUE_ENDS)
  {
    hide IsKey, In;
    if v.end < |w| { ClassesAre(w[v.end]); }
  }

  /** Behind a word character only signatures match. */
  lemma OnlySignaturesInWords(w: string)
    ensures Match(Env, true, w).None? && Match(Auth, true, w).None? && Match(Sk, true, w).None?
  {
  }
}
