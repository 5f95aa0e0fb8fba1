/** What the first pattern does to an assigned secret in its context, and texts in which nothing is a secret. */
module AssignmentConservation {
  import opened PyText
  import opened Alphabets
  import opened LogFilter
  import opened RedactionShapes
  import opened RedactionRegex
  import opened RedactionConservation

  /** A name of word characters that starts with a letter, is longer than `suffix` and ends in it, in any case. */
  predicate NameWith(key: string, suffix: string) {
    && |key| > |suffix| && key[0] in UPPERS + LOWERS && WordChars(key)
    && AnyCase(key[|key| - |suffix|..], suffix)
  }

  predicate WordChars(s: string) { Over(s, WORD_CHARS) }

  lemma SameIs(key: string, lit: string)
    requires NoCapitals(lit)
    ensures AnyCase(key, lit) ==> Same(key, lit)
  {
    hide CaseOf, LowerChar, Caseless;
    assert key[0..|key|] == key;
    CaselessIs(key, 0, key, lit);
    NameLength(key, lit);
  }

  lemma NameWithIs(key: string, lit: string)
    requires NoCapitals(lit)
    ensures NameWith(key, lit) ==> Suffixed(key, lit)
  {
    hide AnyCase, Caseless, WordChars;
    if NameWith(key, lit) {
      var i := |key| - |lit|;
      assert key[i..i + |lit|] == key[i..];
      CaselessIs(key, i, key[i..], lit);
      InUppers(key[0]);
      InLowers(key[0]);
    }
  }

  /** The names that are listed in full. */
  predicate IsListed(key: string) {
    || AnyCase(key, "openrouter_api_key") || AnyCase(key, "openai_api_key") || AnyCase(key, "gemini_api_key")
    || AnyCase(key, "meta_app_secret") || AnyCase(key, "meta_verify_token") || AnyCase(key, "app_encryption_key")
  }

  /** The names under which a value is a secret. */
  predicate IsSecretName(key: string) {
    IsListed(key) || NameWith(key, "_token") || NameWith(key, "_secret") || NameWith(key, "_password")
  }

  predicate LowerWord(s: string) { forall i :: 0 <= i < |s| ==> 'a' <= s[i] <= 'z' || s[i] == '_' }

  lemma ListedAs(key: string, lit: string)
    requires AnyCase(key, lit) && LowerWord(lit)
    ensures Same(key, lit) && All(Word, key, 0, |key|)
  {
    hide AnyCase, Same, All;
    SameIs(key, lit);
    SameIsWords(key, lit);
  }

  lemma ApiKeyIsKey(key: string)
    requires AnyCase(key, "openrouter_api_key") || AnyCase(key, "openai_api_key") || AnyCase(key, "gemini_api_key")
    ensures IsKey(key) && All(Word, key, 0, |key|)
  {
    hide AnyCase, Same, All, Suffixed;
    if AnyCase(key, "openrouter_api_key") {
      ListedAs(key, "openrouter_api_key");
    } else if AnyCase(key, "openai_api_key") {
      ListedAs(key, "openai_api_key");
    } else {
      ListedAs(key, "gemini_api_key");
    }
  }

  lemma ListedIsKey(key: string)
    requires IsListed(key)
    ensures IsKey(key) && All(Word, key, 0, |key|)
  {
    hide AnyCase, Same, All, Suffixed;
    if AnyCase(key, "meta_app_secret") {
      ListedAs(key, "meta_app_secret");
    } else if AnyCase(key, "meta_verify_token") {
      ListedAs(key, "meta_verify_token");
    } else if AnyCase(key, "app_encryption_key") {
      ListedAs(key, "app_encryption_key");
    } else {
      ApiKeyIsKey(key);
    }
  }

  lemma SecretNameIsKey(key: string)
    requires IsSecretName(key)
    ensures IsKey(key) && All(Word, key, 0, |key|)
  {
    hide AnyCase, Same, Suffixed, WordChars, All;
    if IsListed(key) {
      ListedIsKey(key);
    } else {
      NameWithIs(key, "_token");
      NameWithIs(key, "_secret");
      NameWithIs(key, "_password");
      WordCharsAre(key);
    }
  }

  lemma WordCharsAre(key: string)
    requires WordChars(key)
    ensures All(Word, key, 0, |key|)
  {
    hide In;
    forall c | c in WORD_CHARS
      ensures In(Word, c)
    {
      ClassesAre(c);
    }
    assert key[0..|key|] == key;
    AllOver(Word, WORD_CHARS, key, 0, key);
  }

  // ----- The assignment ----------------------------------------------------------------------------------

  /** An assignment up to its value: a name, a colon or an equals sign with white space around it, at most one quote. */
  ghost predicate IsAssignment(h: string) {
    exists key, g1, sep, g2, quote :: AssignmentParts(h, key, g1, sep, g2, quote)
  }

  predicate AssignmentParts(h: string, key: string, g1: string, sep: string, g2: string, quote: string) {
    && h == key + g1 + sep + g2 + quote
    && IsSecretName(key) && Blank(g1) && (sep == ":" || sep == "=") && Blank(g2)
    && (quote == "" || quote == "'" || quote == "\"")
  }

  /** A value runs up to white space, a quote or a comma. */
  predicate IsValue(v: string) { v != "" && Avoids(v, VALUE_ENDS) }

  lemma ValueIs(w: string, a: nat, v: string)
    requires a + |v| <= |w| && w[a..a + |v|] == v && IsValue(v)
    ensures All(EnvValue, w, a, a + |v|)
  {
    hide In;
    forall n | a <= n < a + |v|
      ensures In(EnvValue, w[n])
    {
      assert w[n] == v[n - a];
      ClassesAre(w[n]);
    }
  }

  lemma FirstSlices(w: string, key: string, g1: string, sep: string, rest: string)
    requires w == key + (g1 + (sep + rest))
    ensures var k := |key|; var j := k + |g1|;
            && j + |sep| <= |w| && w[0..k] == key && w[k..j] == g1 && w[j..j + |sep|] == sep && w[j + |sep|..] == rest
  {
    assert w[0..] == w;
    Cut(w, 0, key, g1 + (sep + rest));
    Cut(w, |key|, g1, sep + rest);
    Cut(w, |key| + |g1|, sep, rest);
  }

  lemma LastSlices(w: string, i: nat, g2: string, quote: string, v: string, post: string)
    requires i <= |w| && w[i..] == g2 + (quote + (v + post))
    ensures var m := i + |g2|; var a := m + |quote|; var z := a + |v|;
            z <= |w| && w[i..m] == g2 && w[m..a] == quote && w[a..z] == v && w[z..] == post
  {
    Cut(w, i, g2, quote + (v + post));
    Cut(w, i + |g2|, quote, v + post);
    Cut(w, i + |g2| + |quote|, v, post);
  }

  lemma KeyHead(w: string, k: nat)
    requires k <= |w| && IsSecretName(w[0..k])
    ensures k > 0 && KeyLanguage(w[..k]) && Boundary(false, w)
  {
    hide KeyLanguage, IsSecretName, IsKey;
    assert w[0..k] == w[..k];
    SecretNameIsKey(w[..k]);
    KeyIsKey(w[..k]);
    assert w[0] == w[..k][0];
  }

  lemma QuoteIs(w: string, m: nat, quote: string)
    requires m + |quote| <= |w| && w[m..m + |quote|] == quote && (quote == "" || quote == "'" || quote == "\"")
    ensures |quote| == 0 || (|quote| == 1 && IsQuote(w[m]))
  {
    if quote != "" { assert w[m] == w[m..m + |quote|][0]; }
  }

  lemma AssignmentIsWord(w: string, k: nat, j: nat, m: nat, a: nat, z: nat)
    requires k <= j < m <= a < z <= |w| && IsSecretName(w[0..k]) && Blank(w[k..j]) && (w[j] == ':' || w[j] == '=')
    requires Blank(w[j + 1..m]) && (w[m..a] == "" || w[m..a] == "'" || w[m..a] == "\"") && IsValue(w[a..z])
    ensures EnvWord(false, w, k, j, m, Span(a, z))
  {
    hide IsSecretName, Blank, IsValue, KeyLanguage, Boundary, All;
    KeyHead(w, k);
    Blanks(w, k, w[k..j]);
    Blanks(w, j + 1, w[j + 1..m]);
    QuoteIs(w, m, w[m..a]);
    ValueIs(w, a, w[a..z]);
  }

  lemma Regroup(key: string, g1: string, sep: string, g2: string, quote: string, v: string, post: string)
    ensures key + g1 + sep + g2 + quote + v + post == key + (g1 + (sep + (g2 + (quote + (v + post)))))
  {
  }

  lemma AssignmentSplits(h: string, v: string, post: string) returns (k: nat, j: nat, m: nat)
    requires IsAssignment(h) && IsValue(v)
    ensures EnvWord(false, h + v + post, k, j, m, Span(|h|, |h| + |v|))
  {
    hide IsSecretName, Blank, IsValue, EnvWord;
    var w := h + v + post;
    var key, g1, sep, g2, quote :| AssignmentParts(h, key, g1, sep, g2, quote);
    Regroup(key, g1, sep, g2, quote, v, post);
    FirstSlices(w, key, g1, sep, g2 + (quote + (v + post)));
    k := |key|;
    j := k + |g1|;
    LastSlices(w, j + 1, g2, quote, v, post);
    m := j + 1 + |g2|;
    assert w[j] == w[j..j + 1][0] == sep[0];
    ValueNonEmpty(v);
    AssignmentIsWord(w, k, j, m, |h|, |h| + |v|);
  }

  lemma ValueNonEmpty(v: string)
    ensures IsValue(v) ==> |v| > 0
  {
  }

  lemma AssignmentHere(h: string, v: string, post: string)
    requires IsAssignment(h) && IsValue(v) && (post == "" || post[0] in VALUE_ENDS)
    ensures Match(Env, false, h + v + post) == Some(Span(|h|, |h| + |v|)) && v != ""
  {
    hide MatchEnv, IsAssignment, EnvWord;
    var w, z := h + v + post, |h| + |v|;
    var k, j, m := AssignmentSplits(h, v, post);
    EnvUnique(false, w, k, j, m, Span(|h|, z));
    if z < |w| { assert w[z] == post[0]; }
    ValueEnds(w, z);
  }

  lemma ValueEnds(w: string, z: nat)
    requires MatchEnv(false, w).Some? && MatchEnv(false, w).value.start < z <= |w|
    requires z <= MatchEnv(false, w).value.end && (z < |w| ==> w[z] in VALUE_ENDS)
    ensures MatchEnv(false, w).value.end == z
  {
    hide IsKey, In;
    if z < |w| { ClassesAre(w[z]); }
  }

  // ----- Elsewhere -----------------------------------------------------------------------------------------

  /** The text says no secret's name: every name contains one of these words. */
  predicate NamesNoSecret(s: string) {
    !Says(s, "_key") && !Says(s, "_token") && !Says(s, "_secret") && !Says(s, "_password")
  }

  lemma SameTail(w: string, lit: string, tail: string)
    requires Same(w, lit) && |tail| <= |lit| && lit[|lit| - |tail|..] == tail
    ensures Caseless(w, |w| - |tail|, tail)
  {
    forall j | 0 <= j < |tail|
      ensures LowerChar(w[|w| - |tail| + j]) == tail[j]
    {
      assert tail[j] == lit[|lit| - |tail| + j];
      CaselessChar(w, 0, lit, |lit| - |tail| + j);
    }
  }

  lemma KeyTail(w: string)
    requires IsKey(w)
    ensures || (|w| >= 4 && Caseless(w, |w| - 4, "_key")) || (|w| >= 6 && Caseless(w, |w| - 6, "_token"))
            || (|w| >= 7 && Caseless(w, |w| - 7, "_secret")) || (|w| >= 9 && Caseless(w, |w| - 9, "_password"))
  {
    hide Caseless;
    if Same(w, "openrouter_api_key") { SameTail(w, "openrouter_api_key", "_key"); }
    if Same(w, "openai_api_key") { SameTail(w, "openai_api_key", "_key"); }
    if Same(w, "gemini_api_key") { SameTail(w, "gemini_api_key", "_key"); }
    if Same(w, "app_encryption_key") { SameTail(w, "app_encryption_key", "_key"); }
    if Same(w, "meta_app_secret") { SameTail(w, "meta_app_secret", "_secret"); }
    if Same(w, "meta_verify_token") { SameTail(w, "meta_verify_token", "_token"); }
  }

  lemma KeyNames(w: string)
    requires IsKey(w)
    ensures !NamesNoSecret(w)
  {
    hide IsKey, Caseless, Says;
    KeyTail(w);
    if |w| >= 4 && Caseless(w, |w| - 4, "_key") { CaselessSays(w, |w| - 4, "_key"); }
    if |w| >= 6 && Caseless(w, |w| - 6, "_token") { CaselessSays(w, |w| - 6, "_token"); }
    if |w| >= 7 && Caseless(w, |w| - 7, "_secret") { CaselessSays(w, |w| - 7, "_secret"); }
    if |w| >= 9 && Caseless(w, |w| - 9, "_password") { CaselessSays(w, |w| - 9, "_password"); }
  }

  lemma SaysMore(t: string, from: nat, to: nat, i: nat, j: nat, lit: string)
    requires from <= i <= j <= to <= |t| && Says(t[i..j], lit)
    ensures Says(t[from..to], lit)
  {
    hide AnyCase;
    var n :| 0 <= n <= j - i && SaidAt(t[i..j], n, lit);
    SliceOfSlice(t, i, j, n, n + |lit|);
    SliceOfSlice(t, from, to, i - from + n, i - from + n + |lit|);
    assert SaidAt(t[from..to], i - from + n, lit);
  }

  lemma NamesMore(t: string, from: nat, to: nat, i: nat, j: nat)
    requires from <= i <= j <= to <= |t| && NamesNoSecret(t[from..to])
    ensures NamesNoSecret(t[i..j])
  {
    hide Says;
    if Says(t[i..j], "_key") { SaysMore(t, from, to, i, j, "_key"); }
    if Says(t[i..j], "_token") { SaysMore(t, from, to, i, j, "_token"); }
    if Says(t[i..j], "_secret") { SaysMore(t, from, to, i, j, "_secret"); }
    if Says(t[i..j], "_password") { SaysMore(t, from, to, i, j, "_password"); }
  }

  lemma NoAssignmentHere(b: bool, w: string)
    requires !IsKey(w[..Run(Word, w, 0)])
    ensures Match(Env, b, w).None?
  {
  }

  lemma NoOtherAssignment(t: string, from: nat, to: nat)
    requires from <= to <= |t| && NamesNoSecret(t[from..to])
    requires to < |t| && from < to ==> !IsWord(t[to - 1])
    ensures NoneBetween(Env, t, from, to)
  {
    hide Match, Before, NamesNoSecret, IsKey, IsWord, Run;
    forall j: nat | from <= j < to
      ensures Match(Env, Before(false, t, j), t[j..]).None?
    {
      var k := Run(Word, t[j..], 0);
      KeyFits(t, j, k, to);
      SliceOfSlice(t, j, |t|, 0, k);
      assert t[j..|t|] == t[j..] && t[j..][0..k] == t[j..][..k];
      NamesMore(t, from, to, j, j + k);
      if IsKey(t[j..j + k]) { KeyNames(t[j..j + k]); }
      NoAssignmentHere(Before(false, t, j), t[j..]);
    }
  }

  lemma KeyFits(t: string, j: nat, k: nat, to: nat)
    requires j < to <= |t| && k == Run(Word, t[j..], 0) && (to < |t| ==> !IsWord(t[to - 1]))
    ensures j + k <= to
  {
    assert forall x :: j <= x < j + k ==> t[x] == t[j..][x - j];
    if to < j + k {
      assert false;
    }
  }

  /** Conservation for assignments. Wherever an assignment of a secret stands at the start of a word in a text that has
      not named one before, all of the value and nothing else gives way to the marker; and if the rest names no secret
      either, the rest is copied. */
  lemma AssignmentIsRedacted(pre: string, h: string, v: string, post: string)
    requires IsAssignment(h) && IsValue(v) && (post == "" || post[0] in VALUE_ENDS)
    requires EndsWord(pre) && NamesNoSecret(pre)
    ensures pre + h + "<redacted>" <= Pass(Env, pre + h + v + post)
    ensures NamesNoSecret(post) ==> Pass(Env, pre + h + v + post) == pre + h + "<redacted>" + post
  {
    hide Match, NamesNoSecret, IsAssignment, IsValue, EndsWord, Pass;
    AssignmentHere(h, v, post);
    var t := pre + h + v + post;
    var s, a, z := |pre|, |pre + h|, |pre + h + v|;
    Around(pre, h, v, post);
    WordStarts(pre, t);
    NoOtherAssignment(t, 0, s);
    FirstReplaced(Env, t, Found(s, a, z));
    if NamesNoSecret(post) {
      NoOtherAssignment(t, z, |t|);
      NothingAtEnd(Env, Before(false, t, |t|));
    }
  }
}
