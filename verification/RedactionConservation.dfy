/** What the four patterns do to a secret in its context, said from outside: alphabets are written out, and no scanner,
    character class or match is mentioned in a result. */
module RedactionConservation {
  import opened PyText
  import opened Alphabets
  import opened LogFilter
  import opened RedactionShapes
  import opened RedactionRegex
  import opened RedactionScan
  import opened RedactionPasses

  const WORD_CHARS := UPPERS + LOWERS + NUMERALS + "_"
  const CREDENTIAL_CHARS := UPPERS + LOWERS + NUMERALS + "._-+/="
  const KEY_CHARS := UPPERS + LOWERS + NUMERALS + "_-"
  const HEX_CHARS := "0123456789abcdefABCDEF"
  const VALUE_ENDS := WHITE + "'\","

  predicate Over(s: string, alphabet: string) { forall i :: 0 <= i < |s| ==> s[i] in alphabet }

  predicate Avoids(s: string, alphabet: string) { forall i :: 0 <= i < |s| ==> s[i] !in alphabet }

  predicate Blank(s: string) { Over(s, WHITE) }

  /** Characters that credentials are made of. */
  predicate Credential(s: string) { Over(s, CREDENTIAL_CHARS) }

  /** A word may start after `pre`. */
  predicate EndsWord(pre: string) { pre == "" || pre[|pre| - 1] !in WORD_CHARS }

  // ----- The character classes ---------------------------------------------------------------------------

  lemma InLetters(c: char)
    ensures c in UPPERS + LOWERS + NUMERALS <==> IsLetter(c) || IsDigit(c)
  {
    InUppers(c);
    InLowers(c);
    InNumerals(c);
  }

  lemma InHex(c: char)
    ensures c in HEX_CHARS <==> In(Hex, c)
  {
  }

  /** Every character class is the alphabet that its brackets list. */
  lemma ClassesAre(c: char)
    ensures In(Word, c) <==> c in WORD_CHARS
    ensures In(Space, c) <==> c in WHITE
    ensures In(EnvValue, c) <==> c !in VALUE_ENDS
    ensures In(AuthValue, c) <==> c in CREDENTIAL_CHARS
    ensures In(KeyBody, c) <==> c in KEY_CHARS
    ensures In(Hex, c) <==> c in HEX_CHARS
  {
    InLetters(c);
    InWhite(c);
    InHex(c);
    hide IsLetter, IsDigit, IsSpace;
  }

  lemma AllOver(k: Class, alphabet: string, w: string, i: nat, x: string)
    requires i + |x| <= |w| && w[i..i + |x|] == x && Over(x, alphabet)
    requires forall c :: c in alphabet ==> In(k, c)
    ensures All(k, w, i, i + |x|)
  {
    hide In;
    forall n | i <= n < i + |x|
      ensures In(k, w[n])
    {
      assert w[n] == x[n - i];
    }
  }

  lemma Blanks(w: string, i: nat, g: string)
    requires i + |g| <= |w| && w[i..i + |g|] == g && Blank(g)
    ensures All(Space, w, i, i + |g|)
  {
    hide In;
    forall c | c in WHITE
      ensures In(Space, c)
    {
      ClassesAre(c);
    }
    AllOver(Space, WHITE, w, i, g);
  }

  // ----- Slicing a text into its parts -------------------------------------------------------------------

  lemma Cut(w: string, i: nat, x: string, r: string)
    requires i <= |w| && w[i..] == x + r
    ensures i + |x| <= |w| && w[i..i + |x|] == x && w[i + |x|..] == r
  {
    assert (x + r)[..|x|] == x && (x + r)[|x|..] == r;
    assert w[i..][..|x|] == w[i..i + |x|];
  }

  /** A text around a header `h` and a value `v`. */
  lemma Around(pre: string, h: string, v: string, post: string)
    ensures var t := pre + h + v + post; var s, a, z := |pre|, |pre + h|, |pre + h + v|;
            && s <= a <= z <= |t|
            && t[s..] == h + v + post && t[..a] == pre + h && t[z..] == post && t[0..s] == pre && t[z..|t|] == post
  {
    var t := pre + h + v + post;
    assert t == pre + (h + v + post);
    assert t == (pre + h) + (v + post);
    assert t == (pre + h + v) + post;
  }

  lemma CaselessIs(w: string, i: nat, x: string, lit: string)
    requires i + |x| <= |w| && w[i..i + |x|] == x && NoCapitals(lit)
    ensures AnyCase(x, lit) ==> Caseless(w, i, lit)
    ensures |x| == |lit| && Caseless(w, i, lit) ==> AnyCase(x, lit)
  {
    hide LowerChar, CaseOf;
    if |x| == |lit| {
      forall j | 0 <= j < |lit|
        ensures x[j] == w[i + j] && (CaseOf(x[j], lit[j]) <==> LowerChar(x[j]) == lit[j])
      {
        assert x[j] == w[i..i + |x|][j];
        CaseOfIs(x[j], lit[j]);
      }
    }
  }

  /** Where a text says a word, ignoring case. */
  lemma CaselessSays(w: string, i: nat, lit: string)
    requires NoCapitals(lit) && i <= |w| && Caseless(w, i, lit)
    ensures SaidAt(w, i, lit) && Says(w, lit)
  {
    hide AnyCase, Caseless;
    CaselessLength(w, i, lit);
    CaselessIs(w, i, w[i..i + |lit|], lit);
    assert SaidAt(w, i, lit);
  }

  lemma CaselessLength(w: string, i: nat, lit: string)
    requires Caseless(w, i, lit)
    ensures i + |lit| <= |w|
  {
  }

  lemma SaidInPart(t: string, i: nat, lit: string, from: nat, to: nat)
    requires from <= i && i + |lit| <= to <= |t| && SaidAt(t, i, lit)
    ensures Says(t[from..to], lit)
  {
    hide AnyCase;
    var u, n := t[from..to], i - from;
    SliceOfSlice(t, from, to, n, n + |lit|);
    assert SaidAt(u, n, lit);
  }

  lemma SliceOfSlice(t: string, from: nat, to: nat, i: nat, j: nat)
    requires from <= to <= |t| && i <= j <= to - from
    ensures t[from..to][i..j] == t[from + i..from + j]
  {
    assert forall k :: 0 <= k < j - i ==> t[from..to][i..j][k] == t[from + i..from + j][k];
  }

  // ----- One match ---------------------------------------------------------------------------------------

  ghost predicate NoneBetween(p: Pattern, t: string, from: nat, to: nat) {
    forall j :: from <= j < to <= |t| ==> Match(p, Before(false, t, j), t[j..]).None?
  }

  /** The first match of a text is replaced; if it is the only one, everything else is copied. */
  lemma FirstReplaced(p: Pattern, t: string, f: Found)
    requires MatchOf(p, t, f) && NoneBetween(p, t, 0, f.start)
    ensures t[..f.from] + REDACTED <= Pass(p, t)
    ensures NoneBetween(p, t, f.to, |t|) && Match(p, Before(false, t, |t|), "").None? ==>
              Pass(p, t) == t[..f.from] + REDACTED + t[f.to..]
  {
    hide Match, Before, Sub, MatchOf, Exhaustive;
    MatchOfSpan(p, t, f);
    BeforeStart(t);
    var ms := PassIsAScan(p, t, 0);
    FirstOfScan(p, t, 0, ms, f);
    MaskedStep(t, 0, ms);
    if NoneBetween(p, t, f.to, |t|) && Match(p, Before(false, t, |t|), "").None? {
      OneMatchScan(p, t, f);
      PassIsTheScan(p, t, 0, [f]);
      MaskedStep(t, 0, [f]);
      NothingMasked(t, f.to);
      assert [f][1..] == [];
    }
  }

  lemma MatchOfSpan(p: Pattern, t: string, f: Found)
    requires MatchOf(p, t, f)
    ensures f.start <= f.from < f.to <= |t|
  {
  }

  lemma BeforeStart(t: string)
    ensures Before(false, t, 0) == false && t[0..] == t
  {
  }

  lemma OneMatchScan(p: Pattern, t: string, f: Found)
    requires MatchOf(p, t, f) && NoneBetween(p, t, 0, f.start) && NoneBetween(p, t, f.to, |t|)
    requires Match(p, Before(false, t, |t|), "").None?
    ensures IsScan(p, t, 0, [f])
  {
    hide Match, Before;
    forall j: nat | j <= |t| && Outside([f], j)
      ensures Match(p, Before(false, t, j), t[j..]).None?
    {
      assert [f][0] == f;
      if j == |t| { assert t[j..] == ""; }
    }
  }

  lemma NothingAtEnd(p: Pattern, b: bool)
    ensures Match(p, b, "").None?
  {
    NotCaseless("", 0, "authorization");
    NotCaseless("", 0, "x-hub-signature-256");
    if IsKey("") { KeyNonEmpty(""); }
  }

  lemma NothingReplaced(p: Pattern, t: string)
    requires NoneBetween(p, t, 0, |t|)
    ensures Pass(p, t) == t
  {
    hide Match, Before, Sub;
    BeforeStart(t);
    NothingAtEnd(p, Before(false, t, |t|));
    forall j: nat | j <= |t|
      ensures Match(p, Before(false, t, j), t[j..]).None?
    {
      if j == |t| { assert t[j..] == ""; }
    }
    PassIsTheScan(p, t, 0, []);
    NothingMasked(t, 0);
  }

  // ----- Authorization headers ---------------------------------------------------------------------------

  lemma NoHeaderHere(b: bool, w: string)
    requires !Caseless(w, 0, "authorization")
    ensures Match(Auth, b, w).None?
  {
  }

  /** Before and after a header there is none, if the text around it does not say its name. */
  lemma NoOtherHeader(t: string, from: nat, to: nat)
    requires from <= to <= |t|
    requires !Says(t[from..to], "authorization") && (to < |t| ==> to == from || !IsWord(t[to - 1]))
    ensures NoneBetween(Auth, t, from, to)
  {
    hide Match, Before, IsWord, Says;
    forall j: nat | from <= j < to
      ensures Match(Auth, Before(false, t, j), t[j..]).None?
    {
      if Caseless(t[j..], 0, "authorization") {
        HeaderIsWord(t, j, to);
        SaidLater(t, j, "authorization");
        SaidInPart(t, j, "authorization", from, to);
      }
      NoHeaderHere(Before(false, t, j), t[j..]);
    }
  }

  /** A name that begins in a text ending outside a word does not run over its end. */
  lemma HeaderIsWord(t: string, j: nat, to: nat)
    requires j < to <= |t| && Caseless(t[j..], 0, "authorization") && (to < |t| ==> !IsWord(t[to - 1]))
    ensures j + 13 <= to
  {
    hide Caseless;
    CaselessLength(t[j..], 0, "authorization");
    if to < j + 13 {
      CaselessLetters(t[j..], 0, "authorization", to - 1 - j);
      assert false;
    }
  }

  lemma SaidLater(t: string, j: nat, lit: string)
    requires NoCapitals(lit) && j <= |t| && Caseless(t[j..], 0, lit)
    ensures SaidAt(t, j, lit)
  {
    hide Caseless, AnyCase;
    CaselessLength(t[j..], 0, lit);
    CaselessIs(t[j..], 0, t[j..][0..|lit|], lit);
    SliceOfSlice(t, j, |t|, 0, |lit|);
    assert t[j..|t|] == t[j..];
  }

  /** An authorization header with spaces where the format allows them, up to its credentials. */
  ghost predicate IsAuthHeader(h: string) {
    exists name, g1, g2, scheme, g3 :: AuthHeaderParts(h, name, g1, g2, scheme, g3)
  }

  predicate AuthHeaderParts(h: string, name: string, g1: string, g2: string, scheme: string, g3: string) {
    && h == name + g1 + ":" + g2 + scheme + g3
    && AnyCase(name, "authorization") && (AnyCase(scheme, "bearer") || AnyCase(scheme, "basic"))
    && Blank(g1) && Blank(g2) && Blank(g3) && g3 != ""
  }

  /** Where the parts of a header stand: up to the colon, ... */
  lemma NameSlices(w: string, name: string, g1: string, rest: string)
    requires w == name + (g1 + (":" + rest))
    ensures var k := |name|; var j := k + |g1|;
            && j < |w| && w[0..k] == name && w[k..j] == g1 && w[j] == ':' && w[j + 1..] == rest
  {
    assert w[0..] == w;
    Cut(w, 0, name, g1 + (":" + rest));
    Cut(w, |name|, g1, ":" + rest);
    Cut(w, |name| + |g1|, ":", rest);
    assert w[|name| + |g1|] == w[|name| + |g1|..|name| + |g1| + 1][0];
  }

  /** ... and after it. */
  lemma SchemeSlices(w: string, i: nat, g2: string, scheme: string, g3: string, v: string, post: string)
    requires i <= |w| && w[i..] == g2 + (scheme + (g3 + (v + post)))
    ensures var m := i + |g2|; var e := m + |scheme|; var a := e + |g3|; var z := a + |v|;
            && z <= |w| && w[i..m] == g2 && w[m..e] == scheme && w[e..a] == g3 && w[a..z] == v && w[z..] == post
  {
    Cut(w, i, g2, scheme + (g3 + (v + post)));
    Cut(w, i + |g2|, scheme, g3 + (v + post));
    Cut(w, i + |g2| + |scheme|, g3, v + post);
    Cut(w, i + |g2| + |scheme| + |g3|, v, post);
  }

  lemma AuthRegroup(name: string, g1: string, g2: string, scheme: string, g3: string, v: string, post: string)
    ensures name + g1 + ":" + g2 + scheme + g3 + v + post ==
            name + (g1 + (":" + (g2 + (scheme + (g3 + (v + post))))))
  {
  }

  lemma NameIs(w: string)
    requires 13 <= |w| && AnyCase(w[0..13], "authorization")
    ensures Caseless(w, 0, "authorization") && Boundary(false, w)
  {
    hide AnyCase, Caseless;
    CaselessIs(w, 0, w[0..13], "authorization");
    StartsName(w);
  }

  lemma SchemeIs(w: string, m: nat, e: nat)
    requires m <= e <= |w| && (AnyCase(w[m..e], "bearer") || AnyCase(w[m..e], "basic"))
    ensures (e == m + 6 && Caseless(w, m, "bearer")) || (e == m + 5 && Caseless(w, m, "basic"))
  {
    hide AnyCase, Caseless;
    NameLength(w[m..e], "bearer");
    NameLength(w[m..e], "basic");
    CaselessIs(w, m, w[m..e], "bearer");
    CaselessIs(w, m, w[m..e], "basic");
  }

  /** A header with credentials is in the language of the authorization pattern. */
  lemma AuthIsWord(w: string, j: nat, m: nat, e: nat, a: nat, z: nat)
    requires 13 <= j < m <= e < a < z <= |w|
    requires AnyCase(w[0..13], "authorization") && (AnyCase(w[m..e], "bearer") || AnyCase(w[m..e], "basic"))
    requires Blank(w[13..j]) && Blank(w[j + 1..m]) && Blank(w[e..a]) && w[j] == ':'
    requires Credential(w[a..z])
    ensures AuthWord(false, w, j, m, e, Span(a, z))
  {
    hide AnyCase, Caseless, Blank, Credential, All, Boundary;
    Blanks(w, 13, w[13..j]);
    Blanks(w, j + 1, w[j + 1..m]);
    Blanks(w, e, w[e..a]);
    NameIs(w);
    SchemeIs(w, m, e);
    CredentialsAre(w, a, w[a..z]);
  }

  /** A header, credentials and what follows them: the splits of the pattern. */
  lemma AuthSplits(h: string, v: string, post: string) returns (j: nat, m: nat, e: nat)
    requires IsAuthHeader(h) && v != "" && Credential(v)
    ensures AuthWord(false, h + v + post, j, m, e, Span(|h|, |h| + |v|))
  {
    hide AnyCase, Blank, Credential, AuthWord;
    var w := h + v + post;
    var name, g1, g2, scheme, g3 :| AuthHeaderParts(h, name, g1, g2, scheme, g3);
    NameLength(name, "authorization");
    AuthRegroup(name, g1, g2, scheme, g3, v, post);
    NameSlices(w, name, g1, g2 + (scheme + (g3 + (v + post))));
    j := 13 + |g1|;
    SchemeSlices(w, j + 1, g2, scheme, g3, v, post);
    m := j + 1 + |g2|;
    e := m + |scheme|;
    AuthIsWord(w, j, m, e, |h|, |h| + |v|);
  }

  /** ... as the scanner of authorization headers sees them. */
  lemma AuthHere(h: string, v: string, post: string)
    requires IsAuthHeader(h) && v != "" && Credential(v) && (post == "" || post[0] !in CREDENTIAL_CHARS)
    ensures Match(Auth, false, h + v + post) == Some(Span(|h|, |h| + |v|))
  {
    hide MatchAuth, Credential, IsAuthHeader, AuthWord;
    var w, z := h + v + post, |h| + |v|;
    var j, m, e := AuthSplits(h, v, post);
    AuthUnique(false, w, j, m, e, Span(|h|, z));
    if z < |w| { assert w[z] == post[0]; }
    AuthEnds(false, w, z);
  }

  lemma NameLength(x: string, lit: string)
    ensures AnyCase(x, lit) ==> |x| == |lit|
  {
  }

  lemma CredentialsAre(w: string, a: nat, v: string)
    requires a + |v| <= |w| && w[a..a + |v|] == v && Credential(v)
    ensures All(AuthValue, w, a, a + |v|)
  {
    hide In;
    forall c | c in CREDENTIAL_CHARS
      ensures In(AuthValue, c)
    {
      ClassesAre(c);
    }
    AllOver(AuthValue, CREDENTIAL_CHARS, w, a, v);
  }

  lemma StartsName(w: string)
    requires Caseless(w, 0, "authorization")
    ensures Boundary(false, w)
  {
    CaselessLetters(w, 0, "authorization", 0);
  }

  /** The value group ends where its class ends. */
  lemma AuthEnds(b: bool, w: string, z: nat)
    requires MatchAuth(b, w).Some? && MatchAuth(b, w).value.start < z <= |w| && z <= MatchAuth(b, w).value.end
    requires z < |w| ==> w[z] !in CREDENTIAL_CHARS
    ensures MatchAuth(b, w).value.end == z
  {
    hide Caseless, In;
    if z < |w| { ClassesAre(w[z]); }
  }

  /** Conservation for `Authorization` headers. Wherever a header with credentials stands at the start of a word in a
      text that has not named one before, all of the credentials and nothing else give way to the marker; and if the
      rest does not name a header either, the rest is copied. */
  lemma AuthorizationIsRedacted(pre: string, h: string, v: string, post: string)
    requires IsAuthHeader(h) && v != "" && Credential(v) && (post == "" || post[0] !in CREDENTIAL_CHARS)
    requires EndsWord(pre) && !Says(pre, "authorization")
    ensures pre + h + "<redacted>" <= Pass(Auth, pre + h + v + post)
    ensures !Says(post, "authorization") ==> Pass(Auth, pre + h + v + post) == pre + h + "<redacted>" + post
  {
    hide Match, Says, IsAuthHeader, Credential, EndsWord, Pass;
    AuthHere(h, v, post);
    var t := pre + h + v + post;
    var s, a, z := |pre|, |pre + h|, |pre + h + v|;
    Around(pre, h, v, post);
    WordStarts(pre, t);
    NoOtherHeader(t, 0, s);
    FirstReplaced(Auth, t, Found(s, a, z));
    if !Says(post, "authorization") {
      NoOtherHeader(t, z, |t|);
      NothingAtEnd(Auth, Before(false, t, |t|));
    }
  }

  lemma WordStarts(pre: string, t: string)
    requires EndsWord(pre) && |pre| <= |t| && t[0..|pre|] == pre
    ensures !Before(false, t, |pre|) && (|pre| > 0 ==> !IsWord(t[|pre| - 1]))
  {
    if pre != "" {
      assert t[|pre| - 1] == pre[|pre| - 1];
      ClassesAre(pre[|pre| - 1]);
    }
  }

  // ----- Naked keys --------------------------------------------------------------------------------------

  predicate KeyChars(s: string) { Over(s, KEY_CHARS) }

  lemma KeyCharsAre(w: string, a: nat, v: string)
    requires a + |v| <= |w| && w[a..a + |v|] == v && KeyChars(v)
    ensures All(KeyBody, w, a, a + |v|)
  {
    hide In;
    forall c | c in KEY_CHARS
      ensures In(KeyBody, c)
    {
      ClassesAre(c);
    }
    AllOver(KeyBody, KEY_CHARS, w, a, v);
  }

  lemma KeyHere(v: string, post: string)
    requires |v| >= 16 && KeyChars(v) && (post == "" || post[0] !in KEY_CHARS)
    ensures Match(Sk, false, "sk-" + v + post) == Some(Span(0, 3 + |v|))
  {
    hide KeyChars, In;
    var w, z := "sk-" + v + post, 3 + |v|;
    assert w[..3] == "sk-" && w[3..3 + |v|] == v && w[0] == "sk-"[0];
    KeyCharsAre(w, 3, v);
    RunIsLongest(KeyBody, w, 3, z);
    if z < |w| {
      assert w[z] == post[0];
      ClassesAre(w[z]);
    }
  }

  lemma NoKeyAt(b: bool, w: string)
    requires |w| < 3 || w[..3] != "sk-"
    ensures Match(Sk, b, w).None?
  {
  }

  lemma KeyInPart(t: string, j: nat, from: nat, to: nat)
    requires from <= j && j + 3 <= to <= |t| && t[j..][..3] == "sk-"
    ensures Contains(t[from..to], "sk-")
  {
    SliceOfSlice(t, from, to, j - from, j - from + 3);
    SliceOfSlice(t, j, |t|, 0, 3);
    assert t[j..|t|] == t[j..] && t[j..][0..3] == t[j..][..3];
    assert StandsAt(t[from..to], j - from, "sk-");
  }

  lemma NoOtherKey(t: string, from: nat, to: nat)
    requires from <= to <= |t| && !Contains(t[from..to], "sk-")
    requires to < |t| && from < to ==> !IsWord(t[to - 1])
    ensures NoneBetween(Sk, t, from, to)
  {
    hide Match, Before;
    forall j: nat | from <= j < to
      ensures Match(Sk, Before(false, t, j), t[j..]).None?
    {
      if |t[j..]| >= 3 && t[j..][..3] == "sk-" {
        assert t[j] == t[j..][..3][0] == 's' && t[j + 1] == t[j..][..3][1] == 'k';
        if j + 3 <= to { KeyInPart(t, j, from, to); }
        assert false;
      }
      NoKeyAt(Before(false, t, j), t[j..]);
    }
  }

  /** Conservation for naked keys: `sk-` and at least sixteen key characters, whole. */
  lemma NakedKeyIsRedacted(pre: string, v: string, post: string)
    requires |v| >= 16 && KeyChars(v) && (post == "" || post[0] !in KEY_CHARS)
    requires EndsWord(pre) && !Contains(pre, "sk-")
    ensures pre + "<redacted>" <= Pass(Sk, pre + "sk-" + v + post)
    ensures !Contains(post, "sk-") ==> Pass(Sk, pre + "sk-" + v + post) == pre + "<redacted>" + post
  {
    hide Match, Contains, KeyChars, EndsWord, Pass;
    KeyHere(v, post);
    var t := pre + "sk-" + v + post;
    var s, z := |pre|, |pre + "sk-" + v|;
    Around(pre, "sk-", v, post);
    assert t[..s] == t[0..s];
    WordStarts(pre, t);
    NoOtherKey(t, 0, s);
    FirstReplaced(Sk, t, Found(s, s, z));
    if !Contains(post, "sk-") {
      NoOtherKey(t, z, |t|);
      NothingAtEnd(Sk, Before(false, t, |t|));
    }
  }

  lemma ShortKeyHere(b: bool, v: string, post: string)
    requires |v| < 16 && (post == "" || post[0] !in KEY_CHARS)
    ensures Match(Sk, b, "sk-" + v + post).None?
  {
    hide In;
    var w, z := "sk-" + v + post, 3 + |v|;
    if z < |w| {
      assert w[z] == post[0];
      ClassesAre(w[z]);
    }
  }

  lemma ShortKeySlices(pre: string, v: string, post: string)
    ensures var t, s := pre + "sk-" + v + post, |pre|;
            s < |t| && t[s..] == "sk-" + v + post && t[0..s] == pre && t[s + 1..|t|] == "k-" + v + post
  {
    var t := pre + "sk-" + v + post;
    assert t == pre + ("sk-" + v + post);
    assert "sk-" == "s" + "k-";
    assert t == (pre + "s") + ("k-" + v + post);
  }

  /** Shorter ones are no secrets. */
  lemma ShortKeyIsKept(pre: string, v: string, post: string)
    requires |v| < 16 && (post == "" || post[0] !in KEY_CHARS)
    requires EndsWord(pre) && !Contains(pre, "sk-") && !Contains("k-" + v + post, "sk-")
    ensures Pass(Sk, pre + "sk-" + v + post) == pre + "sk-" + v + post
  {
    hide Match, Contains, EndsWord, Pass, Before;
    var t := pre + "sk-" + v + post;
    var s := |pre|;
    ShortKeySlices(pre, v, post);
    WordStarts(pre, t);
    ShortKeyHere(Before(false, t, s), v, post);
    NoOtherKey(t, 0, s);
    NoOtherKey(t, s + 1, |t|);
    NothingReplaced(Sk, t);
  }

  // ----- Signatures --------------------------------------------------------------------------------------

  /** A signature header up to its value. */
  ghost predicate IsSignatureHeader(h: string) { exists name, g1, g2 :: SignatureHeaderParts(h, name, g1, g2) }

  predicate SignatureHeaderParts(h: string, name: string, g1: string, g2: string) {
    h == name + g1 + ":" + g2 && AnyCase(name, "x-hub-signature-256") && Blank(g1) && Blank(g2)
  }

  /** `sha256=` and at least one hexadecimal digit. */
  predicate IsSignature(v: string) { |v| > 7 && AnyCase(v[..7], "sha256=") && HexDigits(v[7..]) }

  predicate HexDigits(s: string) { Over(s, HEX_CHARS) }

  lemma HexDigitsAre(w: string, a: nat, v: string)
    requires a + |v| <= |w| && w[a..a + |v|] == v && HexDigits(v)
    ensures All(Hex, w, a, a + |v|)
  {
    hide In;
    forall c | c in HEX_CHARS
      ensures In(Hex, c)
    {
      ClassesAre(c);
    }
    AllOver(Hex, HEX_CHARS, w, a, v);
  }

  lemma SignatureSlices(w: string, i: nat, g2: string, v: string, post: string)
    requires i <= |w| && w[i..] == g2 + (v + post)
    ensures var a := i + |g2|; var z := a + |v|; z <= |w| && w[i..a] == g2 && w[a..z] == v && w[z..] == post
  {
    Cut(w, i, g2, v + post);
    Cut(w, i + |g2|, v, post);
  }

  lemma SignatureRegroup(name: string, g1: string, g2: string, v: string, post: string)
    ensures name + g1 + ":" + g2 + v + post == name + (g1 + (":" + (g2 + (v + post))))
  {
  }

  lemma SignatureNameIs(w: string)
    requires 19 <= |w| && AnyCase(w[0..19], "x-hub-signature-256")
    ensures Caseless(w, 0, "x-hub-signature-256")
  {
    hide AnyCase, Caseless;
    CaselessIs(w, 0, w[0..19], "x-hub-signature-256");
  }

  lemma SignatureIs(w: string, a: nat, z: nat)
    requires a <= z <= |w| && IsSignature(w[a..z])
    ensures a + 7 < z && Caseless(w, a, "sha256=") && All(Hex, w, a + 7, z)
  {
    hide AnyCase, Caseless, All, HexDigits;
    SliceOfSlice(w, a, z, 0, 7);
    SliceOfSlice(w, a, z, 7, z - a);
    assert w[a..z][..7] == w[a..z][0..7] && w[a..z][7..] == w[a..z][7..z - a];
    CaselessIs(w, a, w[a..a + 7], "sha256=");
    HexDigitsAre(w, a + 7, w[a + 7..z]);
  }

  lemma SignatureSplits(h: string, v: string, post: string) returns (c: nat)
    requires IsSignatureHeader(h) && IsSignature(v)
    ensures SigWord(h + v + post, c, Span(|h|, |h| + |v|))
  {
    hide AnyCase, Blank, IsSignature, All, Caseless;
    var w := h + v + post;
    var name, g1, g2 :| SignatureHeaderParts(h, name, g1, g2);
    NameLength(name, "x-hub-signature-256");
    SignatureRegroup(name, g1, g2, v, post);
    NameSlices(w, name, g1, g2 + (v + post));
    c := 19 + |g1|;
    SignatureSlices(w, c + 1, g2, v, post);
    SignatureNameIs(w);
    Blanks(w, 19, g1);
    Blanks(w, c + 1, g2);
    SignatureIs(w, |h|, |h| + |v|);
  }

  lemma SignatureHere(b: bool, h: string, v: string, post: string)
    requires IsSignatureHeader(h) && IsSignature(v) && (post == "" || post[0] !in HEX_CHARS)
    ensures Match(Sig, b, h + v + post) == Some(Span(|h|, |h| + |v|))
  {
    hide MatchSig, IsSignature, IsSignatureHeader, SigWord;
    var w, z := h + v + post, |h| + |v|;
    var c := SignatureSplits(h, v, post);
    SigUnique(w, c, Span(|h|, z));
    if z < |w| { assert w[z] == post[0]; }
    SignatureEnds(w, c, Span(|h|, z));
  }

  lemma SignatureEnds(w: string, c: nat, u: Span)
    requires SigWord(w, c, u) && MatchSig(w).Some? && MatchSig(w).value.start == u.start
    requires u.end <= MatchSig(w).value.end && (u.end < |w| ==> w[u.end] !in HEX_CHARS)
    ensures MatchSig(w).value.end == u.end
  {
    hide Caseless, In;
    if u.end < |w| { ClassesAre(w[u.end]); }
  }

  /** No signature header begins in a part of the text that does not say its name and is followed by an `x`, if by
      anything. */
  lemma NoOtherSignature(t: string, from: nat, to: nat)
    requires from <= to <= |t| && !Says(t[from..to], "x-hub-signature-256")
    requires to < |t| ==> LowerChar(t[to]) == 'x'
    ensures NoneBetween(Sig, t, from, to)
  {
    hide Match, Before, Says, Caseless, LowerChar;
    forall j: nat | from <= j < to
      ensures Match(Sig, Before(false, t, j), t[j..]).None?
    {
      if Caseless(t[j..], 0, "x-hub-signature-256") {
        SignatureNameFits(t, j, to);
        SaidLater(t, j, "x-hub-signature-256");
        SaidInPart(t, j, "x-hub-signature-256", from, to);
      }
      NoHeaderNoSig(t[j..]);
      NotSigHere(Before(false, t, j), t[j..]);
    }
  }

  lemma NotSigHere(b: bool, w: string)
    requires MatchSig(w).None?
    ensures Match(Sig, b, w).None?
  {
  }

  lemma SignatureNameFits(t: string, j: nat, to: nat)
    requires j < to <= |t| && Caseless(t[j..], 0, "x-hub-signature-256")
    requires to < |t| ==> LowerChar(t[to]) == 'x'
    ensures j + 19 <= to
  {
    hide Caseless, LowerChar;
    CaselessLength(t[j..], 0, "x-hub-signature-256");
    if to < j + 19 {
      CaselessChar(t[j..], 0, "x-hub-signature-256", to - j);
      assert false;
    }
  }

  /** Conservation for signatures, wherever they stand. */
  lemma SignatureIsRedacted(pre: string, h: string, v: string, post: string)
    requires IsSignatureHeader(h) && IsSignature(v) && (post == "" || post[0] !in HEX_CHARS)
    requires !Says(pre, "x-hub-signature-256")
    ensures pre + h + "<redacted>" <= Pass(Sig, pre + h + v + post)
    ensures !Says(post, "x-hub-signature-256") ==> Pass(Sig, pre + h + v + post) == pre + h + "<redacted>" + post
  {
    hide Match, Says, Pass, IsSignatureHeader, AnyCase, HexDigits;
    var t := pre + h + v + post;
    var s, a, z := |pre|, |pre + h|, |pre + h + v|;
    SignatureHere(Before(false, t, s), h, v, post);
    Around(pre, h, v, post);
    HeaderStartsWithX(h);
    assert t[s] == h[0];
    NoOtherSignature(t, 0, s);
    FirstReplaced(Sig, t, Found(s, a, z));
    if !Says(post, "x-hub-signature-256") {
      NoOtherSignature(t, z, |t|);
      NothingAtEnd(Sig, Before(false, t, |t|));
    }
  }

  lemma HeaderStartsWithX(h: string)
    requires IsSignatureHeader(h)
    ensures h != "" && LowerChar(h[0]) == 'x'
  {
    hide AnyCase, Blank, LowerChar;
    var name, g1, g2 :| SignatureHeaderParts(h, name, g1, g2);
    NameLength(name, "x-hub-signature-256");
    assert h[0..19] == name && h[0] == name[0];
    SignatureNameIs(h);
    CaselessChar(h, 0, "x-hub-signature-256", 0);
  }
}
