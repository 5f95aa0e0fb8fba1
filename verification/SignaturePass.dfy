/** The signature pass is the only one that can expose a new secret; this module says exactly when. */
module SignaturePass {
  import opened PyText
  import opened LogFilter
  import opened RedactionShapes
  import opened RedactionPasses

  // ----- The signature pass, exactly ------------------------------------------------------------------

  /** A signature header seen from its value at `n`: the colon at `c`, the name at `i`. */
  ghost predicate SigBefore(w: string, i: nat, c: nat, n: nat) {
    && i + 19 <= c < n < |w|
    && w[i + 15] == '-' && w[i + 18] == '6' && w[c] == ':' && (w[n] == 's' || w[n] == 'S')
    && (forall k :: i + 19 <= k < c || c < k < n ==> IsSpace(w[k]))
  }

  lemma SigHeader(u: string) returns (c: nat)
    requires MatchSig(u).Some?
    ensures SigBefore(u, 0, c, MatchSig(u).value.start)
  {
    c := Run(Space, u, 19);
    var a := MatchSig(u).value.start;
    CaselessChar(u, 0, "x-hub-signature-256", 15);
    CaselessChar(u, 0, "x-hub-signature-256", 18);
    CaselessChar(u, a, "sha256=", 0);
    hide Caseless;
    assert forall k :: 19 <= k < c ==> In(Space, u[k]);
    assert forall k :: c < k < a ==> In(Space, u[k]);
  }

  lemma FoundSigHeader(b: bool, w: string) returns (i: nat, c: nat)
    requires Search(Sig, b, w).Some?
    ensures SigBefore(w, i, c, Search(Sig, b, w).value.from)
  {
    hide Search, MatchSig;
    SearchHit(Sig, b, w);
    var m := Search(Sig, b, w).value;
    var u := w[m.start..];
    assert Match(Sig, Before(b, w, m.start), u).Some?;
    var d := SigHeader(u);
    i, c := m.start, m.start + d;
    assert forall k :: 0 <= k < |u| ==> u[k] == w[m.start + k];
    forall k | i + 19 <= k < c || c < k < m.from
      ensures IsSpace(w[k])
    {
      assert w[k] == u[k - m.start];
    }
  }

  /** An authorization match cannot reach into a signature value. */
  lemma AuthEndsBefore(w: string, i: nat, c: nat, n: nat)
    requires MatchAuth(false, w).Some? && SigBefore(w, i, c, n)
    ensures MatchAuth(false, w).value.end <= n
  {
    var v := MatchAuth(false, w).value;
    var j, m, e := AuthSplit(false, w);
    AuthGaps(w, j, m, e, v);
    AuthEdges(w, j, m, e, v);
    hide MatchAuth, Run;
    assert n - 1 == c || IsSpace(w[n - 1]);
  }

  lemma AuthEdges(w: string, j: nat, m: nat, e: nat, v: Span)
    requires AuthParts(w, j, m, e, v)
    ensures LowerChar(w[m]) == 'b'
    ensures forall k :: m <= k < e ==> IsLetter(w[k])
    ensures forall k :: v.start <= k < v.end ==> In(AuthValue, w[k])
    ensures forall k :: e <= k < v.start ==> IsSpace(w[k])
  {
    hide Caseless, IsLetter, IsSpace;
    var scheme := if Caseless(w, m, "bearer") then "bearer" else "basic";
    CaselessChar(w, m, scheme, 0);
    forall k | m <= k < e
      ensures IsLetter(w[k])
    {
      CaselessLetters(w, m, scheme, k - m);
    }
    assert forall k :: e <= k < v.start ==> In(Space, w[k]);
  }

  lemma SkEndsBefore(w: string, i: nat, c: nat, n: nat)
    requires MatchSk(false, w).Some? && SigBefore(w, i, c, n)
    ensures MatchSk(false, w).value.end <= n
  {
    assert w[0] == w[..3][0] && w[1] == w[..3][1] && w[2] == w[..3][2];
    assert n - 1 == c || IsSpace(w[n - 1]);
  }

  /** The split points of an assignment match. */
  ghost predicate EnvParts(w: string, k: nat, j: nat, m: nat, v: Span) {
    && k <= j < m <= v.start <= m + 1 && v.start < |w|
    && (forall x :: 0 <= x < k ==> IsWord(w[x])) && (forall x :: k <= x < j || j < x < m ==> IsSpace(w[x]))
    && IsSeparator(w[j]) && (v.start == m + 1 ==> IsQuote(w[m])) && (v.start == m ==> !IsQuote(w[m]))
    && 0 < k && !IsSpace(w[v.start])
  }

  lemma EnvSplit(w: string) returns (k: nat, j: nat, m: nat)
    requires MatchEnv(false, w).Some?
    ensures EnvParts(w, k, j, m, MatchEnv(false, w).value)
  {
    k := Run(Word, w, 0);
    j := Run(Space, w, k);
    m := Run(Space, w, j + 1);
    assert forall x :: 0 <= x < k ==> In(Word, w[x]);
    assert forall x :: k <= x < j || j < x < m ==> In(Space, w[x]);
    EmptyIsNoKey(w[..k]);
    hide IsKey;
  }

  lemma EmptyIsNoKey(w: string)
    requires IsKey(w)
    ensures w != ""
  {
  }

  /** An assignment's value starts after any signature value it can see. */
  lemma EnvStartsAfter(w: string, i: nat, c: nat, n: nat)
    requires MatchEnv(false, w).Some? && SigBefore(w, i, c, n)
    ensures n > MatchEnv(false, w).value.start
  {
    var v := MatchEnv(false, w).value;
    var k, j, m := EnvSplit(w);
    hide MatchEnv;
    assert n - 1 == c || IsSpace(w[n - 1]);
    assert k <= n - 1 && n >= m;
    if n == v.start {
      assert false;
    }
  }

  /** A secret at the head of a text is still there after the signature pass. */
  lemma SecretStays(q: Pattern, b: bool, w: string)
    requires q != Sig && GoodAt(q, false, Sub(Sig, b, w))
    ensures GoodAt(q, false, w)
  {
    hide Match, MatchSig, MatchSk, MatchAuth, MatchEnv, In, IsWord, Sub, Search;
    SubStep(Sig, b, w);
    if Search(Sig, b, w).Some? && Match(q, false, w).Some? {
      var n := Search(Sig, b, w).value.from;
      var i, c := FoundSigHeader(b, w);
      SearchShape(Sig, b, w);
      var to := Search(Sig, b, w).value.to;
      SecretStaysAt(q, w, i, c, n, Sub(Sig, IsWord(w[to - 1]), w[to..]));
    }
  }

  lemma SecretStaysAt(q: Pattern, w: string, i: nat, c: nat, n: nat, rest: string)
    requires q != Sig && SigBefore(w, i, c, n) && In(EnvValue, w[n]) && w[n] != '<'
    requires GoodAt(q, false, Spliced(w, n, rest)) && Match(q, false, w).Some?
    ensures GoodAt(q, false, w)
  {
    hide MatchSig, MatchSk, MatchAuth, MatchEnv, In;
    var o := Spliced(w, n, rest);
    assert Agree(o, w, n);
    match q
    case Auth =>
      AuthEndsBefore(w, i, c, n);
      MatchAgrees(q, false, w, o);
      MatchShape(q, false, o);
      NotMarker(o, Match(q, false, o).value);
    case Sk =>
      SkEndsBefore(w, i, c, n);
      MatchAgrees(q, false, w, o);
      MatchShape(q, false, o);
      NotMarker(o, Match(q, false, o).value);
    case Env =>
      EnvStartsAfter(w, i, c, n);
      MatchShape(q, false, w);
      EnvAgrees(false, w, o);
      EnvAgrees(false, w, w);
      MarkerStays(w, n, rest, Match(q, false, w).value.start);
  }

  lemma MarkerStays(w: string, n: nat, rest: string, a: nat)
    requires a < n < |w|
    requires var o := Spliced(w, n, rest); o[a..Run(EnvValue, o, a)] == REDACTED
    ensures w[a..Run(EnvValue, w, a)] == REDACTED
  {
    var o := Spliced(w, n, rest);
    var z := Run(EnvValue, o, a);
    assert forall j :: a <= j < z ==> o[j] == o[a..z][j - a] == REDACTED[j - a];
    assert o[n] == '<';
    assert In(EnvValue, o[n]);
    assert z <= n;
    assert z < n;
    assert forall j :: a <= j <= z ==> o[j] == w[j];
    assert Run(EnvValue, w, a) == z;
    assert w[a..z] == o[a..z];
  }

  /** The earlier three patterns are clean in `w`. */
  predicate EarlierClean(b: bool, w: string) {
    Clean(Env, b, w) && Clean(Auth, b, w) && Clean(Sk, b, w)
  }

  lemma NeverAfterWord(q: Pattern, w: string)
    requires q != Sig
    ensures Match(q, true, w).None?
  {
  }

  lemma CleanElsewhere(q: Pattern, b: bool, w: string)
    requires q != Sig && Clean(q, false, w)
    ensures Clean(q, b, w) && GoodAt(q, false, w)
  {
    hide Match, IsWord;
    if b { NeverAfterWord(q, w); }
  }

  lemma AfterMarker(q: Pattern, b: bool, w: string, n: nat, rest: string)
    requires n <= |w| && Clean(q, b, Spliced(w, n, rest))
    ensures Clean(q, false, rest)
  {
    hide Clean, Match;
    var o := Spliced(w, n, rest);
    CleanDrop(q, b, o, n + 10);
    assert o[n + 10..] == rest;
    assert o[n + 9] == '>';
  }

  lemma {:induction false} FusedSecretLeaksOne(q: Pattern, b: bool, w: string)
    requires q != Sig && Clean(q, b, Sub(Sig, b, w)) && Search(Sig, b, w).Some?
    ensures var m := Search(Sig, b, w).value;
            GoodAt(q, false, w[m.to..]) && Clean(q, IsWord(w[m.to - 1]), Sub(Sig, IsWord(w[m.to - 1]), w[m.to..]))
  {
    hide Match, Clean, Sub, Search, GoodAt;
    SubStep(Sig, b, w);
    var m := Search(Sig, b, w).value;
    var b2, y := IsWord(w[m.to - 1]), w[m.to..];
    AfterMarker(q, b, w, m.from, Sub(Sig, b2, y));
    CleanElsewhere(q, b2, Sub(Sig, b2, y));
    SecretStays(q, b2, y);
  }

  /** If the earlier patterns are clean after the signature pass, no signature was glued to a secret. */
  lemma {:induction false} CleanMeansNoFusedSecret(b: bool, w: string)
    requires EarlierClean(b, Sub(Sig, b, w))
    ensures NoFusedSecret(b, w)
    decreases |w|
  {
    hide Match, IsWord, Clean, Sub, Search, GoodAt;
    match Search(Sig, b, w)
    case None =>
    case Some(m) =>
      FusedSecretLeaksOne(Env, b, w);
      FusedSecretLeaksOne(Auth, b, w);
      FusedSecretLeaksOne(Sk, b, w);
      CleanMeansNoFusedSecret(IsWord(w[m.to - 1]), w[m.to..]);
  }
}
