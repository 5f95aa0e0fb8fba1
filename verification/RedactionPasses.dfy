/** What one pass leaves behind, and what it does to the patterns of earlier passes. */
module RedactionPasses {
  import opened PyText
  import opened LogFilter
  import opened RedactionShapes

  // ----- From heads to whole texts ----------------------------------------------------------------

  /** `HeadOk` at every position before `n`. */
  predicate Safe(q: Pattern, b: bool, w: string, n: nat, rest: string)
    requires n < |w|
    decreases n
  {
    n == 0 || (HeadOk(q, b, w, n, rest) && Safe(q, IsWord(w[0]), w[1..], n - 1, rest))
  }

  /** No pattern matches at a position inside the marker. */
  lemma NothingInsideMarker(q: Pattern, b: bool, k: nat, rest: string)
    requires k < 10 && (2 <= k <= 8 ==> b)
    ensures Match(q, b, REDACTED[k..] + rest).None?
  {
    var w := REDACTED[k..] + rest;
    assert w[0] == REDACTED[k];
    match q
    case Env => if k == 1 { MarkerWordIsNoKey(b, rest); } else { MarkerBit(k); NoKeyHere(b, w); }
    case Auth => if !b { NotCaseless(w, 0, "authorization"); }
    case Sk => assert |w| >= 3 ==> w[..3][0] == w[0];
    case Sig => NotCaseless(w, 0, "x-hub-signature-256");
  }

  lemma NoKeyHere(b: bool, w: string)
    requires b || w == "" || !IsWord(w[0])
    ensures MatchEnv(b, w).None?
  {
  }

  lemma MarkerWordIsNoKey(b: bool, rest: string)
    ensures MatchEnv(b, REDACTED[1..] + rest).None?
  {
    var w := REDACTED[1..] + rest;
    forall i | 0 <= i < 9
      ensures IsWord(w[i]) <==> i < 8
    {
      assert w[i] == REDACTED[1..][i] == REDACTED[i + 1];
      MarkerBit(i + 1);
    }
    RunIs(Word, w, 0, 8);
    assert w[..8] == "redacted";
    NotAKey();
    hide IsKey;
  }

  lemma NotAKey()
    ensures !IsKey("redacted")
  {
    var w := "redacted";
    if Suffixed(w, "_token") { CaselessChar(w, 2, "_token", 0); }
    if Suffixed(w, "_secret") { CaselessChar(w, 1, "_secret", 0); }
  }

  lemma {:induction false} MarkerTailClean(q: Pattern, b: bool, k: nat, rest: string)
    requires k <= 10 && (2 <= k <= 8 ==> b) && (k == 10 ==> !b)
    requires Clean(q, false, rest)
    ensures Clean(q, b, REDACTED[k..] + rest)
    decreases 10 - k
  {
    hide Match, IsWord;
    var w := REDACTED[k..] + rest;
    if k == 10 {
      assert w == rest;
    } else {
      NothingInsideMarker(q, b, k, rest);
      assert w[1..] == REDACTED[k + 1..] + rest;
      MarkerBit(k);
      MarkerTailClean(q, IsWord(w[0]), k + 1, rest);
    }
  }

  lemma MarkerBit(k: nat)
    requires k < 10
    ensures IsWord(REDACTED[k]) <==> 1 <= k <= 8
  {
  }

  lemma {:induction false} SplicedClean(q: Pattern, b: bool, w: string, n: nat, rest: string)
    requires n < |w| && In(EnvValue, w[n]) && Safe(q, b, w, n, rest)
    requires Clean(q, false, rest)
    ensures Clean(q, b, Spliced(w, n, rest))
    decreases n
  {
    hide Match, In, IsWord;
    var o := Spliced(w, n, rest);
    if n == 0 {
      assert o == REDACTED[0..] + rest;
      MarkerTailClean(q, b, 0, rest);
    } else {
      HeadStaysGood(q, b, w, n, rest);
      assert o[0] == w[0];
      assert o[1..] == Spliced(w[1..], n - 1, rest);
      SplicedClean(q, IsWord(w[0]), w[1..], n - 1, rest);
    }
  }

  /** Only `Sig` looks at a text that starts with a word character after another word character. */
  lemma BoundaryFree(q: Pattern, b: bool, w: string)
    requires w == "" || !IsWord(w[0])
    ensures q != Sig ==> Match(q, b, w).None?
  {
    match q
    case Env =>
    case Auth => NotCaseless(w, 0, "authorization");
    case Sk => assert |w| >= 3 ==> w[..3][0] == w[0];
    case Sig =>
  }

  lemma CleanAnywhere(q: Pattern, b: bool, b': bool, w: string)
    requires Clean(q, b, w) && GoodAt(q, b', w)
    ensures Clean(q, b', w)
  {
  }

  // ----- A pass cleans its own pattern --------------------------------------------------------------

  lemma {:induction false} NoHitIsClean(p: Pattern, b: bool, w: string)
    requires Search(p, b, w).None?
    ensures Clean(p, b, w)
    decreases |w|
  {
    hide Match, IsWord;
    if w != "" {
      NoHitIsClean(p, IsWord(w[0]), w[1..]);
    }
  }

  lemma OwnEnvPrefix(b: bool, w: string, i: nat)
    requires MatchEnv(b, w).Some? && 0 < i < MatchEnv(b, w).value.start
    ensures MatchEnv(IsWord(w[i - 1]), w[i..]).None?
  {
    hide IsKey;
    var k := Run(Word, w, 0);
    if k <= i { assert !IsWord(w[i]); }
    hide MatchEnv;
    NoKeyHere(IsWord(w[i - 1]), w[i..]);
  }

  /** Inside its own key or header, a match leaves no room for a second one. */
  lemma OwnPrefixOk(p: Pattern, b: bool, w: string, i: nat)
    requires Match(p, b, w).Some? && 0 < i < Match(p, b, w).value.start
    ensures Match(p, Before(b, w, i), w[i..]).None?
  {
    hide MatchEnv, MatchAuth, MatchSig;
    match p
    case Env => OwnEnvPrefix(b, w, i);
    case Auth => OwnAuthPrefix(b, w, i);
    case Sk =>
    case Sig => OwnSigPrefix(w, i);
  }

  lemma AuthGaps(w: string, j: nat, m: nat, e: nat, v: Span)
    requires AuthParts(w, j, m, e, v)
    ensures forall i :: 13 <= i < m || e <= i < v.start ==> !IsLetter(w[i])
  {
    hide Caseless;
    forall i | 13 <= i < m || e <= i < v.start
      ensures !IsLetter(w[i])
    {
      assert i == j || In(Space, w[i]);
    }
  }

  lemma OwnAuthPrefix(b: bool, w: string, i: nat)
    requires MatchAuth(b, w).Some? && 0 < i < MatchAuth(b, w).value.start
    ensures MatchAuth(IsWord(w[i - 1]), w[i..]).None?
  {
    hide MatchAuth, Run, Caseless;
    var v := MatchAuth(b, w).value;
    var j, m, e := AuthSplit(b, w);
    AuthGaps(w, j, m, e, v);
    if i < 13 {
      CaselessLetters(w, 0, "authorization", i - 1);
    } else {
      var u := w[i..];
      assert u[0] == w[i];
      if Caseless(u, 0, "authorization") {
        CaselessChar(u, 0, "authorization", 0);
        if Caseless(w, m, "bearer") { SchemeLetters(w, m, "bearer", i); } else { SchemeLetters(w, m, "basic", i); }
      }
    }
    NoAuthorization(IsWord(w[i - 1]), w[i..]);
  }

  lemma NoAuthorization(b: bool, u: string)
    requires b || !Caseless(u, 0, "authorization")
    ensures MatchAuth(b, u).None?
  {
  }

  lemma CaselessLetters(w: string, i: nat, lit: string, k: nat)
    requires Caseless(w, i, lit) && k < |lit| && (forall j :: 0 <= j < |lit| ==> 'a' <= lit[j] <= 'z')
    ensures IsLetter(w[i + k])
  {
    CaselessChar(w, i, lit, k);
  }

  lemma SchemeLetters(w: string, m: nat, lit: string, i: nat)
    requires (lit == "bearer" || lit == "basic") && Caseless(w, m, lit)
    ensures i == m ==> LowerChar(w[i]) != 'a'
    ensures m < i < m + |lit| ==> IsWord(w[i - 1])
  {
    CaselessChar(w, m, lit, 0);
    if m < i < m + |lit| { CaselessLetters(w, m, lit, i - 1 - m); }
  }

  lemma OwnSigPrefix(w: string, i: nat)
    requires MatchSig(w).Some? && 0 < i < MatchSig(w).value.start
    ensures MatchSig(w[i..]).None?
  {
    hide MatchSig, Caseless, IsSpace;
    var c := SigSplit(w);
    NoHeaderInside(w, c, MatchSig(w).value.start, i);
    NoHeaderNoSig(w[i..]);
  }

  /** Between the header name and the value stand white space and one colon. */
  lemma SigSplit(w: string) returns (c: nat)
    requires MatchSig(w).Some?
    ensures Caseless(w, 0, "x-hub-signature-256") && 19 <= c < MatchSig(w).value.start < |w| && w[c] == ':'
    ensures forall k :: 19 <= k < MatchSig(w).value.start && k != c ==> IsSpace(w[k])
  {
    hide Caseless, IsSpace;
    c := Run(Space, w, 19);
    assert forall k :: 19 <= k < c ==> In(Space, w[k]);
    assert forall k :: c < k < MatchSig(w).value.start ==> In(Space, w[k]);
  }

  lemma NoHeaderInside(w: string, c: nat, n: nat, i: nat)
    requires Caseless(w, 0, "x-hub-signature-256") && 19 <= c < n < |w| && w[c] == ':' && 0 < i < n
    requires forall k :: 19 <= k < n && k != c ==> IsSpace(w[k])
    ensures !Caseless(w[i..], 0, "x-hub-signature-256")
  {
    hide Caseless;
    if i < 19 { CaselessChar(w, 0, "x-hub-signature-256", i); }
    NotCaseless(w[i..], 0, "x-hub-signature-256");
  }

  lemma NoHeaderNoSig(u: string)
    requires !Caseless(u, 0, "x-hub-signature-256")
    ensures MatchSig(u).None?
  {
  }

  /** Everything in front of a found value is safe to keep verbatim. */
  lemma {:induction false} OwnPrefixSafe(p: Pattern, b: bool, w: string, n: nat, i: nat, rest: string)
    requires Match(p, b, w).Some? && n == Match(p, b, w).value.start && i <= n < |w|
    requires p == Env ==> Stops(rest)
    ensures Safe(p, Before(b, w, i), w[i..], n - i, rest)
    decreases n - i
  {
    hide Match, IsWord;
    if i < n {
      OwnPrefixSafe(p, b, w, n, i + 1, rest);
      assert w[i..][1..] == w[i + 1..];
      assert w[i..][0] == w[i];
      if i == 0 {
        assert w[0..] == w;
      } else {
        OwnPrefixOk(p, b, w, i);
      }
    }
  }

  lemma {:induction false} SearchSafe(p: Pattern, b: bool, w: string, rest: string)
    requires Search(p, b, w).Some?
    requires p == Env ==> Stops(rest)
    ensures Safe(p, b, w, Search(p, b, w).value.from, rest)
    decreases |w|
  {
    hide Match, IsWord;
    var n := Search(p, b, w).value.from;
    if Match(p, b, w).Some? {
      MatchShape(p, b, w);
      OwnPrefixSafe(p, b, w, n, 0, rest);
      assert w[0..] == w;
    } else {
      SearchSafe(p, IsWord(w[0]), w[1..], rest);
    }
  }

  /** What follows a found value. */
  lemma SearchShape(p: Pattern, b: bool, w: string)
    requires Search(p, b, w).Some?
    ensures var m := Search(p, b, w).value;
            && m.from < m.to <= |w|
            && In(EnvValue, w[m.from])
            && (p != Env ==> Separated(w, m.from) && NoMarkerStart(w, m.from, m.to))
            && (p == Env ==> Stops(w[m.to..]))
            && (p != Sig && m.to < |w| ==> !IsWord(w[m.to]))
  {
    hide Match, In, IsWord;
    SearchHit(p, b, w);
    var m := Search(p, b, w).value;
    var u := w[m.start..];
    MatchShape(p, Before(b, w, m.start), u);
    assert u[m.from - m.start] == w[m.from];
    if m.to < |w| { assert u[m.to - m.start] == w[m.to]; }
    if p != Env {
      assert forall k :: m.from <= k < m.to ==> w[k] == u[k - m.start];
      if m.start < m.from { assert u[m.from - m.start - 1] == w[m.from - 1]; }
    }
  }

  /** A pass leaves the head of a text alone unless a value starts there. */
  lemma SubHead(p: Pattern, b: bool, w: string)
    ensures Stops(w) ==> Stops(Sub(p, b, w))
    ensures p != Sig && (w == "" || !IsWord(w[0])) ==> Sub(p, b, w) == "" || !IsWord(Sub(p, b, w)[0])
  {
    hide Match, Sub, Search;
    SubStep(p, b, w);
    if Search(p, b, w).Some? {
      SearchShape(p, b, w);
      var m := Search(p, b, w).value;
      if m.from > 0 { assert Sub(p, b, w)[0] == w[0]; } else { assert Sub(p, b, w)[0] == '<'; }
    }
  }

  /** Main result of one pass: after it, every match of its pattern has the marker as its value. */
  lemma {:induction false} PassCleansItsPattern(p: Pattern, b: bool, w: string)
    ensures Clean(p, b, Sub(p, b, w))
    decreases |w|
  {
    hide Match, Sub, Search, IsWord, In, Clean, Safe;
    SubStep(p, b, w);
    match Search(p, b, w)
    case None => NoHitIsClean(p, b, w);
    case Some(m) =>
      SearchShape(p, b, w);
      var b2, y := IsWord(w[m.to - 1]), w[m.to..];
      var rest := Sub(p, b2, y);
      PassCleansItsPattern(p, b2, y);
      SubHead(p, b2, y);
      HeadMayMove(p, b2, rest);
      SearchSafe(p, b, w, rest);
      SplicedClean(p, b, w, m.from, rest);
  }

  /** A clean text whose head is not a word character stays clean wherever it is put. */
  lemma HeadMayMove(q: Pattern, b: bool, w: string)
    requires Clean(q, b, w) && (q == Sig || w == "" || !IsWord(w[0]))
    ensures Clean(q, false, w)
  {
    if q != Sig { BoundaryFree(q, false, w); }
  }

  /** Each single pass is idempotent, on every text. */
  lemma PassIsIdempotent(p: Pattern, text: string)
    ensures Pass(p, Pass(p, text)) == Pass(p, text)
  {
    PassCleansItsPattern(p, false, text);
    CleanIsFixed(p, false, Pass(p, text));
  }

  /** A pass changes nothing exactly when its pattern only ever covers markers. */
  lemma FixedIffClean(p: Pattern, text: string)
    ensures Pass(p, text) == text <==> Clean(p, false, text)
  {
    PassCleansItsPattern(p, false, text);
    if Clean(p, false, text) { CleanIsFixed(p, false, text); }
  }

  // ----- Later passes keep earlier patterns clean -----------------------------------------------------

  lemma {:induction false} CleanIsSafe(q: Pattern, b: bool, w: string, n: nat, rest: string)
    requires Clean(q, b, w) && n < |w| && Separated(w, n)
    ensures Safe(q, b, w, n, rest)
    decreases n
  {
    hide Match, In, IsWord;
    if n > 0 {
      GoodHeadOk(q, b, w, n, rest);
      CleanIsSafe(q, IsWord(w[0]), w[1..], n - 1, rest);
    }
  }

  lemma GoodHeadOk(q: Pattern, b: bool, w: string, n: nat, rest: string)
    requires GoodAt(q, b, w) && n < |w| && Separated(w, n)
    ensures HeadOk(q, b, w, n, rest)
  {
    hide Match, In;
    MatchBounds(q, b, w);
    if Match(q, b, w).Some? {
      var v := Match(q, b, w).value;
      if v.start == n { NotMarker(w, v); }
    }
  }

  /** `GoodAt` survives a pass of a pattern whose values never start like a marker. */
  lemma GoodSurvives(p: Pattern, q: Pattern, b: bool, b2: bool, w: string)
    requires p != Env && GoodAt(q, b, w)
    ensures GoodAt(q, b, Sub(p, b2, w))
  {
    hide Match, In, IsWord, Sub, Search, GoodAt;
    SubStep(p, b2, w);
    if Search(p, b2, w).Some? {
      SearchShape(p, b2, w);
      var m := Search(p, b2, w).value;
      var rest := Sub(p, IsWord(w[m.to - 1]), w[m.to..]);
      GoodHeadOk(q, b, w, m.from, rest);
      HeadStaysGood(q, b, w, m.from, rest);
    }
  }

  /** The text right after a signature's hex run is not itself a secret for an earlier pattern. */
  predicate HeadIsPlain(w: string) {
    GoodAt(Env, false, w) && GoodAt(Auth, false, w) && GoodAt(Sk, false, w)
  }

  /** No signature in `w` is glued to the secret that follows it. */
  predicate NoFusedSecret(b: bool, w: string)
    decreases |w|
  {
    match Search(Sig, b, w)
    case None => true
    case Some(m) => HeadIsPlain(w[m.to..]) && NoFusedSecret(IsWord(w[m.to - 1]), w[m.to..])
  }

  /** Only an assignment's value can be the marker, so the other patterns are clean only where they do not match. */
  lemma GoodIsNone(q: Pattern, b: bool, w: string)
    requires q != Env
    ensures GoodAt(q, b, w) <==> Match(q, b, w).None?
  {
    hide Match, In;
    MatchBounds(q, b, w);
    if Match(q, b, w).Some? {
      MatchShape(q, b, w);
      NotMarker(w, Match(q, b, w).value);
    }
  }

  /** Where a pattern does not match, a replacement at any place is safe. */
  lemma {:induction false} NoneIsSafe(q: Pattern, b: bool, w: string, n: nat, rest: string)
    requires q != Env && Clean(q, b, w) && n < |w|
    ensures Safe(q, b, w, n, rest)
    decreases n
  {
    hide Match, In, IsWord;
    if n > 0 {
      GoodIsNone(q, b, w);
      NoneIsSafe(q, IsWord(w[0]), w[1..], n - 1, rest);
    }
  }

  /** A pass keeps every pattern clean that was clean before it; for the signature pass and another pattern this needs
      that no signature is glued to a secret. */
  lemma {:induction false} PassKeepsClean(p: Pattern, q: Pattern, b: bool, w: string)
    requires Clean(q, b, w)
    requires p == Sig && q != Sig ==> NoFusedSecret(b, w)
    ensures Clean(q, b, Sub(p, b, w))
    decreases |w|
  {
    hide Match, In, IsWord, Sub, Search, GoodAt, Clean, Safe;
    if p == q {
      PassCleansItsPattern(p, b, w);
    } else {
      OtherPassKeepsClean(p, q, b, w);
    }
  }

  lemma {:induction false} OtherPassKeepsClean(p: Pattern, q: Pattern, b: bool, w: string)
    requires p != q && Clean(q, b, w)
    requires p == Sig ==> NoFusedSecret(b, w)
    ensures Clean(q, b, Sub(p, b, w))
    decreases |w|
  {
    hide Match, In, IsWord, Sub, Search, GoodAt, Clean, Safe;
    SubStep(p, b, w);
    match Search(p, b, w)
    case None =>
    case Some(m) =>
      SearchShape(p, b, w);
      var b2, y := IsWord(w[m.to - 1]), w[m.to..];
      var rest := Sub(p, b2, y);
      CleanDrop(q, b, w, m.to);
      OtherPassKeepsClean(p, q, b2, y);
      if p == Sig {
        GoodSurvives(p, q, false, b2, y);
        CleanAnywhere(q, b2, false, rest);
      } else {
        SubHead(p, b2, y);
        HeadMayMove(q, b2, rest);
      }
      if p == Env { NoneIsSafe(q, b, w, m.from, rest); } else { CleanIsSafe(q, b, w, m.from, rest); }
      SplicedClean(q, b, w, m.from, rest);
  }
}
