/** Clean texts, the shape of a match, and what replacing one value does to the matches around it. */
module RedactionShapes {
  import opened PyText
  import opened LogFilter

  // ----- Clean texts -------------------------------------------------------------------------

  /** If `q` matches at the start of `w`, its value is already the marker. */
  predicate GoodAt(q: Pattern, b: bool, w: string) {
    MatchBounds(q, b, w);
    var r := Match(q, b, w);
    r.Some? ==> w[r.value.start..r.value.end] == REDACTED
  }

  /** Wherever `q` matches in `w`, its value is already the marker. */
  predicate Clean(q: Pattern, b: bool, w: string)
    decreases |w|
  {
    GoodAt(q, b, w) && (w != "" ==> Clean(q, IsWord(w[0]), w[1..]))
  }

  /** The word-character bit in front of `w[k..]`. */
  function Before(b: bool, w: string, k: nat): bool
    requires k <= |w|
  {
    if k == 0 then b else IsWord(w[k - 1])
  }

  lemma {:induction false} CleanDrop(q: Pattern, b: bool, w: string, k: nat)
    requires Clean(q, b, w) && k <= |w|
    ensures Clean(q, Before(b, w, k), w[k..]) && GoodAt(q, Before(b, w, k), w[k..])
    decreases k
  {
    if k == 0 {
      assert w[0..] == w;
    } else {
      CleanDrop(q, IsWord(w[0]), w[1..], k - 1);
      assert w[1..][k - 1..] == w[k..];
    }
  }

  lemma Rejoin(w: string, start: nat, from: nat, to: nat)
    requires start <= from <= to <= |w|
    ensures w == w[..from] + w[from..to] + w[to..]
    ensures w[start..][from - start..to - start] == w[from..to]
    ensures Rebuilt(w, Found(start, from, to)) == w[..from] + REDACTED
  {
    var g := w[start..to];
    assert g[..from - start] == w[start..from];
    assert g[to - start..] == "";
    assert w[..start] + w[start..from] == w[..from];
  }

  /** `Sub` with the callback folded in: the text up to the value, the marker, the rest. */
  lemma SubStep(p: Pattern, b: bool, w: string)
    ensures var r := Search(p, b, w);
            Sub(p, b, w) == match r case None => w
                                    case Some(m) => w[..m.from] + REDACTED + Sub(p, IsWord(w[m.to - 1]), w[m.to..])
  {
    hide Search, Match, IsWord, Rebuilt;
    var r := Search(p, b, w);
    if r.Some? {
      Rejoin(w, r.value.start, r.value.from, r.value.to);
    }
  }

  /** A search result is a match of the suffix that starts there. */
  lemma {:induction false} SearchHit(p: Pattern, b: bool, w: string)
    ensures var r := Search(p, b, w);
            r.Some? ==> var m := r.value;
                        Match(p, Before(b, w, m.start), w[m.start..]) == Some(Span(m.from - m.start, m.to - m.start))
    decreases |w|
  {
    hide Match, Search, IsWord;
    SearchUnfold(p, b, w);
    if Match(p, b, w).Some? {
      assert w[0..] == w;
    } else if w != "" {
      SearchHit(p, IsWord(w[0]), w[1..]);
      var r := Search(p, IsWord(w[0]), w[1..]);
      if r.Some? {
        assert w[1..][r.value.start..] == w[r.value.start + 1..];
      }
    }
  }

  /** One step of a search. */
  lemma SearchUnfold(p: Pattern, b: bool, w: string)
    ensures match Match(p, b, w)
            case Some(v) => Search(p, b, w) == Some(Found(0, v.start, v.end))
            case None =>
              if w == "" then Search(p, b, w) == None
              else match Search(p, IsWord(w[0]), w[1..])
                   case None => Search(p, b, w) == None
                   case Some(m) => Search(p, b, w) == Some(Found(m.start + 1, m.from + 1, m.to + 1))
  {
    hide Match, IsWord;
  }

  /** A clean text is a fixed point of its pass. */
  lemma {:induction false} CleanIsFixed(p: Pattern, b: bool, w: string)
    requires Clean(p, b, w)
    ensures Sub(p, b, w) == w
    decreases |w|
  {
    hide Match, Sub, IsWord, Search, Clean;
    SubStep(p, b, w);
    match Search(p, b, w)
    case None =>
    case Some(m) =>
      FoundIsMarker(p, b, w);
      CleanIsFixed(p, IsWord(w[m.to - 1]), w[m.to..]);
  }

  lemma FoundIsMarker(p: Pattern, b: bool, w: string)
    requires Clean(p, b, w) && Search(p, b, w).Some?
    ensures var m := Search(p, b, w).value;
            w == w[..m.from] + REDACTED + w[m.to..] && Clean(p, IsWord(w[m.to - 1]), w[m.to..])
  {
    hide Match, Sub, IsWord, Search, Clean, Rebuilt;
    var m := Search(p, b, w).value;
    SearchHit(p, b, w);
    Rejoin(w, m.start, m.from, m.to);
    CleanDrop(p, b, w, m.start);
    CleanDrop(p, b, w, m.to);
  }

  // ----- Shapes of the four matches ------------------------------------------------------------

  predicate NoMarkerStart(w: string, i: nat, j: nat)
    requires i <= j <= |w|
  {
    forall k :: i <= k < j ==> w[k] != '<'
  }

  /** The character at `n` cannot sit inside a marker that reaches it from the left. */
  predicate Separated(w: string, n: nat)
    requires n < |w|
  {
    && In(EnvValue, w[n]) && w[n] != '<'
    && (n == 0 || w[n] == 's' || w[n] == 'S' || IsSpace(w[n - 1]))
  }

  lemma CaselessChar(w: string, i: nat, lit: string, k: nat)
    requires Caseless(w, i, lit) && k < |lit|
    ensures i + k < |w| && LowerChar(w[i + k]) == lit[k]
  {
    assert lit[k] == lit[k];
  }

  lemma CaselessClear(w: string, i: nat, lit: string)
    requires Caseless(w, i, lit) && '<' !in lit
    ensures NoMarkerStart(w, i, i + |lit|)
  {
    forall k | i <= k < i + |lit|
      ensures w[k] != '<'
    {
      assert LowerChar(w[i + (k - i)]) == lit[k - i];
    }
  }

  lemma ShapeEnv(b: bool, w: string)
    requires MatchEnv(b, w).Some?
    ensures var v := MatchEnv(b, w).value;
            && v.start < v.end <= |w| && In(EnvValue, w[v.start]) && NoMarkerStart(w, 0, v.start)
            && (v.end < |w| ==> !In(EnvValue, w[v.end]) && !IsWord(w[v.end]))
  {
    hide IsKey;
  }

  lemma ShapeAuth(b: bool, w: string)
    requires MatchAuth(b, w).Some?
    ensures var v := MatchAuth(b, w).value;
            && 0 < v.start < v.end <= |w| && NoMarkerStart(w, 0, v.end) && Separated(w, v.start)
            && (v.end < |w| ==> !IsWord(w[v.end]))
  {
    CaselessClear(w, 0, "authorization");
    var m := Run(Space, w, Run(Space, w, 13) + 1);
    if Caseless(w, m, "bearer") { CaselessClear(w, m, "bearer"); } else { CaselessClear(w, m, "basic"); }
    hide Caseless;
  }

  lemma ShapeSk(b: bool, w: string)
    requires MatchSk(b, w).Some?
    ensures var v := MatchSk(b, w).value;
            && 0 == v.start < v.end <= |w| && NoMarkerStart(w, 0, v.end) && Separated(w, 0) && w[0] == 's'
            && (v.end < |w| ==> !IsWord(w[v.end]))
  {
    assert w[0] == w[..3][0] && w[1] == w[..3][1] && w[2] == w[..3][2];
  }

  lemma ShapeSig(w: string)
    requires MatchSig(w).Some?
    ensures var v := MatchSig(w).value;
            && 0 < v.start < v.end <= |w| && NoMarkerStart(w, 0, v.end) && Separated(w, v.start)
  {
    CaselessClear(w, 0, "x-hub-signature-256");
    var a := MatchSig(w).value.start;
    CaselessClear(w, a, "sha256=");
    assert LowerChar(w[a]) == "sha256="[0];
    hide Caseless;
  }

  /** Facts about a match that the interaction between passes rests on. */
  lemma MatchShape(p: Pattern, b: bool, w: string)
    requires Match(p, b, w).Some?
    ensures var v := Match(p, b, w).value;
            && v.start < v.end <= |w|
            && In(EnvValue, w[v.start])
            && NoMarkerStart(w, 0, v.start)
            && (p != Env ==> NoMarkerStart(w, 0, v.end) && Separated(w, v.start) && (v.start == 0 ==> w[0] == 's'))
            && (p == Env && v.end < |w| ==> !In(EnvValue, w[v.end]))
            && (p != Sig && v.end < |w| ==> !IsWord(w[v.end]))
  {
    hide MatchEnv, MatchAuth, MatchSk, MatchSig;
    match p
    case Env => ShapeEnv(b, w);
    case Auth => ShapeAuth(b, w);
    case Sk => ShapeSk(b, w);
    case Sig => ShapeSig(w);
  }

  // ----- Matches depend only on the text they cover ---------------------------------------------

  /** The first `e` characters of the two texts agree. */
  predicate Agree(w: string, o: string, e: nat) {
    e <= |w| && e <= |o| && forall i :: 0 <= i < e ==> w[i] == o[i]
  }

  lemma RunAgrees(k: Class, w: string, o: string, i: nat, e: nat)
    requires i <= e < |w| && e < |o| && Agree(w, o, e)
    requires Run(k, o, i) == e && !In(k, w[e])
    ensures Run(k, w, i) == e
  {
    hide In;
  }

  lemma CaselessAgrees(w: string, o: string, i: nat, lit: string, e: nat)
    requires i + |lit| <= e && Agree(w, o, e)
    ensures Caseless(w, i, lit) == Caseless(o, i, lit)
  {
  }

  /** An assignment match carries over to any text that agrees up to the value's first character. */
  lemma EnvAgrees(b: bool, o: string, w: string)
    requires MatchEnv(b, o).Some?
    requires var a := MatchEnv(b, o).value.start; a < |w| && Agree(w, o, a) && In(EnvValue, w[a])
    ensures MatchEnv(b, w) == Some(Span(MatchEnv(b, o).value.start, Run(EnvValue, w, MatchEnv(b, o).value.start)))
  {
    hide MatchEnv, IsKey, Run, In, IsSeparator, IsQuote;
    var a := MatchEnv(b, o).value.start;
    var k, j, m := EnvScan(b, o);
    RunAgrees(Word, w, o, 0, k);
    RunAgrees(Space, w, o, k, j);
    ValueIsPlain(w[a]);
    RunAgrees(Space, w, o, j + 1, m);
    assert w[..k] == o[..k];
    EnvRebuild(b, w, k, j, m, a);
  }

  /** The split points of an assignment match. */
  lemma EnvScan(b: bool, o: string) returns (k: nat, j: nat, m: nat)
    requires MatchEnv(b, o).Some?
    ensures var v := MatchEnv(b, o).value;
            && !b && k == Run(Word, o, 0) && IsKey(o[..k]) && j == Run(Space, o, k) && j < |o| && IsSeparator(o[j])
            && m == Run(Space, o, j + 1) && m < |o|
            && v.start == (if IsQuote(o[m]) then m + 1 else m) && v.end == Run(EnvValue, o, v.start)
            && !In(Word, o[j]) && !In(Space, o[m]) && (k < |o| ==> !In(Word, o[k])) && !In(Space, o[j])
  {
    hide Run, IsKey;
    k := Run(Word, o, 0);
    j := Run(Space, o, k);
    m := Run(Space, o, j + 1);
  }

  lemma ValueIsPlain(c: char)
    ensures In(EnvValue, c) ==> !IsQuote(c) && !In(Space, c)
  {
  }

  lemma EnvRebuild(b: bool, w: string, k: nat, j: nat, m: nat, a: nat)
    requires !b && k == Run(Word, w, 0) && IsKey(w[..k]) && j == Run(Space, w, k) && j < |w| && IsSeparator(w[j])
    requires m == Run(Space, w, j + 1) && m < |w| && a == (if IsQuote(w[m]) then m + 1 else m) && a < |w|
    requires In(EnvValue, w[a])
    ensures MatchEnv(b, w) == Some(Span(a, Run(EnvValue, w, a)))
  {
    hide Run, IsKey, In;
    assert Run(EnvValue, w, a) != a;
  }

  /** The split points of an authorization match. */
  predicate AuthParts(w: string, j: nat, m: nat, e: nat, v: Span) {
    && 13 <= j < m < e < v.start < v.end <= |w|
    && Caseless(w, 0, "authorization") && Run(Space, w, 13) == j && w[j] == ':' && Run(Space, w, j + 1) == m
    && e == (if Caseless(w, m, "bearer") then m + 6 else m + 5)
    && (Caseless(w, m, "bearer") || Caseless(w, m, "basic"))
    && Run(Space, w, e) == v.start && Run(AuthValue, w, v.start) == v.end
  }

  lemma AuthSplit(b: bool, w: string) returns (j: nat, m: nat, e: nat)
    requires MatchAuth(b, w).Some?
    ensures AuthParts(w, j, m, e, MatchAuth(b, w).value) && !b
  {
    hide Caseless;
    j := Run(Space, w, 13);
    m := Run(Space, w, j + 1);
    e := if Caseless(w, m, "bearer") then m + 6 else m + 5;
  }

  lemma AuthJoin(w: string, j: nat, m: nat, e: nat, v: Span)
    requires AuthParts(w, j, m, e, v)
    ensures MatchAuth(false, w) == Some(v)
  {
    hide Caseless, In;
  }

  lemma AuthAgrees(b: bool, o: string, w: string)
    requires MatchAuth(b, o).Some? && Agree(w, o, MatchAuth(b, o).value.end)
    ensures MatchAuth(b, w).Some? && MatchAuth(b, w).value.start == MatchAuth(b, o).value.start
  {
    hide MatchAuth, Run, Caseless, In;
    var v := MatchAuth(b, o).value;
    var j, m, e := AuthSplit(b, o);
    CaselessAgrees(w, o, 0, "authorization", v.end);
    SchemeHead(o, m);
    if m + 6 <= v.end { CaselessAgrees(w, o, m, "bearer", v.end); }
    CaselessAgrees(w, o, m, "basic", v.end);
    RunAgrees(Space, w, o, 13, j);
    RunAgrees(Space, w, o, j + 1, m);
    RunAgrees(Space, w, o, e, v.start);
    AuthJoin(w, j, m, e, Span(v.start, Run(AuthValue, w, v.start)));
  }

  lemma SchemeHead(o: string, m: nat)
    requires Caseless(o, m, "bearer") || Caseless(o, m, "basic")
    ensures m < |o| && !In(Space, o[m])
  {
    if Caseless(o, m, "bearer") { CaselessChar(o, m, "bearer", 0); } else { CaselessChar(o, m, "basic", 0); }
  }

  lemma SkAgrees(b: bool, o: string, w: string)
    requires MatchSk(b, o).Some? && Agree(w, o, MatchSk(b, o).value.end)
    ensures MatchSk(b, w).Some?
  {
    assert w[..3] == o[..3];
  }

  lemma SigAgrees(o: string, w: string)
    requires MatchSig(o).Some? && Agree(w, o, MatchSig(o).value.end)
    ensures var v := MatchSig(o).value;
            v.start + 7 <= |w| && MatchSig(w) == Some(Span(v.start, Run(Hex, w, v.start + 7)))
  {
    hide Caseless, Run, IsSpace;
    var a, z := MatchSig(o).value.start, MatchSig(o).value.end;
    CaselessAgrees(w, o, 0, "x-hub-signature-256", z);
    var j := Run(Space, o, 19);
    CaselessAgrees(w, o, a, "sha256=", z);
    RunAgrees(Space, w, o, 19, j);
    RunAgrees(Space, w, o, j + 1, a);
  }

  /** A match of a pattern other than `Env` carries over to any text that agrees up to its end. */
  lemma MatchAgrees(q: Pattern, b: bool, o: string, w: string)
    requires q != Env && Match(q, b, o).Some?
    requires Agree(w, o, Match(q, b, o).value.end)
    ensures Match(q, b, w).Some? && Match(q, b, w).value.start == Match(q, b, o).value.start
  {
    hide MatchAuth, MatchSk, MatchSig;
    match q
    case Auth => AuthAgrees(b, o, w);
    case Sk => SkAgrees(b, o, w); ShapeSk(b, o); ShapeSk(b, w);
    case Sig => SigAgrees(o, w);
  }

  // ----- Replacing one value ---------------------------------------------------------------------

  /** The text `w[..n]`, then the marker, then `rest`. */
  function Spliced(w: string, n: nat, rest: string): string
    requires n <= |w|
  {
    w[..n] + REDACTED + rest
  }

  /** No value begins at the head of `rest`. */
  predicate Stops(rest: string) { rest == "" || !In(EnvValue, rest[0]) }

  /** A match of `q` at the start of `w` that replacing the value at `n` cannot spoil. */
  predicate HeadOk(q: Pattern, b: bool, w: string, n: nat, rest: string)
    requires n < |w|
  {
    MatchBounds(q, b, w);
    var r := Match(q, b, w);
    r.Some? ==>
      || n < r.value.start
      || (n == r.value.start && (q != Env || Stops(rest)))
      || (r.value.start < n && w[r.value.start..r.value.end] == REDACTED && Separated(w, n))
  }

  /** After a replacement, a match that starts in the verbatim part has the marker as its value. */
  lemma HeadStaysGood(q: Pattern, b: bool, w: string, n: nat, rest: string)
    requires n < |w| && In(EnvValue, w[n]) && HeadOk(q, b, w, n, rest)
    ensures GoodAt(q, b, Spliced(w, n, rest))
  {
    hide Match, In;
    var o := Spliced(w, n, rest);
    if Match(q, b, o).Some? {
      MatchShape(q, b, o);
      var v := Match(q, b, o).value;
      assert o[n] == '<';
      assert Agree(w, o, n);
      if q == Env {
        assert Match(Env, b, o).Some?;
        EnvHeadStaysGood(b, w, n, rest);
      } else {
        assert v.end <= n;
        MatchAgrees(q, b, o, w);
        MatchShape(q, b, w);
        NotMarker(w, Match(q, b, w).value);
        assert false;
      }
    }
  }

  lemma NotMarker(w: string, v: Span)
    requires v.start < v.end <= |w| && w[v.start] != '<'
    ensures w[v.start..v.end] != REDACTED
  {
    assert w[v.start..v.end][0] == w[v.start];
  }

  lemma EnvHeadStaysGood(b: bool, w: string, n: nat, rest: string)
    requires n < |w| && In(EnvValue, w[n]) && HeadOk(Env, b, w, n, rest)
    requires Match(Env, b, Spliced(w, n, rest)).Some?
    ensures GoodAt(Env, b, Spliced(w, n, rest))
  {
    hide MatchEnv;
    var o := Spliced(w, n, rest);
    MatchShape(Env, b, o);
    var a := Match(Env, b, o).value.start;
    assert o[n] == '<';
    assert Agree(w, o, n);
    assert a <= n;
    EnvAgrees(b, o, w);
    EnvAgrees(b, o, o);
    MarkerOrTail(w, n, rest, a);
  }

  /** The run of value characters from the marker is the marker. */
  lemma MarkerRun(w: string, n: nat, rest: string)
    requires n <= |w| && Stops(rest)
    ensures var o := Spliced(w, n, rest); Run(EnvValue, o, n) == n + 10 && o[n..n + 10] == REDACTED
  {
    hide Run;
    var o := Spliced(w, n, rest);
    assert forall j :: 0 <= j < 10 ==> In(EnvValue, REDACTED[j]);
    assert forall j :: n <= j < n + 10 ==> o[j] == REDACTED[j - n];
    if n + 10 < |o| { assert o[n + 10] == rest[0]; }
    RunIs(EnvValue, o, n, n + 10);
  }

  /** A run that is the marker already ends before a separated value. */
  lemma MarkerBefore(w: string, n: nat, a: nat)
    requires a < n < |w| && Separated(w, n) && w[a..Run(EnvValue, w, a)] == REDACTED
    ensures Run(EnvValue, w, a) < n && Run(EnvValue, w, a) == a + 10
  {
    hide Run;
    var z := Run(EnvValue, w, a);
    assert |w[a..z]| == z - a == 10;
    assert forall j :: a <= j < z ==> w[j] == w[a..z][j - a];
    assert forall j :: 0 <= j < 10 ==> REDACTED[j] != 's' && REDACTED[j] != 'S';
  }

  /** The run of value characters from `a` in the spliced text is exactly the marker. */
  lemma MarkerOrTail(w: string, n: nat, rest: string, a: nat)
    requires a <= n < |w| && In(EnvValue, w[n])
    requires a == n ==> Stops(rest)
    requires a < n ==> Separated(w, n) && w[a..Run(EnvValue, w, a)] == REDACTED
    ensures var o := Spliced(w, n, rest); o[a..Run(EnvValue, o, a)] == REDACTED
  {
    hide Run, Separated;
    if a == n {
      MarkerRun(w, n, rest);
    } else {
      var o, z := Spliced(w, n, rest), Run(EnvValue, w, a);
      MarkerBefore(w, n, a);
      assert forall j :: a <= j <= z ==> o[j] == w[j];
      RunIs(EnvValue, o, a, z);
      assert o[a..z] == w[a..z];
    }
  }
}
