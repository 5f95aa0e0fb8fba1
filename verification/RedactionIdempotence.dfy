/** The whole pipeline: what survives `redact`, and exactly when a second `redact` changes nothing. */
module RedactionIdempotence {
  import opened PyText
  import opened LogFilter
  import opened RedactionShapes
  import opened RedactionPasses
  import opened SignaturePass

  /** The text that enters the signature pass. */
  function FirstThree(text: string): string { Redacted(text, [Env, Auth, Sk]) }

  lemma PipelineSteps(text: string)
    ensures FirstThree(text) == Pass(Sk, Pass(Auth, Pass(Env, text)))
    ensures Redacted(text, DEFAULT_PATTERNS) == Pass(Sig, FirstThree(text))
  {
    Unfold3(text);
    Unfold4(text);
  }

  lemma Unfold3(text: string)
    ensures Redacted(text, [Env, Auth, Sk]) == Pass(Sk, Pass(Auth, Pass(Env, text)))
  {
    hide Pass;
    assert [Env, Auth, Sk][1..] == [Auth, Sk] && [Auth, Sk][1..] == [Sk] && [Sk][1..] == [];
    assert Redacted(text, [Env, Auth, Sk]) == Redacted(Pass(Env, text), [Auth, Sk]);
  }

  lemma Unfold4(text: string)
    ensures Redacted(text, DEFAULT_PATTERNS) == Pass(Sig, Pass(Sk, Pass(Auth, Pass(Env, text))))
  {
    hide Pass;
    assert DEFAULT_PATTERNS[1..] == [Auth, Sk, Sig] && [Auth, Sk, Sig][1..] == [Sk, Sig] && [Sk, Sig][1..] == [Sig];
    assert [Sig][1..] == [];
    assert Redacted(text, DEFAULT_PATTERNS) == Redacted(Pass(Env, text), [Auth, Sk, Sig]);
  }

  /** The first three passes leave a text that is clean for the first three patterns. */
  lemma FirstThreeClean(text: string)
    ensures EarlierClean(false, FirstThree(text))
  {
    hide Match, Sub, Clean;
    PipelineSteps(text);
    var t1 := Pass(Env, text);
    var t2 := Pass(Auth, t1);
    PassCleansItsPattern(Env, false, text);
    PassCleansItsPattern(Auth, false, t1);
    PassKeepsClean(Auth, Env, false, t1);
    PassCleansItsPattern(Sk, false, t2);
    PassKeepsClean(Sk, Env, false, t2);
    PassKeepsClean(Sk, Auth, false, t2);
  }

  /** `q` matches nowhere in the text. */
  predicate NoMatch(q: Pattern, w: string) {
    forall i :: 0 <= i <= |w| ==> Match(q, Before(false, w, i), w[i..]).None?
  }

  /** Wherever `q` matches in the text, its value is the marker. */
  predicate OnlyMarkers(q: Pattern, w: string) {
    forall i :: 0 <= i <= |w| ==> GoodAt(q, Before(false, w, i), w[i..])
  }

  lemma {:induction false} CleanFrom(q: Pattern, w: string, at: nat)
    requires at <= |w| && forall i :: at <= i <= |w| ==> GoodAt(q, Before(false, w, i), w[i..])
    ensures Clean(q, Before(false, w, at), w[at..])
    decreases |w| - at
  {
    hide GoodAt, Match, IsWord;
    if at < |w| {
      CleanFrom(q, w, at + 1);
      assert w[at..][1..] == w[at + 1..] && w[at..][0] == w[at];
    }
  }

  /** A clean text, position by position. */
  lemma CleanIsOnlyMarkers(q: Pattern, w: string)
    ensures Clean(q, false, w) <==> OnlyMarkers(q, w)
  {
    hide GoodAt, Match, Clean, IsWord;
    if Clean(q, false, w) {
      forall i | 0 <= i <= |w|
        ensures GoodAt(q, Before(false, w, i), w[i..])
      {
        CleanDrop(q, false, w, i);
      }
    }
    if OnlyMarkers(q, w) {
      CleanFrom(q, w, 0);
      assert w[0..] == w;
    }
  }

  lemma CleanIsNoMatch(q: Pattern, w: string)
    requires q != Env
    ensures Clean(q, false, w) <==> NoMatch(q, w)
  {
    hide GoodAt, Match, Clean, IsWord;
    CleanIsOnlyMarkers(q, w);
    forall i | 0 <= i <= |w|
      ensures GoodAt(q, Before(false, w, i), w[i..]) <==> Match(q, Before(false, w, i), w[i..]).None?
    {
      GoodIsNone(q, Before(false, w, i), w[i..]);
    }
  }

  /** What `redact` leaves behind: no signature anywhere; and no authorization header, no naked key and no
      assignment with a value other than the marker, at any position, if and only if no signature in the text that
      entered the last pass was glued to a secret. */
  lemma RedactLeaves(text: string)
    ensures var out := Redacted(text, DEFAULT_PATTERNS);
            && NoMatch(Sig, out)
            && (OnlyMarkers(Env, out) && NoMatch(Auth, out) && NoMatch(Sk, out)
                <==> NoFusedSecret(false, FirstThree(text)))
  {
    hide NoMatch, OnlyMarkers, Redacted, NoFusedSecret, FirstThree, Clean;
    var out := Redacted(text, DEFAULT_PATTERNS);
    RedactedIsClean(text);
    CleanIsNoMatch(Sig, out);
    CleanIsOnlyMarkers(Env, out);
    CleanIsNoMatch(Auth, out);
    CleanIsNoMatch(Sk, out);
  }

  /** After `redact`, every surviving match of every pattern has the marker as its value — exactly when
      no signature in the text that entered the last pass was glued to a secret. */
  lemma RedactedIsClean(text: string)
    ensures var out := Redacted(text, DEFAULT_PATTERNS);
            && Clean(Sig, false, out)
            && (EarlierClean(false, out) <==> NoFusedSecret(false, FirstThree(text)))
  {
    hide Match, Sub, Clean, NoFusedSecret;
    PipelineSteps(text);
    FirstThreeClean(text);
    var u := FirstThree(text);
    PassCleansItsPattern(Sig, false, u);
    if NoFusedSecret(false, u) {
      PassKeepsClean(Sig, Env, false, u);
      PassKeepsClean(Sig, Auth, false, u);
      PassKeepsClean(Sig, Sk, false, u);
    }
    if EarlierClean(false, Pass(Sig, u)) {
      CleanMeansNoFusedSecret(false, u);
    }
  }

  // ----- A redaction that changes nothing has nothing to change ------------------------------------------

  /** `w` first differs from `o` at `n`, where a marker has replaced something else. */
  ghost predicate MarkedAt(o: string, w: string, n: nat) {
    n < |o| && n < |w| && Agree(o, w, n) && w[n] == '<' && o[n] != '<'
  }

  /** A whole marker value stands at `n`. */
  ghost predicate MarkerAt(w: string, n: nat) {
    n + 10 <= |w| && w[n..n + 10] == REDACTED && Stops(w[n + 10..])
  }

  /** `w` agrees with `o` up to `n`, where `w` has a whole marker value and `o` has not. */
  ghost predicate HeldAt(o: string, w: string, n: nat) {
    n < |o| && Agree(o, w, n) && MarkerAt(w, n) && !MarkerAt(o, n)
  }

  ghost predicate Changed(o: string, w: string) {
    exists n :: MarkedAt(o, w, n) || HeldAt(o, w, n)
  }

  lemma EnvValueRun(b: bool, w: string)
    requires Search(Env, b, w).Some?
    ensures var m := Search(Env, b, w).value; m.to == Run(EnvValue, w, m.from)
  {
    hide Search, MatchEnv, Run;
    SearchHit(Env, b, w);
    var m := Search(Env, b, w).value;
    var u := w[m.start..];
    assert Match(Env, Before(b, w, m.start), u).Some?;
    MatchShape(Env, Before(b, w, m.start), u);
    EnvAgrees(Before(b, w, m.start), u, u);
    assert forall k :: 0 <= k < |u| ==> u[k] == w[m.start + k];
    SameRun(u, m.from - m.start, w, m.from, m.to - m.from);
  }

  lemma SameRun(u: string, i: nat, w: string, j: nat, d: nat)
    requires i + d <= |u| && j <= |w| && |u| - i == |w| - j
    requires forall k {:trigger u[k]} :: i <= k < |u| ==> u[k] == w[k - i + j]
    requires Run(EnvValue, u, i) == i + d
    ensures Run(EnvValue, w, j) == j + d
  {
    hide In;
    forall k | j <= k < j + d
      ensures In(EnvValue, w[k])
    {
      assert In(EnvValue, u[k - j + i]);
    }
    if i + d < |u| { assert u[i + d] == w[j + d]; }
  }

  /** An assignment pass that changes the text leaves a whole marker where there was none. */
  lemma {:induction false} EnvPassMarks(b: bool, w: string) returns (n: nat)
    requires Sub(Env, b, w) != w
    ensures HeldAt(w, Sub(Env, b, w), n)
    decreases |w|
  {
    hide Match, Sub, Search, In, IsWord, Run, HeldAt, Stops;
    SubStep(Env, b, w);
    var m := Search(Env, b, w).value;
    var b2, y := IsWord(w[m.to - 1]), w[m.to..];
    var rest := Sub(Env, b2, y);
    if w[m.from..m.to] == REDACTED {
      Rejoin(w, m.from, m.from, m.to);
      n := EnvPassMarks(b2, y);
      ShiftHeld(w[..m.to], y, rest, n);
      n := m.to + n;
      assert w[..m.from] + REDACTED == w[..m.to];
      assert w == w[..m.to] + y;
    } else {
      n := m.from;
      EnvPassMarksHere(b, w);
    }
  }

  lemma EnvPassMarksHere(b: bool, w: string)
    requires Search(Env, b, w).Some?
    requires var m := Search(Env, b, w).value; w[m.from..m.to] != REDACTED
    ensures HeldAt(w, Sub(Env, b, w), Search(Env, b, w).value.from)
  {
    hide Match, Sub, Search, In, IsWord, Run, HeldAt;
    SubStep(Env, b, w);
    SearchShape(Env, b, w);
    EnvValueRun(b, w);
    var m := Search(Env, b, w).value;
    var b2, y := IsWord(w[m.to - 1]), w[m.to..];
    SubHead(Env, b2, y);
    NewMarkerHeld(w, m.from, m.to, Sub(Env, b2, y));
  }

  lemma NewMarkerHeld(w: string, from: nat, to: nat, rest: string)
    requires from < to <= |w| && to == Run(EnvValue, w, from) && w[from..to] != REDACTED && Stops(rest)
    ensures HeldAt(w, Spliced(w, from, rest), from)
  {
    hide In, Run;
    var o := Spliced(w, from, rest);
    assert o[from..from + 10] == REDACTED;
    assert o[from + 10..] == rest;
    if MarkerAt(w, from) {
      WholeMarkerRun(w, from);
    }
  }

  lemma WholeMarkerRun(w: string, n: nat)
    requires MarkerAt(w, n)
    ensures Run(EnvValue, w, n) == n + 10
  {
    assert forall j :: n <= j < n + 10 ==> w[j] == w[n..n + 10][j - n] == REDACTED[j - n];
    if n + 10 < |w| { assert w[n + 10..][0] == w[n + 10]; }
  }

  lemma ShiftHeld(x: string, y: string, rest: string, d: nat)
    requires HeldAt(y, rest, d)
    ensures HeldAt(x + y, x + rest, |x| + d)
  {
    assert (x + rest)[|x| + d..|x| + d + 10] == rest[d..d + 10];
    assert (x + rest)[|x| + d + 10..] == rest[d + 10..];
    if d + 10 <= |y| {
      assert (x + y)[|x| + d..|x| + d + 10] == y[d..d + 10];
      assert (x + y)[|x| + d + 10..] == y[d + 10..];
    }
  }

  /** A pass of a later pattern never undoes a change. */
  lemma ChangedStays(p: Pattern, o: string, w: string)
    requires p != Env && Changed(o, w)
    ensures Changed(o, Pass(p, w))
  {
    hide Match, Sub, Search, In, IsWord;
    SubStep(p, false, w);
    if Search(p, false, w).Some? {
      SearchShape(p, false, w);
      var m := Search(p, false, w).value;
      var w' := Pass(p, w);
      var rest := Sub(p, IsWord(w[m.to - 1]), w[m.to..]);
      assert w' == Spliced(w, m.from, rest);
      var n :| MarkedAt(o, w, n) || HeldAt(o, w, n);
      ChangedStaysAt(o, w, n, m.from, rest);
    }
  }

  lemma ChangedStaysAt(o: string, w: string, n: nat, k: nat, rest: string)
    requires MarkedAt(o, w, n) || HeldAt(o, w, n)
    requires k < |w| && Separated(w, k)
    ensures Changed(o, Spliced(w, k, rest))
  {
    var w' := Spliced(w, k, rest);
    assert Agree(w, w', k) && w'[k] == '<';
    if k < n {
      assert MarkedAt(o, w', k);
    } else if MarkedAt(o, w, n) {
      assert MarkedAt(o, w', n);
    } else {
      InsideMarkerNotSeparated(w, n, k);
      assert w'[n..n + 10] == w[n..n + 10];
      assert w'[n + 10..][0] == w[n + 10..][0];
      assert HeldAt(o, w', n);
    }
  }

  lemma InsideMarkerNotSeparated(w: string, n: nat, k: nat)
    requires MarkerAt(w, n) && n <= k < |w| && Separated(w, k)
    ensures n + 10 < k
  {
    assert forall j :: n <= j < n + 10 ==> w[j] == w[n..n + 10][j - n] == REDACTED[j - n];
    assert n + 10 < |w| ==> w[n + 10..][0] == w[n + 10];
  }

  lemma PassChanges(p: Pattern, o: string)
    requires Pass(p, o) != o
    ensures Changed(o, Pass(p, o))
  {
    hide Match, Sub, Search, In, IsWord;
    if p == Env {
      var n := EnvPassMarks(false, o);
    } else {
      SubStep(p, false, o);
      SearchShape(p, false, o);
      var m := Search(p, false, o).value;
      assert MarkedAt(o, Pass(p, o), m.from);
    }
  }

  /** `redact` leaves a text alone exactly when every match in it already has the marker as its value. */
  lemma FixedByRedact(o: string)
    ensures Redacted(o, DEFAULT_PATTERNS) == o <==> Clean(Sig, false, o) && EarlierClean(false, o)
  {
    hide Match, Pass, Clean, Changed;
    PipelineSteps(o);
    var o1 := Pass(Env, o);
    var o2 := Pass(Auth, o1);
    var o3 := Pass(Sk, o2);
    var o4 := Pass(Sig, o3);
    FixedIffClean(Env, o);
    FixedIffClean(Auth, o);
    FixedIffClean(Sk, o);
    FixedIffClean(Sig, o);
    if o1 != o { PassChanges(Env, o); ChangedStays(Auth, o, o1); }
    else if o2 != o { PassChanges(Auth, o); }
    if Changed(o, o2) { ChangedStays(Sk, o, o2); }
    else if o3 != o { PassChanges(Sk, o); }
    if Changed(o, o3) { ChangedStays(Sig, o, o3); NotChanged(o); }
  }

  lemma NotChanged(o: string)
    ensures !Changed(o, o)
  {
  }

  /** Idempotence, exactly: a second `redact` changes nothing if and only if no signature in the text that
      enters the last pass is glued to a secret. */
  lemma RedactIdempotentIff(text: string)
    ensures var out := Redacted(text, DEFAULT_PATTERNS);
            Redacted(out, DEFAULT_PATTERNS) == out <==> NoFusedSecret(false, FirstThree(text))
  {
    hide Match, Clean, NoFusedSecret, Redacted;
    RedactedIsClean(text);
    FixedByRedact(Redacted(text, DEFAULT_PATTERNS));
  }

  /** Without any condition: two calls reach a fixed point, so every further call is a no-op. */
  lemma RedactTwiceIsEnough(text: string)
    ensures var twice := Redacted(Redacted(text, DEFAULT_PATTERNS), DEFAULT_PATTERNS);
            Redacted(twice, DEFAULT_PATTERNS) == twice
  {
    hide Match, Clean, NoFusedSecret, Redacted, Sub;
    var once := Redacted(text, DEFAULT_PATTERNS);
    RedactedIsClean(text);
    PipelineSteps(once);
    var t1 := Pass(Env, once);
    var t2 := Pass(Auth, t1);
    PassKeepsClean(Env, Sig, false, once);
    PassKeepsClean(Auth, Sig, false, t1);
    PassKeepsClean(Sk, Sig, false, t2);
    CleanIsFixed(Sig, false, FirstThree(once));
    FirstThreeClean(once);
    FixedByRedact(FirstThree(once));
  }

  // ----- A condition on the raw text ----------------------------------------------------------------------

  /** No signature's hex run is directly followed by a word character. */
  predicate Unglued(w: string)
    decreases |w|
  {
    MatchBounds(Sig, false, w);
    && (MatchSig(w).Some? ==> var z := MatchSig(w).value.end; z == |w| || !IsWord(w[z]))
    && (w != "" ==> Unglued(w[1..]))
  }

  lemma {:induction false} UngluedDrop(w: string, k: nat)
    requires Unglued(w) && k <= |w|
    ensures Unglued(w[k..])
    decreases k
  {
    hide MatchSig, IsWord;
    if k == 0 {
      assert w[0..] == w;
    } else {
      UngluedDrop(w[1..], k - 1);
      assert w[1..][k - 1..] == w[k..];
    }
  }

  lemma UngluedHead(w: string, n: nat, rest: string)
    requires Unglued(w) && n < |w|
    ensures var o := Spliced(w, n, rest);
            MatchSig(o).Some? ==> var z := MatchSig(o).value.end; z <= |o| && (z < |o| ==> !IsWord(o[z]))
  {
    hide MatchSig, In;
    var o := Spliced(w, n, rest);
    if MatchSig(o).Some? {
      ShapeSig(o);
      SigAgrees(o, o);
      var v := MatchSig(o).value;
      assert o[n] == '<';
      assert v.end <= n;
      assert Agree(w, o, n);
      SigAgrees(o, w);
      if v.end < n { RunAgrees(Hex, w, o, v.start + 7, v.end); }
    }
  }

  lemma {:induction false} UngluedMarker(k: nat, rest: string)
    requires k <= 10 && Unglued(rest)
    ensures Unglued(REDACTED[k..] + rest)
    decreases 10 - k
  {
    hide MatchSig, IsWord;
    var w := REDACTED[k..] + rest;
    if k == 10 {
      assert w == rest;
    } else {
      NothingInsideMarker(Sig, true, k, rest);
      assert Match(Sig, true, w).None?;
      assert w[1..] == REDACTED[k + 1..] + rest;
      UngluedMarker(k + 1, rest);
    }
  }

  lemma {:induction false} UngluedSpliced(w: string, n: nat, rest: string)
    requires Unglued(w) && n < |w| && Unglued(rest)
    ensures Unglued(Spliced(w, n, rest))
    decreases n
  {
    hide MatchSig, IsWord;
    var o := Spliced(w, n, rest);
    if n == 0 {
      assert o == REDACTED[0..] + rest;
      UngluedMarker(0, rest);
    } else {
      UngluedHead(w, n, rest);
      assert o[0] == w[0];
      assert o[1..] == Spliced(w[1..], n - 1, rest);
      UngluedSpliced(w[1..], n - 1, rest);
    }
  }

  /** No pass glues a signature to anything. */
  lemma {:induction false} PassKeepsUnglued(p: Pattern, b: bool, w: string)
    requires Unglued(w)
    ensures Unglued(Sub(p, b, w))
    decreases |w|
  {
    hide Match, Sub, Search, IsWord, Unglued;
    SubStep(p, b, w);
    if Search(p, b, w).Some? {
      var m := Search(p, b, w).value;
      UngluedDrop(w, m.to);
      PassKeepsUnglued(p, IsWord(w[m.to - 1]), w[m.to..]);
      UngluedSpliced(w, m.from, Sub(p, IsWord(w[m.to - 1]), w[m.to..]));
    }
  }

  lemma FoundSigUnglued(b: bool, w: string)
    requires Unglued(w) && Search(Sig, b, w).Some?
    ensures var z := Search(Sig, b, w).value.to; HeadIsPlain(w[z..]) && Unglued(w[z..])
  {
    hide Match, MatchSig, Search, Unglued, Caseless;
    var m := Search(Sig, b, w).value;
    UngluedDrop(w, m.to);
    var y := w[m.to..];
    AfterSig(b, w);
    BoundaryFree(Env, false, y);
    BoundaryFree(Auth, false, y);
    BoundaryFree(Sk, false, y);
  }

  lemma AfterSig(b: bool, w: string)
    requires Unglued(w) && Search(Sig, b, w).Some?
    ensures var z := Search(Sig, b, w).value.to; z < |w| ==> !IsWord(w[z])
  {
    hide MatchSig, Search, IsWord;
    var m := Search(Sig, b, w).value;
    SearchHit(Sig, b, w);
    UngluedDrop(w, m.start);
    var u := w[m.start..];
    assert Match(Sig, Before(b, w, m.start), u) == MatchSig(u);
    if m.to < |w| { assert u[m.to - m.start] == w[m.to]; }
  }

  lemma {:induction false} UngluedNoFusedSecret(b: bool, w: string)
    requires Unglued(w)
    ensures NoFusedSecret(b, w)
    decreases |w|
  {
    hide Search, IsWord, Unglued, HeadIsPlain;
    if Search(Sig, b, w).Some? {
      var m := Search(Sig, b, w).value;
      FoundSigUnglued(b, w);
      UngluedNoFusedSecret(IsWord(w[m.to - 1]), w[m.to..]);
    }
  }

  /** The plain condition on the raw text: if no signature's hex run runs into a word character, `redact` is
      idempotent and leaves no match whose value is not the marker. */
  lemma RedactIdempotentWhenUnglued(text: string)
    requires Unglued(text)
    ensures var out := Redacted(text, DEFAULT_PATTERNS);
            Redacted(out, DEFAULT_PATTERNS) == out && Clean(Sig, false, out) && EarlierClean(false, out)
  {
    hide Match, Clean, NoFusedSecret, Redacted, Unglued, Sub;
    PipelineSteps(text);
    PassKeepsUnglued(Env, false, text);
    PassKeepsUnglued(Auth, false, Pass(Env, text));
    PassKeepsUnglued(Sk, false, Pass(Auth, Pass(Env, text)));
    UngluedNoFusedSecret(false, FirstThree(text));
    RedactedIsClean(text);
    RedactIdempotentIff(text);
  }
}
