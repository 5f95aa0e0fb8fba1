/** A pass against a declarative account of `re.sub`. */
module RedactionScan {
  import opened PyText
  import opened LogFilter
  import opened RedactionShapes

  /** `m` is a match of `p` in the whole text `t`. */
  predicate MatchOf(p: Pattern, t: string, m: Found) {
    && m.start <= m.from < m.to <= |t|
    && Match(p, Before(false, t, m.start), t[m.start..]) == Some(Span(m.from - m.start, m.to - m.start))
  }

  /** `j` lies in no match of `ms`. */
  ghost predicate Outside(ms: seq<Found>, j: nat) {
    forall i :: 0 <= i < |ms| ==> j < ms[i].start || ms[i].to <= j
  }

  ghost predicate Genuine(p: Pattern, t: string, at: nat, ms: seq<Found>) {
    forall i :: 0 <= i < |ms| ==> MatchOf(p, t, ms[i]) && at <= ms[i].start
  }

  ghost predicate InOrder(ms: seq<Found>) {
    forall i, j :: 0 <= i < j < |ms| ==> ms[i].to <= ms[j].start
  }

  ghost predicate Exhaustive(p: Pattern, t: string, at: nat, ms: seq<Found>) {
    forall j :: at <= j <= |t| && Outside(ms, j) ==> Match(p, Before(false, t, j), t[j..]).None?
  }

  /** `ms` are the matches of `p` from position `at` on: genuine, in order, disjoint, and nothing
      outside them matches. */
  ghost predicate IsScan(p: Pattern, t: string, at: nat, ms: seq<Found>) {
    Genuine(p, t, at, ms) && InOrder(ms) && Exhaustive(p, t, at, ms)
  }

  /** The text from `at` on, with every value of `ms` replaced and everything else verbatim. */
  function Masked(t: string, at: nat, ms: seq<Found>): string
    requires at <= |t|
    decreases |ms|
  {
    if ms == [] then t[at..]
    else if at <= ms[0].from <= ms[0].to <= |t| then t[at..ms[0].from] + REDACTED + Masked(t, ms[0].to, ms[1..])
    else ""
  }

  lemma MaskedStep(t: string, at: nat, ms: seq<Found>)
    requires at <= |t| && ms != [] && at <= ms[0].from <= ms[0].to <= |t|
    ensures Masked(t, at, ms) == t[at..ms[0].from] + REDACTED + Masked(t, ms[0].to, ms[1..])
  {
  }

  lemma {:induction false} SearchMisses(p: Pattern, b: bool, w: string, k: nat)
    requires k <= |w| && (Search(p, b, w).Some? ==> k < Search(p, b, w).value.start)
    ensures Match(p, Before(b, w, k), w[k..]).None?
    decreases k
  {
    hide Match, IsWord;
    if k == 0 {
      assert w[0..] == w;
    } else {
      SearchMisses(p, IsWord(w[0]), w[1..], k - 1);
      assert w[1..][k - 1..] == w[k..];
    }
  }

  lemma BeforeTail(t: string, at: nat, k: nat)
    requires at + k <= |t|
    ensures Before(Before(false, t, at), t[at..], k) == Before(false, t, at + k)
    ensures t[at..][k..] == t[at + k..]
  {
  }

  lemma GenuineExtends(p: Pattern, t: string, at: nat, f: Found, rest: seq<Found>)
    requires at <= f.start <= f.to && MatchOf(p, t, f) && Genuine(p, t, f.to, rest)
    ensures Genuine(p, t, at, [f] + rest)
  {
    hide MatchOf;
  }

  lemma OrderExtends(p: Pattern, t: string, f: Found, rest: seq<Found>)
    requires Genuine(p, t, f.to, rest) && InOrder(rest)
    ensures InOrder([f] + rest)
  {
    hide MatchOf;
  }

  lemma OutsideRest(f: Found, rest: seq<Found>, j: nat)
    requires Outside([f] + rest, j)
    ensures (j < f.start || f.to <= j) && Outside(rest, j)
  {
    var ms := [f] + rest;
    assert ms[0] == f;
    assert forall i :: 0 <= i < |rest| ==> rest[i] == ms[i + 1];
  }

  lemma ExhaustiveExtends(p: Pattern, t: string, at: nat, f: Found, rest: seq<Found>)
    requires at <= |t| && Exhaustive(p, t, f.to, rest)
    requires var r := Search(p, Before(false, t, at), t[at..]); r.Some? ==> f.start == at + r.value.start
    requires Search(p, Before(false, t, at), t[at..]).Some?
    ensures Exhaustive(p, t, at, [f] + rest)
  {
    hide Match, Search, Before, Outside;
    forall j: nat | at <= j <= |t| && Outside([f] + rest, j)
      ensures Match(p, Before(false, t, j), t[j..]).None?
    {
      OutsideRest(f, rest, j);
      if j < f.start {
        SearchMisses(p, Before(false, t, at), t[at..], j - at);
        BeforeTail(t, at, j - at);
      }
    }
  }

  lemma NothingFound(p: Pattern, t: string, at: nat)
    requires at <= |t| && Search(p, Before(false, t, at), t[at..]).None?
    ensures Exhaustive(p, t, at, [])
  {
    hide Match, Search, Before;
    forall j: nat | at <= j <= |t|
      ensures Match(p, Before(false, t, j), t[j..]).None?
    {
      SearchMisses(p, Before(false, t, at), t[at..], j - at);
      BeforeTail(t, at, j - at);
    }
  }

  lemma FoundIsMatch(p: Pattern, t: string, at: nat) returns (f: Found)
    requires at <= |t| && Search(p, Before(false, t, at), t[at..]).Some?
    ensures var m := Search(p, Before(false, t, at), t[at..]).value;
            && f == Found(at + m.start, at + m.from, at + m.to) && MatchOf(p, t, f)
            && at <= f.start <= f.from < f.to <= |t|
            && Before(false, t, f.to) == IsWord(t[at..][m.to - 1]) && t[at..][m.to..] == t[f.to..]
            && t[at..][..m.from] == t[at..f.from]
  {
    hide Match, Search, IsWord;
    var w := t[at..];
    SearchHit(p, Before(false, t, at), w);
    var m := Search(p, Before(false, t, at), w).value;
    BeforeTail(t, at, m.start);
    BeforeTail(t, at, m.to);
    f := Found(at + m.start, at + m.from, at + m.to);
  }

  /** A pass replaces the values of the leftmost, disjoint matches, in order, and copies all other text. */
  lemma {:induction false} PassIsAScan(p: Pattern, t: string, at: nat) returns (ms: seq<Found>)
    requires at <= |t|
    ensures IsScan(p, t, at, ms)
    ensures Sub(p, Before(false, t, at), t[at..]) == Masked(t, at, ms)
    decreases |t| - at
  {
    hide Match, Sub, Search, IsWord, MatchOf, Before;
    var b, w := Before(false, t, at), t[at..];
    SubStep(p, b, w);
    if Search(p, b, w).None? {
      ms := [];
      NothingFound(p, t, at);
    } else {
      var f := FoundIsMatch(p, t, at);
      var rest := PassIsAScan(p, t, f.to);
      ms := [f] + rest;
      GenuineExtends(p, t, at, f, rest);
      OrderExtends(p, t, f, rest);
      ExhaustiveExtends(p, t, at, f, rest);
      hide IsScan, Genuine, InOrder, Exhaustive, Masked;
      assert ms[1..] == rest;
      OneMoreMasked(p, t, at, ms);
    }
  }

  lemma SearchLeftmost(p: Pattern, b: bool, w: string, k: nat)
    requires k <= |w| && Match(p, Before(b, w, k), w[k..]).Some?
    ensures Search(p, b, w).Some? && Search(p, b, w).value.start <= k
    decreases k
  {
    if Search(p, b, w).None? || k < Search(p, b, w).value.start {
      SearchMisses(p, b, w, k);
    }
  }

  /** The first match of a scan is the leftmost one. */
  lemma FirstOfScan(p: Pattern, t: string, at: nat, ms: seq<Found>, f: Found)
    requires at <= |t| && IsScan(p, t, at, ms) && MatchOf(p, t, f) && at <= f.start
    requires forall j :: at <= j < f.start ==> Match(p, Before(false, t, j), t[j..]).None?
    ensures ms != [] && ms[0] == f
  {
    hide Match, Before;
    if Outside(ms, f.start) {
      assert false;
    }
    var i :| 0 <= i < |ms| && ms[i].start <= f.start < ms[i].to;
    assert MatchOf(p, t, ms[i]);
    assert ms[i].start == f.start;
    assert ms[i] == f;
    if i > 0 {
      assert false;
    }
  }

  lemma RestOfScan(p: Pattern, t: string, at: nat, ms: seq<Found>)
    requires ms != [] && IsScan(p, t, at, ms)
    ensures IsScan(p, t, ms[0].to, ms[1..])
  {
    hide Match, Before;
    var rest := ms[1..];
    assert forall i :: 0 <= i < |rest| ==> rest[i] == ms[i + 1];
    forall j: nat | ms[0].to <= j <= |t| && Outside(rest, j)
      ensures Match(p, Before(false, t, j), t[j..]).None?
    {
      assert MatchOf(p, t, ms[0]);
      assert forall i :: 0 < i < |ms| ==> ms[i] == rest[i - 1];
      assert Outside(ms, j);
    }
  }

  /** There is only one such scan, so a pass is what any scan of the text says. */
  lemma {:induction false} PassIsTheScan(p: Pattern, t: string, at: nat, ms: seq<Found>)
    requires at <= |t| && IsScan(p, t, at, ms)
    ensures Sub(p, Before(false, t, at), t[at..]) == Masked(t, at, ms)
    decreases |t| - at
  {
    hide Match, Sub, Search, IsWord, Before, IsScan, Masked;
    if Search(p, Before(false, t, at), t[at..]).None? {
      NoMatchNoScan(p, t, at, ms);
      SubStep(p, Before(false, t, at), t[at..]);
      NothingMasked(t, at);
    } else {
      ScanStep(p, t, at, ms);
      PassIsTheScan(p, t, ms[0].to, ms[1..]);
      OneMoreMasked(p, t, at, ms);
    }
  }

  lemma NothingMasked(t: string, at: nat)
    requires at <= |t|
    ensures Masked(t, at, []) == t[at..]
  {
  }

  lemma OneMoreMasked(p: Pattern, t: string, at: nat, ms: seq<Found>)
    requires at <= |t| && Search(p, Before(false, t, at), t[at..]).Some? && ms != []
    requires var m := Search(p, Before(false, t, at), t[at..]).value; var f := ms[0];
            && at <= f.from < f.to <= |t|
            && Before(false, t, f.to) == IsWord(t[at..][m.to - 1]) && t[at..][m.to..] == t[f.to..]
            && t[at..][..m.from] == t[at..f.from]
    requires Sub(p, Before(false, t, ms[0].to), t[ms[0].to..]) == Masked(t, ms[0].to, ms[1..])
    ensures Sub(p, Before(false, t, at), t[at..]) == Masked(t, at, ms)
  {
    hide Match, Sub, Search, IsWord, Before, Masked;
    var b, u, f := Before(false, t, at), t[at..], ms[0];
    var m := Search(p, b, u).value;
    SubStep(p, b, u);
    MaskedStep(t, at, ms);
    assert Sub(p, b, u) == u[..m.from] + REDACTED + Sub(p, IsWord(u[m.to - 1]), u[m.to..]);
    assert Sub(p, IsWord(u[m.to - 1]), u[m.to..]) == Masked(t, f.to, ms[1..]);
  }

  lemma ScanStep(p: Pattern, t: string, at: nat, ms: seq<Found>)
    requires at <= |t| && IsScan(p, t, at, ms) && Search(p, Before(false, t, at), t[at..]).Some?
    ensures ms != [] && IsScan(p, t, ms[0].to, ms[1..])
    ensures var m := Search(p, Before(false, t, at), t[at..]).value; var f := ms[0];
            && at <= f.from < f.to <= |t|
            && Before(false, t, f.to) == IsWord(t[at..][m.to - 1]) && t[at..][m.to..] == t[f.to..]
            && t[at..][..m.from] == t[at..f.from]
  {
    hide Match, Search, IsWord, Before, IsScan, MatchOf;
    var f := FoundIsMatch(p, t, at);
    BeforeFound(p, t, at, f.start);
    FirstOfScan(p, t, at, ms, f);
    RestOfScan(p, t, at, ms);
  }

  lemma BeforeFound(p: Pattern, t: string, at: nat, start: nat)
    requires at <= |t| && Search(p, Before(false, t, at), t[at..]).Some?
    requires start == at + Search(p, Before(false, t, at), t[at..]).value.start
    ensures forall j :: at <= j < start ==> Match(p, Before(false, t, j), t[j..]).None?
  {
    hide Match, Search, Before;
    forall j: nat | at <= j < start
      ensures Match(p, Before(false, t, j), t[j..]).None?
    {
      SearchMisses(p, Before(false, t, at), t[at..], j - at);
      BeforeTail(t, at, j - at);
    }
  }

  lemma NoMatchNoScan(p: Pattern, t: string, at: nat, ms: seq<Found>)
    requires at <= |t| && IsScan(p, t, at, ms) && Search(p, Before(false, t, at), t[at..]).None?
    ensures ms == []
  {
    hide Match, Search, Before, IsScan;
    if ms != [] {
      ScanHead(p, t, at, ms);
      BeforeTail(t, at, ms[0].start - at);
      SearchLeftmost(p, Before(false, t, at), t[at..], ms[0].start - at);
    }
  }

  lemma ScanHead(p: Pattern, t: string, at: nat, ms: seq<Found>)
    requires ms != [] && IsScan(p, t, at, ms)
    ensures at <= ms[0].start <= |t| && Match(p, Before(false, t, ms[0].start), t[ms[0].start..]).Some?
  {
    assert MatchOf(p, t, ms[0]);
  }
}
