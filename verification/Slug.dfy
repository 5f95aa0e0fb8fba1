/** Slug normalisation and the numbered candidates that resolve collisions. */
module Slug {
  import opened PyText

  predicate IsAlnum(c: char) { 'a' <= c <= 'z' || IsDigit(c) }

  predicate IsSlugChar(c: char) { IsAlnum(c) || c == '-' }

  /** A non-empty string over `[a-z0-9-]` without leading, trailing or doubled hyphens. */
  predicate IsSlug(s: string) {
    && s != "" && s[0] != '-' && s[|s| - 1] != '-'
    && (forall i :: 0 <= i < |s| ==> IsSlugChar(s[i]))
    && (forall i :: 0 < i < |s| ==> s[i - 1] != '-' || s[i] != '-')
  }

  /** `replace(" ", "-")`. */
  function SpacesToHyphens(s: string): string {
    if s == "" then "" else [if s[0] == ' ' then '-' else s[0]] + SpacesToHyphens(s[1..])
  }

  /** Delete every run of characters outside `[a-z0-9-]`. */
  function KeepSlugChars(s: string): string {
    if s == "" then "" else (if IsSlugChar(s[0]) then [s[0]] else "") + KeepSlugChars(s[1..])
  }

  /** Replace every run of two or more hyphens by one. */
  function CollapseHyphens(s: string): string {
    if s == "" then ""
    else if s[0] == '-' && |s| > 1 && s[1] == '-' then CollapseHyphens(s[1..])
    else [s[0]] + CollapseHyphens(s[1..])
  }

  /** What the rewriting makes of the lower-cased, stripped name. */
  function Rewritten(a: string): string { Strip(Hyphens, CollapseHyphens(KeepSlugChars(SpacesToHyphens(a)))) }

  function SlugBase(name: string, other: Lowering): string { Rewritten(Lower(Strip(Spaces, name), other)) }

  function Slugify(name: string, other: Lowering): string {
    var base := SlugBase(name, other);
    if base == "" then "tenant" else base
  }

  // ----- Normal form -------------------------------------------------------------------------------

  predicate AllSlugChars(s: string) { forall i :: 0 <= i < |s| ==> IsSlugChar(s[i]) }

  predicate NoDouble(s: string) { forall i :: 0 < i < |s| ==> s[i - 1] != '-' || s[i] != '-' }

  lemma {:induction false} KeptAreSlugChars(s: string)
    ensures AllSlugChars(KeepSlugChars(s))
  {
    if s != "" { KeptAreSlugChars(s[1..]); }
  }

  lemma {:induction false} CollapsedHasNoDouble(s: string)
    ensures NoDouble(CollapseHyphens(s))
    ensures AllSlugChars(s) ==> AllSlugChars(CollapseHyphens(s))
    ensures s != "" ==> CollapseHyphens(s) != "" && CollapseHyphens(s)[0] == s[0]
  {
    if s != "" {
      CollapsedHasNoDouble(s[1..]);
      if AllSlugChars(s) { assert forall i :: 0 <= i < |s[1..]| ==> s[1..][i] == s[i + 1]; }
    }
  }

  /** Every name normalises to a slug. */
  lemma SlugifyIsSlug(name: string, other: Lowering)
    ensures IsSlug(Slugify(name, other))
  {
    hide Strip, Lower, SpacesToHyphens, KeepSlugChars, CollapseHyphens, AllSlugChars, NoDouble, IsSlug;
    var kept := KeepSlugChars(SpacesToHyphens(Lower(Strip(Spaces, name), other)));
    KeptAreSlugChars(SpacesToHyphens(Lower(Strip(Spaces, name), other)));
    CollapsedHasNoDouble(kept);
    StrippedIsSlug(CollapseHyphens(kept));
    FallbackIsSlug();
  }

  lemma StrippedIsSlug(c: string)
    requires AllSlugChars(c) && NoDouble(c)
    ensures Strip(Hyphens, c) == "" || IsSlug(Strip(Hyphens, c))
  {
    hide Strip, IsSlugChar;
    var i, j := StripIsSlice(Hyphens, c);
    assert forall k :: 0 <= k < |c[i..j]| ==> c[i..j][k] == c[i + k];
  }

  lemma FallbackIsSlug()
    ensures IsSlug("tenant")
  {
  }

  // ----- Fixed points --------------------------------------------------------------------------------

  lemma {:induction false} LowerKeepsSlugChars(s: string, i: nat, other: Lowering)
    requires AllSlugChars(s) && i <= |s|
    ensures LowerFrom(s, i, other) == s[i..]
    decreases |s| - i
  {
    if i < |s| { LowerKeepsSlugChars(s, i + 1, other); }
  }

  lemma {:induction false} PipelineKeepsSlugChars(s: string)
    requires AllSlugChars(s)
    ensures SpacesToHyphens(s) == s && KeepSlugChars(s) == s
  {
    if s != "" {
      assert forall i :: 0 <= i < |s[1..]| ==> s[1..][i] == s[i + 1];
      PipelineKeepsSlugChars(s[1..]);
      assert IsSlugChar(s[0]);
      assert s == [s[0]] + s[1..];
    }
  }

  lemma {:induction false} CollapseKeepsSingle(s: string)
    requires NoDouble(s)
    ensures CollapseHyphens(s) == s
  {
    if s != "" {
      assert forall i :: 0 < i < |s[1..]| ==> s[1..][i] == s[i + 1] && s[1..][i - 1] == s[i];
      CollapseKeepsSingle(s[1..]);
      assert |s| > 1 ==> s[1 - 1] != '-' || s[1] != '-';
      assert s == [s[0]] + s[1..];
    }
  }

  lemma StripKeeps(m: Margin, s: string)
    requires s != "" && !Strips(m, s[0]) && !Strips(m, s[|s| - 1])
    ensures Strip(m, s) == s
  {
  }

  /** The slugs are exactly the fixed points of `slugify`. */
  lemma SlugIffFixed(s: string, other: Lowering)
    ensures Slugify(s, other) == s <==> IsSlug(s)
  {
    SlugifyIsSlug(s, other);
    if IsSlug(s) {
      assert IsSlugChar(s[0]) && IsSlugChar(s[|s| - 1]);
      StripKeeps(Spaces, s);
      LowerKeepsSlugChars(s, 0, other);
      PipelineKeepsSlugChars(s);
      CollapseKeepsSingle(s);
      StripKeeps(Hyphens, s);
    }
  }

  lemma SlugifyIsIdempotent(name: string, other: Lowering, again: Lowering)
    ensures Slugify(Slugify(name, other), again) == Slugify(name, other)
  {
    SlugifyIsSlug(name, other);
    SlugIffFixed(Slugify(name, other), again);
  }

  // ----- What a slug keeps of the name -----------------------------------------------------------------

  /** The `[a-z0-9]` characters of a text, in order. */
  function Alnums(s: string): string {
    if s == "" then "" else (if IsAlnum(s[0]) then [s[0]] else "") + Alnums(s[1..])
  }

  lemma AlnumsUnfold(s: string)
    requires s != ""
    ensures Alnums(s) == (if IsAlnum(s[0]) then [s[0]] else "") + Alnums(s[1..])
  {
  }

  lemma {:induction false} AlnumsConcat(s: string, t: string)
    ensures Alnums(s + t) == Alnums(s) + Alnums(t)
  {
    hide IsAlnum, Alnums;
    if s == "" {
      assert s + t == t;
      NoAlnums(s);
    } else {
      AlnumsUnfold(s);
      AlnumsUnfold(s + t);
      assert (s + t)[0] == s[0] && (s + t)[1..] == s[1..] + t;
      AlnumsConcat(s[1..], t);
    }
  }

  lemma {:induction false} NoAlnums(s: string)
    requires forall i :: 0 <= i < |s| ==> !IsAlnum(s[i])
    ensures Alnums(s) == ""
  {
    if s != "" {
      assert forall i :: 0 <= i < |s[1..]| ==> s[1..][i] == s[i + 1];
      NoAlnums(s[1..]);
    }
  }

  lemma StrippedIsNoAlnum(m: Margin, c: char)
    ensures Strips(m, c) ==> !IsAlnum(c)
  {
  }

  lemma StripKeepsAlnums(m: Margin, s: string)
    ensures Alnums(Strip(m, s)) == Alnums(s)
  {
    hide Strip, IsAlnum, Strips, Alnums;
    var i, j := StripIsSlice(m, s);
    forall k | 0 <= k < |s| && Strips(m, s[k])
      ensures !IsAlnum(s[k])
    {
      StrippedIsNoAlnum(m, s[k]);
    }
    assert s == s[..i] + (s[i..j] + s[j..]);
    AlnumsConcat(s[..i], s[i..j] + s[j..]);
    AlnumsConcat(s[i..j], s[j..]);
    assert forall k :: 0 <= k < |s[j..]| ==> s[j..][k] == s[j + k];
    NoAlnums(s[..i]);
    NoAlnums(s[j..]);
  }

  lemma {:induction false} RewritesKeepAlnums(s: string)
    ensures Alnums(SpacesToHyphens(s)) == Alnums(s) && Alnums(KeepSlugChars(s)) == Alnums(s)
    ensures Alnums(CollapseHyphens(s)) == Alnums(s)
  {
    if s != "" {
      RewritesKeepAlnums(s[1..]);
      AlnumsConcat([if s[0] == ' ' then '-' else s[0]], SpacesToHyphens(s[1..]));
      AlnumsConcat(if IsSlugChar(s[0]) then [s[0]] else "", KeepSlugChars(s[1..]));
      AlnumsConcat([s[0]], CollapseHyphens(s[1..]));
    }
  }

  /** A slug spells the letters and digits of the lower-cased name, in order; a name without any becomes `tenant`. */
  lemma SlugSpellsTheName(name: string, other: Lowering)
    ensures var spelled := Alnums(Lower(Strip(Spaces, name), other));
            if spelled == "" then Slugify(name, other) == "tenant" else Alnums(Slugify(name, other)) == spelled
  {
    var a := Lower(Strip(Spaces, name), other);
    var b := SpacesToHyphens(a);
    var c := KeepSlugChars(b);
    RewritesKeepAlnums(a);
    RewritesKeepAlnums(b);
    RewritesKeepAlnums(c);
    StripKeepsAlnums(Hyphens, CollapseHyphens(c));
    if SlugBase(name, other) != "" {
      SlugifyIsSlug(name, other);
      var s := Slugify(name, other);
      assert IsAlnum(s[0]);
    }
  }

  // ----- Decimal numbers and candidates --------------------------------------------------------------------

  const DIGITS := "0123456789"

  function Decimal(n: nat): string {
    if n < 10 then [DIGITS[n]] else Decimal(n / 10) + [DIGITS[n % 10]]
  }

  function DigitValue(c: char): nat { if IsDigit(c) then (c - '0') as nat else 0 }

  function ParseDecimal(s: string): nat {
    if s == "" then 0 else 10 * ParseDecimal(s[..|s| - 1]) + DigitValue(s[|s| - 1])
  }

  lemma DigitRoundTrip(d: nat)
    requires d < 10
    ensures IsDigit(DIGITS[d]) && DigitValue(DIGITS[d]) == d
  {
  }

  lemma {:induction false} DecimalRoundTrip(n: nat)
    ensures ParseDecimal(Decimal(n)) == n
    ensures Decimal(n) != "" && forall i :: 0 <= i < |Decimal(n)| ==> IsDigit(Decimal(n)[i])
  {
    DigitRoundTrip(n % 10);
    if n < 10 {
      assert Decimal(n)[..0] == "";
    } else {
      DecimalRoundTrip(n / 10);
      assert Decimal(n)[..|Decimal(n)| - 1] == Decimal(n / 10);
    }
  }

  /** The `k`-th name tried for a base: the base itself, then `base-2`, `base-3`, ... */
  function Candidate(base: string, k: nat): string {
    if k == 0 then base else base + "-" + Decimal(k + 1)
  }

  /** The first candidate is the base, and the `k`-th after it ends in the number `k + 1`. */
  lemma CandidateIsNumbered(base: string, k: nat)
    ensures Candidate(base, 0) == base
    ensures k > 0 ==> base + "-" <= Candidate(base, k) && ParseDecimal(Candidate(base, k)[|base| + 1..]) == k + 1
  {
    DecimalRoundTrip(k + 1);
    if k > 0 { assert Candidate(base, k)[|base| + 1..] == Decimal(k + 1); }
  }

  /** No two candidates are equal. */
  lemma CandidatesDiffer(base: string, j: nat, k: nat)
    requires Candidate(base, j) == Candidate(base, k)
    ensures j == k
  {
    DecimalRoundTrip(j + 1);
    DecimalRoundTrip(k + 1);
    if j > 0 && k > 0 {
      assert Candidate(base, j)[|base| + 1..] == Decimal(j + 1);
      assert Candidate(base, k)[|base| + 1..] == Decimal(k + 1);
    }
  }

  /** A numbered slug is again a slug. */
  lemma CandidateIsSlug(base: string, k: nat)
    requires IsSlug(base)
    ensures IsSlug(Candidate(base, k))
  {
    hide Decimal, ParseDecimal;
    DecimalRoundTrip(k + 1);
    var s, d := Candidate(base, k), Decimal(k + 1);
    if k > 0 {
      assert forall i :: 0 <= i < |s| ==>
        s[i] == if i < |base| then base[i] else if i == |base| then '-' else d[i - |base| - 1];
    }
  }
}
