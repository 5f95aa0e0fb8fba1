/** Alphabets written out character by character, and what the character classes and case maps of the model are in terms
    of them. */
module Alphabets {
  import opened PyText

  const UPPERS := "ABCDEFGHIJKLMNOPQRSTUVWXYZ"
  const LOWERS := "abcdefghijklmnopqrstuvwxyz"
  const NUMERALS := "0123456789"

  /** White space as Unicode lists it for `str.isspace`. */
  const WHITE := "\t\n\U{0b}\U{0c}\r\U{1c}\U{1d}\U{1e}\U{1f} \U{85}\U{a0}\U{1680}"
               + "\U{2000}\U{2001}\U{2002}\U{2003}\U{2004}\U{2005}\U{2006}\U{2007}\U{2008}\U{2009}\U{200a}"
               + "\U{2028}\U{2029}\U{202f}\U{205f}\U{3000}"

  lemma LettersInOrder()
    ensures |UPPERS| == |LOWERS| == 26
    ensures forall k :: 0 <= k < 26 ==> UPPERS[k] == 'A' + k as char && LOWERS[k] == 'a' + k as char
  {
  }

  lemma InUppers(c: char)
    ensures c in UPPERS <==> 'A' <= c <= 'Z'
  {
    LettersInOrder();
    if 'A' <= c <= 'Z' { assert UPPERS[(c - 'A') as int] == c; }
  }

  lemma InLowers(c: char)
    ensures c in LOWERS <==> 'a' <= c <= 'z'
  {
    LettersInOrder();
    if 'a' <= c <= 'z' { assert LOWERS[(c - 'a') as int] == c; }
  }

  lemma InNumerals(c: char)
    ensures c in NUMERALS <==> IsDigit(c)
  {
  }

  lemma InWhite(c: char)
    ensures c in WHITE <==> IsSpace(c)
  {
  }

  /** `c` is the lower-case letter `l` or its capital, or simply the character `l`. */
  predicate CaseOf(c: char, l: char) { c == l || exists k :: 0 <= k < 26 && LOWERS[k] == l && UPPERS[k] == c }

  /** `w` is `lit` in any mixture of cases. */
  predicate AnyCase(w: string, lit: string) { |w| == |lit| && forall j :: 0 <= j < |w| ==> CaseOf(w[j], lit[j]) }

  lemma CaseOfIs(c: char, l: char)
    requires !('A' <= l <= 'Z')
    ensures CaseOf(c, l) <==> LowerChar(c) == l
  {
    LettersInOrder();
    InUppers(l);
    if 'A' <= c <= 'Z' && LowerChar(c) == l {
      var k := (c - 'A') as int;
      assert LOWERS[k] == l && UPPERS[k] == c;
    }
  }

  predicate NoCapitals(s: string) { forall i :: 0 <= i < |s| ==> !('A' <= s[i] <= 'Z') }

  predicate Ascii(s: string) { forall i :: 0 <= i < |s| ==> s[i] < '\U{80}' }

  predicate SaidAt(s: string, i: nat, lit: string) { i + |lit| <= |s| && AnyCase(s[i..i + |lit|], lit) }

  /** `lit` stands somewhere in `s`, in any mixture of cases. */
  predicate Says(s: string, lit: string) { exists i :: 0 <= i <= |s| && SaidAt(s, i, lit) }

  /** Lower-casing an ASCII text maps it letter by letter. */
  lemma {:induction false} LowerFromAscii(s: string, i: nat, other: Lowering)
    requires Ascii(s) && i <= |s|
    ensures |LowerFrom(s, i, other)| == |s| - i
    ensures forall k :: i <= k < |s| ==> LowerFrom(s, i, other)[k - i] == LowerChar(s[k])
    decreases |s| - i
  {
    hide LowerChar;
    if i < |s| { LowerFromAscii(s, i + 1, other); }
  }

  /** What `str.lower` does to an ASCII text: the same text without capitals. */
  lemma LowerOfAscii(s: string, other: Lowering)
    requires Ascii(s)
    ensures AnyCase(s, Lower(s, other)) && NoCapitals(Lower(s, other))
  {
    hide CaseOf;
    LowerFromAsciiWhole(s, other);
    forall k | 0 <= k < |s|
      ensures !('A' <= Lower(s, other)[k] <= 'Z') && CaseOf(s[k], Lower(s, other)[k])
    {
      CaseOfIs(s[k], LowerChar(s[k]));
    }
  }

  /** In an ASCII text, looking for a word in the lower-cased text is looking for it in any mixture of cases. */
  lemma ContainsIsSays(s: string, lit: string, other: Lowering)
    requires Ascii(s) && NoCapitals(lit)
    ensures Contains(Lower(s, other), lit) <==> Says(s, lit)
  {
    hide Lower, CaseOf, LowerChar, AnyCase;
    LowerFromAsciiWhole(s, other);
    var low := Lower(s, other);
    forall i: nat | i <= |s|
      ensures StandsAt(low, i, lit) <==> SaidAt(s, i, lit)
    {
      if i + |lit| <= |s| { SameHere(s, low, i, lit); }
    }
    if Says(s, lit) {
      var i :| 0 <= i <= |s| && SaidAt(s, i, lit);
      assert StandsAt(low, i, lit);
    }
  }

  lemma LowerFromAsciiWhole(s: string, other: Lowering)
    requires Ascii(s)
    ensures |Lower(s, other)| == |s| && forall k :: 0 <= k < |s| ==> Lower(s, other)[k] == LowerChar(s[k])
  {
    hide LowerChar;
    LowerFromAscii(s, 0, other);
  }

  lemma SameHere(s: string, low: string, i: nat, lit: string)
    requires |low| == |s| && (forall k :: 0 <= k < |s| ==> low[k] == LowerChar(s[k]))
    requires i + |lit| <= |s| && NoCapitals(lit)
    ensures low[i..i + |lit|] == lit <==> AnyCase(s[i..i + |lit|], lit)
  {
    hide LowerChar, CaseOf;
    var a, b := low[i..i + |lit|], s[i..i + |lit|];
    forall j | 0 <= j < |lit|
      ensures CaseOf(b[j], lit[j]) <==> a[j] == lit[j]
    {
      CaseOfIs(b[j], lit[j]);
    }
    if AnyCase(b, lit) { assert forall j :: 0 <= j < |lit| ==> a[j] == lit[j]; }
  }
}
