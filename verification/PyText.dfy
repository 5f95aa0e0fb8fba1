/** Character classes and small string helpers shared by the other modules.

    Strings are `seq<char>`. White space is the full set that Python's `str.isspace` and the
    regular-expression class `\s` accept; letters, digits and word characters are the ASCII ones. */
module PyText {

  datatype Option<+T> = None | Some(value: T)

  predicate IsSpace(c: char) {
    '\t' <= c <= '\r' || '\U{1c}' <= c <= ' ' || c == '\U{85}' || c == '\U{a0}' || c == '\U{1680}'
    || '\U{2000}' <= c <= '\U{200a}' || c == '\U{2028}' || c == '\U{2029}' || c == '\U{202f}'
    || c == '\U{205f}' || c == '\U{3000}'
  }

  predicate IsDigit(c: char) { '0' <= c <= '9' }

  predicate IsLetter(c: char) { 'a' <= c <= 'z' || 'A' <= c <= 'Z' }

  /** `\w`, and hence the two sides of `\b`. */
  predicate IsWord(c: char) { IsLetter(c) || IsDigit(c) || c == '_' }

  /** Lower case of one ASCII character; every other character is returned unchanged. */
  function LowerChar(c: char): char {
    if 'A' <= c <= 'Z' then c - 'A' + 'a' else c
  }

  /** How Python lower-cases the non-ASCII character at an index of a string; it may depend on the whole string and
      may yield several characters. */
  type Lowering = (string, nat) -> string

  function LowerFrom(s: string, i: nat, other: Lowering): string
    requires i <= |s|
    decreases |s| - i
  {
    if i == |s| then ""
    else (if s[i] < '\U{80}' then [LowerChar(s[i])] else other(s, i)) + LowerFrom(s, i + 1, other)
  }

  function Lower(s: string, other: Lowering): string { LowerFrom(s, 0, other) }

  /** The two character sets that get stripped. */
  datatype Margin = Spaces | Hyphens

  predicate Strips(m: Margin, c: char) { if m == Spaces then IsSpace(c) else c == '-' }

  function StripLeft(m: Margin, s: string): string {
    if s != "" && Strips(m, s[0]) then StripLeft(m, s[1..]) else s
  }

  function StripRight(m: Margin, s: string): string {
    if s != "" && Strips(m, s[|s| - 1]) then StripRight(m, s[..|s| - 1]) else s
  }

  function Strip(m: Margin, s: string): string { StripRight(m, StripLeft(m, s)) }

  lemma {:induction false} StripLeftIsSuffix(m: Margin, s: string) returns (k: nat)
    ensures k <= |s| && StripLeft(m, s) == s[k..]
    ensures k < |s| ==> !Strips(m, s[k])
    ensures forall i :: 0 <= i < k ==> Strips(m, s[i])
  {
    if s != "" && Strips(m, s[0]) {
      var d := StripLeftIsSuffix(m, s[1..]);
      k := d + 1;
      assert s[1..][d..] == s[k..];
      assert forall i :: 0 < i < k ==> s[i] == s[1..][i - 1];
    } else {
      k := 0;
    }
  }

  lemma {:induction false} StripRightIsPrefix(m: Margin, s: string) returns (k: nat)
    ensures k <= |s| && StripRight(m, s) == s[..k]
    ensures k > 0 ==> !Strips(m, s[k - 1])
    ensures forall i :: k <= i < |s| ==> Strips(m, s[i])
  {
    if s != "" && Strips(m, s[|s| - 1]) {
      k := StripRightIsPrefix(m, s[..|s| - 1]);
      assert s[..|s| - 1][..k] == s[..k];
      assert forall i :: k <= i < |s| - 1 ==> s[i] == s[..|s| - 1][i];
    } else {
      k := |s|;
    }
  }

  /** `strip` yields the slice between the first and the last character outside its set. */
  lemma StripIsSlice(m: Margin, s: string) returns (i: nat, j: nat)
    ensures i <= j <= |s| && Strip(m, s) == s[i..j]
    ensures i < j ==> !Strips(m, s[i]) && !Strips(m, s[j - 1])
    ensures forall k :: 0 <= k < i || j <= k < |s| ==> Strips(m, s[k])
  {
    i := StripLeftIsSuffix(m, s);
    var t := s[i..];
    var k := StripRightIsPrefix(m, t);
    j := i + k;
    assert t[..k] == s[i..j];
    assert forall x :: i <= x < |s| ==> s[x] == t[x - i];
    if i < j { assert t[0] == s[i]; }
    if k == 0 && i < |s| {
      assert false;
    }
  }

  predicate StandsAt(hay: string, i: nat, needle: string) {
    i + |needle| <= |hay| && hay[i..i + |needle|] == needle
  }

  /** `needle in hay`. */
  predicate Contains(hay: string, needle: string) {
    exists i :: 0 <= i <= |hay| && StandsAt(hay, i, needle)
  }
}
