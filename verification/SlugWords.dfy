/** Slugs against an independent account: the words of a name, joined by hyphens. */
module SlugWords {
  import opened PyText
  import opened Alphabets
  import opened Slug

  /** The characters that a slug keeps, written out. */
  const KEPT := LOWERS + NUMERALS

  lemma KeptAre(c: char)
    ensures c in KEPT <==> IsAlnum(c)
    ensures c in KEPT || c == '-' <==> IsSlugChar(c)
    ensures c in KEPT ==> c != '-' && c != ' '
  {
    InLowers(c);
    InNumerals(c);
  }

  function Flush(word: string): seq<string> { if word == "" then [] else [word] }

  /** The words of `word + a`, where `word` has been read already: spaces and hyphens end a word, letters and digits
      belong to it, and everything else is dropped without ending it. */
  function WordsFrom(word: string, a: string): seq<string>
    decreases |a|
  {
    if a == "" then Flush(word)
    else if a[0] == ' ' || a[0] == '-' then Flush(word) + WordsFrom("", a[1..])
    else if a[0] in KEPT then WordsFrom(word + [a[0]], a[1..])
    else WordsFrom(word, a[1..])
  }

  function Words(a: string): seq<string> { WordsFrom("", a) }

  function Dashed(words: seq<string>): string {
    if words == [] then "" else if |words| == 1 then words[0] else words[0] + "-" + Dashed(words[1..])
  }

  lemma OneMoreChar(word: string, a: string)
    requires a != ""
    ensures WordsFrom(word, a) ==
            if a[0] == ' ' || a[0] == '-' then Flush(word) + WordsFrom("", a[1..])
            else if a[0] in KEPT then WordsFrom(word + [a[0]], a[1..])
            else WordsFrom(word, a[1..])
  {
  }

  lemma DashedMore(word: string, words: seq<string>)
    requires words != []
    ensures Dashed([word] + words) == word + "-" + Dashed(words)
  {
    assert ([word] + words)[1..] == words;
  }

  lemma EndsFlush(word: string, words: seq<string>)
    requires words != []
    ensures Flush(word) + words != []
    ensures Dashed(Flush(word) + words) == (if word == "" then "" else word + "-") + Dashed(words)
  {
    if word == "" { assert Flush(word) + words == words; } else { DashedMore(word, words); }
  }

  // ----- Every rewrite keeps the words -------------------------------------------------------------------

  lemma {:induction false} SpacesKeepWords(word: string, a: string)
    ensures WordsFrom(word, SpacesToHyphens(a)) == WordsFrom(word, a)
    ensures ' ' !in SpacesToHyphens(a)
    decreases |a|
  {
    hide KEPT;
    if a != "" {
      var r := SpacesToHyphens(a);
      assert r[1..] == SpacesToHyphens(a[1..]);
      SpacesKeepWords("", a[1..]);
      SpacesKeepWords(word + [a[0]], a[1..]);
      SpacesKeepWords(word, a[1..]);
    }
  }

  lemma {:induction false} KeepingKeepsWords(word: string, a: string)
    requires ' ' !in a
    ensures WordsFrom(word, KeepSlugChars(a)) == WordsFrom(word, a)
    decreases |a|
  {
    if a != "" {
      KeptAre(a[0]);
      hide KEPT, IsSlugChar;
      KeepingKeepsWords("", a[1..]);
      KeepingKeepsWords(word + [a[0]], a[1..]);
      KeepingKeepsWords(word, a[1..]);
      if IsSlugChar(a[0]) {
        assert KeepSlugChars(a)[1..] == KeepSlugChars(a[1..]);
      } else {
        assert KeepSlugChars(a) == KeepSlugChars(a[1..]);
      }
    }
  }

  lemma {:induction false} CollapsingKeepsWords(word: string, a: string)
    ensures WordsFrom(word, CollapseHyphens(a)) == WordsFrom(word, a)
    decreases |a|
  {
    hide KEPT;
    if a != "" {
      CollapsingKeepsWords("", a[1..]);
      CollapsingKeepsWords(word + [a[0]], a[1..]);
      CollapsingKeepsWords(word, a[1..]);
      if a[0] == '-' && |a| > 1 && a[1] == '-' {
        assert WordsFrom(word, a[1..]) == Flush(word) + WordsFrom("", a[1..][1..]);
        assert WordsFrom("", a[1..]) == WordsFrom("", a[1..][1..]);
      } else {
        assert CollapseHyphens(a)[1..] == CollapseHyphens(a[1..]);
      }
    }
  }

  lemma {:induction false} TrailingHyphen(word: string, a: string)
    ensures WordsFrom(word, a + "-") == WordsFrom(word, a)
    decreases |a|
  {
    hide KEPT;
    if a == "" {
      assert ("" + "-")[1..] == "";
    } else {
      assert (a + "-")[1..] == a[1..] + "-";
      TrailingHyphen("", a[1..]);
      TrailingHyphen(word + [a[0]], a[1..]);
      TrailingHyphen(word, a[1..]);
    }
  }

  lemma {:induction false} StripRightKeepsWords(a: string)
    ensures Words(StripRight(Hyphens, a)) == Words(a)
  {
    hide KEPT;
    if a != "" && a[|a| - 1] == '-' {
      var r := a[..|a| - 1];
      assert a == r + "-";
      TrailingHyphen("", r);
      StripRightKeepsWords(r);
    }
  }

  lemma {:induction false} StripLeftKeepsWords(a: string)
    ensures Words(StripLeft(Hyphens, a)) == Words(a)
  {
    hide KEPT;
    if a != "" && a[0] == '-' {
      StripLeftKeepsWords(a[1..]);
      assert Words(a) == Flush("") + Words(a[1..]) == Words(a[1..]);
    }
  }

  lemma RewritingKeepsWords(a: string)
    ensures Words(Rewritten(a)) == Words(a)
  {
    hide WordsFrom, SpacesToHyphens, KeepSlugChars, CollapseHyphens, StripLeft, StripRight;
    var b := SpacesToHyphens(a);
    var c := KeepSlugChars(b);
    var d := CollapseHyphens(c);
    SpacesKeepWords("", a);
    KeepingKeepsWords("", b);
    CollapsingKeepsWords("", c);
    StripLeftKeepsWords(d);
    StripRightKeepsWords(StripLeft(Hyphens, d));
  }

  // ----- A normal form spells its words --------------------------------------------------------------------

  /** Slug characters without doubled hyphens, the last one not a hyphen. */
  predicate Tail(e: string) { AllSlugChars(e) && NoDouble(e) && (e == "" || e[|e| - 1] != '-') }

  lemma TailOfTail(e: string)
    requires Tail(e) && e != ""
    ensures Tail(e[1..]) && IsSlugChar(e[0]) && (e[0] == '-' ==> |e| > 1 && e[1] != '-')
  {
    hide IsSlugChar;
    assert forall i :: 0 <= i < |e[1..]| ==> e[1..][i] == e[i + 1];
    assert |e| > 1 ==> e[1 - 1] != '-' || e[1] != '-';
  }

  lemma {:induction false} SpelledFrom(word: string, e: string)
    requires Tail(e) && (word == "" && e != "" ==> e[0] != '-')
    ensures Dashed(WordsFrom(word, e)) == word + e
    decreases |e|
  {
    hide KEPT, Tail, IsSlugChar, WordsFrom, Dashed, Flush;
    if e == "" {
      NothingMore(word);
    } else {
      TailOfTail(e);
      KeptAre(e[0]);
      OneMoreChar(word, e);
      if e[0] == '-' {
        SpelledFrom("", e[1..]);
        NoWords();
        EndsFlush(word, WordsFrom("", e[1..]));
        assert word + e == word + "-" + e[1..];
      } else {
        SpelledFrom(word + [e[0]], e[1..]);
        assert word + e == word + [e[0]] + e[1..];
      }
    }
  }

  lemma NothingMore(word: string)
    ensures Dashed(WordsFrom(word, "")) == word
  {
  }

  lemma NoWords()
    ensures Dashed([]) == ""
  {
  }

  /** What the rewriting leaves is the words of the text, joined by single hyphens. */
  lemma RewrittenIsDashed(a: string)
    ensures Rewritten(a) == Dashed(Words(a))
  {
    hide WordsFrom, SpacesToHyphens, KeepSlugChars, CollapseHyphens, Strip, Dashed, IsSlug;
    RewritingKeepsWords(a);
    RewrittenIsTail(a);
    SpelledFrom("", Rewritten(a));
  }

  lemma RewrittenIsTail(a: string)
    ensures Tail(Rewritten(a)) && (Rewritten(a) != "" ==> Rewritten(a)[0] != '-')
  {
    hide SpacesToHyphens, KeepSlugChars, CollapseHyphens, Strip, AllSlugChars, NoDouble;
    var c := KeepSlugChars(SpacesToHyphens(a));
    KeptAreSlugChars(SpacesToHyphens(a));
    CollapsedHasNoDouble(c);
    StrippedIsTail(CollapseHyphens(c));
  }

  lemma StrippedIsTail(c: string)
    requires AllSlugChars(c) && NoDouble(c)
    ensures var e := Strip(Hyphens, c); Tail(e) && (e != "" ==> e[0] != '-')
  {
    hide Strip, IsSlugChar;
    var i, j := StripIsSlice(Hyphens, c);
    assert forall k :: 0 <= k < |c[i..j]| ==> c[i..j][k] == c[i + k];
  }

  /** A slug is the words of the lower-cased, stripped name joined by hyphens, or `tenant` if there is none. */
  lemma SlugIsItsWords(name: string, other: Lowering)
    ensures var words := Words(Lower(Strip(Spaces, name), other));
            Slugify(name, other) == if words == [] then "tenant" else Dashed(words)
  {
    hide WordsFrom, SpacesToHyphens, KeepSlugChars, CollapseHyphens, Strip, Lower;
    var a := Lower(Strip(Spaces, name), other);
    RewrittenIsDashed(a);
    WordsAreNonEmpty("", a);
    DashedIsEmptyIff(Words(a));
  }

  lemma DashedIsEmptyIff(words: seq<string>)
    requires forall w :: w in words ==> w != ""
    ensures Dashed(words) == "" <==> words == []
  {
    if words != [] { assert words[0] in words; }
  }

  lemma {:induction false} WordsAreNonEmpty(word: string, a: string)
    ensures forall w :: w in WordsFrom(word, a) ==> w != ""
    decreases |a|
  {
    hide KEPT;
    if a != "" {
      WordsAreNonEmpty("", a[1..]);
      WordsAreNonEmpty(word + [a[0]], a[1..]);
      WordsAreNonEmpty(word, a[1..]);
    }
  }

  // ----- Where the hyphens come from -----------------------------------------------------------------------

  /** The text has a space or a hyphen. */
  predicate Parts(g: string) { ' ' in g || '-' in g }

  predicate NoneKept(g: string) { forall i :: 0 <= i < |g| ==> g[i] !in KEPT }

  lemma {:induction false} LongerWord(word: string, more: string, b: string)
    requires word != "" && more != ""
    ensures WordsFrom(more, b) != []
    ensures WordsFrom(word + more, b) == [word + WordsFrom(more, b)[0]] + WordsFrom(more, b)[1..]
    decreases |b|
  {
    hide KEPT;
    if b != "" {
      LongerWord(word, more + [b[0]], b[1..]);
      LongerWord(word, more, b[1..]);
      assert word + more + [b[0]] == word + (more + [b[0]]);
      if b[0] == ' ' || b[0] == '-' {
        assert WordsFrom(more, b) == [more] + WordsFrom("", b[1..]);
        assert WordsFrom(word + more, b) == [word + more] + WordsFrom("", b[1..]);
      }
    }
  }

  /** A word goes on into a text that starts with a letter or digit. */
  lemma WordGoesOn(word: string, b: string)
    requires word != "" && b != "" && b[0] in KEPT
    ensures Dashed(WordsFrom(word, b)) == word + Dashed(Words(b)) && Words(b) != [] && WordsFrom(word, b) != []
  {
    KeptAre(b[0]);
    hide KEPT, WordsFrom, Dashed;
    assert "" + [b[0]] == [b[0]];
    LongerWord(word, [b[0]], b[1..]);
    OneMoreChar("", b);
    OneMoreChar(word, b);
    LongerFirst(word, WordsFrom([b[0]], b[1..]));
  }

  lemma LongerFirst(word: string, words: seq<string>)
    requires words != []
    ensures Dashed([word + words[0]] + words[1..]) == word + Dashed(words)
  {
    var longer := [word + words[0]] + words[1..];
    assert longer[1..] == words[1..];
  }

  lemma {:induction false} AcrossGap(word: string, g: string, b: string)
    requires NoneKept(g) && b != "" && b[0] in KEPT
    ensures WordsFrom(word, g + b) == if Parts(g) then Flush(word) + Words(b) else WordsFrom(word, b)
    decreases |g|
  {
    hide KEPT;
    if g == "" {
      assert g + b == b;
    } else {
      assert (g + b)[1..] == g[1..] + b && g == [g[0]] + g[1..];
      assert forall i :: 0 <= i < |g[1..]| ==> g[1..][i] == g[i + 1];
      AcrossGap("", g[1..], b);
      AcrossGap(word, g[1..], b);
      assert Flush("") + Words(b) == Words(b);
    }
  }

  lemma GapAfter(word: string, g: string, b: string)
    requires word != "" && NoneKept(g) && b != "" && b[0] in KEPT
    ensures WordsFrom(word, g + b) != []
    ensures Dashed(WordsFrom(word, g + b)) == word + (if Parts(g) then "-" else "") + Dashed(Words(b))
  {
    AcrossGap(word, g, b);
    WordGoesOn(word, b);
    hide KEPT, WordsFrom;
    DashedMore(word, Words(b));
  }

  lemma {:induction false} AfterWord(word: string, a: string, g: string, b: string)
    requires if a == "" then word != "" else a[|a| - 1] in KEPT
    requires NoneKept(g) && b != "" && b[0] in KEPT
    ensures WordsFrom(word, a + (g + b)) != [] && WordsFrom(word, a) != []
    ensures Dashed(WordsFrom(word, a + (g + b))) ==
            Dashed(WordsFrom(word, a)) + ((if Parts(g) then "-" else "") + Dashed(Words(b)))
    decreases |a|
  {
    hide KEPT, Parts, NoneKept, WordsFrom, Dashed, Words, Flush;
    if a == "" {
      assert a + (g + b) == g + b;
      GapAfter(word, g, b);
      OneWord(word);
    } else {
      KeptAre(a[0]);
      var t := a + (g + b);
      assert t[1..] == a[1..] + (g + b) && t[0] == a[0];
      OneMoreChar(word, a);
      OneMoreChar(word, t);
      if a[0] == ' ' || a[0] == '-' {
        AfterWord("", a[1..], g, b);
        EndsFlush(word, WordsFrom("", a[1..]));
        EndsFlush(word, WordsFrom("", t[1..]));
      } else if a[0] in KEPT {
        AfterWord(word + [a[0]], a[1..], g, b);
      } else {
        AfterWord(word, a[1..], g, b);
      }
    }
  }

  lemma OneWord(word: string)
    requires word != ""
    ensures WordsFrom(word, "") == [word] && Dashed(WordsFrom(word, "")) == word
  {
  }

  /** A text cut at a gap: the two sides are rewritten on their own, and one hyphen stands between them if and only if
      the gap has a space or a hyphen. */
  lemma GapIsHyphen(a: string, g: string, b: string)
    requires a != "" && a[|a| - 1] in KEPT && NoneKept(g) && b != "" && b[0] in KEPT
    ensures Rewritten(a + g + b) == Rewritten(a) + (if Parts(g) then "-" else "") + Rewritten(b)
  {
    hide KEPT, WordsFrom, Rewritten, Dashed, Parts, NoneKept;
    RewrittenIsDashed(a + g + b);
    RewrittenIsDashed(a);
    RewrittenIsDashed(b);
    assert a + g + b == a + (g + b);
    AfterWord("", a, g, b);
  }

  /** The rewriting begins and ends with the letters or digits that the text begins and ends with. */
  lemma RewrittenKeepsEnds(a: string)
    requires a != ""
    ensures a[|a| - 1] in KEPT ==> Rewritten(a) != "" && Rewritten(a)[|Rewritten(a)| - 1] == a[|a| - 1]
    ensures a[0] in KEPT ==> Rewritten(a) != "" && Rewritten(a)[0] == a[0]
  {
    hide KEPT, Rewritten, IsAlnum;
    RewrittenIsTail(a);
    RewritingKeepsAlnums(a);
    var e := Rewritten(a);
    EndsOf(a);
    if e != "" { EndsOf(e); TailEnds(e); }
  }

  lemma RewritingKeepsAlnums(a: string)
    ensures Alnums(Rewritten(a)) == Alnums(a)
  {
    hide SpacesToHyphens, KeepSlugChars, CollapseHyphens, Strip, Alnums;
    RewritesKeepAlnums(a);
    RewritesKeepAlnums(SpacesToHyphens(a));
    var c := KeepSlugChars(SpacesToHyphens(a));
    RewritesKeepAlnums(c);
    StripKeepsAlnums(Hyphens, CollapseHyphens(c));
  }

  lemma EndsOf(a: string)
    requires a != ""
    ensures var s, c := Alnums(a), a[|a| - 1]; IsAlnum(c) ==> s != "" && s[|s| - 1] == c
    ensures var s := Alnums(a); IsAlnum(a[0]) ==> s != "" && s[0] == a[0]
    ensures a[|a| - 1] in KEPT <==> IsAlnum(a[|a| - 1])
    ensures a[0] in KEPT <==> IsAlnum(a[0])
  {
    KeptAre(a[0]);
    KeptAre(a[|a| - 1]);
    hide KEPT, IsAlnum;
    assert a == a[..|a| - 1] + [a[|a| - 1]];
    AlnumsConcat(a[..|a| - 1], [a[|a| - 1]]);
    assert [a[|a| - 1]][1..] == "";
  }

  lemma TailEnds(e: string)
    requires Tail(e) && e != "" && e[0] != '-'
    ensures IsAlnum(e[0]) && IsAlnum(e[|e| - 1])
  {
    assert IsSlugChar(e[0]) && IsSlugChar(e[|e| - 1]);
  }

  /** Hyphens come from spaces and hyphens: wherever the lower-cased, stripped name has two letters or digits with none
      between them, they are neighbours in the slug, or separated by one hyphen if a space or a hyphen stands between
      them; what is left and right of them is spelled alike. */
  lemma SlugHyphens(name: string, other: Lowering, x: string, c: char, g: string, d: char, y: string)
    requires Lower(Strip(Spaces, name), other) == x + [c] + g + [d] + y
    requires c in KEPT && d in KEPT && NoneKept(g)
    ensures exists p, q :: Slugify(name, other) == p + [c] + (if ' ' in g || '-' in g then "-" else "") + [d] + q
                        && p + [c] == Rewritten(x + [c]) && [d] + q == Rewritten([d] + y)
  {
    hide KEPT, Rewritten, Lower, NoneKept;
    var a, b := x + [c], [d] + y;
    assert x + [c] + g + [d] + y == a + g + b;
    GapIsHyphen(a, g, b);
    RewrittenKeepsEnds(a);
    RewrittenKeepsEnds(b);
    var u, v := Rewritten(a), Rewritten(b);
    BaseIsRewritten(name, other);
    var p, q := u[..|u| - 1], v[1..];
    assert p + [c] == u && [d] + q == v;
    assert u + (if Parts(g) then "-" else "") + v == p + [c] + (if Parts(g) then "-" else "") + [d] + q;
  }

  lemma BaseIsRewritten(name: string, other: Lowering)
    ensures var e := Rewritten(Lower(Strip(Spaces, name), other)); e != "" ==> Slugify(name, other) == e
  {
  }
}
