/** What the base64 of the model means in the terms of RFC 4648: its two alphabets written out, its groups of 24 bits,
    and what a lenient decoder ignores. */
module Base64Meaning {
  import opened PyText
  import opened Alphabets
  import opened Base64Url

  /** Tables 1 and 2 of RFC 4648. */
  const STANDARD := UPPERS + LOWERS + NUMERALS + "+/"
  const URL_SAFE := UPPERS + LOWERS + NUMERALS + "-_"

  lemma TablesStart()
    ensures |STANDARD| == |URL_SAFE| == 64
    ensures forall d :: 0 <= d < 26 ==> STANDARD[d] == URL_SAFE[d] == UPPERS[d]
    ensures forall d :: 26 <= d < 52 ==> STANDARD[d] == URL_SAFE[d] == LOWERS[d - 26]
    ensures forall d :: 52 <= d < 62 ==> STANDARD[d] == URL_SAFE[d] == NUMERALS[d - 52]
    ensures STANDARD[62] == '+' && STANDARD[63] == '/' && URL_SAFE[62] == '-' && URL_SAFE[63] == '_'
  {
  }

  lemma NumeralsInOrder()
    ensures |NUMERALS| == 10 && forall k :: 0 <= k < 10 ==> NUMERALS[k] == '0' + k as char
  {
  }

  /** Encoding uses the URL-safe table, ... */
  lemma DigitIsTable(d: nat)
    requires d < 64
    ensures Digit(d) == URL_SAFE[d]
  {
    hide URL_SAFE;
    TablesStart();
    LettersInOrder();
    NumeralsInOrder();
  }

  lemma TablesHaveValues(v: nat)
    requires v < 64
    ensures Value(URL_SAFE[v]) == Some(v) && Value(STANDARD[v]) == Some(v)
  {
    hide URL_SAFE, STANDARD;
    TablesStart();
    LettersInOrder();
    NumeralsInOrder();
  }

  lemma ValuesAreInTables(c: char)
    ensures Value(c).Some? ==> Value(c).value < 64 && (URL_SAFE[Value(c).value] == c || STANDARD[Value(c).value] == c)
  {
    hide URL_SAFE, STANDARD, UPPERS, LOWERS, NUMERALS;
    TablesStart();
    LettersInOrder();
    NumeralsInOrder();
    if Value(c).Some? {
      var v := Value(c).value;
      if v < 26 {
        assert URL_SAFE[v] == UPPERS[v] == c;
      } else if v < 52 {
        assert URL_SAFE[v] == LOWERS[v - 26] == c;
      } else if v < 62 {
        assert URL_SAFE[v] == NUMERALS[v - 52] == c;
      }
    }
  }

  /** ... and decoding reads both tables and nothing else. */
  lemma ValueIsTable(c: char, v: nat)
    ensures Value(c) == Some(v) <==> v < 64 && (URL_SAFE[v] == c || STANDARD[v] == c)
  {
    hide URL_SAFE, STANDARD, Value;
    TablesStart();
    ValuesAreInTables(c);
    if v < 64 { TablesHaveValues(v); }
  }

  /** The characters of unpadded output are those of the URL-safe table. */
  lemma UrlDigitsAre(c: char)
    ensures IsUrlDigit(c) <==> c in URL_SAFE
  {
    hide URL_SAFE, STANDARD, Value;
    TablesStart();
    ValuesAreInTables(c);
    PlainSigns();
    if c in URL_SAFE {
      var v :| 0 <= v < 64 && URL_SAFE[v] == c;
      TablesHaveValues(v);
      TableIsAscii(v);
    }
  }

  lemma PlainSigns()
    ensures Value('+') == Some(62) && Value('/') == Some(63) && Value('=') == None
  {
  }

  lemma TableIsAscii(v: nat)
    requires v < 64
    ensures |URL_SAFE| == 64 && URL_SAFE[v] < '\U{80}'
  {
    hide URL_SAFE;
    TablesStart();
    LettersInOrder();
    NumeralsInOrder();
  }

  // ----- Groups of 24 bits -------------------------------------------------------------------------------

  /** The position of a digit in the URL-safe table. */
  predicate Stands(c: char, d: nat) { d < 64 && URL_SAFE[d] == c }

  /** Three bytes are written as the four six-bit digits of the same 24-bit number, high digits first. */
  lemma GroupIsTwentyFourBits(b: Bytes) returns (w: nat, x: nat, y: nat, z: nat)
    requires |b| >= 3
    ensures |Encode(b)| >= 4 && Encode(b)[4..] == Encode(b[3..])
    ensures Stands(Encode(b)[0], w) && Stands(Encode(b)[1], x) && Stands(Encode(b)[2], y) && Stands(Encode(b)[3], z)
    ensures w * 262144 + x * 4096 + y * 64 + z == b[0] as int * 65536 + b[1] as int * 256 + b[2] as int
  {
    hide Digit, URL_SAFE, Encode;
    TablesStart();
    w, x, y, z := b[0] / 4, b[0] % 4 * 16 + b[1] / 16, b[1] % 16 * 4 + b[2] / 64, b[2] % 64;
    EncodeGroup(b);
    DigitIsTable(w);
    DigitIsTable(x);
    DigitIsTable(y);
    DigitIsTable(z);
  }

  /** One byte left over is written as two digits and two pads, with four zero bits at the end. */
  lemma OneByteLeft(a: byte) returns (w: nat, x: nat)
    ensures |Encode([a])| == 4 && Encode([a])[2..] == "=="
    ensures Stands(Encode([a])[0], w) && Stands(Encode([a])[1], x) && w * 64 + x == a as int * 16
  {
    hide Digit, URL_SAFE;
    TablesStart();
    w, x := a / 4, a % 4 * 16;
    DigitIsTable(w);
    DigitIsTable(x);
    assert Digits([a]) == [Digit(w), Digit(x)];
  }

  /** Two bytes left over are written as three digits and one pad, with two zero bits at the end. */
  lemma TwoBytesLeft(a: byte, b: byte) returns (w: nat, x: nat, y: nat)
    ensures |Encode([a, b])| == 4 && Encode([a, b])[3..] == "="
    ensures Stands(Encode([a, b])[0], w) && Stands(Encode([a, b])[1], x) && Stands(Encode([a, b])[2], y)
    ensures w * 4096 + x * 64 + y == (a as int * 256 + b as int) * 4
  {
    hide Digit, URL_SAFE;
    TablesStart();
    w, x, y := a / 4, a % 4 * 16 + b / 16, b % 16 * 4;
    DigitIsTable(w);
    DigitIsTable(x);
    DigitIsTable(y);
    assert Digits([a, b]) == [Digit(w), Digit(x), Digit(y)];
  }

  // ----- What the decoder ignores ----------------------------------------------------------------------------

  lemma {:induction false} ForeignFrom(a: string, c: char, t: string, pos: nat, left: nat, pads: nat)
    requires pos < 4 && left < 64 && (pos == 2 ==> left < 16) && (pos == 3 ==> left < 4)
    requires Value(c).None? && c != '='
    ensures DecodeFrom(a + [c] + t, pos, left, pads) == DecodeFrom(a + t, pos, left, pads)
    decreases |a|
  {
    if a == "" {
      assert a + [c] + t == [c] + t && ([c] + t)[1..] == t && a + t == t;
    } else {
      var r := a[1..];
      assert (a + [c] + t)[1..] == r + [c] + t && (a + t)[1..] == r + t;
      ForeignNext(a[0], r, c, t, pos, left, pads);
    }
  }

  /** One character of the common part, read in step. */
  lemma ForeignNext(d: char, r: string, c: char, t: string, pos: nat, left: nat, pads: nat)
    requires pos < 4 && left < 64 && (pos == 2 ==> left < 16) && (pos == 3 ==> left < 4)
    requires Value(c).None? && c != '='
    ensures DecodeFrom([d] + (r + [c] + t), pos, left, pads) == DecodeFrom([d] + (r + t), pos, left, pads)
    decreases |r| + 1, 0
  {
    var x, y := r + [c] + t, r + t;
    assert ([d] + x)[1..] == x && ([d] + y)[1..] == y;
    if d == '=' {
      ForeignFrom(r, c, t, pos, left, if pos >= 2 then pads + 1 else pads);
    } else if Value(d).None? {
      ForeignFrom(r, c, t, pos, left, pads);
    } else {
      var v := Value(d).value;
      ForeignFrom(r, c, t, if pos == 3 then 0 else pos + 1,
                  if pos == 0 then v else if pos == 1 then v % 16 else if pos == 2 then v % 4 else 0, 0);
    }
  }

  /** Characters outside the tables, such as line breaks, do not matter, wherever they stand. */
  lemma ForeignIsSkipped(a: string, c: char, t: string)
    requires c !in URL_SAFE && c !in STANDARD && c != '=' && c < '\U{80}'
    ensures Decode(a + [c] + t) == Decode(a + t)
  {
    hide DecodeFrom, URL_SAFE, STANDARD;
    if Value(c).Some? {
      ValueIsTable(c, Value(c).value);
      TablesStart();
      assert false;
    }
    ForeignFrom(a, c, t, 0, 0, 0);
    SameCeiling(a, c, t);
  }

  lemma SameCeiling(a: string, c: char, t: string)
    requires c < '\U{80}'
    ensures Ascii(a + [c] + t) <==> Ascii(a + t)
  {
    var x, y := a + [c] + t, a + t;
    assert forall i :: 0 <= i < |y| ==> y[i] == if i < |a| then x[i] else x[i + 1];
    assert forall i :: 0 <= i < |x| && i != |a| ==> x[i] == if i < |a| then y[i] else y[i - 1];
    forall i | 0 <= i < |x|
      ensures Ascii(y) ==> x[i] < '\U{80}'
    {
      if i < |a| { assert x[i] == y[i]; } else if i > |a| { assert x[i] == y[i - 1]; }
    }
    forall i | 0 <= i < |y|
      ensures Ascii(x) ==> y[i] < '\U{80}'
    {
      assert y[i] == if i < |a| then x[i] else x[i + 1];
    }
  }
}
