/** URL-safe base64 (sections 4 and 5 of RFC 4648) as the standard library encodes and decodes it. */
module Base64Url {
  import opened PyText

  type byte = n: nat | n < 256
  type Bytes = seq<byte>

  /** Table 2 of RFC 4648. */
  function Digit(d: nat): char
    requires d < 64
  {
    if d < 26 then 'A' + d as char
    else if d < 52 then 'a' + (d - 26) as char
    else if d < 62 then '0' + (d - 52) as char
    else if d == 62 then '-'
    else '_'
  }

  /** The value of a character of either base64 alphabet. */
  function Value(c: char): Option<nat> {
    if 'A' <= c <= 'Z' then Some((c - 'A') as nat)
    else if 'a' <= c <= 'z' then Some((c - 'a') as nat + 26)
    else if IsDigit(c) then Some((c - '0') as nat + 52)
    else if c == '-' || c == '+' then Some(62)
    else if c == '_' || c == '/' then Some(63)
    else None
  }

  /** The digits of a byte string, without padding. */
  function Digits(b: Bytes): string {
    if b == [] then ""
    else if |b| == 1 then [Digit(b[0] / 4), Digit(b[0] % 4 * 16)]
    else if |b| == 2 then [Digit(b[0] / 4), Digit(b[0] % 4 * 16 + b[1] / 16), Digit(b[1] % 16 * 4)]
    else [Digit(b[0] / 4), Digit(b[0] % 4 * 16 + b[1] / 16),
          Digit(b[1] % 16 * 4 + b[2] / 64), Digit(b[2] % 64)] + Digits(b[3..])
  }

  /** The `=` characters that fill up the last group of four. */
  function Padding(n: nat): string {
    if n % 4 == 0 then "" else if n % 4 == 3 then "=" else if n % 4 == 2 then "==" else "==="
  }

  /** `_pad`: the source computes the number of missing characters as `(-len) % 4`. */
  function Pad(s: string): string { s + Padding(|s|) }

  function Encode(b: Bytes): string { Digits(b) + Padding(|Digits(b)|) }

  /** `rstrip("=")`. */
  function RStripEq(s: string): string {
    if s != "" && s[|s| - 1] == '=' then RStripEq(s[..|s| - 1]) else s
  }

  datatype Decoded = Ok(value: Bytes) | Invalid

  function Prepend(b: byte, d: Decoded): Decoded { if d.Ok? then Ok([b] + d.value) else Invalid }

  /** The decoder's loop: `pos` characters of the current group have been read, `left` holds their bits that are
      still due, `pads` counts padding in the group. Foreign characters are skipped; padding that completes a group
      ends the input. */
  function DecodeFrom(s: string, pos: nat, left: nat, pads: nat): Decoded
    requires pos < 4 && left < 64 && (pos == 2 ==> left < 16) && (pos == 3 ==> left < 4)
  {
    if s == "" then (if pos == 0 then Ok([]) else Invalid)
    else if s[0] == '=' then
      if pos >= 2 && pos + pads + 1 >= 4 then Ok([])
      else DecodeFrom(s[1..], pos, left, if pos >= 2 then pads + 1 else pads)
    else match Value(s[0])
      case None => DecodeFrom(s[1..], pos, left, pads)
      case Some(v) =>
        if pos == 0 then DecodeFrom(s[1..], 1, v, 0)
        else if pos == 1 then Prepend(left * 4 + v / 16, DecodeFrom(s[1..], 2, v % 16, 0))
        else if pos == 2 then Prepend(left * 16 + v / 4, DecodeFrom(s[1..], 3, v % 4, 0))
        else Prepend(left * 64 + v, DecodeFrom(s[1..], 0, 0, 0))
  }

  /** A string with a non-ASCII character is rejected before decoding. */
  function Decode(s: string): Decoded {
    if exists i :: 0 <= i < |s| && s[i] >= '\U{80}' then Invalid else DecodeFrom(s, 0, 0, 0)
  }

  // ----- Round trips -----------------------------------------------------------------------------------

  /** The characters that unpadded output is made of. */
  predicate IsUrlDigit(c: char) { Value(c).Some? && c != '+' && c != '/' && c != '=' && c < '\U{80}' }

  predicate AllUrlDigits(s: string) { forall i :: 0 <= i < |s| ==> IsUrlDigit(s[i]) }

  lemma DigitValue(d: nat)
    requires d < 64
    ensures Value(Digit(d)) == Some(d) && IsUrlDigit(Digit(d))
  {
  }

  /** Unpadded output is over the URL-safe alphabet, and its length is four thirds of the input's, rounded up. */
  lemma {:induction false} DigitsShape(b: Bytes)
    ensures AllUrlDigits(Digits(b))
    ensures |Digits(b)| == |b| / 3 * 4 + if |b| % 3 == 0 then 0 else |b| % 3 + 1
    ensures |Digits(b)| % 4 == if |b| % 3 == 0 then 0 else |b| % 3 + 1
  {
    hide Digit, AllUrlDigits;
    DigitsLength(b);
    if b == [] {
      NoDigits();
    } else if |b| >= 3 {
      DigitsShape(b[3..]);
      AreDigits([b[0] / 4, b[0] % 4 * 16 + b[1] / 16, b[1] % 16 * 4 + b[2] / 64, b[2] % 64], Digits(b)[..4]);
      assert Digits(b)[4..] == Digits(b[3..]);
      Joined(Digits(b)[..4], Digits(b)[4..], Digits(b));
    } else if |b| == 2 {
      AreDigits([b[0] / 4, b[0] % 4 * 16 + b[1] / 16, b[1] % 16 * 4], Digits(b));
    } else if |b| == 1 {
      AreDigits([b[0] / 4, b[0] % 4 * 16], Digits(b));
    }
  }

  lemma NoDigits()
    ensures AllUrlDigits("")
  {
  }

  lemma {:induction false} DigitsLength(b: Bytes)
    ensures |Digits(b)| == |b| / 3 * 4 + if |b| % 3 == 0 then 0 else |b| % 3 + 1
    ensures |Digits(b)| % 4 == if |b| % 3 == 0 then 0 else |b| % 3 + 1
  {
    hide Digit;
    if |b| >= 3 {
      DigitsLength(b[3..]);
      assert |b| / 3 == |b[3..]| / 3 + 1 && |b| % 3 == |b[3..]| % 3;
    }
  }

  lemma AreDigits(ds: seq<nat>, g: string)
    requires |g| == |ds| && forall i :: 0 <= i < |ds| ==> ds[i] < 64 && g[i] == Digit(ds[i])
    ensures AllUrlDigits(g)
  {
    hide Digit, IsUrlDigit;
    forall i | 0 <= i < |g|
      ensures IsUrlDigit(g[i])
    {
      DigitValue(ds[i]);
    }
  }

  lemma Joined(g: string, t: string, s: string)
    requires s == g + t && AllUrlDigits(g) && AllUrlDigits(t)
    ensures AllUrlDigits(s)
  {
    hide IsUrlDigit;
    assert forall i :: 0 <= i < |s| ==> s[i] == if i < |g| then g[i] else t[i - |g|];
  }

  lemma PaddingShape(n: nat)
    requires n % 4 != 1
    ensures (n + |Padding(n)|) % 4 == 0
    ensures forall i :: 0 <= i < |Padding(n)| ==> Padding(n)[i] == '='
    ensures n % 4 == 0 ==> Padding(n) == ""
  {
  }

  /** Stripping the padding leaves the digits, and `_pad` puts back exactly what was stripped. */
  lemma PadRestores(b: Bytes)
    ensures RStripEq(Encode(b)) == Digits(b)
    ensures Pad(RStripEq(Encode(b))) == Encode(b) && Pad(Encode(b)) == Encode(b)
  {
    hide Digits, RStripEq, IsUrlDigit, Padding;
    DigitsShape(b);
    var d := Digits(b);
    PaddingShape(|d|);
    PaddingShape(|Encode(b)|);
    if d != "" { UrlDigitIsNoPad(d[|d| - 1]); }
    StripPadding(d, Padding(|d|));
    assert Encode(b) + "" == Encode(b);
  }

  lemma UrlDigitIsNoPad(c: char)
    ensures IsUrlDigit(c) ==> c != '='
  {
  }

  lemma {:induction false} StripPadding(d: string, p: string)
    requires d == "" || d[|d| - 1] != '='
    requires forall i :: 0 <= i < |p| ==> p[i] == '='
    ensures RStripEq(d + p) == d
    decreases |p|
  {
    if p == "" {
      assert d + p == d;
    } else {
      assert (d + p)[..|d + p| - 1] == d + p[..|p| - 1];
      StripPadding(d, p[..|p| - 1]);
    }
  }

  lemma OneDigit(v: nat, s: string, pos: nat, left: nat, pads: nat)
    requires v < 64 && pos < 4 && left < 64 && (pos == 2 ==> left < 16) && (pos == 3 ==> left < 4)
    ensures DecodeFrom([Digit(v)] + s, pos, left, pads) ==
            if pos == 0 then DecodeFrom(s, 1, v, 0)
            else if pos == 1 then Prepend(left * 4 + v / 16, DecodeFrom(s, 2, v % 16, 0))
            else if pos == 2 then Prepend(left * 16 + v / 4, DecodeFrom(s, 3, v % 4, 0))
            else Prepend(left * 64 + v, DecodeFrom(s, 0, 0, 0))
  {
    DigitValue(v);
    assert ([Digit(v)] + s)[1..] == s;
  }

  lemma GroupOfThree(a: byte, b: byte, c: byte, s: string)
    ensures DecodeFrom([Digit(a / 4), Digit(a % 4 * 16 + b / 16), Digit(b % 16 * 4 + c / 64), Digit(c % 64)] + s,
                       0, 0, 0)
            == Prepend(a, Prepend(b, Prepend(c, DecodeFrom(s, 0, 0, 0))))
  {
    hide DecodeFrom, Digit, Prepend;
    var w, x, y, z := a / 4, a % 4 * 16 + b / 16, b % 16 * 4 + c / 64, c % 64;
    assert [Digit(w), Digit(x), Digit(y), Digit(z)] + s == [Digit(w)] + ([Digit(x)] + ([Digit(y)] + ([Digit(z)] + s)));
    OneDigit(w, [Digit(x)] + ([Digit(y)] + ([Digit(z)] + s)), 0, 0, 0);
    OneDigit(x, [Digit(y)] + ([Digit(z)] + s), 1, w, 0);
    OneDigit(y, [Digit(z)] + s, 2, x % 16, 0);
    OneDigit(z, s, 3, y % 4, 0);
    assert w * 4 + x / 16 == a && x % 16 * 16 + y / 4 == b && y % 4 * 64 + z == c;
  }

  lemma PaddingEnds(left: nat)
    requires left < 16
    ensures left < 4 ==> DecodeFrom("=", 3, left, 0) == Ok([])
    ensures DecodeFrom("==", 2, left, 0) == Ok([])
  {
    assert "=="[1..] == "=";
  }

  lemma GroupOfTwo(a: byte, b: byte)
    ensures DecodeFrom([Digit(a / 4), Digit(a % 4 * 16 + b / 16), Digit(b % 16 * 4)] + "=", 0, 0, 0) == Ok([a, b])
  {
    hide DecodeFrom, Digit;
    var w, x, y := a / 4, a % 4 * 16 + b / 16, b % 16 * 4;
    PaddingEnds(y % 4);
    assert [Digit(w), Digit(x), Digit(y)] + "=" == [Digit(w)] + ([Digit(x)] + ([Digit(y)] + "="));
    OneDigit(w, [Digit(x)] + ([Digit(y)] + "="), 0, 0, 0);
    OneDigit(x, [Digit(y)] + "=", 1, w, 0);
    OneDigit(y, "=", 2, x % 16, 0);
    assert w * 4 + x / 16 == a && x % 16 * 16 + y / 4 == b;
  }

  lemma GroupOfOne(a: byte)
    ensures DecodeFrom([Digit(a / 4), Digit(a % 4 * 16)] + "==", 0, 0, 0) == Ok([a])
  {
    hide DecodeFrom, Digit;
    var w, x := a / 4, a % 4 * 16;
    PaddingEnds(x % 16);
    assert [Digit(w), Digit(x)] + "==" == [Digit(w)] + ([Digit(x)] + "==");
    OneDigit(w, [Digit(x)] + "==", 0, 0, 0);
    OneDigit(x, "==", 1, w, 0);
    assert w * 4 + x / 16 == a;
  }

  lemma {:induction false} DecodeDigits(b: Bytes)
    ensures DecodeFrom(Encode(b), 0, 0, 0) == Ok(b)
    decreases |b|
  {
    DigitsShape(b);
    hide Digit, DecodeFrom;
    if b == [] {
      assert Encode(b) == "";
      NothingDecoded();
    } else if |b| == 1 {
      GroupOfOne(b[0]);
      assert b == [b[0]];
    } else if |b| == 2 {
      GroupOfTwo(b[0], b[1]);
      assert b == [b[0], b[1]];
    } else {
      DecodeDigits(b[3..]);
      GroupOfThree(b[0], b[1], b[2], Encode(b[3..]));
      EncodeGroup(b);
      assert b == [b[0]] + ([b[1]] + ([b[2]] + b[3..]));
    }
  }

  lemma NothingDecoded()
    ensures DecodeFrom("", 0, 0, 0) == Ok([])
  {
  }

  lemma EncodeGroup(b: Bytes)
    requires |b| >= 3
    ensures Encode(b) ==
            [Digit(b[0] / 4), Digit(b[0] % 4 * 16 + b[1] / 16), Digit(b[1] % 16 * 4 + b[2] / 64), Digit(b[2] % 64)]
            + Encode(b[3..])
  {
    hide Digit;
    assert |Digits(b)| == |Digits(b[3..])| + 4;
  }

  lemma AsciiOnly(b: Bytes)
    ensures Decode(Encode(b)) == DecodeFrom(Encode(b), 0, 0, 0)
  {
    DigitsShape(b);
    var e := Encode(b);
    forall i | 0 <= i < |e|
      ensures e[i] < '\U{80}'
    {
      if i < |Digits(b)| { assert IsUrlDigit(Digits(b)[i]); }
    }
    hide DecodeFrom, Digits;
  }

  /** Encoding, stripping the padding, padding again and decoding gives the bytes back. */
  lemma UnpaddedRoundTrip(b: Bytes)
    ensures Decode(Pad(RStripEq(Encode(b)))) == Ok(b)
    ensures Decode(Pad(Encode(b))) == Ok(b)
  {
    hide Decode, DecodeFrom, Encode, Digits;
    PadRestores(b);
    AsciiOnly(b);
    DecodeDigits(b);
  }

  /** Different byte strings have different unpadded encodings. */
  lemma UnpaddedIsInjective(a: Bytes, b: Bytes)
    requires RStripEq(Encode(a)) == RStripEq(Encode(b))
    ensures a == b
  {
    hide Decode, Encode;
    UnpaddedRoundTrip(a);
    UnpaddedRoundTrip(b);
  }

  lemma PaddingDecodes(pos: nat, left: nat)
    requires pos < 4 && left < 64 && (pos == 2 ==> left < 16) && (pos == 3 ==> left < 4)
    ensures DecodeFrom(Padding(pos), pos, left, 0) == if pos == 1 then Invalid else Ok([])
  {
    if pos == 1 {
      assert "==="[1..] == "==" && "=="[1..] == "=" && "="[1..] == "";
      assert DecodeFrom("", 1, left, 0) == Invalid;
      assert DecodeFrom("=", 1, left, 0) == Invalid;
      assert DecodeFrom("==", 1, left, 0) == Invalid;
    } else if pos == 2 {
      assert "=="[1..] == "=";
      assert DecodeFrom("=", 2, left, 1) == Ok([]);
    }
  }

  /** A decoder that has read `pos` digits of a group accepts more digits and their padding unless one digit is
      left over, and then yields six bits a digit, in whole bytes. */
  lemma {:induction false} DigitsDecode(s: string, pos: nat, left: nat)
    requires pos < 4 && left < 64 && (pos == 2 ==> left < 16) && (pos == 3 ==> left < 4)
    requires AllUrlDigits(s)
    ensures DecodeFrom(s + Padding(pos + |s|), pos, left, 0).Ok? <==> (pos + |s|) % 4 != 1
    ensures var d := DecodeFrom(s + Padding(pos + |s|), pos, left, 0);
            d.Ok? ==> |d.value| == (pos + |s|) * 6 / 8 - pos * 6 / 8
    decreases |s|
  {
    hide IsUrlDigit, DecodeFrom, Value, Padding;
    var p := Padding(pos + |s|);
    if s == "" {
      assert s + p == p;
      PaddingDecodes(pos, left);
    } else {
      var next, due := UrlDigitMoves(s[0], s[1..] + p, pos, left);
      assert s + p == [s[0]] + (s[1..] + p);
      SamePadding(pos + |s|, next + |s[1..]|);
      WholeBytes(pos, |s|);
      DigitsDecode(s[1..], next, due);
    }
  }

  lemma SamePadding(m: nat, n: nat)
    requires m == n || m == n + 4
    ensures Padding(m) == Padding(n) && m % 4 == n % 4
  {
  }

  lemma WholeBytes(pos: nat, n: nat)
    requires pos < 4 && n > 0
    ensures var next := if pos == 3 then 0 else pos + 1;
            (pos + n) * 6 / 8 - pos * 6 / 8 ==
            (if pos == 0 then 0 else 1) + ((next + (n - 1)) * 6 / 8 - next * 6 / 8)
  {
  }

  lemma UrlDigitStep(c: char, s: string, pos: nat, left: nat)
    requires IsUrlDigit(c) && pos < 4 && left < 64 && (pos == 2 ==> left < 16) && (pos == 3 ==> left < 4)
    ensures Value(c).Some? && Value(c).value < 64
    ensures var v := Value(c).value;
            DecodeFrom([c] + s, pos, left, 0) ==
            if pos == 0 then DecodeFrom(s, 1, v, 0)
            else if pos == 1 then Prepend(left * 4 + v / 16, DecodeFrom(s, 2, v % 16, 0))
            else if pos == 2 then Prepend(left * 16 + v / 4, DecodeFrom(s, 3, v % 4, 0))
            else Prepend(left * 64 + v, DecodeFrom(s, 0, 0, 0))
  {
    assert ([c] + s)[1..] == s;
  }

  /** Where one digit takes the decoder, and what it yields on the way. */
  lemma UrlDigitMoves(c: char, s: string, pos: nat, left: nat) returns (next: nat, due: nat)
    requires IsUrlDigit(c) && pos < 4 && left < 64 && (pos == 2 ==> left < 16) && (pos == 3 ==> left < 4)
    ensures next == (if pos == 3 then 0 else pos + 1) && due < 64
    ensures (next == 2 ==> due < 16) && (next == 3 ==> due < 4)
    ensures var d, e := DecodeFrom([c] + s, pos, left, 0), DecodeFrom(s, next, due, 0);
            (d.Ok? <==> e.Ok?) && (d.Ok? ==> |d.value| == |e.value| + if pos == 0 then 0 else 1)
  {
    hide DecodeFrom, Value, IsUrlDigit;
    UrlDigitStep(c, s, pos, left);
    var v := Value(c).value;
    next := if pos == 3 then 0 else pos + 1;
    due := if pos == 0 then v else if pos == 1 then v % 16 else if pos == 2 then v % 4 else 0;
  }

  /** A string over the URL-safe alphabet decodes after `_pad` exactly when its length is not one more than a
      multiple of four, to as many whole bytes as its digits have bits for. */
  lemma UnpaddedDecodesIff(s: string)
    requires AllUrlDigits(s)
    ensures Decode(Pad(s)).Ok? <==> |s| % 4 != 1
    ensures Decode(Pad(s)).Ok? ==> |Decode(Pad(s)).value| == |s| * 6 / 8
  {
    DigitsDecode(s, 0, 0);
    var p := Pad(s);
    forall i | 0 <= i < |p|
      ensures p[i] < '\U{80}'
    {
      if i < |s| { assert IsUrlDigit(s[i]); }
    }
    hide DecodeFrom;
  }
}
