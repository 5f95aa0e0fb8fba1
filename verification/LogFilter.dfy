/** The secret-redacting log filter.

    Each of the four default patterns is a scanner over the text that remains from the current
    position. Besides that text a scanner only needs to know whether the character just before it
    is a word character (`b`), because `\b` looks one character back. */
module LogFilter {
  import opened PyText

  /** The replacement text. */
  const REDACTED := "<redacted>"

  /** The four default patterns, in source order. */
  datatype Pattern = Env | Auth | Sk | Sig

  const DEFAULT_PATTERNS: seq<Pattern> := [Env, Auth, Sk, Sig]

  datatype Class = Word | Space | EnvValue | AuthValue | KeyBody | Hex

  predicate In(k: Class, c: char) {
    match k
    case Word => IsWord(c)
    case Space => IsSpace(c)
    case EnvValue => !IsSpace(c) && !IsQuote(c) && c != ','
    case AuthValue => IsLetter(c) || IsDigit(c) || c == '.' || c == '_' || c == '-' || c == '+' || c == '/' || c == '='
    case KeyBody => IsWord(c) || c == '-'
    case Hex => IsDigit(c) || 'a' <= c <= 'f' || 'A' <= c <= 'F'
  }

  predicate IsQuote(c: char) { c == '\'' || c == '"' }

  predicate IsSeparator(c: char) { c == ':' || c == '=' }

  /** End of the longest run of class `k` that starts at `i`. */
  function Run(k: Class, w: string, i: nat): (e: nat)
    requires i <= |w|
    ensures i <= e <= |w|
    ensures forall j :: i <= j < e ==> In(k, w[j])
    ensures e < |w| ==> !In(k, w[e])
    decreases |w| - i
  {
    if i < |w| && In(k, w[i]) then Run(k, w, i + 1) else i
  }

  lemma RunIs(k: Class, w: string, i: nat, e: nat)
    requires i <= e <= |w| && (forall j :: i <= j < e ==> In(k, w[j])) && (e < |w| ==> !In(k, w[e]))
    ensures Run(k, w, i) == e
  {
  }

  /** `w[i..]` starts with the lower-case literal `lit`, ignoring case. */
  predicate Caseless(w: string, i: nat, lit: string) {
    i + |lit| <= |w| && forall j :: 0 <= j < |lit| ==> LowerChar(w[i + j]) == lit[j]
  }

  lemma NotCaseless(w: string, i: nat, lit: string)
    requires lit != "" && (i >= |w| || LowerChar(w[i]) != lit[0])
    ensures !Caseless(w, i, lit)
  {
    assert lit[0] == lit[0];
  }

  /** The whole of `w` is `lit`, ignoring case. */
  predicate Same(w: string, lit: string) { |w| == |lit| && Caseless(w, 0, lit) }

  /** `w` is a letter, then anything, then the suffix `lit`. */
  predicate Suffixed(w: string, lit: string) {
    |lit| < |w| && IsLetter(w[0]) && Caseless(w, |w| - |lit|, lit)
  }

  /** The alternatives of the key group, for a string of word characters. */
  predicate IsKey(w: string) {
    || Same(w, "openrouter_api_key") || Same(w, "openai_api_key") || Same(w, "gemini_api_key")
    || Same(w, "meta_app_secret") || Same(w, "meta_verify_token") || Same(w, "app_encryption_key")
    || Suffixed(w, "_token") || Suffixed(w, "_secret") || Suffixed(w, "_password")
  }

  /** The span of the value group; it always ends the match. */
  datatype Span = Span(start: nat, end: nat)

  function MatchEnv(b: bool, w: string): Option<Span> {
    var k := Run(Word, w, 0);
    if b || !IsKey(w[..k]) then None else
    var j := Run(Space, w, k);
    if j == |w| || !IsSeparator(w[j]) then None else
    var m := Run(Space, w, j + 1);
    var a := if m < |w| && IsQuote(w[m]) then m + 1 else m;
    var z := Run(EnvValue, w, a);
    if a == z then None else Some(Span(a, z))
  }

  function MatchAuth(b: bool, w: string): Option<Span> {
    if b || !Caseless(w, 0, "authorization") then None else
    var j := Run(Space, w, 13);
    if j == |w| || w[j] != ':' then None else
    var m := Run(Space, w, j + 1);
    if !Caseless(w, m, "bearer") && !Caseless(w, m, "basic") then None else
    var e := if Caseless(w, m, "bearer") then m + 6 else m + 5;
    var a := Run(Space, w, e);
    var z := Run(AuthValue, w, a);
    if e == a || a == z then None else Some(Span(a, z))
  }

  function MatchSk(b: bool, w: string): Option<Span> {
    if b || |w| < 3 || w[..3] != "sk-" then None else
    var z := Run(KeyBody, w, 3);
    if z < 19 then None else Some(Span(0, z))
  }

  function MatchSig(w: string): Option<Span> {
    if !Caseless(w, 0, "x-hub-signature-256") then None else
    var c := Run(Space, w, 19);
    if c == |w| || w[c] != ':' then None else
    var a := Run(Space, w, c + 1);
    if !Caseless(w, a, "sha256=") then None else
    var z := Run(Hex, w, a + 7);
    if z == a + 7 then None else Some(Span(a, z))
  }

  /** Match pattern `p` at the very start of `w`; `b` says whether a word character precedes `w`. */
  function Match(p: Pattern, b: bool, w: string): Option<Span> {
    match p
    case Env => MatchEnv(b, w)
    case Auth => MatchAuth(b, w)
    case Sk => MatchSk(b, w)
    case Sig => MatchSig(w)
  }

  /** A match found by searching: where it starts and the span of its value. */
  datatype Found = Found(start: nat, from: nat, to: nat)

  /** Leftmost match of `p` in `w`, as `re.search` finds it. */
  function Search(p: Pattern, b: bool, w: string): (r: Option<Found>)
    ensures r.Some? ==> r.value.start <= r.value.from < r.value.to <= |w|
    decreases |w|
  {
    MatchBounds(p, b, w);
    match Match(p, b, w)
    case Some(v) => Some(Found(0, v.start, v.end))
    case None =>
      if w == "" then None else
      match Search(p, IsWord(w[0]), w[1..])
      case None => None
      case Some(m) => Some(Found(m.start + 1, m.from + 1, m.to + 1))
  }

  lemma MatchBounds(p: Pattern, b: bool, w: string)
    ensures var r := Match(p, b, w); r.Some? ==> r.value.start < r.value.end <= |w|
  {
  }

  /** The replacement callback: the matched text with its value group replaced. */
  function Rebuild(group0: string, from: nat, to: nat): string
    requires from <= to <= |group0|
  {
    group0[..from] + REDACTED + group0[to..]
  }

  /** The text before a found match, then the rebuilt match. */
  function Rebuilt(w: string, m: Found): string
    requires m.start <= m.from <= m.to <= |w|
  {
    w[..m.start] + Rebuild(w[m.start..m.to], m.from - m.start, m.to - m.start)
  }

  /** One pass of `pat.sub`: every leftmost, non-overlapping match is rebuilt. */
  function Sub(p: Pattern, b: bool, w: string): string
    decreases |w|
  {
    match Search(p, b, w)
    case None => w
    case Some(m) => Rebuilt(w, m) + Sub(p, IsWord(w[m.to - 1]), w[m.to..])
  }

  /** One pass over a whole text. */
  function Pass(p: Pattern, text: string): string { Sub(p, false, text) }

  /** What `redact` returns for a list of patterns. */
  function Redacted(text: string, patterns: seq<Pattern>): string
    decreases |patterns|
  {
    if patterns == [] then text else Redacted(Pass(patterns[0], text), patterns[1..])
  }

  /** `redact`: the loop that rebinds `out` once per pattern. */
  method Redact(text: string, patterns: seq<Pattern>) returns (out: string)
    ensures out == Redacted(text, patterns)
  {
    out := text;
    for i := 0 to |patterns|
      invariant Redacted(out, patterns[i..]) == Redacted(text, patterns)
    {
      out := Pass(patterns[i], out);
    }
  }
}
