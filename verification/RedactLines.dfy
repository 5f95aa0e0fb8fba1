/** `redact` on whole log lines: lines without a secret are copied, lines with one lose exactly that one. */
module RedactLines {
  import opened PyText
  import opened Alphabets
  import opened LogFilter
  import opened RedactionIdempotence
  import opened RedactionConservation
  import opened AssignmentConservation

  /** The text holds no name, header or prefix that the pattern starts with. */
  predicate Innocent(p: Pattern, t: string) {
    match p
    case Env => NamesNoSecret(t)
    case Auth => !Says(t, "authorization")
    case Sk => !Contains(t, "sk-")
    case Sig => !Says(t, "x-hub-signature-256")
  }

  lemma InnocentIsKept(p: Pattern, t: string)
    requires Innocent(p, t)
    ensures Pass(p, t) == t
  {
    hide Pass, NamesNoSecret, Says, Contains, NoneBetween;
    assert t[0..|t|] == t;
    match p
    case Env => NoOtherAssignment(t, 0, |t|); NothingReplaced(Env, t);
    case Auth => NoOtherHeader(t, 0, |t|); NothingReplaced(Auth, t);
    case Sk => NoOtherKey(t, 0, |t|); NothingReplaced(Sk, t);
    case Sig => NoOtherSignature(t, 0, |t|); NothingReplaced(Sig, t);
  }

  /** A line that names no secret, header or key is copied. */
  lemma PlainLineIsKept(text: string)
    requires NamesNoSecret(text) && !Says(text, "authorization") && !Contains(text, "sk-")
    requires !Says(text, "x-hub-signature-256")
    ensures Redacted(text, DEFAULT_PATTERNS) == text
  {
    hide Redacted, Pass, NamesNoSecret, Says, Contains;
    PipelineSteps(text);
    InnocentIsKept(Env, text);
    InnocentIsKept(Auth, text);
    InnocentIsKept(Sk, text);
    InnocentIsKept(Sig, text);
  }

  /** A line with one assigned secret. */
  lemma AssignmentLine(pre: string, h: string, v: string, post: string)
    requires IsAssignment(h) && IsValue(v) && (post == "" || post[0] in VALUE_ENDS)
    requires EndsWord(pre) && NamesNoSecret(pre) && NamesNoSecret(post)
    requires var out := pre + h + "<redacted>" + post;
             !Says(out, "authorization") && !Contains(out, "sk-") && !Says(out, "x-hub-signature-256")
    ensures Redacted(pre + h + v + post, DEFAULT_PATTERNS) == pre + h + "<redacted>" + post
  {
    hide Redacted, Pass, NamesNoSecret, Says, Contains, IsAssignment, IsValue, EndsWord;
    var out := pre + h + "<redacted>" + post;
    PipelineSteps(pre + h + v + post);
    AssignmentIsRedacted(pre, h, v, post);
    InnocentIsKept(Auth, out);
    InnocentIsKept(Sk, out);
    InnocentIsKept(Sig, out);
  }

  /** A line with one authorization header. */
  lemma AuthorizationLine(pre: string, h: string, v: string, post: string)
    requires IsAuthHeader(h) && v != "" && Credential(v) && (post == "" || post[0] !in CREDENTIAL_CHARS)
    requires EndsWord(pre) && !Says(pre, "authorization") && !Says(post, "authorization")
    requires NamesNoSecret(pre + h + v + post)
    requires var out := pre + h + "<redacted>" + post; !Contains(out, "sk-") && !Says(out, "x-hub-signature-256")
    ensures Redacted(pre + h + v + post, DEFAULT_PATTERNS) == pre + h + "<redacted>" + post
  {
    hide Redacted, Pass, NamesNoSecret, Says, Contains, IsAuthHeader, Credential, EndsWord;
    var text, out := pre + h + v + post, pre + h + "<redacted>" + post;
    PipelineSteps(text);
    InnocentIsKept(Env, text);
    AuthorizationIsRedacted(pre, h, v, post);
    InnocentIsKept(Sk, out);
    InnocentIsKept(Sig, out);
  }

  /** A line with one naked key. */
  lemma NakedKeyLine(pre: string, v: string, post: string)
    requires |v| >= 16 && KeyChars(v) && (post == "" || post[0] !in KEY_CHARS)
    requires EndsWord(pre) && !Contains(pre, "sk-") && !Contains(post, "sk-")
    requires var text := pre + "sk-" + v + post; NamesNoSecret(text) && !Says(text, "authorization")
    requires !Says(pre + "<redacted>" + post, "x-hub-signature-256")
    ensures Redacted(pre + "sk-" + v + post, DEFAULT_PATTERNS) == pre + "<redacted>" + post
  {
    hide Redacted, Pass, NamesNoSecret, Says, Contains, KeyChars, EndsWord;
    var text, out := pre + "sk-" + v + post, pre + "<redacted>" + post;
    PipelineSteps(text);
    InnocentIsKept(Env, text);
    InnocentIsKept(Auth, text);
    NakedKeyIsRedacted(pre, v, post);
    InnocentIsKept(Sig, out);
  }

  /** A line with one signature. */
  lemma SignatureLine(pre: string, h: string, v: string, post: string)
    requires IsSignatureHeader(h) && IsSignature(v) && (post == "" || post[0] !in HEX_CHARS)
    requires !Says(pre, "x-hub-signature-256") && !Says(post, "x-hub-signature-256")
    requires var text := pre + h + v + post;
             NamesNoSecret(text) && !Says(text, "authorization") && !Contains(text, "sk-")
    ensures Redacted(pre + h + v + post, DEFAULT_PATTERNS) == pre + h + "<redacted>" + post
  {
    hide Redacted, Pass, NamesNoSecret, Says, Contains, IsSignatureHeader, IsSignature;
    var text := pre + h + v + post;
    PipelineSteps(text);
    InnocentIsKept(Env, text);
    InnocentIsKept(Auth, text);
    InnocentIsKept(Sk, text);
    SignatureIsRedacted(pre, h, v, post);
  }
}
