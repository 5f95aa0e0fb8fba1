/** Token framing: nonce and ciphertext in unpadded URL-safe base64, over an abstract AEAD. */
module TokenCipher {
  import opened PyText
  import opened Base64Url

  const NONCE_BYTES := 12
  const KEY_BYTES := 32

  datatype Result<+T> = Success(value: T) | CryptoError(reason: string) | UnicodeError

  /** The AEAD, by key, nonce, text and associated data, and the UTF-8 codec; each half may reject its input. */
  datatype Primitives = Primitives(
    seal: (Bytes, Bytes, Bytes, Bytes) -> Bytes,
    open: (Bytes, Bytes, Bytes, Bytes) -> Option<Bytes>,
    utf8: string -> Option<Bytes>,
    text: Bytes -> Option<string>)

  /** Decryption accepts exactly what encryption produces, the tag takes sixteen bytes, and the codec round-trips. */
  ghost predicate Ideal(g: Primitives) {
    && (forall k, n, p, a :: g.open(k, n, g.seal(k, n, p, a), a) == Some(p))
    && (forall k, n, c, a :: g.open(k, n, c, a).Some? ==> c == g.seal(k, n, g.open(k, n, c, a).value, a))
    && (forall k, n, p, a :: |g.seal(k, n, p, a)| == |p| + 16)
    && (forall s :: g.utf8(s).Some? ==> g.text(g.utf8(s).value) == Some(s))
  }

  function GenerateKey(random: Bytes): string
    requires |random| == KEY_BYTES
  {
    Encode(random)
  }

  /** The key in an environment variable; an unset variable reads as empty. */
  function KeyFromEnv(raw: string): Result<Bytes> {
    if raw == "" then CryptoError("missing env var")
    else match Decode(Pad(raw))
      case Invalid => CryptoError("not valid base64")
      case Ok(key) => if |key| != KEY_BYTES then CryptoError("must decode to 32 bytes") else Success(key)
  }

  /** `encrypt` with the random nonce made explicit. */
  function Encrypt(g: Primitives, key: Bytes, nonce: Bytes, plaintext: string, aad: Bytes): Result<string>
    requires |key| == KEY_BYTES && |nonce| == NONCE_BYTES
  {
    match g.utf8(plaintext)
    case None => CryptoError("encrypt failed")
    case Some(p) => Success(RStripEq(Encode(nonce + g.seal(key, nonce, p, aad))))
  }

  function Decrypt(g: Primitives, key: Bytes, token: string, aad: Bytes): Result<string>
    requires |key| == KEY_BYTES
  {
    match Decode(Pad(token))
    case Invalid => CryptoError("token is not valid base64")
    case Ok(blob) =>
      if |blob| <= NONCE_BYTES then CryptoError("token shorter than the nonce")
      else match g.open(key, blob[..NONCE_BYTES], blob[NONCE_BYTES..], aad)
        case None => CryptoError("decrypt failed")
        case Some(p) => (match g.text(p) case None => UnicodeError case Some(s) => Success(s))
  }

  /** A generated key is 43 characters and one pad, and it loads back, with or without that pad. */
  lemma KeyRoundTrip(random: Bytes)
    requires |random| == KEY_BYTES
    ensures |GenerateKey(random)| == 44 && GenerateKey(random)[43] == '=' && AllUrlDigits(GenerateKey(random)[..43])
    ensures KeyFromEnv(GenerateKey(random)) == Success(random)
    ensures KeyFromEnv(RStripEq(GenerateKey(random))) == Success(random)
  {
    hide Decode, Digits;
    UnpaddedRoundTrip(random);
    PadRestores(random);
    DigitsShape(random);
  }

  /** A key loads if and only if it decodes, after padding, to exactly 32 bytes, and it is those bytes; every other
      variable, an unset one included, is refused with the documented error. */
  lemma KeyLoadsIff(raw: string)
    ensures match KeyFromEnv(raw)
            case Success(key) => |key| == 32 && Decode(Pad(raw)) == Ok(key)
            case CryptoError(_) => Decode(Pad(raw)).Ok? ==> |Decode(Pad(raw)).value| != 32
            case UnicodeError => false
  {
    hide DecodeFrom, Decode;
    if raw == "" { EmptyKey(); }
  }

  lemma EmptyKey()
    ensures Decode(Pad("")) == Ok([])
  {
    assert Pad("") == "";
  }

  /** Over the URL-safe alphabet these are the strings of exactly 43 characters. */
  lemma KeyLengthIff(raw: string)
    requires AllUrlDigits(raw)
    ensures KeyFromEnv(raw).Success? <==> |raw| == 43
  {
    hide Decode, Pad, AllUrlDigits;
    UnpaddedDecodesIff(raw);
  }

  lemma Unframe(nonce: Bytes, ct: Bytes)
    requires |nonce| == NONCE_BYTES
    ensures Decode(Pad(RStripEq(Encode(nonce + ct)))) == Ok(nonce + ct)
    ensures (nonce + ct)[..NONCE_BYTES] == nonce && (nonce + ct)[NONCE_BYTES..] == ct
  {
    UnpaddedRoundTrip(nonce + ct);
  }

  /** What was encrypted decrypts to itself under the same key and associated data. */
  lemma DecryptInvertsEncrypt(g: Primitives, key: Bytes, nonce: Bytes, plaintext: string, aad: Bytes)
    requires Ideal(g) && |key| == KEY_BYTES && |nonce| == NONCE_BYTES && g.utf8(plaintext).Some?
    ensures var token := Encrypt(g, key, nonce, plaintext, aad);
            token.Success? && Decrypt(g, key, token.value, aad) == Success(plaintext)
  {
    hide Decode, Encode, Pad, RStripEq;
    var ct := g.seal(key, nonce, g.utf8(plaintext).value, aad);
    Unframe(nonce, ct);
  }

  /** Only sealed blobs decrypt: a token is accepted exactly when it frames some nonce and a ciphertext that was sealed
      under this key, nonce and associated data, for a text that is valid UTF-8. */
  lemma DecryptsIffSealed(g: Primitives, key: Bytes, token: string, aad: Bytes)
    requires Ideal(g) && |key| == KEY_BYTES
    ensures Decrypt(g, key, token, aad).Success? <==>
              exists nonce, p :: |nonce| == NONCE_BYTES && g.text(p).Some?
                && Decode(Pad(token)) == Ok(nonce + g.seal(key, nonce, p, aad))
  {
    hide Decode, Pad;
    if Decrypt(g, key, token, aad).Success? {
      var blob := Decode(Pad(token)).value;
      var nonce, ct := blob[..NONCE_BYTES], blob[NONCE_BYTES..];
      var p := g.open(key, nonce, ct, aad).value;
      assert blob == nonce + g.seal(key, nonce, p, aad);
    }
    if nonce, p :| |nonce| == NONCE_BYTES && g.text(p).Some?
                   && Decode(Pad(token)) == Ok(nonce + g.seal(key, nonce, p, aad)) {
      var ct := g.seal(key, nonce, p, aad);
      assert (nonce + ct)[..NONCE_BYTES] == nonce && (nonce + ct)[NONCE_BYTES..] == ct;
    }
  }

  /** The codec's own error escapes `decrypt` exactly on tokens that frame a ciphertext sealed under this key,
      nonce and associated data for bytes that are not UTF-8; on every other token the documented two outcomes are
      the only ones. */
  lemma DecryptLeaksUnicodeErrorIff(g: Primitives, key: Bytes, token: string, aad: Bytes)
    requires Ideal(g) && |key| == KEY_BYTES
    ensures Decrypt(g, key, token, aad).UnicodeError? <==>
              exists nonce, p :: |nonce| == NONCE_BYTES && g.text(p).None?
                && Decode(Pad(token)) == Ok(nonce + g.seal(key, nonce, p, aad))
  {
    hide Decode, Pad;
    if Decrypt(g, key, token, aad).UnicodeError? {
      var blob := Decode(Pad(token)).value;
      var nonce, ct := blob[..NONCE_BYTES], blob[NONCE_BYTES..];
      var p := g.open(key, nonce, ct, aad).value;
      assert blob == nonce + g.seal(key, nonce, p, aad);
    }
    if nonce, p :| |nonce| == NONCE_BYTES && g.text(p).None?
                   && Decode(Pad(token)) == Ok(nonce + g.seal(key, nonce, p, aad)) {
      var ct := g.seal(key, nonce, p, aad);
      assert (nonce + ct)[..NONCE_BYTES] == nonce && (nonce + ct)[NONCE_BYTES..] == ct;
    }
  }

  /** Under another key or other associated data a token is rejected exactly when the AEAD rejects its ciphertext there:
      the framing neither hides nor adds an acceptance. */
  lemma TokenIsAsBoundAsTheCiphertext(
    g: Primitives, key: Bytes, nonce: Bytes, plaintext: string, aad: Bytes, key': Bytes, aad': Bytes)
    requires |key| == |key'| == KEY_BYTES && |nonce| == NONCE_BYTES
    requires g.utf8(plaintext).Some?
    ensures var ct := g.seal(key, nonce, g.utf8(plaintext).value, aad);
            Decrypt(g, key', Encrypt(g, key, nonce, plaintext, aad).value, aad').CryptoError? <==>
            ct == [] || g.open(key', nonce, ct, aad').None?
  {
    hide Decode, Encode, Pad, RStripEq;
    var ct := g.seal(key, nonce, g.utf8(plaintext).value, aad);
    Unframe(nonce, ct);
  }

  /** A fresh nonce gives a fresh token, even for the same text. */
  lemma FreshNonceFreshToken(g: Primitives, key: Bytes, n1: Bytes, n2: Bytes, plaintext: string, aad: Bytes)
    requires |key| == KEY_BYTES && |n1| == |n2| == NONCE_BYTES && n1 != n2 && g.utf8(plaintext).Some?
    ensures Encrypt(g, key, n1, plaintext, aad) != Encrypt(g, key, n2, plaintext, aad)
  {
    hide Encode, RStripEq;
    var p := g.utf8(plaintext).value;
    var a, b := n1 + g.seal(key, n1, p, aad), n2 + g.seal(key, n2, p, aad);
    assert a[..NONCE_BYTES] == n1 && b[..NONCE_BYTES] == n2;
    if RStripEq(Encode(a)) == RStripEq(Encode(b)) { UnpaddedIsInjective(a, b); }
  }

  /** A token is over `[A-Za-z0-9_-]`, so it needs no escaping in JSON, query strings or columns. */
  lemma TokenIsUrlSafe(g: Primitives, key: Bytes, nonce: Bytes, plaintext: string, aad: Bytes)
    requires |key| == KEY_BYTES && |nonce| == NONCE_BYTES && g.utf8(plaintext).Some?
    ensures forall i :: 0 <= i < |Encrypt(g, key, nonce, plaintext, aad).value| ==>
                          IsUrlDigit(Encrypt(g, key, nonce, plaintext, aad).value[i])
  {
    var blob := nonce + g.seal(key, nonce, g.utf8(plaintext).value, aad);
    PadRestores(blob);
    DigitsShape(blob);
    hide Digits, RStripEq, Encode;
  }
}
