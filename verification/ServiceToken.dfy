/** Signed service requests: signing, verifying, and what the nonce window guarantees over whole runs. */
module ServiceToken {
  import opened GoStrings
  import opened CveCatalogue
  import opened NonceStore

  datatype Token = Token(id: string, secret: string, orgID: string, scopes: seq<string>, revoked: bool)

  /** The signature headers; "" stands for an absent one. */
  datatype Headers = Headers(authorization: string, timestamp: string, nonce: string, contentHash: string, signature: string)

  datatype Request = Request(method_: string, path: string, body: string, headers: Headers)

  /** What the endpoint demands of the caller. */
  datatype Policy = Policy(requiredScope: string, orgID: string, tokens: seq<Token>)

  datatype AuthError = AuthError(code: string, status: nat)

  datatype Result<+T> = Ok(value: T) | Err(error: AuthError)

  /** Deterministic functions that are not looked into: SHA-256 in hex, HMAC-SHA-256 in base64, RFC 3339 parsing (with or
      without fractions) and printing. */
  datatype Primitives = Primitives(
    sha256Hex: string -> string, mac: (string, string) -> string,
    parseTime: string -> Option<Time>, formatTime: Time -> string)

  const AUTH_SCHEME := "CT-ServiceToken"
  const SIGNATURE_PREFIX := "v1="
  const SECOND: Time := 1_000_000_000
  const MAX_CLOCK_SKEW: Time := 5 * 60 * SECOND
  const NONCE_TTL: Time := 10 * 60 * SECOND

  function SignedText(method_: string, path: string, timestamp: string, nonce: string, bodyHash: string): string {
    Join([ToUpper(method_), path, timestamp, nonce, bodyHash], "\n")
  }

  function Signature(prim: Primitives, method_: string, path: string, timestamp: string, nonce: string, bodyHash: string, secret: string): string {
    prim.mac(secret, SignedText(method_, path, timestamp, nonce, bodyHash))
  }

  /** `nonce` is the caller's, or a random one if the caller gives none. */
  function SignServiceRequest(prim: Primitives, method_: string, path: string, body: string, token: Token, nonce: string, time: Time): Headers {
    var timestamp, bodyHash := prim.formatTime(time), prim.sha256Hex(body);
    Headers(AUTH_SCHEME + " " + token.id, timestamp, nonce, bodyHash,
            SIGNATURE_PREFIX + Signature(prim, method_, path, timestamp, nonce, bodyHash, token.secret))
  }

  function FindToken(tokens: seq<Token>, id: string): Option<Token> {
    if tokens == [] then None
    else if tokens[0].id == id then Some(tokens[0])
    else FindToken(tokens[1..], id)
  }

  function AbsDuration(d: Time): Time {
    if d < 0 then -d else d
  }

  /** The headers and the signature, once the token is known. */
  function CheckHeaders(prim: Primitives, req: Request, token: Token, now: Time): Result<Token> {
    var h := req.headers;
    if h.timestamp == "" || h.nonce == "" || h.contentHash == "" || h.signature == "" then Err(AuthError("missing_header", 401)) else
    var requestTime := prim.parseTime(h.timestamp);
    if requestTime.None? then Err(AuthError("invalid_timestamp", 401))
    else if AbsDuration(now - requestTime.value) > MAX_CLOCK_SKEW then Err(AuthError("timestamp_out_of_range", 401)) else
    var bodyHash := prim.sha256Hex(req.body);
    if |h.contentHash| != 64 || h.contentHash != bodyHash then Err(AuthError("content_hash_mismatch", 401))
    else if !HasPrefix(h.signature, SIGNATURE_PREFIX) then Err(AuthError("invalid_signature", 401))
    else if TrimPrefix(h.signature, SIGNATURE_PREFIX) != Signature(prim, req.method_, req.path, h.timestamp, h.nonce, bodyHash, token.secret) then
      Err(AuthError("invalid_signature", 401))
    else Ok(token)
  }

  /** Everything `VerifyServiceRequest` checks before it touches the nonce store. */
  function Authenticate(prim: Primitives, req: Request, policy: Policy, now: Time): Result<Token> {
    var auth := TrimSpace(req.headers.authorization);
    if auth == "" then Err(AuthError("missing_authorization", 401)) else
    var parts := Fields(auth);
    if |parts| != 2 || parts[0] != AUTH_SCHEME then Err(AuthError("invalid_authorization", 401)) else
    var found := FindToken(policy.tokens, parts[1]);
    if found.None? then Err(AuthError("unknown_token", 401)) else
    var token := found.value;
    if token.revoked then Err(AuthError("revoked_token", 401))
    else if policy.requiredScope !in token.scopes then Err(AuthError("insufficient_scope", 403))
    else if token.orgID != policy.orgID then Err(AuthError("org_scope_mismatch", 403))
    else CheckHeaders(prim, req, token, now)
  }

  datatype Verdict = Accepted(token: Token) | Rejected(error: AuthError) | StoreFailed

  /** New nonce table and verdict. */
  function VerifyStep(prim: Primitives, rows: map<NonceKey, Time>, req: Request, policy: Policy, now: Time, fault: DBFault)
    : (map<NonceKey, Time>, Verdict)
  {
    match Authenticate(prim, req, policy, now)
    case Err(e) => (rows, Rejected(e))
    case Ok(token) =>
      var (after, remembered) := RememberRow(rows, NonceKey(token.id, req.headers.nonce), now + NONCE_TTL, now, fault);
      (after,
       if remembered.None? then StoreFailed
       else if remembered.value then Accepted(token)
       else Rejected(AuthError("replayed_nonce", 401)))
  }

  method VerifyServiceRequest(prim: Primitives, nonces: NonceTable, req: Request, policy: Policy, now: Time, fault: DBFault)
    returns (v: Verdict)
    modifies nonces
    ensures (nonces.rows, v) == VerifyStep(prim, old(nonces.rows), req, policy, now, fault)
  {
    var auth := Authenticate(prim, req, policy, now);
    if auth.Err? {
      return Rejected(auth.error);
    }
    var remembered := nonces.RememberNonce(auth.value.id, req.headers.nonce, now + NONCE_TTL, now, fault);
    if remembered.None? {
      return StoreFailed;
    }
    if !remembered.value {
      return Rejected(AuthError("replayed_nonce", 401));
    }
    return Accepted(auth.value);
  }

  // ----- Sign, then verify -----

  predicate SpaceFree(s: string) {
    forall i :: 0 <= i < |s| ==> !IsSpace(s[i])
  }

  lemma {:induction false} FieldsOfWordThen(word: string, rest: string)
    requires word != "" && SpaceFree(word)
    requires rest != "" ==> IsSpace(rest[0])
    ensures Fields(word + rest) == [word] + Fields(rest)
  {
    SpanIs(IsSpace, word + rest, 0);
    SpanIs(NotSpace, word + rest, |word|);
    assert (word + rest)[0..] == word + rest;
  }

  lemma {:induction false} FieldsSkipSpace(s: string)
    ensures Fields(" " + s) == Fields(s)
  {
    var n := Span(IsSpace, s);
    SpanFacts(IsSpace, s);
    SpanIs(IsSpace, " " + s, n + 1);
    assert (" " + s)[n + 1..] == s[n..];
  }

  lemma {:induction false} FieldsOfTwoWords(a: string, b: string)
    requires a != "" && b != "" && SpaceFree(a) && SpaceFree(b)
    ensures Fields(a + " " + b) == [a, b]
    ensures TrimSpace(a + " " + b) == a + " " + b
  {
    hide Fields;
    var s := a + " " + b;
    assert s[0] == a[0] && s[|s| - 1] == b[|b| - 1];
    TrimSpaceOfTrimmed(s);
    assert s == a + (" " + b) && b + "" == b;
    FieldsOfWordThen(a, " " + b);
    FieldsSkipSpace(b);
    FieldsOfWordThen(b, "");
    NoFields();
  }

  lemma NoFields()
    ensures Fields("") == []
  {
  }

  lemma {:induction false} FirstOfItsID(tokens: seq<Token>, i: nat)
    requires i < |tokens| && forall j :: 0 <= j < i ==> tokens[j].id != tokens[i].id
    ensures FindToken(tokens, tokens[i].id) == Some(tokens[i])
  {
    if i > 0 {
      FirstOfItsID(tokens[1..], i - 1);
    }
  }

  /** RFC 3339 without fractions: what is printed is read back as the second it falls in. */
  function Truncated(t: Time): (second: Time)
    ensures second <= t < second + 1_000_000_000 && second % 1_000_000_000 == 0
  {
    t - t % SECOND
  }

  /** A request signed with a good token verifies, whatever its method, path and body, if its nonce is fresh and the
      clock is within five minutes of the truncated timestamp. */
  lemma SignThenVerify(prim: Primitives, rows: map<NonceKey, Time>, method_: string, path: string, body: string,
                       nonce: string, signedAt: Time, policy: Policy, i: nat, now: Time)
    requires i < |policy.tokens| && forall j :: 0 <= j < i ==> policy.tokens[j].id != policy.tokens[i].id
    requires var token := policy.tokens[i];
      && token.id != "" && SpaceFree(token.id) && !token.revoked
      && policy.requiredScope in token.scopes && token.orgID == policy.orgID
      && NonceKey(token.id, nonce) !in Live(rows, now)
    requires nonce != "" && AbsDuration(now - Truncated(signedAt)) <= MAX_CLOCK_SKEW
    requires prim.formatTime(signedAt) != "" && prim.parseTime(prim.formatTime(signedAt)) == Some(Truncated(signedAt))
    requires |prim.sha256Hex(body)| == 64
    ensures var token := policy.tokens[i];
      var req := Request(method_, path, body, SignServiceRequest(prim, method_, path, body, token, nonce, signedAt));
      VerifyStep(prim, rows, req, policy, now, NoFault).1 == Accepted(token)
  {
    hide Fields, TrimSpace, FindToken, Truncated, SignedText, Live;
    var token := policy.tokens[i];
    FieldsOfTwoWords(AUTH_SCHEME, token.id);
    FirstOfItsID(policy.tokens, i);
    var sig := Signature(prim, method_, path, prim.formatTime(signedAt), nonce, prim.sha256Hex(body), token.secret);
    assert (SIGNATURE_PREFIX + sig)[..3] == SIGNATURE_PREFIX && (SIGNATURE_PREFIX + sig)[3..] == sig;
  }

  /** Conversely, an accepted request carries an unrevoked token of the right organisation and scope, a timestamp within
      five minutes, the hash of its body and the signature of its signed text under the token's secret. */
  lemma AcceptedMeansSigned(prim: Primitives, rows: map<NonceKey, Time>, req: Request, policy: Policy, now: Time, fault: DBFault)
    requires VerifyStep(prim, rows, req, policy, now, fault).1.Accepted?
    ensures var (token, h) := (VerifyStep(prim, rows, req, policy, now, fault).1.token, req.headers);
      && token in policy.tokens && !token.revoked && token.orgID == policy.orgID && policy.requiredScope in token.scopes
      && Fields(h.authorization) == ["CT-ServiceToken", token.id]
      && prim.parseTime(h.timestamp).Some? && -300_000_000_000 <= now - prim.parseTime(h.timestamp).value <= 300_000_000_000
      && h.contentHash == prim.sha256Hex(req.body) && |h.contentHash| == 64 && h.nonce != ""
      && h.signature == "v1=" +
           prim.mac(token.secret, SignedText(req.method_, req.path, h.timestamp, h.nonce, h.contentHash))
      && NonceKey(token.id, h.nonce) !in Live(rows, now)
  {
    hide Fields, TrimSpace, FindToken, SignedText, Live;
    var h := req.headers;
    var parts := Fields(TrimSpace(h.authorization));
    FoundTokenIsListed(policy.tokens, parts[1]);
    FieldsIgnoreOuterSpace(h.authorization);
    assert parts == [parts[0], parts[1]];
    assert h.signature == h.signature[..3] + h.signature[3..];
  }

  lemma {:induction false} FoundTokenIsListed(tokens: seq<Token>, id: string)
    ensures FindToken(tokens, id).Some? ==> FindToken(tokens, id).value in tokens && FindToken(tokens, id).value.id == id
  {
    if tokens != [] {
      FoundTokenIsListed(tokens[1..], id);
    }
  }

  lemma FieldsIgnoreOuterSpace(s: string)
    ensures Fields(TrimSpace(s)) == Fields(s)
  {
    var t := DropWhile(IsSpace, s);
    SpanFacts(IsSpace, s);
    SpanIs(IsSpace, t, 0);
    assert Fields(t) == Fields(s);
    FieldsIgnoreTrailingSpace(t);
  }

  lemma {:induction false} FieldsIgnoreTrailingSpace(s: string)
    ensures Fields(TrimRight(s)) == Fields(s)
    decreases |s|
  {
    if s != "" && IsSpace(s[|s| - 1]) {
      FieldsIgnoreTrailingSpace(s[..|s| - 1]);
      FieldsIgnoreLastSpace(s[..|s| - 1], s[|s| - 1]);
      assert s == s[..|s| - 1] + [s[|s| - 1]];
    }
  }

  lemma {:induction false} FieldsIgnoreLastSpace(s: string, c: char)
    requires IsSpace(c)
    ensures Fields(s + [c]) == Fields(s)
    decreases |s|
  {
    var rest := DropWhile(IsSpace, s);
    if rest == "" {
      SpanThrough(IsSpace, s, [c]);
      SpanIs(IsSpace, [c], 1);
    } else {
      SpanThen(IsSpace, s, [c]);
      SpanThen(NotSpace, rest, [c]);
      DropFirstWord(s);
      FieldsIgnoreLastSpace(DropWhile(NotSpace, rest), c);
    }
  }

  /** A word is not empty. */
  lemma DropFirstWord(s: string)
    ensures var rest := DropWhile(IsSpace, s); rest != "" ==> |DropWhile(NotSpace, rest)| < |s|
  {
    SpanFacts(IsSpace, s);
    SpanFacts(NotSpace, DropWhile(IsSpace, s));
  }

  /** Whoever has no tokens is never accepted, and nothing is remembered. */
  lemma NoTokensNoChange(prim: Primitives, rows: map<NonceKey, Time>, req: Request, policy: Policy, now: Time, fault: DBFault)
    requires policy.tokens == []
    ensures VerifyStep(prim, rows, req, policy, now, fault).0 == rows
    ensures VerifyStep(prim, rows, req, policy, now, fault).1.Rejected?
  {
  }

  /** The request signed at `signedAt` with token `token`. */
  function SignedRequest(prim: Primitives, method_: string, path: string, body: string, token: Token, nonce: string, signedAt: Time): Request {
    Request(method_, path, body, SignServiceRequest(prim, method_, path, body, token, nonce, signedAt))
  }

  /** A well-signed request presented under another policy, another time, or with another body, method or path, is refused
      for that reason; presented again while its nonce is live, it is refused as a replay. */
  lemma DeviationsAreNamed(prim: Primitives, rows: map<NonceKey, Time>, method_: string, path: string, body: string, nonce: string,
                           signedAt: Time, policy: Policy, i: nat, now: Time, method': string, path': string, body': string)
    requires i < |policy.tokens| && forall j :: 0 <= j < i ==> policy.tokens[j].id != policy.tokens[i].id
    requires policy.tokens[i].id != "" && SpaceFree(policy.tokens[i].id) && nonce != ""
    requires prim.formatTime(signedAt) != "" && prim.parseTime(prim.formatTime(signedAt)) == Some(Truncated(signedAt))
    requires |prim.sha256Hex(body)| == 64
    ensures var token := policy.tokens[i];
      var signed := SignedRequest(prim, method_, path, body, token, nonce, signedAt);
      var code := (req: Request) => (match VerifyStep(prim, rows, req, policy, now, NoFault).1
                                     case Rejected(e) => e.code case Accepted(_) => "" case StoreFailed => "failed");
      && (token.revoked ==> code(signed) == "revoked_token")
      && (!token.revoked && policy.requiredScope !in token.scopes ==> code(signed) == "insufficient_scope")
      && (!token.revoked && policy.requiredScope in token.scopes ==>
           && (token.orgID != policy.orgID ==> code(signed) == "org_scope_mismatch")
           && (token.orgID == policy.orgID ==>
                && (AbsDuration(now - Truncated(signedAt)) > MAX_CLOCK_SKEW ==> code(signed) == "timestamp_out_of_range")
                && (AbsDuration(now - Truncated(signedAt)) <= MAX_CLOCK_SKEW ==>
                     && (prim.sha256Hex(body') != prim.sha256Hex(body) ==> code(signed.(body := body')) == "content_hash_mismatch")
                     && (Signature(prim, method', path', prim.formatTime(signedAt), nonce, prim.sha256Hex(body), token.secret)
                         != Signature(prim, method_, path, prim.formatTime(signedAt), nonce, prim.sha256Hex(body), token.secret) ==>
                           code(signed.(method_ := method', path := path')) == "invalid_signature")
                     && (NonceKey(token.id, nonce) in Live(rows, now) ==> code(signed) == "replayed_nonce"))))
  {
    hide Fields, TrimSpace, FindToken, Truncated, Signature, Live;
    var token := policy.tokens[i];
    FieldsOfTwoWords(AUTH_SCHEME, token.id);
    FirstOfItsID(policy.tokens, i);
    var sig := Signature(prim, method_, path, prim.formatTime(signedAt), nonce, prim.sha256Hex(body), token.secret);
    assert (SIGNATURE_PREFIX + sig)[..3] == SIGNATURE_PREFIX && (SIGNATURE_PREFIX + sig)[3..] == sig;
  }

  /** The code a request is refused with, "" if it is accepted. */
  function RefusalCode(prim: Primitives, rows: map<NonceKey, Time>, req: Request, policy: Policy, now: Time): string {
    match VerifyStep(prim, rows, req, policy, now, NoFault).1
    case Rejected(e) => e.code
    case Accepted(_) => ""
    case StoreFailed => "failed"
  }

  predicate GoodToken(policy: Policy, i: nat)
    requires i < |policy.tokens|
  {
    var token := policy.tokens[i];
    && (forall j :: 0 <= j < i ==> policy.tokens[j].id != token.id)
    && token.id != "" && SpaceFree(token.id) && !token.revoked
    && policy.requiredScope in token.scopes && token.orgID == policy.orgID
  }

  lemma GoodTokenIsFound(prim: Primitives, req: Request, policy: Policy, i: nat, now: Time)
    requires i < |policy.tokens| && GoodToken(policy, i)
    requires req.headers.authorization == AUTH_SCHEME + " " + policy.tokens[i].id
    ensures Authenticate(prim, req, policy, now) == CheckHeaders(prim, req, policy.tokens[i], now)
  {
    hide Fields, TrimSpace, FindToken, CheckHeaders;
    FieldsOfTwoWords(AUTH_SCHEME, policy.tokens[i].id);
    FirstOfItsID(policy.tokens, i);
  }

  /** A signed request that would verify, with one of its headers altered, is refused for that reason. */
  lemma AlteredHeadersAreNamed(prim: Primitives, rows: map<NonceKey, Time>, method_: string, path: string, body: string,
                               nonce: string, signedAt: Time, policy: Policy, i: nat, now: Time, other: string)
    requires i < |policy.tokens| && GoodToken(policy, i)
    requires nonce != "" && AbsDuration(now - Truncated(signedAt)) <= MAX_CLOCK_SKEW
    requires prim.formatTime(signedAt) != "" && prim.parseTime(prim.formatTime(signedAt)) == Some(Truncated(signedAt))
    requires |prim.sha256Hex(body)| == 64
    ensures var token := policy.tokens[i];
      var signed := SignedRequest(prim, method_, path, body, token, nonce, signedAt);
      var h := signed.headers;
      var code := (headers: Headers) => RefusalCode(prim, rows, signed.(headers := headers), policy, now);
      var mac := (timestamp: string, nonce: string) => Signature(prim, method_, path, timestamp, nonce, h.contentHash, token.secret);
      && (other == "" ==>
           code(h.(timestamp := other)) == code(h.(nonce := other)) == code(h.(contentHash := other)) ==
           code(h.(signature := other)) == "missing_header")
      && (other != "" ==>
           && (prim.parseTime(other).None? ==> code(h.(timestamp := other)) == "invalid_timestamp")
           && (prim.parseTime(other).Some? ==>
                if AbsDuration(now - prim.parseTime(other).value) > MAX_CLOCK_SKEW
                then code(h.(timestamp := other)) == "timestamp_out_of_range"
                else mac(other, nonce) != mac(h.timestamp, nonce) ==> code(h.(timestamp := other)) == "invalid_signature")
           && (mac(h.timestamp, other) != mac(h.timestamp, nonce) ==> code(h.(nonce := other)) == "invalid_signature")
           && (other != h.contentHash ==> code(h.(contentHash := other)) == "content_hash_mismatch")
           && (other != h.signature ==> code(h.(signature := other)) == "invalid_signature"))
  {
    hide Authenticate, GoodToken, Truncated, Signature, RememberRow, SpaceFree;
    var token := policy.tokens[i];
    var signed := SignedRequest(prim, method_, path, body, token, nonce, signedAt);
    forall headers: Headers | headers.authorization == signed.headers.authorization
      ensures Authenticate(prim, signed.(headers := headers), policy, now) == CheckHeaders(prim, signed.(headers := headers), token, now)
    {
      GoodTokenIsFound(prim, signed.(headers := headers), policy, i, now);
    }
    var sig := Signature(prim, method_, path, prim.formatTime(signedAt), nonce, prim.sha256Hex(body), token.secret);
    assert (SIGNATURE_PREFIX + sig)[..3] == SIGNATURE_PREFIX && (SIGNATURE_PREFIX + sig)[3..] == sig;
    assert HasPrefix(other, SIGNATURE_PREFIX) ==> other == SIGNATURE_PREFIX + other[3..];
  }

  // ----- The signed text -----

  predicate LineFree(s: string) {
    '\n' !in s
  }

  lemma SignedTextParts(method_: string, path: string, timestamp: string, nonce: string, bodyHash: string)
    ensures SignedText(method_, path, timestamp, nonce, bodyHash) ==
      ToUpper(method_) + ['\n'] + (path + ['\n'] + timestamp + ['\n'] + nonce + ['\n'] + bodyHash)
  {
    hide ToUpper;
    var nl := "\n";
    var three := [timestamp, nonce, bodyHash];
    assert three[1..] == [nonce, bodyHash] && three[1..][1..] == [bodyHash];
    assert Join([nonce, bodyHash], nl) == nonce + nl + bodyHash;
    assert Join(three, nl) == timestamp + nl + Join([nonce, bodyHash], nl);
    assert ([path] + three)[1..] == three;
    assert Join([path] + three, nl) == path + nl + Join(three, nl);
    assert [ToUpper(method_), path, timestamp, nonce, bodyHash] == [ToUpper(method_)] + ([path] + three);
    assert ([ToUpper(method_)] + ([path] + three))[1..] == [path] + three;
    assert path + nl + (timestamp + nl + (nonce + nl + bodyHash)) == path + nl + timestamp + nl + nonce + nl + bodyHash;
  }

  lemma {:induction false} UpperKeepsLineFree(s: string)
    ensures LineFree(ToUpper(s)) <==> LineFree(s)
  {
    assert forall i :: 0 <= i < |s| ==> (ToUpperChar(s[i]) == '\n' <==> s[i] == '\n');
    assert LineFree(s) <==> forall i :: 0 <= i < |s| ==> s[i] != '\n';
    assert LineFree(ToUpper(s)) <==> forall i :: 0 <= i < |s| ==> ToUpper(s)[i] != '\n';
  }

  /** The signed text determines every part of the request, though the path may contain newlines. */
  lemma SignedTextIsInjective(m: string, p: string, t: string, n: string, b: string,
                              m': string, p': string, t': string, n': string, b': string)
    requires LineFree(m) && LineFree(t) && LineFree(n) && LineFree(b)
    requires LineFree(m') && LineFree(t') && LineFree(n') && LineFree(b')
    requires SignedText(m, p, t, n, b) == SignedText(m', p', t', n', b')
    ensures ToUpper(m) == ToUpper(m') && p == p' && t == t' && n == n' && b == b'
  {
    hide SignedText, ToUpper;
    SignedTextParts(m, p, t, n, b);
    SignedTextParts(m', p', t', n', b');
    UpperKeepsLineFree(m);
    UpperKeepsLineFree(m');
    var (x, x') := (p + ['\n'] + t, p' + ['\n'] + t');
    var (y, y') := (x + ['\n'] + n, x' + ['\n'] + n');
    SplitFirst(ToUpper(m), ToUpper(m'), '\n', y + ['\n'] + b, y' + ['\n'] + b');
    SplitLast(y, y', '\n', b, b');
    SplitLast(x, x', '\n', n, n');
    SplitLast(p, p', '\n', t, t');
  }

  /** The five parts, each but the last on a line of its own. */
  lemma SignedTextLines(method_: string, path: string, timestamp: string, nonce: string, bodyHash: string)
    ensures SignedText(method_, path, timestamp, nonce, bodyHash) ==
      ToUpper(method_) + ("\n" + path + "\n" + timestamp + "\n" + nonce + "\n" + bodyHash)
  {
    hide ToUpper, SignedText;
    SignedTextParts(method_, path, timestamp, nonce, bodyHash);
    assert ToUpper(method_) + ['\n'] + (path + ['\n'] + timestamp + ['\n'] + nonce + ['\n'] + bodyHash) ==
           ToUpper(method_) + ("\n" + path + "\n" + timestamp + "\n" + nonce + "\n" + bodyHash);
  }

  /** An authorization that does not name a listed token is refused for that, always with status 401. */
  lemma BadAuthorizationIsNamed(prim: Primitives, rows: map<NonceKey, Time>, req: Request, policy: Policy, now: Time, fault: DBFault)
    ensures var (words, verdict) := (Fields(req.headers.authorization), VerifyStep(prim, rows, req, policy, now, fault).1);
      && (words == [] <==> verdict == Rejected(AuthError("missing_authorization", 401)))
      && (words != [] && (|words| != 2 || words[0] != "CT-ServiceToken") <==>
           verdict == Rejected(AuthError("invalid_authorization", 401)))
      && (|words| == 2 && words[0] == "CT-ServiceToken" && (forall t :: t in policy.tokens ==> t.id != words[1]) <==>
           verdict == Rejected(AuthError("unknown_token", 401)))
  {
    hide Fields, TrimSpace, FindToken, CheckHeaders, RememberRow;
    var auth := TrimSpace(req.headers.authorization);
    FieldsIgnoreOuterSpace(req.headers.authorization);
    NoWordsIffEmpty(req.headers.authorization);
    CheckHeadersCodes(prim, req, policy, now);
    if |Fields(auth)| == 2 {
      TokenFoundIffListed(policy.tokens, Fields(auth)[1]);
    }
  }

  lemma CheckHeadersCodes(prim: Primitives, req: Request, policy: Policy, now: Time)
    ensures forall token :: CheckHeaders(prim, req, token, now).Err? ==>
      CheckHeaders(prim, req, token, now).error.code !in ["missing_authorization", "invalid_authorization", "unknown_token"]
  {
    hide Signature;
  }

  lemma NoWordsIffEmpty(s: string)
    ensures Fields(s) == [] <==> TrimSpace(s) == ""
  {
    FieldsIgnoreOuterSpace(s);
    NoFields();
    if TrimSpace(s) != "" {
      TrimmedHasNoOuterSpace(s);
      SpanIs(IsSpace, TrimSpace(s), 0);
    }
  }

  lemma TrimmedHasNoOuterSpace(s: string)
    ensures TrimSpace(s) != "" ==> !IsSpace(TrimSpace(s)[0])
  {
    SpanFacts(IsSpace, s);
    TrimRightIsPrefix(DropWhile(IsSpace, s));
  }

  lemma {:induction false} TrimRightIsPrefix(s: string)
    ensures TrimRight(s) <= s
  {
    if s != "" && IsSpace(s[|s| - 1]) {
      TrimRightIsPrefix(s[..|s| - 1]);
    }
  }

  lemma {:induction false} TokenFoundIffListed(tokens: seq<Token>, id: string)
    ensures FindToken(tokens, id).Some? <==> exists t :: t in tokens && t.id == id
  {
    if tokens != [] {
      TokenFoundIffListed(tokens[1..], id);
    }
  }

  /** A refusal is 403 if the token is good but not for this, and 401 otherwise. */
  lemma RefusalStatus(prim: Primitives, rows: map<NonceKey, Time>, req: Request, policy: Policy, now: Time, fault: DBFault)
    ensures var verdict := VerifyStep(prim, rows, req, policy, now, fault).1;
      verdict.Rejected? ==>
        verdict.error.status == if verdict.error.code in ["insufficient_scope", "org_scope_mismatch"] then 403 else 401
  {
    hide Fields, TrimSpace, FindToken, Signature, RememberRow;
  }
}
