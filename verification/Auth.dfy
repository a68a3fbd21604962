/**
 Request authentication: a signature over path, time, nonce and body, a window around the signed
 time, and a nonce that may be used once.
 */
module Auth {
  import opened Text
  import opened Repository

  /** Header values after trimming; a missing header is empty. */
  datatype Headers = Headers(keyId: string, timestamp: string, nonce: string, signature: string, idempotencyKey: string)

  datatype AuthError =
    | HeadersMissing
    | InvalidKeyId
    | InvalidAuthFormat
    | TimestampExpired
    | InvalidAuthPath
    | AuthenticationFailed
    | ReplayDetected

  datatype AuthContext = AuthContext(keyId: string, timestamp: int, nonce: string, bodyHash: string)

  datatype Result = Ok(context: AuthContext) | Err(error: AuthError)

  /** Integer parsing, hashing, signing and the secret of each key, none of which is modelled further. */
  datatype Environment = Environment(
    parseInt: string -> Option<int>,
    sha256: string -> string,
    hmac: (string, string) -> string,
    secret: string -> Option<string>
  )

  predicate IsHex(c: char) {
    '0' <= c <= '9' || 'a' <= c <= 'f'
  }

  predicate IsKeyId(s: string) {
    1 <= |s| <= 64 && forall i :: 0 <= i < |s| ==> IsIdChar(s[i])
  }

  predicate IsSignature(s: string) {
    |s| == 64 && forall i :: 0 <= i < |s| ==> IsHex(s[i])
  }

  /** The canonical lower-case text of a random (version 4) UUID. */
  predicate IsUuid4(s: string) {
    && |s| == 36
    && (forall i :: 0 <= i < 36 ==> if i == 8 || i == 13 || i == 18 || i == 23 then s[i] == '-' else IsHex(s[i]))
    && s[14] == '4'
    && (s[19] == '8' || s[19] == '9' || s[19] == 'a' || s[19] == 'b')
  }

  function LowerChar(c: char): char {
    if 'A' <= c <= 'Z' then (c as int + 32) as char else c
  }

  function Lower(s: string): (r: string)
    ensures |r| == |s|
  {
    seq(|s|, i requires 0 <= i < |s| => LowerChar(s[i]))
  }

  predicate IsPath(path: string) {
    path == "/v1/trade-decisions" || path == "/v1/trade-events" || path == "/v1/heartbeats"
  }

  function Distance(a: int, b: int): int {
    if a < b then b - a else a - b
  }

  function IntText(n: int): string {
    if n < 0 then "-" + Decimal(-n) else Decimal(n)
  }

  /** The signed text. */
  function Canonical(path: string, timestamp: int, nonce: string, bodyHash: string): string {
    "POST\n" + (path + "\n" + (IntText(timestamp) + "\n" + (nonce + "\n" + bodyHash)))
  }

  ghost predicate HasHeaders(h: Headers) {
    h.keyId != "" && h.timestamp != "" && h.nonce != "" && h.signature != "" && h.idempotencyKey != ""
  }

  /** All headers are there and can be read. */
  ghost predicate Readable(e: Environment, h: Headers) {
    && HasHeaders(h) && IsKeyId(h.keyId)
    && IsUuid4(Lower(h.nonce)) && e.parseInt(h.timestamp).Some? && IsSignature(h.signature)
  }

  /** The request can be read and its signed time is at most `skew` seconds away. */
  ghost predicate Timely(e: Environment, h: Headers, now: int, skew: int) {
    Readable(e, h) && now - skew <= e.parseInt(h.timestamp).value <= now + skew
  }

  /** Everything that is checked before the nonce is claimed. */
  ghost predicate Genuine(e: Environment, h: Headers, body: string, now: int, skew: int, path: string) {
    && Timely(e, h, now, skew)
    && IsPath(path)
    && e.secret(h.keyId).Some?
    && h.signature == e.hmac(e.secret(h.keyId).value,
      Canonical(path, e.parseInt(h.timestamp).value, Lower(h.nonce), e.sha256(body)))
  }

  /**
   Accepts a genuine request whose nonce is unused, and uses it up; otherwise changes nothing.
   */
  method VerifyRequest(e: Environment, h: Headers, body: string, store: DynamoRepository, now: int, skew: int,
          path: string)
    returns (result: Result)
    requires store.Valid()
    modifies store
    ensures store.Valid()
    ensures result.Ok?
      <==> Genuine(e, h, body, now, skew, path) && NonceKey(h.keyId, Lower(h.nonce)) !in old(store.items)
    ensures result == Err(ReplayDetected)
      <==> Genuine(e, h, body, now, skew, path) && NonceKey(h.keyId, Lower(h.nonce)) in old(store.items)
    ensures result.Ok? ==>
      e.parseInt(h.timestamp).Some?
      && result.context == AuthContext(h.keyId, e.parseInt(h.timestamp).value, Lower(h.nonce), e.sha256(body))
    ensures store.items
      == if result.Ok? then old(store.items)[NonceKey(h.keyId, Lower(h.nonce)) := NonceItem(now + skew * 2)]
         else old(store.items)
    ensures result == Err(HeadersMissing) <==> !HasHeaders(h)
    ensures result == Err(InvalidKeyId) <==> HasHeaders(h) && !IsKeyId(h.keyId)
    ensures result == Err(InvalidAuthFormat) <==> HasHeaders(h) && IsKeyId(h.keyId) && !Readable(e, h)
    ensures result == Err(TimestampExpired) <==> Readable(e, h) && !Timely(e, h, now, skew)
    ensures result == Err(InvalidAuthPath) <==> Timely(e, h, now, skew) && !IsPath(path)
    ensures result == Err(AuthenticationFailed)
      <==> Timely(e, h, now, skew) && IsPath(path) && !Genuine(e, h, body, now, skew, path)
  {
    hide Lower, IsUuid4, IsKeyId, IsSignature, Canonical, NonceKey, Typed;
    if h.keyId == "" || h.timestamp == "" || h.nonce == "" || h.signature == "" || h.idempotencyKey == "" {
      return Err(HeadersMissing);
    }
    var nonce := Lower(h.nonce);
    if !IsKeyId(h.keyId) {
      return Err(InvalidKeyId);
    }
    var timestamp := e.parseInt(h.timestamp);
    if timestamp.None? || !IsUuid4(nonce) || !IsSignature(h.signature) {
      return Err(InvalidAuthFormat);
    }
    if Distance(now, timestamp.value) > skew {
      return Err(TimestampExpired);
    }
    var bodyHash := e.sha256(body);
    if !IsPath(path) {
      return Err(InvalidAuthPath);
    }
    var secret := e.secret(h.keyId);
    if secret.None? {
      return Err(AuthenticationFailed);
    }
    var expected := e.hmac(secret.value, Canonical(path, timestamp.value, nonce, bodyHash));
    if expected != h.signature {
      return Err(AuthenticationFailed);
    }
    var claimed := store.ClaimNonce(h.keyId, nonce, now + skew * 2);
    if !claimed {
      return Err(ReplayDetected);
    }
    result := Ok(AuthContext(h.keyId, timestamp.value, nonce, bodyHash));
  }

  // ---------- the signed text determines the request ----------

  lemma {:induction false} DecimalReads(n: nat)
    ensures Decimal(n) != "" && ParseInt(Decimal(n)) == Some(n) && '\n' !in Decimal(n) && '-' !in Decimal(n)
  {
    if n >= 10 {
      DecimalReads(n / 10);
      var text := Decimal(n);
      assert text[..|text| - 1] == Decimal(n / 10);
      assert text[|text| - 1] == Digit(n % 10);
    }
    DigitReads(n % 10);
  }

  lemma IntTextIsInjective(a: int, b: int)
    ensures IntText(a) == IntText(b) <==> a == b
    ensures '\n' !in IntText(a)
  {
    DecimalReads(if a < 0 then -a else a);
    DecimalReads(if b < 0 then -b else b);
    hide Decimal, ParseInt;
    if a < 0 {
      assert IntText(a)[0] == '-' && IntText(a)[1..] == Decimal(-a);
    } else {
      assert IntText(a)[0] in Decimal(a);
    }
    if b < 0 {
      assert IntText(b)[0] == '-' && IntText(b)[1..] == Decimal(-b);
    } else {
      assert IntText(b)[0] in Decimal(b);
    }
  }

  lemma LongerHasBreak(a: string, b: string, c: string, d: string)
    requires a + "\n" + b == c + "\n" + d && |a| < |c|
    ensures '\n' in c
  {
    assert (a + "\n" + b)[|a|] == '\n' && (c + "\n" + d)[|a|] == c[|a|];
  }

  lemma LineEnds(a: string, b: string, c: string, d: string)
    requires '\n' !in a && '\n' !in c && a + "\n" + b == c + "\n" + d
    ensures a == c && b == d
  {
    var s := a + "\n" + b;
    if |a| < |c| {
      LongerHasBreak(a, b, c, d);
    } else if |c| < |a| {
      LongerHasBreak(c, d, a, b);
    }
    assert s[..|a|] == a && s[|a| + 1..] == b;
    assert (c + "\n" + d)[..|c|] == c && (c + "\n" + d)[|c| + 1..] == d;
  }

  lemma NoLineBreaks(path: string, nonce: string)
    requires IsPath(path) && IsUuid4(nonce)
    ensures '\n' !in path && '\n' !in nonce
  {
    assert forall i :: 0 <= i < |nonce| ==> nonce[i] != '\n';
  }

  /** Requests with the same signed text agree in path, time, nonce and body hash. */
  lemma SignatureBindsRequest(path: string, timestamp: int, nonce: string, bodyHash: string,
                              path': string, timestamp': int, nonce': string, bodyHash': string)
    requires IsPath(path) && IsUuid4(nonce) && IsPath(path') && IsUuid4(nonce')
    requires Canonical(path, timestamp, nonce, bodyHash) == Canonical(path', timestamp', nonce', bodyHash')
    ensures path == path' && timestamp == timestamp' && nonce == nonce' && bodyHash == bodyHash'
  {
    NoLineBreaks(path, nonce);
    NoLineBreaks(path', nonce');
    IntTextIsInjective(timestamp, timestamp');
    IntTextIsInjective(timestamp', timestamp);
    hide IsPath, IsUuid4, IntText;
    var rest, rest' := IntText(timestamp) + "\n" + (nonce + "\n" + bodyHash),
      IntText(timestamp') + "\n" + (nonce' + "\n" + bodyHash');
    PrefixCancels("POST\n", path + "\n" + rest, path' + "\n" + rest');
    LineEnds(path, rest, path', rest');
    LineEnds(IntText(timestamp), nonce + "\n" + bodyHash, IntText(timestamp'), nonce' + "\n" + bodyHash');
    LineEnds(nonce, bodyHash, nonce', bodyHash');
  }
}
