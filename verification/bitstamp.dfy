/**
 * The request side of BitstampAPIConnection.java: the query and payload
 * strings, the string a private call signs, the check of the server's
 * signature on a response, and the retry loop shared by the four send
 * methods. HMAC-SHA256 is a parameter; the transport is a script of
 * replies, one per attempt.
 */
module Bitstamp {
  import opened Wrappers

  type Byte = b: int | 0 <= b < 256

  /** HMAC-SHA256 of a message under a secret, as raw bytes. */
  type Hmac = (string, string) -> seq<Byte>

  const Host: string := "www.bitstamp.net"
  const Verb: string := "POST"
  const ContentType: string := "application/x-www-form-urlencoded"
  const Version: string := "v2"
  /** The fixed first field of every private payload. */
  const FirstPayload: string := "offset=1"
  /** `MAX_RETRY`: the retries one call may make after its first attempt. */
  const MaxRetry: nat := 3

  // ------------------------------------------------------------------ hex

  predicate IsLowerHex(c: char) { '0' <= c <= '9' || 'a' <= c <= 'f' }

  function HexDigit(n: int): (c: char)
    requires 0 <= n < 16
    ensures IsLowerHex(c)
  {
    if n < 10 then ('0' as int + n) as char else ('a' as int + n - 10) as char
  }

  function HexValue(c: char): int
  {
    if '0' <= c <= '9' then c as int - '0' as int
    else if 'a' <= c <= 'f' then c as int - 'a' as int + 10
    else 0
  }

  /** `Hex.encodeHex`: two lower-case hex digits per byte, high nibble first. */
  function Hex(bs: seq<Byte>): (s: string)
    ensures |s| == 2 * |bs|
    ensures forall i :: 0 <= i < |s| ==> IsLowerHex(s[i])
  {
    if bs == [] then "" else [HexDigit(bs[0] / 16), HexDigit(bs[0] % 16)] + Hex(bs[1..])
  }

  /** Reads back the bytes of an even-length hex string. */
  function Unhex(s: string): seq<Byte>
    requires |s| % 2 == 0
  {
    if s == [] then []
    else
      var b := HexValue(s[0]) * 16 + HexValue(s[1]);
      [if 0 <= b < 256 then b else 0] + Unhex(s[2..])
  }

  /** Hex encoding loses nothing: decoding it gives the bytes back. */
  lemma {:induction false} HexRoundTrip(bs: seq<Byte>)
    ensures Unhex(Hex(bs)) == bs
  {
    if bs != [] {
      var s := Hex(bs);
      var b := bs[0];
      assert HexValue(HexDigit(b / 16)) == b / 16;
      assert HexValue(HexDigit(b % 16)) == b % 16;
      assert s[2..] == Hex(bs[1..]);
      HexRoundTrip(bs[1..]);
    }
  }

  function UpperChar(c: char): char
  {
    if 'a' <= c <= 'z' then (c as int - 32) as char else c
  }

  /** `toUpperCase` on the ASCII letters, the only letters hex digits use. */
  function Upper(s: string): (u: string)
    ensures |u| == |s|
    ensures forall i :: 0 <= i < |s| ==> u[i] == UpperChar(s[i])
  {
    seq(|s|, i requires 0 <= i < |s| => UpperChar(s[i]))
  }

  /** The header form of a digest: upper-case hex, so never a space. */
  lemma UpperHexHasNoSpace(bs: seq<Byte>)
    ensures forall i :: 0 <= i < |Upper(Hex(bs))| ==>
      ('0' <= Upper(Hex(bs))[i] <= '9' || 'A' <= Upper(Hex(bs))[i] <= 'F')
  {
    var h := Hex(bs);
    forall i | 0 <= i < |h| ensures '0' <= Upper(h)[i] <= '9' || 'A' <= Upper(h)[i] <= 'F' {
      assert IsLowerHex(h[i]);
    }
  }

  // ----------------------------------------------------- query and payload

  /** `"&" + param` for each parameter, in order. */
  function AmpJoin(params: seq<string>): string
  {
    if params == [] then "" else AmpJoin(params[..|params| - 1]) + "&" + params[|params| - 1]
  }

  /** The body of a private call. */
  function Payload(params: seq<string>): string
  {
    FirstPayload + AmpJoin(params)
  }

  /** The path of a public call with parameters: the query starts `?&`. */
  function QueryPath(endPoint: string, params: seq<string>): string
  {
    endPoint + "?" + AmpJoin(params)
  }

  /** The loop that appends each parameter to the private payload. */
  method BuildPayload(params: seq<string>) returns (payload: string)
    ensures payload == Payload(params)
  {
    payload := FirstPayload;
    for k := 0 to |params|
      invariant payload == FirstPayload + AmpJoin(params[..k])
    {
      assert params[..k + 1][..k] == params[..k];
      payload := payload + "&" + params[k];
    }
    assert params[..|params|] == params;
  }

  /** The loop that appends each parameter to the public query. */
  method BuildQueryPath(endPoint: string, params: seq<string>) returns (urlPath: string)
    ensures urlPath == QueryPath(endPoint, params)
  {
    urlPath := endPoint;
    urlPath := urlPath + "?";
    for k := 0 to |params|
      invariant urlPath == endPoint + "?" + AmpJoin(params[..k])
    {
      assert params[..k + 1][..k] == params[..k];
      urlPath := urlPath + "&" + params[k];
    }
    assert params[..|params|] == params;
  }

  /** Splits a string at every `&`, as a server reads a form body or a query. */
  function Fields(s: string): (r: seq<string>)
    ensures |r| >= 1
  {
    if s == [] then [""]
    else if s[0] == '&' then [""] + Fields(s[1..])
    else
      var rest := Fields(s[1..]);
      [[s[0]] + rest[0]] + rest[1..]
  }

  lemma {:induction false} FieldsOfPlain(w: string)
    requires '&' !in w
    ensures Fields(w) == [w]
  {
    if w != [] {
      FieldsOfPlain(w[1..]);
      assert [w[0]] + w[1..] == w;
    }
  }

  lemma {:induction false} FieldsAppend(x: string, w: string)
    requires '&' !in w
    ensures Fields(x + "&" + w) == Fields(x) + [w]
  {
    if x == [] {
      assert x + "&" + w == "&" + w;
      assert ("&" + w)[1..] == w;
      FieldsOfPlain(w);
    } else {
      assert (x + "&" + w)[0] == x[0];
      assert (x + "&" + w)[1..] == x[1..] + "&" + w;
      FieldsAppend(x[1..], w);
    }
  }

  /**
   * Joining is undone by splitting: as long as no field holds an `&`, the
   * fields read back are the first one followed by the parameters.
   */
  lemma {:induction false} FieldsOfJoin(first: string, params: seq<string>)
    requires '&' !in first
    requires forall j :: 0 <= j < |params| ==> '&' !in params[j]
    ensures Fields(first + AmpJoin(params)) == [first] + params
  {
    if params == [] {
      assert first + AmpJoin(params) == first;
      FieldsOfPlain(first);
    } else {
      var init := params[..|params| - 1];
      var p := params[|params| - 1];
      FieldsOfJoin(first, init);
      assert first + AmpJoin(params) == (first + AmpJoin(init)) + "&" + p;
      FieldsAppend(first + AmpJoin(init), p);
      assert [first] + init + [p] == [first] + params;
    }
  }

  /** The private payload carries `offset=1` and then exactly the parameters. */
  lemma PayloadFields(params: seq<string>)
    requires forall j :: 0 <= j < |params| ==> '&' !in params[j]
    ensures Fields(Payload(params)) == [FirstPayload] + params
  {
    FieldsOfJoin(FirstPayload, params);
  }

  /** The public query after `?` splits into an empty field and then the parameters. */
  lemma QueryFields(endPoint: string, params: seq<string>)
    requires forall j :: 0 <= j < |params| ==> '&' !in params[j]
    ensures QueryPath(endPoint, params) == endPoint + "?" + AmpJoin(params)
    ensures Fields(AmpJoin(params)) == [""] + params
  {
    FieldsOfJoin("", params);
    assert "" + AmpJoin(params) == AmpJoin(params);
  }

  // ------------------------------------------------------------- signing

  /** The `X-Auth` header: `BITSTAMP`, a space, and the key. */
  function Auth(key: string): string { "BITSTAMP " + key }

  /**
   * The string a private call signs: auth, verb, host, path, an empty
   * query, content type, nonce, timestamp, version and payload, in this
   * order and without separators.
   */
  function StringToSign(key: string, urlPath: string, nonce: string, timestamp: string, payload: string): (s: string)
    ensures |s| > 8 && s[..9] == "BITSTAMP " && s[8] == ' '
  {
    Auth(key) + Verb + Host + urlPath + "" + ContentType + nonce + timestamp + Version + payload
  }

  /** What one private call fixes before its first attempt. */
  datatype Envelope = Envelope(key: string, secret: string, urlPath: string, payload: string,
                               nonce: string, timestamp: string)

  function Canonical(e: Envelope): string
  {
    StringToSign(e.key, e.urlPath, e.nonce, e.timestamp, e.payload)
  }

  /**
   * The `signature` variable after `k` attempts: each attempt replaces it
   * with the upper-case hex HMAC of its previous value.
   */
  function SignatureAt(hmac: Hmac, e: Envelope, k: nat): string
  {
    if k == 0 then Canonical(e) else Upper(Hex(hmac(e.secret, SignatureAt(hmac, e, k - 1))))
  }

  /** The signature every attempt should send: the HMAC of the canonical string. */
  function FixedSignature(hmac: Hmac, e: Envelope): string
  {
    Upper(Hex(hmac(e.secret, Canonical(e))))
  }

  /**
   * From the second attempt on, what is signed is not the canonical string
   * but the previous attempt's digest: an upper-case hex string, which has
   * no space where the canonical string has one.
   */
  lemma RetrySignsDigest(hmac: Hmac, e: Envelope, k: nat)
    requires k >= 1
    ensures SignatureAt(hmac, e, k) != Canonical(e)
    ensures SignatureAt(hmac, e, 1) == FixedSignature(hmac, e)
  {
    var prev := SignatureAt(hmac, e, k - 1);
    var s := SignatureAt(hmac, e, k);
    var c := Canonical(e);
    UpperHexHasNoSpace(hmac(e.secret, prev));
    if |s| > 8 {
      assert s[8] != ' ' && c[8] == ' ';
    }
  }

  // ------------------------------------------------------------ transport

  /** What `client.send` gives back for one attempt; `SendFailed` is any exception it throws. */
  datatype Reply =
    | Response(status: int, serverSignature: Option<string>, contentType: Option<string>, body: string)
    | SendFailed

  /** The exceptions a call can end with, apart from a missing key. */
  datatype Error = BadResponse | SignatureMismatch | Unexpected

  /** How a call ends: the response body, a missing key, or an exception. */
  datatype Outcome = Ok(body: string) | KeyMissing | Failed(error: Error)

  /** The result of one attempt. */
  datatype Checked = Pass(body: string) | Fail(error: Error)

  /** The requests a call puts on the wire. */
  datatype Request =
    | Get(url: string)
    | Post(url: string, payload: string, auth: string, signature: string, nonce: string, timestamp: string,
           version: string, contentType: string)

  datatype Call = Call(outcome: Outcome, sent: seq<Request>)

  /** The errors the loop catches and retries. */
  predicate Retryable(e: Error) { e == BadResponse || e == SignatureMismatch }

  /** One public attempt: a status other than 200 is a bad response. */
  function CheckPublic(r: Reply): (c: Checked)
    ensures c.Fail? ==> c.error != SignatureMismatch
  {
    match r
    case SendFailed => Fail(Unexpected)
    case Response(status, _, _, body) => if status != 200 then Fail(BadResponse) else Pass(body)
  }

  /**
   * One private attempt: after the status, the server's signature and
   * content-type headers must be present, and the lower-case hex HMAC of
   * nonce, timestamp, content type and body must equal the signature.
   */
  function CheckPrivate(hmac: Hmac, e: Envelope, r: Reply): (c: Checked)
    ensures c.Pass? <==>
      && r.Response? && r.status == 200 && r.serverSignature.Some? && r.contentType.Some?
      && Hex(hmac(e.secret, e.nonce + e.timestamp + r.contentType.value + r.body)) == r.serverSignature.value
    ensures c.Pass? ==> c.body == r.body
    ensures c == Fail(BadResponse) <==> r.Response? && r.status != 200
  {
    match r
    case SendFailed => Fail(Unexpected)
    case Response(status, serverSignature, contentType, body) =>
      if status != 200 then Fail(BadResponse)
      else if serverSignature.None? || contentType.None? then Fail(Unexpected)
      else if Hex(hmac(e.secret, e.nonce + e.timestamp + contentType.value + body)) != serverSignature.value then
        Fail(SignatureMismatch)
      else Pass(body)
  }

  function PublicChecks(replies: seq<Reply>): seq<Checked>
  {
    seq(|replies|, j requires 0 <= j < |replies| => CheckPublic(replies[j]))
  }

  function PrivateChecks(hmac: Hmac, e: Envelope, replies: seq<Reply>): seq<Checked>
  {
    seq(|replies|, j requires 0 <= j < |replies| => CheckPrivate(hmac, e, replies[j]))
  }

  /** How many attempts a call makes and how it ends. */
  datatype Settled = Settled(attempts: nat, outcome: Outcome)

  /**
   * The retry rule from attempt `i` (0-based) on: a retryable error is
   * retried while fewer than `MaxRetry` retries have been made; anything
   * else ends the call.
   */
  function Settle(checks: seq<Checked>, i: nat): (s: Settled)
    requires i <= MaxRetry < |checks|
    ensures i < s.attempts <= MaxRetry + 1
    decreases MaxRetry - i
  {
    match checks[i]
    case Pass(body) => Settled(i + 1, Ok(body))
    case Fail(e) => if Retryable(e) && i < MaxRetry then Settle(checks, i + 1) else Settled(i + 1, Failed(e))
  }

  /**
   * What the retry rule means: every attempt before the last failed with a
   * retryable error, the call ends as the last attempt did, and it stops
   * before the fourth attempt only on a success or an error it does not
   * retry.
   */
  lemma {:induction false} SettleMeans(checks: seq<Checked>, i: nat)
    requires i <= MaxRetry < |checks|
    ensures var s := Settle(checks, i);
      && (forall j :: i <= j < s.attempts - 1 ==> checks[j].Fail? && Retryable(checks[j].error))
      && s.outcome == (match checks[s.attempts - 1] case Pass(b) => Ok(b) case Fail(err) => Failed(err))
      && (s.attempts <= MaxRetry ==> !(checks[s.attempts - 1].Fail? && Retryable(checks[s.attempts - 1].error)))
    decreases MaxRetry - i
  {
    match checks[i]
    case Pass(_) =>
    case Fail(e) =>
      if Retryable(e) && i < MaxRetry {
        SettleMeans(checks, i + 1);
      }
  }

  /** The requests of `n` public attempts. */
  function Gets(url: string, n: nat): (r: seq<Request>)
    ensures |r| == n && forall j :: 0 <= j < n ==> r[j] == Get(url)
  {
    if n == 0 then [] else Gets(url, n - 1) + [Get(url)]
  }

  /** The requests of `n` private attempts, each carrying the signature the loop has reached. */
  function Posts(hmac: Hmac, e: Envelope, n: nat): seq<Request>
  {
    if n == 0 then []
    else Posts(hmac, e, n - 1) + [Post("https://" + Host + e.urlPath, e.payload, Auth(e.key),
                                        SignatureAt(hmac, e, n), e.nonce, e.timestamp, Version, ContentType)]
  }

  /**
   * Every attempt of one call sends the same URL, payload, key, nonce and
   * timestamp; only the signature changes, to the next link of the chain.
   */
  lemma {:induction false} PostsShareNonce(hmac: Hmac, e: Envelope, n: nat)
    ensures |Posts(hmac, e, n)| == n
    ensures forall j :: 0 <= j < n ==>
      Posts(hmac, e, n)[j] == Post("https://" + Host + e.urlPath, e.payload, Auth(e.key),
                                   SignatureAt(hmac, e, j + 1), e.nonce, e.timestamp, Version, ContentType)
  {
    if n > 0 {
      PostsShareNonce(hmac, e, n - 1);
    }
  }

  /** The intended requests: every attempt signs the canonical string. */
  function FixedPosts(hmac: Hmac, e: Envelope, n: nat): (r: seq<Request>)
    ensures |r| == n
    ensures forall j :: 0 <= j < n ==>
      r[j] == Post("https://" + Host + e.urlPath, e.payload, Auth(e.key),
                   FixedSignature(hmac, e), e.nonce, e.timestamp, Version, ContentType)
  {
    if n == 0 then []
    else FixedPosts(hmac, e, n - 1) + [Post("https://" + Host + e.urlPath, e.payload, Auth(e.key),
                                            FixedSignature(hmac, e), e.nonce, e.timestamp, Version, ContentType)]
  }

  /** As written, every request after the first differs from the intended one in its signature input. */
  lemma RetriesDeviateFromFixed(hmac: Hmac, e: Envelope, n: nat)
    requires n >= 1
    ensures Posts(hmac, e, n)[0] == FixedPosts(hmac, e, n)[0]
    ensures forall j :: 1 <= j < n ==> SignatureAt(hmac, e, j) != Canonical(e)
  {
    PostsShareNonce(hmac, e, n);
    RetrySignsDigest(hmac, e, 1);
    forall j | 1 <= j < n ensures SignatureAt(hmac, e, j) != Canonical(e) {
      RetrySignsDigest(hmac, e, j);
    }
  }

  /** The retry loop of both public overloads. */
  method RetryPublic(urlPath: string, replies: seq<Reply>) returns (c: Call)
    requires |replies| > MaxRetry
    ensures var s := Settle(PublicChecks(replies), 0);
      c == Call(s.outcome, Gets("https://" + Host + urlPath, s.attempts))
  {
    ghost var checks := PublicChecks(replies);
    var url := "https://" + Host + urlPath;
    var sent: seq<Request> := [];
    var i := 0;
    while true
      invariant 0 <= i <= MaxRetry
      invariant sent == Gets(url, i)
      invariant Settle(checks, 0) == Settle(checks, i)
      decreases MaxRetry - i
    {
      sent := sent + [Get(url)];
      var error: Error;
      match replies[i] {
        case SendFailed =>
          error := Unexpected;
        case Response(status, _, _, body) =>
          if status != 200 {
            error := BadResponse;
          } else {
            return Call(Ok(body), sent);
          }
      }
      if error == BadResponse && i < MaxRetry {
        i := i + 1;
      } else {
        return Call(Failed(error), sent);
      }
    }
  }

  /** The retry loop of both private overloads. */
  method RetryPrivate(hmac: Hmac, e: Envelope, replies: seq<Reply>) returns (c: Call)
    requires |replies| > MaxRetry
    ensures var s := Settle(PrivateChecks(hmac, e, replies), 0);
      c == Call(s.outcome, Posts(hmac, e, s.attempts))
  {
    ghost var checks := PrivateChecks(hmac, e, replies);
    var url := "https://" + Host + e.urlPath;
    var auth := Auth(e.key);
    var signature := StringToSign(e.key, e.urlPath, e.nonce, e.timestamp, e.payload);
    var sent: seq<Request> := [];
    var i := 0;
    while true
      invariant 0 <= i <= MaxRetry
      invariant signature == SignatureAt(hmac, e, i)
      invariant sent == Posts(hmac, e, i)
      invariant Settle(checks, 0) == Settle(checks, i)
      decreases MaxRetry - i
    {
      signature := Upper(Hex(hmac(e.secret, signature)));
      sent := sent + [Post(url, e.payload, auth, signature, e.nonce, e.timestamp, Version, ContentType)];
      var error: Error;
      match replies[i] {
        case SendFailed =>
          error := Unexpected;
        case Response(status, serverSignature, contentType, body) =>
          if status != 200 {
            error := BadResponse;
          } else if serverSignature.None? || contentType.None? {
            error := Unexpected;
          } else {
            var newSignature := Hex(hmac(e.secret, e.nonce + e.timestamp + contentType.value + body));
            if newSignature != serverSignature.value {
              error := SignatureMismatch;
            } else {
              return Call(Ok(body), sent);
            }
          }
      }
      if Retryable(error) && i < MaxRetry {
        i := i + 1;
      } else {
        return Call(Failed(error), sent);
      }
    }
  }

  /** The connection: its key and secret, absent when they could not be loaded. */
  class BitstampAPIConnection {
    const apiKey: Option<string>
    const apiKeySecret: Option<string>

    constructor (apiKey: Option<string>, apiKeySecret: Option<string>)
      ensures this.apiKey == apiKey && this.apiKeySecret == apiKeySecret
    {
      this.apiKey := apiKey;
      this.apiKeySecret := apiKeySecret;
    }

    /** `sendPublicRequest(endPoint)`: a GET of the end point, retried on bad responses. */
    method SendPublicRequest(endPoint: string, replies: seq<Reply>) returns (c: Call)
      requires |replies| > MaxRetry
      ensures var s := Settle(PublicChecks(replies), 0);
        c == Call(s.outcome, Gets("https://" + Host + endPoint, s.attempts))
    {
      c := RetryPublic(endPoint, replies);
    }

    /** `sendPublicRequest(endPoint, params)`: the same, with the parameters in the query. */
    method SendPublicRequestWithParams(endPoint: string, params: seq<string>, replies: seq<Reply>) returns (c: Call)
      requires |replies| > MaxRetry
      ensures var s := Settle(PublicChecks(replies), 0);
        c == Call(s.outcome, Gets("https://" + Host + QueryPath(endPoint, params), s.attempts))
    {
      var urlPath := BuildQueryPath(endPoint, params);
      c := RetryPublic(urlPath, replies);
    }

    /**
     * `sendPrivateRequest(endPoint)`: refuses at once without a key or a
     * secret, and fails before sending anything when the secret is empty
     * (no HMAC key can be built from it); otherwise a signed POST of
     * `offset=1` with the given nonce and timestamp, retried on bad
     * responses and signature mismatches.
     */
    method SendPrivateRequest(hmac: Hmac, endPoint: string, nonce: string, timestamp: string,
                              replies: seq<Reply>) returns (c: Call)
      requires |replies| > MaxRetry
      ensures apiKey.None? || apiKeySecret.None? ==> c == Call(KeyMissing, [])
      ensures apiKey.Some? && apiKeySecret == Some("") ==> c == Call(Failed(Unexpected), [])
      ensures apiKey.Some? && apiKeySecret.Some? && apiKeySecret.value != "" ==>
        var e := Envelope(apiKey.value, apiKeySecret.value, endPoint, FirstPayload, nonce, timestamp);
        var s := Settle(PrivateChecks(hmac, e, replies), 0);
        c == Call(s.outcome, Posts(hmac, e, s.attempts))
    {
      if apiKey.None? || apiKeySecret.None? {
        return Call(KeyMissing, []);
      }
      if apiKeySecret.value == "" {
        return Call(Failed(Unexpected), []);
      }
      var e := Envelope(apiKey.value, apiKeySecret.value, endPoint, FirstPayload, nonce, timestamp);
      c := RetryPrivate(hmac, e, replies);
    }

    /** `sendPrivateRequest(endPoint, params)`: the same, with the parameters in the payload. */
    method SendPrivateRequestWithParams(hmac: Hmac, endPoint: string, params: seq<string>, nonce: string,
                                        timestamp: string, replies: seq<Reply>) returns (c: Call)
      requires |replies| > MaxRetry
      ensures apiKey.None? || apiKeySecret.None? ==> c == Call(KeyMissing, [])
      ensures apiKey.Some? && apiKeySecret == Some("") ==> c == Call(Failed(Unexpected), [])
      ensures apiKey.Some? && apiKeySecret.Some? && apiKeySecret.value != "" ==>
        var e := Envelope(apiKey.value, apiKeySecret.value, endPoint, Payload(params), nonce, timestamp);
        var s := Settle(PrivateChecks(hmac, e, replies), 0);
        c == Call(s.outcome, Posts(hmac, e, s.attempts))
    {
      if apiKey.None? || apiKeySecret.None? {
        return Call(KeyMissing, []);
      }
      if apiKeySecret.value == "" {
        return Call(Failed(Unexpected), []);
      }
      var payload := BuildPayload(params);
      var e := Envelope(apiKey.value, apiKeySecret.value, endPoint, payload, nonce, timestamp);
      c := RetryPrivate(hmac, e, replies);
    }
  }

  /** A public call never meets a signature mismatch, so it retries bad responses only. */
  lemma PublicRetriesBadResponsesOnly(replies: seq<Reply>)
    requires |replies| > MaxRetry
    ensures var s := Settle(PublicChecks(replies), 0);
      && (s.outcome.Failed? ==> s.outcome.error != SignatureMismatch)
      && (forall j :: 0 <= j < s.attempts - 1 ==> replies[j].Response? && replies[j].status != 200)
  {
    SettleMeans(PublicChecks(replies), 0);
  }

  /**
   * A private call that fails with a retryable error has made all four
   * attempts; one that succeeds returns the body of a reply whose
   * signature checked out.
   */
  lemma PrivateCallEnds(hmac: Hmac, e: Envelope, replies: seq<Reply>)
    requires |replies| > MaxRetry
    ensures var s := Settle(PrivateChecks(hmac, e, replies), 0);
      && (s.outcome.Failed? && Retryable(s.outcome.error) ==> s.attempts == MaxRetry + 1)
      && (s.outcome.Ok? ==> exists j :: 0 <= j < s.attempts && CheckPrivate(hmac, e, replies[j]) == Pass(s.outcome.body))
  {
    var checks := PrivateChecks(hmac, e, replies);
    SettleMeans(checks, 0);
    var s := Settle(checks, 0);
    if s.outcome.Ok? {
      assert CheckPrivate(hmac, e, replies[s.attempts - 1]) == Pass(s.outcome.body);
    }
  }
}
