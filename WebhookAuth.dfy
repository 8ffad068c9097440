/** The webhook receivers' authorization (WebhookAuthorizationHandler): a POST is accepted when
    its HMAC signature (RFC 2104, keyed with the configured signing key) matches and its
    timestamp lies within five minutes of the clock. The MAC itself, its base64 encoding
    (section 4 of RFC 4648) and DateTime.Parse are parameters: `sign(key, message)` is the
    base64 text of the HMAC-SHA256 of the message's UTF-8 bytes under the key's bytes, and
    `parse(s)` the instant DateTime.Parse reads from `s`, None when it throws a FormatException. */
module WebhookAuth {
  import opened Common
  import opened Configurations
  import opened Authorization

  const RequestIdHeader := "X-PE2-REQUEST-ID"
  const TimestampHeader := "X-PE2-TIMESTAMP"
  const SignatureHeader := "X-PE2-WEBHOOK-SIGNATURE"
  const TenantAliasHeader := "X-PE2-TENANT-ALIAS"
  const SignaturePrefix := "HMACSHA256:"
  const Post := "POST"
  const InvalidSignature := "Invalid signature"
  const InvalidTimestamp := "Invalid timestamp"
  /** The tolerated distance between the request's timestamp and the clock. */
  const TimestampWindow: int := 5 * TicksPerMinute

  /** The text that is signed: "{requestId}|{timestamp}". */
  function SignedText(headers: Headers): string {
    Text(HeaderValues(headers, RequestIdHeader)) + "|" + Text(HeaderValues(headers, TimestampHeader))
  }

  /** IsValidSignature: always true without a signing key; otherwise the signature header must be
      exactly "HMACSHA256:" followed by the signature of "{requestId}|{timestamp}". */
  predicate IsValidSignature(signingKey: Option<Guid>, headers: Headers, sign: (Guid, string) -> string)
  {
    signingKey.None? ||
    AsString(HeaderValues(headers, SignatureHeader)) == Some(SignaturePrefix + sign(signingKey.value, SignedText(headers)))
  }

  /** With no signing key every request passes the signature check. */
  lemma NoKeyAcceptsAnySignature(headers: Headers, sign: (Guid, string) -> string)
    ensures IsValidSignature(None, headers, sign)
  {
  }

  /** With a key, a request without a signature header never passes. */
  lemma UnsignedRequestRejected(key: Guid, headers: Headers, sign: (Guid, string) -> string)
    requires SignatureHeader !in headers
    ensures !IsValidSignature(Some(key), headers, sign)
  {
  }

  /** The signature that passes for a request id and a timestamp given once each. */
  lemma SignatureOfSingleValues(key: Guid, requestId: string, timestamp: string, other: Headers, sign: (Guid, string) -> string)
    ensures var h := other[RequestIdHeader := [requestId]][TimestampHeader := [timestamp]];
      IsValidSignature(Some(key), h, sign) <==>
        AsString(HeaderValues(h, SignatureHeader)) == Some(SignaturePrefix + sign(key, requestId + "|" + timestamp))
  {
    var h := other[RequestIdHeader := [requestId]][TimestampHeader := [timestamp]];
    assert SignedText(h) == requestId + "|" + timestamp;
  }

  /** IsValidTimestamp: DateTime.Parse of the header (which throws for a missing header and for
      text it cannot read), then |now - requestTime| <= 5 minutes, both ends included. */
  function IsValidTimestamp(timestamp: Option<string>, now: int, parse: string -> Option<int>): (r: Result<bool, Error>)
    ensures timestamp.None? ==> r == Err(ArgumentNull("s"))
    ensures timestamp.Some? && parse(timestamp.value).None? ==> r == Err(FormatError)
    ensures r == Ok(true) <==>
      timestamp.Some? && parse(timestamp.value).Some? &&
      now - TimestampWindow <= parse(timestamp.value).value <= now + TimestampWindow
  {
    if timestamp.None? then Err(ArgumentNull("s"))
    else match parse(timestamp.value)
      case None => Err(FormatError)
      case Some(requestTime) =>
        var diff := now - requestTime;
        Ok((if diff < 0 then -diff else diff) <= TimestampWindow)
  }

  /** What the handler decides for a resource: nothing (not a POST request), Fail with a reason,
      or Succeed with the tenant alias to claim, if any. */
  datatype Decision = Skip | Reject(reason: string) | Accept(tenant: Option<string>)

  /** HandleRequirementAsync as a decision: the signature first, then the timestamp (whose
      parsing may throw), then the optional tenant alias. */
  function Decide(signingKey: Option<Guid>, resource: Resource, now: int,
                  parse: string -> Option<int>, sign: (Guid, string) -> string): (d: Result<Decision, Error>)
    // only POST requests are judged
    ensures resource.OtherResource? || resource.request.httpMethod != Post ==> d == Ok(Skip)
    ensures d == Ok(Skip) ==> resource.OtherResource? || resource.request.httpMethod != Post
    // the signature is checked first; a bad one is refused whatever the timestamp
    ensures (resource.HttpContextResource? && resource.request.httpMethod == Post &&
             !IsValidSignature(signingKey, resource.request.headers, sign)) ==> d == Ok(Reject(InvalidSignature))
    // a request is accepted exactly when both checks pass
    ensures d.Ok? && d.value.Accept? <==>
      && resource.HttpContextResource? && resource.request.httpMethod == Post
      && IsValidSignature(signingKey, resource.request.headers, sign)
      && IsValidTimestamp(AsString(HeaderValues(resource.request.headers, TimestampHeader)), now, parse) == Ok(true)
    // the timestamp is refused, or throws, only after the signature passed
    ensures d == Ok(Reject(InvalidTimestamp)) || d.Err? ==>
      && resource.HttpContextResource? && resource.request.httpMethod == Post
      && IsValidSignature(signingKey, resource.request.headers, sign)
    ensures d.Err? ==> d.error in {ArgumentNull("s"), FormatError}
    // a tenant is named exactly when the alias header is not blank
    ensures d.Ok? && d.value.Accept? ==>
      var alias := AsString(HeaderValues(resource.request.headers, TenantAliasHeader));
      && (d.value.tenant.Some? <==> !IsNullOrWhiteSpace(alias))
      && (d.value.tenant.Some? ==> d.value.tenant == alias)
  {
    match resource
    case OtherResource => Ok(Skip)
    case HttpContextResource(request) =>
      if request.httpMethod != Post then Ok(Skip)
      else if !IsValidSignature(signingKey, request.headers, sign) then Ok(Reject(InvalidSignature))
      else match IsValidTimestamp(AsString(HeaderValues(request.headers, TimestampHeader)), now, parse)
        case Err(e) => Err(e)
        case Ok(valid) =>
          if !valid then Ok(Reject(InvalidTimestamp))
          else
            var alias := AsString(HeaderValues(request.headers, TenantAliasHeader));
            Ok(Accept(if IsNullOrWhiteSpace(alias) then None else alias))
  }

  /** Without a signing key the timestamp still decides: a stale one is refused. */
  lemma NoKeyStillChecksTimestamp(request: HttpRequest, now: int, parse: string -> Option<int>, sign: (Guid, string) -> string)
    requires request.httpMethod == Post
    requires IsValidTimestamp(AsString(HeaderValues(request.headers, TimestampHeader)), now, parse) == Ok(false)
    ensures Decide(None, HttpContextResource(request), now, parse, sign) == Ok(Reject(InvalidTimestamp))
  {
  }

  /** A signed POST whose timestamp is the clock's own reading is accepted. */
  lemma TimestampAtNowAccepted(key: Option<Guid>, request: HttpRequest, now: int, parse: string -> Option<int>,
                               sign: (Guid, string) -> string)
    requires request.httpMethod == Post && IsValidSignature(key, request.headers, sign)
    requires AsString(HeaderValues(request.headers, TimestampHeader)).Some?
    requires parse(AsString(HeaderValues(request.headers, TimestampHeader)).value) == Some(now)
    ensures Decide(key, HttpContextResource(request), now, parse, sign).Ok?
    ensures Decide(key, HttpContextResource(request), now, parse, sign).value.Accept?
  {
  }

  class WebhookAuthorizationHandler {
    const signingKey: Option<Guid>

    constructor (signingKey: Option<Guid>)
      ensures this.signingKey == signingKey
    {
      this.signingKey := signingKey;
    }

    /** HandleRequirementAsync: records the decision in the context. A rejection records one Fail
        with its reason and no claim; an acceptance records the tenant claim (when named) and
        Succeed; a timestamp that cannot be parsed throws and records nothing. */
    method Handle(context: AuthContext, now: int, parse: string -> Option<int>, sign: (Guid, string) -> string)
      returns (r: Result<(), Error>)
      modifies context
      ensures var d := Decide(signingKey, context.resource, now, parse, sign);
        && (d.Err? <==> r.Err?)
        && (d.Err? ==> r.error == d.error)
        && (d.Err? || d == Ok(Skip) ==>
              context.succeeded == old(context.succeeded) && context.failures == old(context.failures)
              && context.claims == old(context.claims))
        && (d.Ok? && d.value.Reject? ==>
              context.succeeded == old(context.succeeded) && context.failures == old(context.failures) + [Some(d.value.reason)]
              && context.claims == old(context.claims))
        && (d.Ok? && d.value.Accept? ==>
              context.succeeded && context.failures == old(context.failures)
              && context.claims == old(context.claims) + (if d.value.tenant.Some? then [TenantClaim(d.value.tenant.value)] else []))
    {
      var d := Decide(signingKey, context.resource, now, parse, sign);
      if d.Err? {
        return Err(d.error);
      }
      match d.value {
        case Skip =>
        case Reject(reason) =>
          context.failures := context.failures + [Some(reason)];
        case Accept(tenant) =>
          if tenant.Some? {
            context.claims := context.claims + [TenantClaim(tenant.value)];
          }
          context.succeeded := true;
      }
      r := Ok(());
    }
  }

  /** The constructor reads config.Prime.SigningKey: a missing Prime section throws. */
  method NewWebhookHandler(config: AppConfig) returns (r: Result<WebhookAuthorizationHandler, Error>)
    ensures config.prime == null <==> r == Err(NullReference)
    ensures r.Ok? ==> fresh(r.value) && r.value.signingKey == config.prime.signingKey
  {
    if config.prime == null {
      return Err(NullReference);
    }
    var h := new WebhookAuthorizationHandler(config.prime.signingKey);
    r := Ok(h);
  }
}
