/** The Evolve Prime side of one tenant (PrimeService): the base address of its API, the OAuth
    2.0 client-credentials token (section 4.4 of RFC 6749) with the expiry it records, the four
    webhook registrations InitAsync performs and the health status they leave, and the
    per-tenant registry (PrimeServiceFactory). The outside world is a set of parameters: the
    token endpoint's reply, the status of each webhook PUT, `new Uri(s)` as the exception it
    throws for `s` (if any), and `new Uri(base, relative)` as `resolve`. */
module Prime {
  import opened Common
  import opened Http
  import opened Configurations

  // ---------------------------------------------------------------------------------------
  // Webhook ids: "webhook_" and the GUID in the "n" format, 32 lower-case hexadecimal digits.

  const HexChars := "0123456789abcdef"
  const WebhookPrefix := "webhook_"

  function HexChar(d: HexDigit): char {
    HexChars[d]
  }

  /** The value of a lower-case hexadecimal digit. */
  function HexValue(c: char): (r: Option<HexDigit>)
    ensures r.Some? ==> HexChar(r.value) == c
  {
    if '0' <= c <= '9' then Some(c as int - '0' as int)
    else if 'a' <= c <= 'f' then Some(c as int - 'a' as int + 10)
    else None
  }

  lemma HexValueOfHexChar(d: HexDigit)
    ensures HexValue(HexChar(d)) == Some(d)
  {
  }

  /** The id under which a webhook is registered. */
  function WebhookId(g: Guid): string {
    WebhookPrefix + seq(32, i requires 0 <= i < 32 => HexChar(g[i]))
  }

  /** Reads a webhook id back: the prefix and exactly 32 lower-case hexadecimal digits. */
  function ParseWebhookId(s: string): (r: Option<Guid>)
    ensures r.Some? ==> |s| == 40 && s[..8] == WebhookPrefix
  {
    if |s| == 40 && s[..8] == WebhookPrefix && forall i :: 8 <= i < 40 ==> HexValue(s[i]).Some? then
      var g: Guid := seq(32, i requires 0 <= i < 32 => HexValue(s[8 + i]).value);
      Some(g)
    else None
  }

  /** Every id this service registers reads back as its GUID. */
  lemma ParseWebhookIdRoundTrip(g: Guid)
    ensures ParseWebhookId(WebhookId(g)) == Some(g)
  {
    var s := WebhookId(g);
    assert |s| == 40 && s[..8] == WebhookPrefix;
    forall i | 8 <= i < 40 ensures HexValue(s[i]) == Some(g[i - 8]) {
      HexValueOfHexChar(g[i - 8]);
    }
    var parsed: seq<HexDigit> := seq(32, i requires 0 <= i < 32 => HexValue(s[8 + i]).value);
    assert parsed == g;
  }

  /** Every string that reads back as a GUID is the id of that GUID. */
  lemma WebhookIdOfParsed(s: string)
    requires ParseWebhookId(s).Some?
    ensures WebhookId(ParseWebhookId(s).value) == s
  {
    var g := ParseWebhookId(s).value;
    var t := WebhookId(g);
    assert |t| == |s|;
    forall i | 0 <= i < |s| ensures t[i] == s[i] {
      if i >= 8 {
        assert HexValue(s[i]).Some?;
      } else {
        assert t[..8][i] == s[..8][i];
      }
    }
  }

  /** Distinct GUIDs give distinct webhook ids. */
  lemma WebhookIdInjective(g: Guid, h: Guid)
    requires WebhookId(g) == WebhookId(h)
    ensures g == h
  {
    ParseWebhookIdRoundTrip(g);
    ParseWebhookIdRoundTrip(h);
  }

  /** The four webhook GUIDs share all but their last digit: 86a24d17-0000-0000-0000-85185340017x. */
  function HookGuid(last: HexDigit): Guid {
    [8, 6, 10, 2, 4, 13, 1, 7, 0, 0, 0, 0, 0, 0, 0, 0, 0, 0, 0, 0, 8, 5, 1, 8, 5, 3, 4, 0, 0, 1, 7] + [last]
  }

  /** A webhook InitAsync registers: its GUID, the receiver path under ReceiverUrl, and the
      event types it subscribes to. */
  datatype Webhook = Webhook(id: Guid, receiver: string, events: seq<string>)

  /** The registrations, in the order InitAsync performs them. */
  const Webhooks: seq<Webhook> := [
    Webhook(HookGuid(0), "client", ["PE.Mk2.Accounting.V1.ClientCreated", "PE.Mk2.Accounting.V1.ClientUpdated"]),
    Webhook(HookGuid(1), "document", ["PE.Mk2.Documents.V1.DocumentCreated", "PE.Mk2.Documents.V1.DocumentCheckedIn"]),
    Webhook(HookGuid(2), "matter", ["PE.Mk2.Accounting.V1.MatterCreated", "PE.Mk2.Accounting.V1.MatterUpdated"]),
    Webhook(HookGuid(3), "settings", ["PE.Mk2.Core.V1.SettingsValidationRequested"])
  ]

  /** The four registrations carry four different ids. */
  lemma WebhookIdsDistinct(j: nat, k: nat)
    requires j < k < |Webhooks|
    ensures WebhookId(Webhooks[j].id) != WebhookId(Webhooks[k].id)
  {
    assert Webhooks[j].id[31] != Webhooks[k].id[31];
    if WebhookId(Webhooks[j].id) == WebhookId(Webhooks[k].id) {
      WebhookIdInjective(Webhooks[j].id, Webhooks[k].id);
    }
  }

  // ---------------------------------------------------------------------------------------
  // Base address.

  const TenantTag := "{tenant}"

  /** The API base URL: the tenant's ApiUrl when it is neither null nor empty, otherwise the base
      configuration's (`baseApiUrl` is the value of `config.ApiUrl`, an exception for a null
      configuration), with every "{tenant}" replaced by the alias (a null alias by ""). */
  function BaseUrl(tenantApiUrl: Option<string>, baseApiUrl: Result<Option<string>, Error>, tenant: Option<string>): (r: Result<string, Error>)
    ensures r.Ok? <==> !IsNullOrEmpty(tenantApiUrl) || (baseApiUrl.Ok? && baseApiUrl.value.Some?)
    ensures IsNullOrEmpty(tenantApiUrl) && baseApiUrl.Err? ==> r == Err(baseApiUrl.error)
    ensures IsNullOrEmpty(tenantApiUrl) && baseApiUrl == Ok(None) ==> r == Err(NullReference)
  {
    var chosen: Result<Option<string>, Error> := if !IsNullOrEmpty(tenantApiUrl) then Ok(tenantApiUrl) else baseApiUrl;
    match chosen
    case Err(e) => Err(e)
    case Ok(None) => Err(NullReference)
    case Ok(Some(url)) => Ok(Replace(url, TenantTag, Hole(tenant)))
  }

  /** A tenant override wins whatever the base configuration holds. */
  lemma BaseUrlOverride(tenantApiUrl: string, base1: Result<Option<string>, Error>, base2: Result<Option<string>, Error>, tenant: Option<string>)
    requires tenantApiUrl != ""
    ensures BaseUrl(Some(tenantApiUrl), base1, tenant) == BaseUrl(Some(tenantApiUrl), base2, tenant)
  {
  }

  /** An empty or missing override falls back to the base URL, which is then treated exactly as
      an override with the same text would be. */
  lemma BaseUrlFallback(tenantApiUrl: Option<string>, baseApiUrl: string, other: Result<Option<string>, Error>, tenant: Option<string>)
    requires IsNullOrEmpty(tenantApiUrl) && baseApiUrl != ""
    ensures BaseUrl(tenantApiUrl, Ok(Some(baseApiUrl)), tenant) == BaseUrl(Some(baseApiUrl), other, tenant)
  {
  }

  /** A URL without the tag is used as it is. */
  lemma BaseUrlWithoutTag(url: string, tenant: Option<string>)
    requires url != "" && forall i :: !OccursAt(url, TenantTag, i)
    ensures BaseUrl(Some(url), Err(NullReference), tenant) == Ok(url)
  {
    ReplaceAbsent(url, TenantTag, Hole(tenant));
  }

  /** A URL with one tag, before which no '{' appears, gets the alias in place of the tag. */
  lemma BaseUrlSubstitutes(before: string, after: string, alias: string)
    requires forall i :: 0 <= i < |before| ==> before[i] != '{'
    requires forall i :: !OccursAt(after, TenantTag, i)
    ensures BaseUrl(Some(before + TenantTag + after), Err(NullReference), Some(alias)) == Ok(before + alias + after)
  {
    ReplaceAfterPrefix(before, TenantTag, alias, after);
    ReplaceAbsent(after, TenantTag, alias);
  }

  // ---------------------------------------------------------------------------------------
  // The token response.

  const MissingAccessToken := "Invalid token response, expecting access_token but cannot find it"
  const MissingExpiresIn := "Invalid token response, expecting expires_in but cannot find it"
  const NullToken := "Returned token is null"
  /** The start of the message for a non-success reply; the status name and body that follow
      it are not modelled. */
  const TokenRequestFailed := "Failed to get access token"

  /** The checks on a successful reply, in the code's order: TryGetProperty("access_token"),
      TryGetProperty("expires_in") with TryGetInt32, then GetString on the token. The result is
      the token and its lifetime in seconds. */
  function ParseOAuthToken(body: Option<map<string, Json>>): (r: Result<(string, int), Error>)
    ensures r.Ok? <==>
      && body.Some?
      && "access_token" in body.value && body.value["access_token"].JString?
      && "expires_in" in body.value && body.value["expires_in"].JInteger?
      && IsInt32(body.value["expires_in"].n)
    ensures r.Ok? ==> body.value["access_token"] == JString(r.value.0) && body.value["expires_in"] == JInteger(r.value.1)
    ensures body.Some? && "access_token" !in body.value ==> r == Err(Failure(MissingAccessToken))
    ensures body.Some? && "access_token" in body.value && "expires_in" !in body.value ==> r == Err(Failure(MissingExpiresIn))
  {
    if body.None? then Err(MalformedJson)
    else if "access_token" !in body.value then Err(Failure(MissingAccessToken))
    else if "expires_in" !in body.value then Err(Failure(MissingExpiresIn))
    else match TryGetInt32(body.value["expires_in"])
      case Err(e) => Err(e)
      case Ok(None) => Err(Failure(MissingExpiresIn))
      case Ok(Some(seconds)) =>
        match GetString(body.value["access_token"])
        case Err(e) => Err(e)
        case Ok(None) => Err(Failure(NullToken))
        case Ok(Some(token)) => Ok((token, seconds))
  }

  /** An empty token string passes: unlike the NetDocuments reply, only null is refused. */
  lemma EmptyTokenAccepted(seconds: int, extra: map<string, Json>)
    requires IsInt32(seconds)
    ensures ParseOAuthToken(Some(extra["access_token" := JString("")]["expires_in" := JInteger(seconds)])) == Ok(("", seconds))
  {
  }

  /** A lifetime outside the 32-bit range is reported as missing. */
  lemma WideLifetimeRefused(token: string, seconds: int, extra: map<string, Json>)
    requires !IsInt32(seconds)
    ensures ParseOAuthToken(Some(extra["access_token" := JString(token)]["expires_in" := JInteger(seconds)])) == Err(Failure(MissingExpiresIn))
  {
  }

  /** GetOAuthToken's outcome for a reply received at `now`: the token and its expiry, now plus
      the lifetime with no margin, or the exception thrown. */
  function TokenOutcome(now: int, reply: Result<TokenResponse, Error>): (r: Result<(string, int), Error>)
    ensures reply.Err? ==> r == Err(reply.error)
    ensures reply.Ok? && !IsSuccessStatusCode(reply.value.status) ==> r == Err(Failure(TokenRequestFailed))
    ensures r.Ok? <==> reply.Ok? && IsSuccessStatusCode(reply.value.status) && ParseOAuthToken(reply.value.body).Ok?
    ensures r.Ok? ==>
      var parsed := ParseOAuthToken(reply.value.body).value;
      r.value == (parsed.0, now + parsed.1 * TicksPerSecond)
  {
    match reply
    case Err(e) => Err(e)
    case Ok(response) =>
      if !IsSuccessStatusCode(response.status) then Err(Failure(TokenRequestFailed))
      else match ParseOAuthToken(response.body)
        case Err(e) => Err(e)
        case Ok(parsed) => Ok((parsed.0, AddSeconds(now, parsed.1)))
  }

  // ---------------------------------------------------------------------------------------
  // The service.

  /** A token request: the endpoint and the form fields, null values included. */
  datatype PrimeTokenRequest = PrimeTokenRequest(url: Option<string>, form: seq<(string, Option<string>)>)

  /** The JSON body of a webhook registration. */
  datatype WebhookRegistration = WebhookRegistration(
    id: string, enabled: bool, url: string, secret: Option<Guid>, events: seq<string>)

  /** A PUT sent to the API: base address, relative path, Authorization header and body. */
  datatype WebhookPut = WebhookPut(baseAddress: string, path: string, authorization: Option<AuthHeader>, body: WebhookRegistration)

  const WebhooksPath := "v1/webhooks"
  const RegisterFailed := "Failed to register webhook"
  const StartingUp := HealthCheckResult(Degraded, Some("Starting up..."))
  const Registered := HealthCheckResult(Healthy, Some("Webhook registered"))
  const NotRegistered := HealthCheckResult(Unhealthy, Some(RegisterFailed))

  /** The PUT of webhook `w` to `receiver`, signed with `secret`. */
  predicate IsRegistrationOf(p: WebhookPut, w: Webhook, receiver: string, secret: Option<Guid>) {
    && p.path == WebhooksPath
    && p.body == WebhookRegistration(WebhookId(w.id), true, receiver, secret, w.events)
  }

  /** The receiver URL of webhook `k`: `new Uri(ReceiverUrl, receiver)`, a null base URL being
      an ArgumentNullException. */
  function ReceiverFor(k: nat, receiverUrl: Option<string>, resolve: (string, string) -> Result<string, Error>): Result<string, Error>
    requires k < |Webhooks|
  {
    if receiverUrl.None? then Err(ArgumentNull("baseUri")) else resolve(receiverUrl.value, Webhooks[k].receiver)
  }

  /** The PUT at position j of `ps`, logged by an InitAsync that started at `start`, registers
      webhook j - start at its receiver URL. */
  ghost predicate RegisteredAt(ps: seq<WebhookPut>, j: nat, start: nat, receiverUrl: Option<string>, secret: Option<Guid>,
                               resolve: (string, string) -> Result<string, Error>)
    requires start <= j < |ps| && j - start < |Webhooks|
  {
    var k := j - start;
    ReceiverFor(k, receiverUrl, resolve).Ok? && IsRegistrationOf(ps[j], Webhooks[k], ReceiverFor(k, receiverUrl, resolve).value, secret)
  }

  /** The PUTs of one InitAsync, logged from position `start` on: the j-th registers webhook j
      at its receiver URL. */
  ghost predicate InOrder(ps: seq<WebhookPut>, start: nat, receiverUrl: Option<string>, secret: Option<Guid>,
                          resolve: (string, string) -> Result<string, Error>)
  {
    && start <= |ps| <= start + |Webhooks|
    && forall j :: start <= j < |ps| ==> RegisteredAt(ps, j, start, receiverUrl, secret, resolve)
  }

  /** The API accepted the k-th PUT. */
  predicate Accepts(put: (nat, WebhookPut) -> Result<int, Error>, k: nat, p: WebhookPut) {
    put(k, p).Ok? && IsSuccessStatusCode(put(k, p).value)
  }

  /** The API accepted every PUT logged from position `start` on. */
  ghost predicate AllAccepted(ps: seq<WebhookPut>, start: nat, put: (nat, WebhookPut) -> Result<int, Error>) {
    forall j :: start <= j < |ps| ==> Accepts(put, j - start, ps[j])
  }

  /** Appending the registration of the next webhook keeps the PUTs in order. */
  lemma InOrderStep(ps: seq<WebhookPut>, ps': seq<WebhookPut>, start: nat, k: nat, receiverUrl: Option<string>,
                    secret: Option<Guid>, resolve: (string, string) -> Result<string, Error>)
    requires InOrder(ps, start, receiverUrl, secret, resolve) && |ps| == start + k && k < |Webhooks|
    requires |ps| <= |ps'| <= |ps| + 1 && ps'[..|ps|] == ps
    requires |ps'| == |ps| + 1 ==>
      ReceiverFor(k, receiverUrl, resolve).Ok? &&
      IsRegistrationOf(ps'[|ps|], Webhooks[k], ReceiverFor(k, receiverUrl, resolve).value, secret)
    ensures InOrder(ps', start, receiverUrl, secret, resolve)
  {
    forall j | start <= j < |ps'| ensures RegisteredAt(ps', j, start, receiverUrl, secret, resolve) {
      if j < |ps| {
        assert ps'[j] == ps'[..|ps|][j] == ps[j];
        assert RegisteredAt(ps, j, start, receiverUrl, secret, resolve);
      }
    }
  }

  /** Every PUT logged from position `start` on was accepted, except possibly the last one. */
  ghost predicate AcceptedBeforeLast(ps: seq<WebhookPut>, start: nat, put: (nat, WebhookPut) -> Result<int, Error>) {
    forall j :: start <= j < |ps| - 1 ==> Accepts(put, j - start, ps[j])
  }

  /** Appending an accepted PUT keeps every PUT accepted. */
  lemma AllAcceptedStep(ps: seq<WebhookPut>, ps': seq<WebhookPut>, start: nat, k: nat, put: (nat, WebhookPut) -> Result<int, Error>)
    requires AllAccepted(ps, start, put) && |ps| == start + k
    requires |ps'| == |ps| + 1 && ps'[..|ps|] == ps && Accepts(put, k, ps'[|ps|])
    ensures AllAccepted(ps', start, put)
  {
    forall j | start <= j < |ps'| ensures Accepts(put, j - start, ps'[j]) {
      if j < |ps| {
        assert ps'[j] == ps[j];
      }
    }
  }

  class PrimeService {
    const config: PrimeConfig?
    const tenantConfig: PrimeTenantConfig
    /** The HttpClient's base address; None until it is first built. */
    var baseAddress: Option<string>
    /** The HttpClient's Authorization header. */
    var authorization: Option<AuthHeader>
    var accessTokenExpiresOn: Option<int>
    var health: HealthCheckResult
    /** Every token request and every webhook PUT sent, in order. */
    ghost var tokenRequests: seq<PrimeTokenRequest>
    ghost var puts: seq<WebhookPut>

    constructor (config: PrimeConfig?, tenantConfig: PrimeTenantConfig)
      ensures this.config == config && this.tenantConfig == tenantConfig
      ensures baseAddress.None? && authorization.None? && accessTokenExpiresOn.None?
      ensures health == StartingUp && tokenRequests == [] && puts == []
    {
      this.config := config;
      this.tenantConfig := tenantConfig;
      baseAddress, authorization, accessTokenExpiresOn := None, None, None;
      health := StartingUp;
      tokenRequests, puts := [], [];
    }

    /** The address the HttpClient gets when it is built: the base URL, if the Uri parser
        accepts it. */
    function Address(uriError: string -> Option<Error>): (r: Result<string, Error>)
      reads config, tenantConfig
      ensures var b := BaseUrl(tenantConfig.apiUrl, if config == null then Err(NullReference) else Ok(config.apiUrl), tenantConfig.tenant);
        && (r.Ok? <==> b.Ok? && uriError(b.value).None?)
        && (r.Ok? ==> r.value == b.value)
        && (b.Err? ==> r == Err(b.error))
        && (b.Ok? && uriError(b.value).Some? ==> r == Err(uriError(b.value).value))
    {
      var baseApiUrl := if config == null then Err(NullReference) else Ok(config.apiUrl);
      match BaseUrl(tenantConfig.apiUrl, baseApiUrl, tenantConfig.tenant)
      case Err(e) => Err(e)
      case Ok(url) => if uriError(url).Some? then Err(uriError(url).value) else Ok(url)
    }

    /** A new token is needed: none was ever obtained, or its expiry is strictly before now. */
    predicate TokenStale(now: int)
      reads this
    {
      accessTokenExpiresOn.None? || accessTokenExpiresOn.value < now
    }

    /** The client-credentials request: posted to the token endpoint, its form carries the grant
        type and each credential under its own name, and no other field. */
    function TokenRequest(): (r: PrimeTokenRequest)
      requires config != null
      reads config
      ensures r.url == config.tokenEndpoint
      ensures FormValue(r.form, "grant_type") == Some(Some("client_credentials"))
      ensures FormValue(r.form, "client_id") == Some(config.clientId)
      ensures FormValue(r.form, "client_secret") == Some(config.clientSecret)
      ensures FormValue(r.form, "scope") == Some(config.scope)
      ensures forall name :: FormValue(r.form, name).Some? ==> name in {"grant_type", "client_id", "client_secret", "scope"}
    {
      var form := [("grant_type", Some("client_credentials")), ("client_id", config.clientId),
                   ("client_secret", config.clientSecret), ("scope", config.scope)];
      FormValueOfFour(form[0], form[1], form[2], form[3]);
      PrimeTokenRequest(config.tokenEndpoint, form)
    }

    /** GetOAuthToken: reads the credentials (a null configuration throws), posts the request and
        checks the reply. */
    method GetOAuthToken(now: int, reply: Result<TokenResponse, Error>) returns (r: Result<(string, int), Error>)
      modifies this`tokenRequests
      ensures config == null ==> r == Err(NullReference) && tokenRequests == old(tokenRequests)
      ensures config != null ==> tokenRequests == old(tokenRequests) + [TokenRequest()] && r == TokenOutcome(now, reply)
    {
      if config == null {
        return Err(NullReference);
      }
      tokenRequests := tokenRequests + [TokenRequest()];
      r := TokenOutcome(now, reply);
    }

    /** GetHttpClient: builds the client on first use (a failure leaves it unbuilt), then fetches
        a token when the recorded one is stale. A failed fetch keeps the previous expiry and
        header. */
    method GetHttpClient(now: int, reply: Result<TokenResponse, Error>, uriError: string -> Option<Error>) returns (r: Result<(), Error>)
      modifies this`baseAddress, this`authorization, this`accessTokenExpiresOn, this`tokenRequests
      ensures old(baseAddress).Some? ==> baseAddress == old(baseAddress)
      ensures old(baseAddress).None? && Address(uriError).Err? ==>
        && r == Err(Address(uriError).error) && baseAddress.None?
        && authorization == old(authorization) && accessTokenExpiresOn == old(accessTokenExpiresOn)
        && tokenRequests == old(tokenRequests)
      ensures old(baseAddress).None? && Address(uriError).Ok? ==> baseAddress == Some(Address(uriError).value)
      ensures (old(baseAddress).Some? || Address(uriError).Ok?) && !old(TokenStale(now)) ==>
        && r == Ok(()) && authorization == old(authorization) && accessTokenExpiresOn == old(accessTokenExpiresOn)
        && tokenRequests == old(tokenRequests)
      ensures (old(baseAddress).Some? || Address(uriError).Ok?) && old(TokenStale(now)) && config == null ==>
        && r == Err(NullReference) && authorization == old(authorization) && accessTokenExpiresOn == old(accessTokenExpiresOn)
        && tokenRequests == old(tokenRequests)
      ensures (old(baseAddress).Some? || Address(uriError).Ok?) && old(TokenStale(now)) && config != null ==>
        && tokenRequests == old(tokenRequests) + [TokenRequest()]
        && match TokenOutcome(now, reply)
           case Err(e) =>
             r == Err(e) && authorization == old(authorization) && accessTokenExpiresOn == old(accessTokenExpiresOn)
           case Ok(fetched) =>
             r == Ok(()) && authorization == Some(Bearer(fetched.0)) && accessTokenExpiresOn == Some(fetched.1)
      ensures r.Ok? ==> baseAddress.Some? && accessTokenExpiresOn.Some?
    {
      if baseAddress.None? {
        var address := Address(uriError);
        if address.Err? {
          return Err(address.error);
        }
        baseAddress := Some(address.value);
      }
      if accessTokenExpiresOn.None? || accessTokenExpiresOn.value < now {
        var fetched := GetOAuthToken(now, reply);
        if fetched.Err? {
          return Err(fetched.error);
        }
        accessTokenExpiresOn := Some(fetched.value.1);
        authorization := Some(Bearer(fetched.value.0));
      }
      r := Ok(());
    }

    /** RegisterWebhookAsync for webhook `k`: any exception, from the client or from the PUT,
        is rethrown as "Failed to register webhook". */
    method RegisterWebhook(k: nat, receiver: string, now: int, reply: Result<TokenResponse, Error>,
                           uriError: string -> Option<Error>, put: (nat, WebhookPut) -> Result<int, Error>)
      returns (r: Result<(), Error>)
      requires k < |Webhooks| && config != null
      modifies this`baseAddress, this`authorization, this`accessTokenExpiresOn, this`tokenRequests, this`puts
      ensures old(baseAddress).Some? ==> baseAddress == old(baseAddress)
      ensures r.Err? ==> r.error == Failure(RegisterFailed)
      ensures |old(puts)| <= |puts| <= |old(puts)| + 1 && puts[..|old(puts)|] == old(puts)
      ensures |puts| == |old(puts)| + 1 ==>
        var p := puts[|puts| - 1];
        && IsRegistrationOf(p, Webhooks[k], receiver, config.signingKey)
        && Some(p.baseAddress) == baseAddress && p.authorization == authorization
      ensures r.Ok? <==> |puts| == |old(puts)| + 1 && Accepts(put, k, puts[|puts| - 1])
    {
      var client := GetHttpClient(now, reply, uriError);
      if client.Err? {
        return Err(Failure(RegisterFailed));
      }
      var w := Webhooks[k];
      var p := WebhookPut(baseAddress.value, WebhooksPath, authorization,
                          WebhookRegistration(WebhookId(w.id), true, receiver, config.signingKey, w.events));
      puts := puts + [p];
      var status := put(k, p);
      if status.Err? || !IsSuccessStatusCode(status.value) {
        return Err(Failure(RegisterFailed));
      }
      r := Ok(());
    }

    /** One of the four steps of InitAsync: the receiver URL of webhook `k` (computed before
        RegisterWebhookAsync is entered, so its exceptions are not wrapped), then the
        registration. This InitAsync's PUTs are logged from `start` on, after `prefix`. */
    method RegisterStep(k: nat, ghost start: nat, ghost prefix: seq<WebhookPut>, now: int,
                        tokenReply: nat -> Result<TokenResponse, Error>, uriError: string -> Option<Error>,
                        resolve: (string, string) -> Result<string, Error>, put: (nat, WebhookPut) -> Result<int, Error>)
      returns (r: Result<(), Error>)
      requires k < |Webhooks| && start + k == |puts| && |prefix| == start && puts[..start] == prefix
      requires config != null ==> InOrder(puts, start, config.receiverUrl, config.signingKey, resolve)
      requires AllAccepted(puts, start, put)
      modifies this`baseAddress, this`authorization, this`accessTokenExpiresOn, this`tokenRequests, this`puts
      ensures old(baseAddress).Some? ==> baseAddress == old(baseAddress)
      ensures config == null ==> r == Err(NullReference) && puts == old(puts)
      ensures start <= |puts| && puts[..start] == prefix
      ensures config != null ==> InOrder(puts, start, config.receiverUrl, config.signingKey, resolve)
      ensures start + k <= |puts| <= start + k + 1
      ensures config != null ==> (r.Ok? <==> |puts| == start + k + 1 && AllAccepted(puts, start, put))
      ensures AcceptedBeforeLast(puts, start, put)
      ensures config != null && config.receiverUrl.None? ==> r == Err(ArgumentNull("baseUri")) && puts == old(puts)
    {
      if config == null {
        return Err(NullReference);
      }
      var receiver := ReceiverFor(k, config.receiverUrl, resolve);
      if receiver.Err? {
        return Err(receiver.error);
      }
      ghost var before := puts;
      r := RegisterWebhook(k, receiver.value, now, tokenReply(k), uriError, put);
      InOrderStep(before, puts, start, k, config.receiverUrl, config.signingKey, resolve);
      if r.Ok? {
        AllAcceptedStep(before, puts, start, k, put);
      } else if |puts| == |before| + 1 {
        assert !Accepts(put, |puts| - 1 - start, puts[|puts| - 1]);
      }
      assert forall j :: start <= j < |puts| - 1 ==> puts[j] == before[j];
      assert puts[..start] == before[..start];
    }

    /** The four registrations of InitAsync, in order, stopping at the first exception. */
    method RegisterAll(now: int, tokenReply: nat -> Result<TokenResponse, Error>, uriError: string -> Option<Error>,
                       resolve: (string, string) -> Result<string, Error>, put: (nat, WebhookPut) -> Result<int, Error>)
      returns (r: Result<(), Error>)
      modifies this`baseAddress, this`authorization, this`accessTokenExpiresOn, this`tokenRequests, this`puts
      ensures config == null ==> r == Err(NullReference) && puts == old(puts)
      ensures old(baseAddress).Some? ==> baseAddress == old(baseAddress)
      ensures |old(puts)| <= |puts| && puts[..|old(puts)|] == old(puts)
      ensures config != null ==> InOrder(puts, |old(puts)|, config.receiverUrl, config.signingKey, resolve)
      // all four registered and accepted exactly on success; a refused PUT is the last one sent
      ensures config != null ==> (r.Ok? <==> |puts| == |old(puts)| + |Webhooks| && AllAccepted(puts, |old(puts)|, put))
      ensures AcceptedBeforeLast(puts, |old(puts)|, put)
      ensures config != null && config.receiverUrl.None? ==> r == Err(ArgumentNull("baseUri")) && puts == old(puts)
    {
      ghost var start := |puts|;
      ghost var prefix := puts;
      assert puts[..start] == prefix;
      r := RegisterStep(0, start, prefix, now, tokenReply, uriError, resolve, put);
      if r.Err? {
        return;
      }
      r := RegisterStep(1, start, prefix, now, tokenReply, uriError, resolve, put);
      if r.Err? {
        return;
      }
      r := RegisterStep(2, start, prefix, now, tokenReply, uriError, resolve, put);
      if r.Err? {
        return;
      }
      r := RegisterStep(3, start, prefix, now, tokenReply, uriError, resolve, put);
    }

    /** InitAsync: Healthy ("Webhook registered") when all four registrations succeed,
        otherwise Unhealthy ("Failed to register webhook") and the exception is rethrown. */
    method InitAsync(now: int, tokenReply: nat -> Result<TokenResponse, Error>, uriError: string -> Option<Error>,
                     resolve: (string, string) -> Result<string, Error>, put: (nat, WebhookPut) -> Result<int, Error>)
      returns (r: Result<(), Error>)
      modifies this
      ensures r.Ok? <==> health == Registered
      ensures r.Err? ==> health == NotRegistered
      ensures config == null ==> r == Err(NullReference) && puts == old(puts)
      ensures old(baseAddress).Some? ==> baseAddress == old(baseAddress)
      ensures |old(puts)| <= |puts| && puts[..|old(puts)|] == old(puts)
      ensures config != null ==> InOrder(puts, |old(puts)|, config.receiverUrl, config.signingKey, resolve)
      ensures config != null ==> (r.Ok? <==> |puts| == |old(puts)| + |Webhooks| && AllAccepted(puts, |old(puts)|, put))
      ensures AcceptedBeforeLast(puts, |old(puts)|, put)
      ensures config != null && config.receiverUrl.None? ==> r == Err(ArgumentNull("baseUri")) && puts == old(puts)
    {
      r := RegisterAll(now, tokenReply, uriError, resolve, put);
      if r.Ok? {
        health := Registered;
      } else {
        health := NotRegistered;
      }
    }
  }

  /** The registry of Prime services by exact tenant alias. */
  class PrimeServiceFactory {
    var tenants: map<string, PrimeService>

    constructor ()
      ensures tenants == map[]
    {
      tenants := map[];
    }

    /** Create: get-or-create under the tenant settings' own alias; the first settings
        registered for an alias win. A null tenant section fails on the member access, a blank
        alias is rejected. */
    method Create(config: PrimeConfig?, tenantConfig: PrimeTenantConfig?) returns (r: Result<PrimeService, Error>)
      modifies this
      ensures tenantConfig == null ==> r == Err(NullReference) && tenants == old(tenants)
      ensures tenantConfig != null && IsNullOrWhiteSpace(tenantConfig.tenant) ==>
        r == Err(ArgumentNull("config.Tenant")) && tenants == old(tenants)
      ensures tenantConfig != null && !IsNullOrWhiteSpace(tenantConfig.tenant) && tenantConfig.tenant.value in old(tenants) ==>
        r == Ok(old(tenants)[tenantConfig.tenant.value]) && tenants == old(tenants)
      ensures tenantConfig != null && !IsNullOrWhiteSpace(tenantConfig.tenant) && tenantConfig.tenant.value !in old(tenants) ==>
        && r.Ok? && fresh(r.value) && r.value.config == config && r.value.tenantConfig == tenantConfig
        && r.value.health == StartingUp && tenants == old(tenants)[tenantConfig.tenant.value := r.value]
    {
      if tenantConfig == null {
        return Err(NullReference);
      }
      if IsNullOrWhiteSpace(tenantConfig.tenant) {
        return Err(ArgumentNull("config.Tenant"));
      }
      var alias := tenantConfig.tenant.value;
      if alias in tenants {
        return Ok(tenants[alias]);
      }
      var service := new PrimeService(config, tenantConfig);
      tenants := tenants[alias := service];
      r := Ok(service);
    }

    /** Get: the service registered under exactly this alias; never creates one. */
    method Get(tenantAlias: Option<string>) returns (r: Result<PrimeService, Error>)
      ensures tenantAlias.None? ==> r == Err(ArgumentNull("key"))
      ensures tenantAlias.Some? && tenantAlias.value in tenants ==> r == Ok(tenants[tenantAlias.value])
      ensures tenantAlias.Some? && tenantAlias.value !in tenants ==>
        r == Err(Failure("Cannot find configuration for tenant " + tenantAlias.value))
    {
      if tenantAlias.None? {
        return Err(ArgumentNull("key"));
      }
      if tenantAlias.value !in tenants {
        return Err(Failure("Cannot find configuration for tenant " + tenantAlias.value));
      }
      r := Ok(tenants[tenantAlias.value]);
    }
  }
}
