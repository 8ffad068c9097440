/** The NetDocuments bearer-token cache (NetDocsTokenService): a token and its expiry, refreshed
    by an OAuth 2.0 client-credentials grant (section 4.4 of RFC 6749) whose client credential
    travels as HTTP Basic authentication (section 2 of RFC 7617). The token endpoint's reply is
    a parameter; the semaphore is left out (calls are sequential). */
module NetDocsToken {
  import opened Common
  import opened Http

  const UserAgent := "PEPrime-NetDocs"
  const AcceptJson := "application/json"
  /** The form body of every token request. */
  const TokenForm: seq<(string, string)> := [("grant_type", "client_credentials"), ("scope", "full")]
  /** Seconds taken off the advertised lifetime of a token. */
  const ExpiryMarginSeconds: int := 5

  /** A token request as sent: its URL, headers and form body. */
  datatype TokenRequest = TokenRequest(
    url: Option<string>, userAgent: string, accept: string, authorization: AuthHeader,
    form: seq<(string, string)>)

  /** The Basic credential before base64 encoding: "{clientId}|{repositoryId}:{clientSecret}". */
  function Credential(clientId: Option<string>, repositoryId: Option<string>, clientSecret: Option<string>): string {
    Hole(clientId) + "|" + Hole(repositoryId) + ":" + Hole(clientSecret)
  }

  predicate NoChar(s: string, c: char) {
    forall i :: 0 <= i < |s| ==> s[i] != c
  }

  /** The position of the first `c` in `s`, |s| when there is none. */
  function IndexOf(s: string, c: char): (i: nat)
    ensures i <= |s|
    ensures forall j :: 0 <= j < i ==> s[j] != c
    ensures i < |s| ==> s[i] == c
  {
    if s == [] || s[0] == c then 0 else 1 + IndexOf(s[1..], c)
  }

  /** How the token endpoint reads the Basic user-pass: the client id up to the first '|', the
      repository id up to the next ':', and the client secret after it. */
  function SplitCredential(u: string): (string, string, string) {
    var i := IndexOf(u, '|');
    var rest := if i < |u| then u[i + 1..] else [];
    var j := IndexOf(rest, ':');
    (u[..i], rest[..j], if j < |rest| then rest[j + 1..] else [])
  }

  lemma IndexOfFirst(a: string, c: char, b: string)
    requires NoChar(a, c)
    ensures IndexOf(a + [c] + b, c) == |a|
  {
    var s := a + [c] + b;
    assert s[|a|] == c;
    assert forall j :: 0 <= j < |a| ==> s[j] == a[j];
  }

  /** "{id}|{repo}:{secret}" splits back into its three parts when `id` has no '|' and `repo`
      no ':'. */
  lemma SplitJoined(id: string, repo: string, secret: string)
    requires NoChar(id, '|') && NoChar(repo, ':')
    ensures SplitCredential(id + "|" + repo + ":" + secret) == (id, repo, secret)
  {
    var rest := repo + [':'] + secret;
    var u := id + "|" + repo + ":" + secret;
    assert u == id + ['|'] + rest;
    IndexOfFirst(id, '|', rest);
    assert u[|id| + 1..] == rest;
    assert u[..|id|] == id;
    IndexOfFirst(repo, ':', secret);
    assert rest[..|repo|] == repo;
    assert rest[|repo| + 1..] == secret;
  }

  /** The credential splits back into its parts when the client id has no '|' and the
      repository id no ':' (null parts being empty). */
  lemma CredentialSplits(clientId: Option<string>, repositoryId: Option<string>, clientSecret: Option<string>)
    ensures NoChar(Hole(clientId), '|') && NoChar(Hole(repositoryId), ':') ==>
      SplitCredential(Credential(clientId, repositoryId, clientSecret)) == (Hole(clientId), Hole(repositoryId), Hole(clientSecret))
  {
    if NoChar(Hole(clientId), '|') && NoChar(Hole(repositoryId), ':') {
      SplitJoined(Hole(clientId), Hole(repositoryId), Hole(clientSecret));
    }
  }

  /** The property lookups of a successful reply, in the order the code performs them:
      GetProperty("access_token").GetString(), the empty check, GetProperty("expires_in")
      .GetString(), then int.TryParse. The result is the token and its lifetime in seconds. */
  function ParseTokenReply(body: Option<map<string, Json>>): (r: Result<(string, int), Error>)
    ensures body.None? ==> r == Err(MalformedJson)
    ensures r.Ok? <==>
      && body.Some?
      && "access_token" in body.value && body.value["access_token"].JString?
      && body.value["access_token"].s != ""
      && "expires_in" in body.value && body.value["expires_in"].JString?
      && ParseInt32(Some(body.value["expires_in"].s)).Some?
    ensures r.Ok? ==>
      && body.value["access_token"] == JString(r.value.0)
      && ParseInt32(Some(body.value["expires_in"].s)) == Some(r.value.1)
      && IsInt32(r.value.1)
    ensures body.Some? && "access_token" !in body.value ==> r == Err(KeyNotFound)
    ensures body.Some? && "access_token" in body.value && body.value["access_token"] in {JNull, JString("")} ==>
      r == Err(Failure("Unable to obtain access_token"))
  {
    if body.None? then Err(MalformedJson)
    else if "access_token" !in body.value then Err(KeyNotFound)
    else match GetString(body.value["access_token"])
      case Err(e) => Err(e)
      case Ok(token) =>
        if IsNullOrEmpty(token) then Err(Failure("Unable to obtain access_token"))
        else if "expires_in" !in body.value then Err(KeyNotFound)
        else match GetString(body.value["expires_in"])
          case Err(e) => Err(e)
          case Ok(seconds) =>
            match ParseInt32(seconds)
            case None => Err(Failure("Unable to obtain expires_in"))
            case Some(n) => Ok((token.value, n))
  }

  /** A reply that carries a token and its lifetime as a decimal string is read back exactly. */
  lemma ParseTokenReplyRoundTrip(token: string, seconds: int, extra: map<string, Json>)
    requires token != "" && IsInt32(seconds)
    ensures ParseTokenReply(Some(extra["access_token" := JString(token)]["expires_in" := JString(FormatInt(seconds))]))
      == Ok((token, seconds))
  {
    ParseFormatRoundTrip(seconds);
  }

  /** A lifetime given as a JSON number is refused: the code reads expires_in as a string. */
  lemma NumericLifetimeRefused(token: string, seconds: int, extra: map<string, Json>)
    requires token != ""
    ensures ParseTokenReply(Some(extra["access_token" := JString(token)]["expires_in" := JInteger(seconds)]))
      == Err(InvalidOperation)
  {
  }

  /** The expiry recorded for a lifetime of `seconds`: five seconds early, the subtraction done in
      unchecked 32-bit arithmetic. */
  function ExpiryFor(now: int, seconds: int): (r: int)
    requires IsInt32(seconds)
    ensures Int32Min + ExpiryMarginSeconds <= seconds ==> r == now + (seconds - ExpiryMarginSeconds) * TicksPerSecond
  {
    AddSeconds(now, Wrap32(seconds - ExpiryMarginSeconds))
  }

  /** A token that lives longer than the margin is not expired at the moment it is received. */
  lemma FreshTokenNotExpired(now: int, seconds: int)
    requires IsInt32(seconds) && seconds >= ExpiryMarginSeconds
    ensures !(now > ExpiryFor(now, seconds))
  {
  }

  /** The wrap-around: the most negative lifetime becomes one of about 68 years. */
  lemma MostNegativeLifetimeWraps(now: int)
    ensures ExpiryFor(now, Int32Min) == now + (Int32Max - 4) * TicksPerSecond
  {
    assert Wrap32(Int32Min - ExpiryMarginSeconds) == Int32Max - 4;
  }

  /** The state of a token cache: the token and its expiry, in ticks. */
  datatype Cache = Cache(token: string, expires: int)

  /** The cached token must be replaced: it is empty, or the clock is past its expiry. */
  predicate Stale(c: Cache, now: int) {
    c.token == "" || now > c.expires
  }

  /** What one refresh (RefreshAccessTokenAsync) does, given the reply to its request: the result
      and the new cache. A transport failure or a bad successful reply throws and keeps the cache;
      a non-success status keeps the cache silently and hands back the cached token; a good reply
      replaces token and expiry. */
  function RefreshOutcome(c: Cache, now: int, reply: Result<TokenResponse, Error>): (o: (Result<string, Error>, Cache))
    ensures o.0.Ok? ==> o.0.value == o.1.token
    ensures o.0.Err? ==> o.1 == c
    ensures o.0.Err? <==> reply.Err? || (IsSuccessStatusCode(reply.value.status) && ParseTokenReply(reply.value.body).Err?)
    ensures o.1 != c ==> reply.Ok? && IsSuccessStatusCode(reply.value.status) && ParseTokenReply(reply.value.body).Ok?
    ensures reply.Ok? && IsSuccessStatusCode(reply.value.status) && ParseTokenReply(reply.value.body).Ok? ==>
      var parsed := ParseTokenReply(reply.value.body).value;
      o.1 == Cache(parsed.0, ExpiryFor(now, parsed.1))
  {
    match reply
    case Err(e) => (Err(e), c)
    case Ok(response) =>
      if !IsSuccessStatusCode(response.status) then (Ok(c.token), c)
      else match ParseTokenReply(response.body)
        case Err(e) => (Err(e), c)
        case Ok(parsed) => var c' := Cache(parsed.0, ExpiryFor(now, parsed.1)); (Ok(c'.token), c')
  }

  /** What GetAccessTokenAsync does: the cached token while it is good, otherwise a refresh. */
  function TokenStep(c: Cache, now: int, reply: Result<TokenResponse, Error>): (Result<string, Error>, Cache) {
    if Stale(c, now) then RefreshOutcome(c, now, reply) else (Ok(c.token), c)
  }

  /** A good reply with a lifetime above the margin is served as it is: the refresh returns its
      token, and the next GetAccessTokenAsync at the same instant returns it again without a
      request, whatever reply it would have received. */
  lemma GoodReplyServedWithoutRefetch(c: Cache, now: int, token: string, seconds: int, extra: map<string, Json>,
                                       status: int, next: Result<TokenResponse, Error>)
    requires token != "" && IsInt32(seconds) && seconds >= ExpiryMarginSeconds && IsSuccessStatusCode(status)
    ensures var body := Some(extra["access_token" := JString(token)]["expires_in" := JString(FormatInt(seconds))]);
      var o := RefreshOutcome(c, now, Ok(TokenResponse(status, body)));
      && o.0 == Ok(token) && !Stale(o.1, now)
      && TokenStep(o.1, now, next) == (Ok(token), o.1)
  {
    ParseTokenReplyRoundTrip(token, seconds, extra);
    FreshTokenNotExpired(now, seconds);
  }

  class NetDocsTokenService {
    const authTokenUrl: Option<string>
    const clientId: Option<string>
    const repositoryId: Option<string>
    const clientSecret: Option<string>
    /** The cached token, "" until the first successful refresh. */
    var accessToken: string
    /** The expiry, in ticks; default(DateTime) until the first successful refresh. */
    var expires: int
    /** Every token request this service has sent, in order. */
    ghost var requests: seq<TokenRequest>

    constructor (authTokenUrl: Option<string>, clientId: Option<string>, repositoryId: Option<string>, clientSecret: Option<string>)
      ensures this.authTokenUrl == authTokenUrl && this.clientId == clientId
      ensures this.repositoryId == repositoryId && this.clientSecret == clientSecret
      ensures accessToken == "" && expires == 0 && requests == []
    {
      this.authTokenUrl := authTokenUrl;
      this.clientId := clientId;
      this.repositoryId := repositoryId;
      this.clientSecret := clientSecret;
      accessToken := "";
      expires := 0;
      requests := [];
    }

    /** The request a refresh sends: a client-credentials grant with scope "full", whose Basic
        credential the endpoint splits back into client id, repository id and client secret. */
    function Request(): (r: TokenRequest)
      ensures r.url == authTokenUrl && r.userAgent == UserAgent && r.accept == AcceptJson
      ensures FormValue(r.form, "grant_type") == Some("client_credentials") && FormValue(r.form, "scope") == Some("full")
      ensures r.authorization.Basic?
      ensures NoChar(Hole(clientId), '|') && NoChar(Hole(repositoryId), ':') ==>
        SplitCredential(r.authorization.userPass) == (Hole(clientId), Hole(repositoryId), Hole(clientSecret))
    {
      CredentialSplits(clientId, repositoryId, clientSecret);
      TokenRequest(authTokenUrl, UserAgent, AcceptJson, Basic(Credential(clientId, repositoryId, clientSecret)), TokenForm)
    }

    function Cached(): Cache
      reads this
    {
      Cache(accessToken, expires)
    }

    predicate NeedsRefresh(now: int)
      reads this
    {
      Stale(Cached(), now)
    }

    /** One refresh happened: one request was sent, and result and cache are RefreshOutcome's. */
    twostate predicate Refreshed(now: int, reply: Result<TokenResponse, Error>, new r: Result<string, Error>)
      reads this
    {
      && requests == old(requests) + [Request()]
      && (r, Cached()) == RefreshOutcome(old(Cached()), now, reply)
    }

    /** RefreshAccessTokenAsync: always sends one token request. */
    method Refresh(now: int, reply: Result<TokenResponse, Error>) returns (r: Result<string, Error>)
      modifies this
      ensures Refreshed(now, reply, r)
      ensures r.Ok? ==> r.value == accessToken
    {
      requests := requests + [Request()];
      if reply.Err? {
        return Err(reply.error);
      }
      var response := reply.value;
      if IsSuccessStatusCode(response.status) {
        var parsed := ParseTokenReply(response.body);
        if parsed.Err? {
          return Err(parsed.error);
        }
        accessToken := parsed.value.0;
        expires := ExpiryFor(now, parsed.value.1);
      }
      r := Ok(accessToken);
    }

    /** GetAccessTokenAsync: the cached token while it is neither empty nor expired, otherwise
        whatever a refresh leaves behind. */
    method GetAccessToken(now: int, reply: Result<TokenResponse, Error>) returns (r: Result<string, Error>)
      modifies this
      ensures (r, Cached()) == TokenStep(old(Cached()), now, reply)
      ensures requests == old(requests) + (if old(NeedsRefresh(now)) then [Request()] else [])
      ensures r.Ok? ==> r.value == accessToken
    {
      if accessToken == "" || now > expires {
        r := Refresh(now, reply);
      } else {
        r := Ok(accessToken);
      }
    }
  }
}
