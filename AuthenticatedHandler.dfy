/** The bearer-token message handler (AuthenticatedHttpClientHandler): every request carries the
    cached token (section 2.1 of RFC 6750); a 401 answer (section 15.5.2 of RFC 9110) forces one
    refresh and one resend. The token service is the NetDocuments one, the only implementation
    of ITokenService; the inner transport is a function from the attempt number and the
    Authorization header to a status code or a transport failure. */
module AuthenticatedHandler {
  import opened Common
  import opened Http
  import opened NetDocsToken

  class AuthenticatedHttpClientHandler {
    const tokenService: NetDocsTokenService

    constructor (tokenService: NetDocsTokenService)
      ensures this.tokenService == tokenService
    {
      this.tokenService := tokenService;
    }

    /** SendAsync. `tokenReply` answers a token request made while obtaining the cached token,
        `refreshReply` the forced refresh after a 401. `sent` lists the Authorization headers of
        the requests sent, in order. The first request carries the token GetAccessTokenAsync
        yields (TokenStep); a 401 forces one refresh (RefreshOutcome from the cache the first
        step left, at the clock reading `refreshNow` taken after the first round trip) and one
        resend with the refreshed token, whose answer is returned. An exception from either
        token step ends the call with no further send. */
    method SendAsync(now: int, refreshNow: int, tokenReply: Result<TokenResponse, Error>, refreshReply: Result<TokenResponse, Error>,
                     send: (nat, AuthHeader) -> Result<int, Error>)
      returns (r: Result<int, Error>, sent: seq<AuthHeader>)
      modifies tokenService
      ensures var first := TokenStep(old(tokenService.Cached()), now, tokenReply);
        && (first.0.Err? ==> sent == [] && r == Err(first.0.error) && tokenService.Cached() == first.1)
        && (first.0.Ok? && send(0, Bearer(first.0.value)) != Ok(Unauthorized) ==>
              && sent == [Bearer(first.0.value)] && r == send(0, Bearer(first.0.value))
              && tokenService.Cached() == first.1)
        && (first.0.Ok? && send(0, Bearer(first.0.value)) == Ok(Unauthorized) ==>
              var second := RefreshOutcome(first.1, refreshNow, refreshReply);
              && tokenService.Cached() == second.1
              && (second.0.Err? ==> sent == [Bearer(first.0.value)] && r == Err(second.0.error))
              && (second.0.Ok? ==>
                    sent == [Bearer(first.0.value), Bearer(second.0.value)] && r == send(1, Bearer(second.0.value))))
      // one token request when the cached token needed replacing, one more after a 401
      ensures tokenService.requests == old(tokenService.requests)
        + (if old(tokenService.NeedsRefresh(now)) then [tokenService.Request()] else [])
        + (if sent != [] && send(0, sent[0]) == Ok(Unauthorized) then [tokenService.Request()] else [])
    {
      var token := tokenService.GetAccessToken(now, tokenReply);
      if token.Err? {
        return Err(token.error), [];
      }
      var header := Bearer(token.value);
      sent := [header];
      var response := send(0, header);
      if response == Ok(Unauthorized) {
        token := tokenService.Refresh(refreshNow, refreshReply);
        if token.Err? {
          return Err(token.error), sent;
        }
        header := Bearer(token.value);
        sent := sent + [header];
        response := send(1, header);
      }
      r := response;
    }
  }

  /** The constructor's null check: a missing token service throws. */
  method NewHandler(tokenService: NetDocsTokenService?) returns (r: Result<AuthenticatedHttpClientHandler, Error>)
    ensures tokenService == null <==> r == Err(ArgumentNull("tokenService"))
    ensures r.Ok? ==> fresh(r.value) && r.value.tokenService == tokenService
  {
    if tokenService == null {
      return Err(ArgumentNull("tokenService"));
    }
    var h := new AuthenticatedHttpClientHandler(tokenService);
    r := Ok(h);
  }
}
