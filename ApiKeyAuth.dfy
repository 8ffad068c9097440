/** The console's authorization (ApiKeyAuthorizationHandler): the first X-API-KEY value must be
    the configured key. */
module ApiKeyAuth {
  import opened Common
  import opened Authorization

  const ApiKeyHeader := "X-API-KEY"

  /** ApiKeyRequirement: the key the console policy demands. */
  datatype ApiKeyRequirement = ApiKeyRequirement(apiKey: string)

  /** The requirement's constructor: a null key throws. */
  function NewApiKeyRequirement(apiKey: Option<string>): Result<ApiKeyRequirement, Error> {
    if apiKey.None? then Err(ArgumentNull("apiKey")) else Ok(ApiKeyRequirement(apiKey.value))
  }

  /** The key check: the first value of the header is present and equal to the key. */
  predicate KeyMatches(request: HttpRequest, requirement: ApiKeyRequirement) {
    First(HeaderValues(request.headers, ApiKeyHeader)) == Some(requirement.apiKey)
  }

  /** Only the first value counts: a wrong first value is refused even when the key follows. */
  lemma OnlyFirstValueCounts(httpMethod: string, other: Headers, wrong: string, requirement: ApiKeyRequirement)
    requires wrong != requirement.apiKey
    ensures !KeyMatches(HttpRequest(httpMethod, other[ApiKeyHeader := [wrong, requirement.apiKey]]), requirement)
    ensures KeyMatches(HttpRequest(httpMethod, other[ApiKeyHeader := [requirement.apiKey, wrong]]), requirement)
  {
  }

  /** The console policy end to end: a configured key yields a requirement that admits exactly
      the requests whose first X-API-KEY value is that key, whatever else they carry; a missing
      key yields no requirement at all, so no request is ever admitted with a null key. */
  lemma ConsolePolicyAdmitsItsKey(apiKey: Option<string>, request: HttpRequest)
    ensures NewApiKeyRequirement(apiKey).Ok? <==> apiKey.Some?
    ensures apiKey.None? ==> NewApiKeyRequirement(apiKey) == Err(ArgumentNull("apiKey"))
    ensures apiKey.Some? ==>
      (KeyMatches(request, NewApiKeyRequirement(apiKey).value) <==>
         ApiKeyHeader in request.headers && request.headers[ApiKeyHeader] != [] && request.headers[ApiKeyHeader][0] == apiKey.value)
  {
  }

  class ApiKeyAuthorizationHandler {
    constructor ()
    {
    }

    /** HandleRequirementAsync: exactly one of Succeed and Fail is recorded. A resource that is
        not an HttpContext is dereferenced as null and throws before anything is recorded. */
    method Handle(context: AuthContext, requirement: ApiKeyRequirement) returns (r: Result<(), Error>)
      modifies context
      ensures context.claims == old(context.claims)
      ensures r.Err? <==> context.resource.OtherResource?
      ensures r.Err? ==>
        r.error == NullReference && context.succeeded == old(context.succeeded) && context.failures == old(context.failures)
      ensures r.Ok? && KeyMatches(context.resource.request, requirement) ==>
        context.succeeded && context.failures == old(context.failures)
      ensures r.Ok? && !KeyMatches(context.resource.request, requirement) ==>
        context.succeeded == old(context.succeeded) && context.failures == old(context.failures) + [None]
    {
      if context.resource.OtherResource? {
        return Err(NullReference);
      }
      var apiKeyHeader := First(HeaderValues(context.resource.request.headers, ApiKeyHeader));
      if apiKeyHeader.Some? && apiKeyHeader.value == requirement.apiKey {
        context.succeeded := true;
      } else {
        context.failures := context.failures + [None];
      }
      r := Ok(());
    }
  }

  /** On a fresh context the handler's verdict is exactly the key check. */
  method Authorize(request: HttpRequest, requirement: ApiKeyRequirement) returns (granted: bool)
    ensures granted <==> KeyMatches(request, requirement)
  {
    var context := new AuthContext(HttpContextResource(request));
    var handler := new ApiKeyAuthorizationHandler();
    var r := handler.Handle(context, requirement);
    granted := context.HasSucceeded();
  }
}
