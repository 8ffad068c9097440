/** The parts of ASP.NET Core authorization the two handlers touch: the request they inspect
    (method and headers), the context in which they record Succeed and Fail, and the claims
    they add to the caller's identity. */
module Authorization {
  import opened Common

  /** A header's values (StringValues). A missing header has no values. */
  type Headers = map<string, seq<string>>

  datatype HttpRequest = HttpRequest(httpMethod: string, headers: Headers)

  /** AuthorizationHandlerContext.Resource: the HttpContext of the request, or anything else. */
  datatype Resource = HttpContextResource(request: HttpRequest) | OtherResource

  /** The claims the handlers add; only the tenant claim exists. */
  datatype Claim = TenantClaim(alias: string)

  /** Headers[name]: the values of the header, none when it is absent. */
  function HeaderValues(headers: Headers, name: string): seq<string> {
    if name in headers then headers[name] else []
  }

  /** string.Join(sep, parts). */
  function Join(sep: string, parts: seq<string>): string {
    if parts == [] then ""
    else if |parts| == 1 then parts[0]
    else parts[0] + sep + Join(sep, parts[1..])
  }

  /** The implicit conversion of StringValues to string: null for no value, the value itself for
      one, the values joined with ',' for several. */
  function AsString(values: seq<string>): (r: Option<string>)
    ensures r.None? <==> values == []
    ensures |values| == 1 ==> r == Some(values[0])
  {
    if values == [] then None else Some(Join(",", values))
  }

  /** StringValues.ToString(), as string interpolation uses it: the empty string for no value. */
  function Text(values: seq<string>): string {
    Hole(AsString(values))
  }

  /** StringValues.FirstOrDefault(): the first value, null for none. */
  function First(values: seq<string>): Option<string> {
    if values == [] then None else Some(values[0])
  }

  /** AuthorizationHandlerContext with the single requirement of the policy being evaluated. */
  class AuthContext {
    const resource: Resource
    /** Succeed(requirement) has been called. */
    var succeeded: bool
    /** The Fail calls made, in order, each with its reason (null for Fail()). */
    var failures: seq<Option<string>>
    /** The claims added to the caller's identity, in order. */
    var claims: seq<Claim>

    constructor (resource: Resource)
      ensures this.resource == resource && !succeeded && failures == [] && claims == []
    {
      this.resource := resource;
      succeeded := false;
      failures := [];
      claims := [];
    }

    /** The requirement passes: Succeed was called and Fail never was. */
    predicate HasSucceeded()
      reads this
    {
      succeeded && failures == []
    }
  }
}
