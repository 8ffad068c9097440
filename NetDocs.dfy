/** The NetDocuments side of one tenant (NetDocsService): id sanitising, the set-up of its
    authenticated HTTP client, the configuration check built on that set-up, the health status
    InitAsync leaves behind, and the per-tenant registry (NetDocsServiceFactory). Uri parsing is
    the parameter `uriError`: the exception `new Uri(s)` throws for `s`, if any. */
module NetDocs {
  import opened Common
  import opened Configurations
  import opened NetDocsToken
  import opened AuthenticatedHandler

  // ---------------------------------------------------------------------------------------
  // Sanitise: NetDocuments attribute ids may not contain '/'.

  function SanitiseChar(c: char): char {
    if c == '/' then '-' else c
  }

  /** string.Replace('/', '-'). */
  function Sanitise(s: string): (r: string)
    ensures |r| == |s|
    ensures forall i :: 0 <= i < |s| ==> r[i] == SanitiseChar(s[i])
  {
    if s == [] then [] else [SanitiseChar(s[0])] + Sanitise(s[1..])
  }

  /** No '/' survives, and every other character stays where it was. */
  lemma SanitiseClean(s: string)
    ensures forall i :: 0 <= i < |Sanitise(s)| ==> Sanitise(s)[i] != '/'
    ensures forall i :: 0 <= i < |s| && s[i] != '/' ==> Sanitise(s)[i] == s[i]
    ensures forall i :: 0 <= i < |s| && s[i] == '/' ==> Sanitise(s)[i] == '-'
  {
  }

  lemma SanitiseIdempotent(s: string)
    ensures Sanitise(Sanitise(s)) == Sanitise(s)
  {
    SanitiseClean(s);
  }

  /** A string without '/' is already sanitised. */
  lemma SanitiseKeepsClean(s: string)
    requires forall i :: 0 <= i < |s| ==> s[i] != '/'
    ensures Sanitise(s) == s
  {
  }

  // ---------------------------------------------------------------------------------------
  // Client set-up.

  /** The exception SetupNetDocsHttpClient throws for these settings, if any: a null settings
      object fails on the first member access, a null ApiUrl is rejected by the Uri constructor
      as a null argument, any other ApiUrl as the Uri parser decides. */
  function SetupError(config: NetDocsConfig?, uriError: string -> Option<Error>): Option<Error>
    reads config
  {
    if config == null then Some(NullReference)
    else if config.apiUrl.None? then Some(ArgumentNull("uriString"))
    else uriError(config.apiUrl.value)
  }

  /** The HttpClient SetupNetDocsHttpClient builds: its base address and its message handler. */
  datatype NetDocsClient = NetDocsClient(baseAddress: string, handler: AuthenticatedHttpClientHandler)

  /** SetupNetDocsHttpClient: a new token service over the settings' token URL and credentials,
      the bearer handler over it, and the settings' API URL as base address. No token is fetched. */
  method SetupNetDocsHttpClient(config: NetDocsConfig?, uriError: string -> Option<Error>) returns (r: Result<NetDocsClient, Error>)
    ensures r.Err? <==> SetupError(config, uriError).Some?
    ensures r.Err? ==> r.error == SetupError(config, uriError).value
    ensures r.Ok? ==>
      var ts := r.value.handler.tokenService;
      && r.value.baseAddress == config.apiUrl.value
      && fresh(r.value.handler) && fresh(ts)
      && ts.authTokenUrl == config.oAuthTokenUrl && ts.clientId == config.clientId
      && ts.repositoryId == config.repositoryId && ts.clientSecret == config.clientSecret
      && ts.accessToken == "" && ts.requests == []
  {
    if config == null {
      return Err(NullReference);
    }
    var tokenService := new NetDocsTokenService(config.oAuthTokenUrl, config.clientId, config.repositoryId, config.clientSecret);
    var handler := new AuthenticatedHttpClientHandler(tokenService);
    if config.apiUrl.None? {
      return Err(ArgumentNull("uriString"));
    }
    var e := uriError(config.apiUrl.value);
    if e.Some? {
      return Err(e.value);
    }
    r := Ok(NetDocsClient(config.apiUrl.value, handler));
  }

  const InitFailurePrefix := "Failed to retrieve OAuth token ["

  /** The health InitAsync records after a failure with exception `e`. */
  function InitFailureHealth(e: Error): HealthCheckResult {
    HealthCheckResult(Unhealthy, Some(InitFailurePrefix + Message(e) + "]"))
  }

  /** A failed initialisation is always reported Unhealthy, and the health description tells the
      failures apart exactly as their messages do: the message can be read back from it. */
  lemma InitFailureHealthNamesError(e1: Error, e2: Error)
    ensures InitFailureHealth(e1).status == Unhealthy && InitFailureHealth(e1).description.Some?
    ensures InitFailureHealth(e1) == InitFailureHealth(e2) <==> Message(e1) == Message(e2)
  {
    var d1 := InitFailurePrefix + Message(e1) + "]";
    var d2 := InitFailurePrefix + Message(e2) + "]";
    assert d1[|InitFailurePrefix|..|d1| - 1] == Message(e1);
    assert d2[|InitFailurePrefix|..|d2| - 1] == Message(e2);
  }

  class NetDocsService {
    const config: NetDocsConfig?
    /** The health status; default(HealthCheckResult) until InitAsync has run. */
    var health: HealthCheckResult
    /** The HTTP client; None until InitAsync succeeds. */
    var client: Option<NetDocsClient>

    constructor (config: NetDocsConfig?)
      ensures this.config == config && health == DefaultHealth && client.None?
    {
      this.config := config;
      health := DefaultHealth;
      client := None;
    }

    /** InitAsync: sets up the client and reports Healthy (no description), or reports
        Unhealthy with the exception's message and rethrows. */
    method InitAsync(uriError: string -> Option<Error>) returns (r: Result<(), Error>)
      modifies this
      ensures r.Ok? <==> SetupError(config, uriError).None?
      ensures r.Ok? ==> health == HealthCheckResult(Healthy, None) && client.Some?
      ensures r.Ok? ==> client.value.baseAddress == config.apiUrl.value && fresh(client.value.handler)
      ensures r.Err? ==> r.error == SetupError(config, uriError).value
      ensures r.Err? ==> health == InitFailureHealth(r.error) && client == old(client)
    {
      var setup := SetupNetDocsHttpClient(config, uriError);
      if setup.Err? {
        health := InitFailureHealth(setup.error);
        return Err(setup.error);
      }
      client := Some(setup.value);
      health := HealthCheckResult(Healthy, None);
      r := Ok(());
    }

    /** Validate: null when a client can be set up with the given settings, otherwise the
        exception's message as a one-element list. Nothing of this service changes. */
    method Validate(netDocsConfig: NetDocsConfig?, uriError: string -> Option<Error>) returns (r: Option<seq<string>>)
      ensures r.None? <==> SetupError(netDocsConfig, uriError).None?
      ensures r.Some? ==> r.value == [Message(SetupError(netDocsConfig, uriError).value)]
    {
      var setup := SetupNetDocsHttpClient(netDocsConfig, uriError);
      if setup.Err? {
        return Some([Message(setup.error)]);
      }
      r := None;
    }
  }

  /** The registry of NetDocuments services by exact tenant alias. */
  class NetDocsServiceFactory {
    var tenants: map<string, NetDocsService>

    constructor ()
      ensures tenants == map[]
    {
      tenants := map[];
    }

    /** Create: get-or-create under the given alias; the first settings registered for an alias
        win, later ones are ignored. A blank alias is rejected. */
    method Create(tenantAlias: Option<string>, config: NetDocsConfig?) returns (r: Result<NetDocsService, Error>)
      modifies this
      ensures IsNullOrWhiteSpace(tenantAlias) ==> r == Err(ArgumentNull("tenantAlias")) && tenants == old(tenants)
      ensures !IsNullOrWhiteSpace(tenantAlias) && tenantAlias.value in old(tenants) ==>
        r == Ok(old(tenants)[tenantAlias.value]) && tenants == old(tenants)
      ensures !IsNullOrWhiteSpace(tenantAlias) && tenantAlias.value !in old(tenants) ==>
        && r.Ok? && fresh(r.value) && r.value.config == config && r.value.health == DefaultHealth
        && tenants == old(tenants)[tenantAlias.value := r.value]
    {
      if IsNullOrWhiteSpace(tenantAlias) {
        return Err(ArgumentNull("tenantAlias"));
      }
      var alias := tenantAlias.value;
      if alias in tenants {
        return Ok(tenants[alias]);
      }
      var service := new NetDocsService(config);
      tenants := tenants[alias := service];
      r := Ok(service);
    }

    /** Get: the service registered under exactly this alias; never creates one. */
    method Get(tenantAlias: Option<string>) returns (r: Result<NetDocsService, Error>)
      ensures tenantAlias.None? ==> r == Err(ArgumentNull("key"))
      ensures tenantAlias.Some? && tenantAlias.value in tenants ==> r == Ok(tenants[tenantAlias.value])
      ensures tenantAlias.Some? && tenantAlias.value !in tenants ==>
        r == Err(Failure("Cannot find configuration for tenant " + tenantAlias.value))
    {
      if tenantAlias.None? {
        return Err(ArgumentNull("key"));
      }
      if tenantAlias.value !in tenants {
        return Err(Failure("Cannot find configuration for tenant " + tenantAlias.value));
      }
      r := Ok(tenants[tenantAlias.value]);
    }
  }
}
