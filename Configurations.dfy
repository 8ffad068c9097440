/** The configuration entities. They are classes because the store, the admin controller and
    the services share and update them in place; each property is a mutable field, a nullable
    string is an Option<string>, a nullable object a `T?` reference. The datatypes at the end
    are the values that the persisted tenant overlay holds. */
module Configurations {
  import opened Common

  /** A GUID, as its 32 hexadecimal digits in display order. */
  type HexDigit = d: int | 0 <= d < 16
  type Guid = ds: seq<HexDigit> | |ds| == 32 witness seq(32, i => 0)

  /** Evolve Prime base configuration. */
  class PrimeConfig {
    var apiUrl: Option<string>          // may hold a {tenant} tag
    var tokenEndpoint: Option<string>
    var clientId: Option<string>
    var clientSecret: Option<string>
    var scope: Option<string>
    var signingKey: Option<Guid>        // optional HMAC signing key for webhooks
    var receiverUrl: Option<string>     // public base URL of the webhook receivers

    constructor (apiUrl: Option<string>, signingKey: Option<Guid>, receiverUrl: Option<string>)
      ensures this.apiUrl == apiUrl && this.signingKey == signingKey && this.receiverUrl == receiverUrl
      ensures tokenEndpoint.None? && clientId.None? && clientSecret.None? && scope.None?
    {
      this.apiUrl := apiUrl;
      this.signingKey := signingKey;
      this.receiverUrl := receiverUrl;
      tokenEndpoint, clientId, clientSecret, scope := None, None, None, None;
    }
  }

  /** Evolve Prime settings of one tenant: the alias, and an optional API URL override (None
      means the base PrimeConfig.apiUrl is used). */
  class PrimeTenantConfig {
    var tenant: Option<string>
    var apiUrl: Option<string>

    constructor (tenant: Option<string>, apiUrl: Option<string>)
      ensures this.tenant == tenant && this.apiUrl == apiUrl
    {
      this.tenant := tenant;
      this.apiUrl := apiUrl;
    }
  }

  const DefaultNetDocsTokenUrl := "https://api.au.netdocuments.com/v1/OAuth"
  const DefaultNetDocsApiUrl := "https://api.au.netdocuments.com/"

  /** NetDocuments settings of one tenant. */
  class NetDocsConfig {
    var oAuthTokenUrl: Option<string>
    var apiUrl: Option<string>
    var clientId: Option<string>
    var clientSecret: Option<string>
    var repositoryId: Option<string>
    var cabinetId: Option<string>
    var clientAttributeId: Option<string>
    var matterAttributeId: Option<string>

    /** The property initialisers: the Australian NetDocuments endpoints and attribute ids 1 and 2. */
    constructor ()
      ensures oAuthTokenUrl == Some(DefaultNetDocsTokenUrl) && apiUrl == Some(DefaultNetDocsApiUrl)
      ensures clientAttributeId == Some("1") && matterAttributeId == Some("2")
      ensures clientId.None? && clientSecret.None? && repositoryId.None? && cabinetId.None?
    {
      oAuthTokenUrl := Some(DefaultNetDocsTokenUrl);
      apiUrl := Some(DefaultNetDocsApiUrl);
      clientAttributeId := Some("1");
      matterAttributeId := Some("2");
      clientId, clientSecret, repositoryId, cabinetId := None, None, None, None;
    }
  }

  /** One tenant: its Prime settings (holding the alias) and its NetDocuments settings. The two
      references are fixed once the entry is built: the core updates the objects they point to,
      never the references themselves. */
  class TenantConfig {
    const prime: PrimeTenantConfig?
    const netDocs: NetDocsConfig?

    constructor (prime: PrimeTenantConfig?, netDocs: NetDocsConfig?)
      ensures this.prime == prime && this.netDocs == netDocs
    {
      this.prime := prime;
      this.netDocs := netDocs;
    }
  }

  /** Elasticsearch log export settings. */
  class ElasticsearchLogConfig {
    var uri: Option<string>
    var apiKey: Option<string>
    var dataStreamType: Option<string>
    var dataStreamDataSet: Option<string>
    var dataStreamNamespace: Option<string>

    constructor ()
      ensures dataStreamType == Some("logs") && dataStreamDataSet == Some("generic")
      ensures dataStreamNamespace == Some("default")
      ensures uri.None? && apiKey.None?
    {
      dataStreamType := Some("logs");
      dataStreamDataSet := Some("generic");
      dataStreamNamespace := Some("default");
      uri, apiKey := None, None;
    }
  }

  /** The whole application configuration; `tenants` is the mutable tenant list (None is a null
      list). */
  class AppConfig {
    var consoleApiKey: Option<string>
    var logging: ElasticsearchLogConfig?
    var prime: PrimeConfig?
    var tenants: Option<seq<TenantConfig>>

    constructor (prime: PrimeConfig?, tenants: Option<seq<TenantConfig>>)
      ensures this.prime == prime && this.tenants == tenants
      ensures consoleApiKey.None? && logging == null
    {
      this.prime := prime;
      this.tenants := tenants;
      consoleApiKey := None;
      logging := null;
    }
  }

  // ---------------------------------------------------------------------------------------
  // Values of the persisted tenant overlay: what serialising the tenant list writes.

  datatype PrimeTenantRecord = PrimeTenantRecord(tenant: Option<string>, apiUrl: Option<string>)

  datatype NetDocsRecord = NetDocsRecord(
    oAuthTokenUrl: Option<string>, apiUrl: Option<string>,
    clientId: Option<string>, clientSecret: Option<string>,
    repositoryId: Option<string>, cabinetId: Option<string>,
    clientAttributeId: Option<string>, matterAttributeId: Option<string>)

  datatype TenantRecord = TenantRecord(prime: Option<PrimeTenantRecord>, netDocs: Option<NetDocsRecord>)

  /** The overlay file: an object whose only property is the tenant list. */
  datatype TenantsFile = TenantsFile(tenants: seq<TenantRecord>)

  function PrimeTenantValue(p: PrimeTenantConfig?): Option<PrimeTenantRecord>
    reads p
  {
    if p == null then None else Some(PrimeTenantRecord(p.tenant, p.apiUrl))
  }

  function NetDocsValue(n: NetDocsConfig?): Option<NetDocsRecord>
    reads n
  {
    if n == null then None
    else Some(NetDocsRecord(n.oAuthTokenUrl, n.apiUrl, n.clientId, n.clientSecret,
                            n.repositoryId, n.cabinetId, n.clientAttributeId, n.matterAttributeId))
  }

  function TenantValue(t: TenantConfig): TenantRecord
    reads t.prime, t.netDocs
  {
    TenantRecord(PrimeTenantValue(t.prime), NetDocsValue(t.netDocs))
  }

  /** The Prime settings objects of a tenant list. */
  function PrimesOf(ts: seq<TenantConfig>): set<PrimeTenantConfig> {
    set t | t in ts && t.prime != null :: t.prime
  }

  /** The NetDocuments settings objects of a tenant list. */
  function NetDocsOf(ts: seq<TenantConfig>): set<NetDocsConfig> {
    set t | t in ts && t.netDocs != null :: t.netDocs
  }

  /** The serialised form of a tenant list, entry by entry. */
  function TenantsValue(ts: seq<TenantConfig>): (r: seq<TenantRecord>)
    reads PrimesOf(ts), NetDocsOf(ts)
    ensures |r| == |ts|
  {
    if ts == [] then [] else [TenantValue(ts[0])] + TenantsValue(ts[1..])
  }

  /** The alias of an entry: `Prime?.Tenant`. */
  function AliasOf(t: TenantConfig): Option<string>
    reads t.prime
  {
    if t.prime == null then None else t.prime.tenant
  }
}
