# Prime–NetDocuments integration: a Dafny model of its trust and session core

The integration is a web service that bridges Evolve Prime (the practice-management system)
and NetDocuments (the document store). Almost all of it is HTTP and JSON plumbing. This
project models the stateful logic underneath, which follows clear rules:

- the **tenant configuration store** (`ConfigService`) and the admin **console**
  (`ConsoleController`) in front of it:
  - lookup, upsert and delete by lower-cased alias;
  - the persisted tenant overlay;
  - the redaction of the NetDocuments client secret;
- the **configuration entities** (`AppConfig` and its sections) with their defaults;
- the **Prime service** of one tenant (`PrimeService`):
  - its API base address;
  - its OAuth 2.0 client-credentials token (section 4.4 of RFC 6749), whose reply fields follow
    section 5.1 of RFC 6749;
  - the four webhook registrations of `InitAsync` and the health they leave;
  - the per-tenant registry (`PrimeServiceFactory`);
- the **NetDocuments service** of one tenant (`NetDocsService`):
  - id sanitising;
  - client set-up;
  - the configuration check;
  - `InitAsync` health;
  - its registry;
  - its token cache (`NetDocsTokenService`), which sends an HTTP Basic credential (section 2 of
    RFC 7617);
- the **bearer-token handler** (`AuthenticatedHttpClientHandler`): every request carries the
  cached token (section 2.1 of RFC 6750). A 401 (section 15.5.2 of RFC 9110) causes one
  refresh and one resend;
- the two **authorization handlers**:
  - the webhook receivers' HMAC signature (RFC 2104) and five-minute timestamp window;
  - the console's API key;
- **start-up** (`RunOnStartup` in `Program.cs`):
  - the registration loop over the tenants;
  - the `queueInit` retry every five seconds.

## Modelling conventions

- **One module per source file.**
  - `Common` holds shared vocabulary: nullable values, results carrying the .NET exception
    kinds, `IsNullOrWhiteSpace`, `ToLowerInvariant`, `string.Replace`, the clock and 32-bit
    wrap-around.
  - `Http` and `Authorization` hold the parts of .NET the core leans on: status codes, the
    JSON token reply, `int.TryParse`, headers, and the authorization context.
- **Mutable objects are classes.** Anything the source updates in place is a `class` whose
  methods state their whole new state. This covers:
  - the configuration entities;
  - the store;
  - the services and their factories;
  - the token cache;
  - the handlers;
  - the authorization context.

  Pure decisions are functions, and lemmas prove what they mean.
- **Exceptions are `Err` results.** A thrown exception is an `Err(...)` of its kind, and a
  `null` is `None` or a null reference.
- **The outside world comes in as parameters:**
  - the clock, an integer count of 100 ns ticks;
  - the reply of each token request;
  - the status of each webhook PUT and of each send;
  - `new Uri(s)`, as the exception it throws (`uriError`);
  - `new Uri(base, relative)`, as `resolve`;
  - `DateTime.Parse`, as `parse`;
  - HMAC-SHA256 followed by base64, as `sign`.
- **Sent requests are ghost logs.** Token requests (`tokenRequests`, `requests`) and webhook
  PUTs (`puts`) are ghost sequences. The persisted overlay file is the ghost field
  `ConfigService.persisted`.

Behaviour of the code that a reader might not expect, and that the model keeps:

- **NetDocuments token failures.** A non-success status from the NetDocuments token endpoint is
  silent: token and expiry are kept, and the old token (possibly `""`) is returned. Every other
  failure throws and also keeps the previous token and expiry.
- **Tenant registration at start-up.** A tenant without Prime settings or with a blank alias
  throws out of the registration loop (app/Program.cs:80-87). `RunOnStartup` is awaited before
  `app.Run()` (app/Program.cs:59-63), so that exception ends the program. The whole service never
  starts listening, not only the tenants after the bad one (`Startup.StartApplication`).
- **Prime token validation.** An empty Prime token string is accepted; only a null one is refused.
- **Prime receiver URL.** A null `ReceiverUrl` makes `InitAsync` throw ArgumentNull before any
  webhook PUT. The receiver URL is built outside `RegisterWebhookAsync`, so this exception is
  rethrown as it is rather than wrapped; the health still becomes Unhealthy.

The small .NET primitives the handlers and parsers use are plain definitions without contracts
of their own. Their behaviour is stated through the members that use them:

- `Authorization.HeaderValues`: an indexed header, empty when absent;
- `Authorization.Text`: string interpolation of header values;
- `Authorization.First`: `FirstOrDefault`;
- `Http.GetString` and `Http.TryGetInt32`: the JsonElement accessors;
- `ApiKeyAuth.NewApiKeyRequirement`: the requirement's constructor;
- `Console.RedactRecord`: the redacted copy;
- `NetDocs.InitFailureHealth`: the health after a failed initialisation;
- `Prime.ReceiverFor`: `new Uri(ReceiverUrl, receiver)`.

Three predicates define a source check and have no contract of their own. Their meaning is
proved by the lemmas and methods that use them:

- `WebhookAuth.IsValidSignature` (app/Filters/WebhookAuthorizationHandler.cs:65-76): see
  `NoKeyAcceptsAnySignature`, `UnsignedRequestRejected`, `SignatureOfSingleValues` and `Decide`;
- `NetDocsToken.Stale` (the empty-token test and `TokenExpired`, app/Services/NetDocsService.cs:157
  and 207-210): see `TokenStep`, `FreshTokenNotExpired` and `GoodReplyServedWithoutRefetch`;
- `NetDocsToken.NetDocsTokenService.NeedsRefresh` (`Stale` of the service's cache): see
  `GetAccessToken` and `SendAsync`, whose token requests it counts.

## Model

| member | source | states |
|---|---|---|
| Common.Wrap32 | app/Services/NetDocsService.cs:196 | the result is a 32-bit integer congruent to the input modulo 2^32, and equal to it when the input is in range (unchecked `int` subtraction) |
| Common.ToLowerInvariant | app/Services/ConfigService.cs:50 | lower-casing keeps the length and maps each character by itself (ASCII letters) |
| Common.ToLowerIdempotent | app/Services/ConfigService.cs:71-73 | a lower-cased alias is its own lookup key |
| Common.ToLowerKeepsNonBlank | app/Services/ConfigService.cs:70-71 | an alias that passed the blank check is still not blank once lower-cased |
| Common.ToLowerEqualIffCaseVariants | app/Services/ConfigService.cs:50 | two aliases look up the same entry exactly when they differ only in letter case |
| Common.NotBlankHasVisibleChar | app/Services/ConfigService.cs:49 | a string that is not null or white space has a visible character |
| Common.ReplaceAbsent | app/Services/PrimeService.cs:156 | `Replace` leaves a URL without the pattern unchanged |
| Common.ReplaceAfterPrefix | app/Services/PrimeService.cs:156 | `Replace` keeps a prefix that cannot start the pattern, then substitutes the occurrence after it |
| Authorization.AsString | app/Filters/WebhookAuthorizationHandler.cs:52-53 | the string form of header values is null exactly when there is none, and is the value itself when there is one |
| WebhookAuth.NoKeyAcceptsAnySignature | app/Filters/WebhookAuthorizationHandler.cs:67 | without a signing key every signature passes |
| WebhookAuth.UnsignedRequestRejected | app/Filters/WebhookAuthorizationHandler.cs:69-75 | with a key, a request without a signature header fails the check |
| WebhookAuth.SignatureOfSingleValues | app/Filters/WebhookAuthorizationHandler.cs:69-75 | with a key, the check passes exactly for "HMACSHA256:" + sign(key, requestId + "\|" + timestamp) |
| WebhookAuth.IsValidTimestamp | app/Filters/WebhookAuthorizationHandler.cs:78-85 | a missing header throws ArgumentNull, unparseable text throws FormatException; true exactly when the parsed time is within five minutes of now, both ends included |
| WebhookAuth.Decide | app/Filters/WebhookAuthorizationHandler.cs:33-63 | only POSTs to an HttpContext are judged; a bad signature is refused before the timestamp is read; acceptance exactly when both checks pass; a tenant is named exactly when the alias header is not blank |
| WebhookAuth.NoKeyStillChecksTimestamp | app/Filters/WebhookAuthorizationHandler.cs:44-49 | without a signing key a stale timestamp is still refused |
| WebhookAuth.TimestampAtNowAccepted | app/Filters/WebhookAuthorizationHandler.cs:78-85 | a validly signed POST stamped with the current time is accepted |
| WebhookAuth.WebhookAuthorizationHandler.Handle | app/Filters/WebhookAuthorizationHandler.cs:33-63 | the context records exactly the decision: nothing when skipped or when parsing throws, one Fail with its reason on a rejection, Succeed plus the tenant claim (if named) on acceptance |
| WebhookAuth.NewWebhookHandler | app/Filters/WebhookAuthorizationHandler.cs:23-31 | a missing Prime section throws; otherwise the handler keeps its signing key |
| ApiKeyAuth.ConsolePolicyAdmitsItsKey | app/Filters/ApiKeyAuthorizationHandler.cs:7-28 | the console policy end to end: a configured key yields a requirement that admits exactly the requests whose first X-API-KEY value is that key; a null key throws ArgumentNull("apiKey") and yields no requirement |
| ApiKeyAuth.OnlyFirstValueCounts | app/Filters/ApiKeyAuthorizationHandler.cs:10-12 | only the first X-API-KEY value is compared with the key |
| ApiKeyAuth.ApiKeyAuthorizationHandler.Handle | app/Filters/ApiKeyAuthorizationHandler.cs:7-23 | a non-HttpContext resource throws before anything is recorded; otherwise Succeed when the key matches and one Fail when it does not, never both |
| ApiKeyAuth.Authorize | app/Filters/ApiKeyAuthorizationHandler.cs:7-23 | on a fresh context the requirement passes exactly when the first header value equals the key |
| Configurations.NetDocsConfig.constructor | app/Configurations/AppConfig.cs:91-102 | the defaults: the Australian token and API URLs, attribute ids "1" and "2", no credentials |
| Configurations.ElasticsearchLogConfig.constructor | app/Configurations/AppConfig.cs:105-127 | the defaults "logs", "generic" and "default" |
| Configurations.PrimeConfig.constructor | app/Configurations/AppConfig.cs:25-60 | the base Prime settings with an optional signing key |
| ConfigStore.FirstMatch | app/Services/ConfigService.cs:50 | the first position whose `Prime?.Tenant` equals the key exactly, entries with a null Prime never matching; None exactly when no entry matches |
| ConfigStore.ListRemove | app/Services/ConfigService.cs:74 | `List.Remove` drops one element when the object is present and nothing otherwise |
| ConfigStore.ListRemoveFirstMatch | app/Services/ConfigService.cs:73-74 | removing the first matching object removes exactly its position |
| ConfigStore.UpsertKeepsUnique | app/Services/ConfigService.cs:71-75 | if aliases were unique before an upsert they are unique after it |
| ConfigStore.LookupAfterUpsert | app/Services/ConfigService.cs:73-75 | after an upsert the alias finds the appended entry, the last one |
| ConfigStore.UpsertThenLookupAnyCase | app/Services/ConfigService.cs:50 | after SetConfig under an alias, a lookup by any case variant of it returns the very object stored |
| ConfigStore.DeleteRemovesAtMostOne | app/Services/ConfigService.cs:98-99 | deleting an absent alias changes nothing; deleting a present one removes exactly one entry and adds none |
| ConfigStore.ConfigService.GetAppConfig | app/Services/ConfigService.cs:24-35 | the live configuration object is returned, not a copy |
| ConfigStore.ConfigService.GetConfig | app/Services/ConfigService.cs:43-57 | a null tenant list becomes empty; a blank alias throws ArgumentNull; otherwise the store's own first entry under the lower-cased alias, or null when none matches |
| ConfigStore.ConfigService.SetConfig | app/Services/ConfigService.cs:65-82 | a null Prime section or blank alias throws before any change or write; otherwise the caller's alias is lower-cased in place, the first entry with it removed, the new entry appended, the overlay rewritten, the Prime API URL is untouched, and unique aliases stay unique provided the new Prime object is not already in the list (one shared with another entry would duplicate its alias) |
| ConfigStore.ConfigService.Upsert | app/Services/ConfigService.cs:73-77 | the list without its first match plus the new entry; the overlay is rewritten; uniqueness is kept |
| ConfigStore.ConfigService.DeleteConfig | app/Services/ConfigService.cs:91-107 | a blank alias throws with nothing changed or written; otherwise at most the first matching entry is removed and the overlay rewritten either way |
| ConfigStore.ConfigService.WriteConfig | app/Services/ConfigService.cs:113-133 | the overlay holds exactly the current tenant list, as values, and nothing of the base settings |
| Console.RedactionHidesOnlySecret | app/Controllers/ConsoleController.cs:29-30 | a redacted record shows every setting but the client secret, which is the marker; two records redact alike exactly when they differ at most in the secret, so the response reveals nothing of it; redacting twice is redacting once |
| Console.ConsoleController.GetConfig | app/Controllers/ConsoleController.cs:21-32 | a blank alias throws ArgumentException before the store is consulted; no entry gives NotFound with nothing modified; an entry without NetDocs settings throws NullReference with nothing modified; any other found entry is returned after the store's own entry has become RedactRecord of its former value, every other NetDocs object unchanged |
| Console.ConsoleController.PutConfig | app/Controllers/ConsoleController.cs:42-46 | a null Prime section or blank alias throws and the store is not called; otherwise exactly SetConfig's effect, including its untouched API URL and kept alias uniqueness; a request body is deserialised afresh, so its Prime object is never already stored and the uniqueness clause always applies |
| Console.ConsoleController.DeleteConfig | app/Controllers/ConsoleController.cs:56-60 | a blank alias throws ArgumentException and the store is not called; otherwise exactly the store's DeleteConfig |
| Console.ConsoleController.GetConfigRedacted | app/Controllers/ConsoleController.cs:21-32 | the corrected lookup: same checks and answers, the secret redacted in the returned copy while the store keeps its objects |
| Console.LookupThenDeleteAsWritten | app/Controllers/ConsoleController.cs:25-31 | after an admin lookup, the store's own secret is "\<redacted\>" and the next overlay write persists the marker |
| Console.LookupThenDeleteCorrected | app/Controllers/ConsoleController.cs:25-31 | with the corrected lookup, the response shows the marker while the store and the next overlay keep the secret |
| Http.ParseInt32 | app/Services/NetDocsService.cs:192 | `int.TryParse` never yields a value outside 32 bits and fails on null and on "" |
| Http.ParseFormatRoundTrip | app/Services/NetDocsService.cs:191-192 | every 32-bit integer's decimal text parses back to it |
| Http.ParseRejectsNonDigits | app/Services/NetDocsService.cs:192-193 | a string without a digit never parses |
| NetDocs.Sanitise | app/Services/NetDocsService.cs:76 | same length; each '/' becomes '-' and every other character stays |
| NetDocs.SanitiseClean | app/Services/NetDocsService.cs:76 | no '/' survives, and other characters keep their positions |
| NetDocs.SanitiseIdempotent | app/Services/NetDocsService.cs:76 | sanitising twice is sanitising once |
| NetDocs.SanitiseKeepsClean | app/Services/NetDocsService.cs:76 | an id without '/' is left as it is |
| NetDocs.SetupNetDocsHttpClient | app/Services/NetDocsService.cs:96-109 | throws exactly the set-up error (null settings, null or unparseable ApiUrl); otherwise a client at the ApiUrl over a new, empty token cache with the settings' credentials, and no token is fetched |
| NetDocs.InitFailureHealthNamesError | app/Services/NetDocsService.cs:91 | a failed initialisation is always Unhealthy with a description, and two failures get the same description exactly when their messages agree: the message can be read back |
| NetDocs.NetDocsService.constructor | app/Services/NetDocsService.cs:10-13 | health starts as default(HealthCheckResult) and there is no client |
| NetDocs.NetDocsService.InitAsync | app/Services/NetDocsService.cs:81-94 | Healthy with no description and a client exactly when set-up succeeds; otherwise Unhealthy with the message, the client kept, and the exception rethrown |
| NetDocs.NetDocsService.Validate | app/Services/NetDocsService.cs:116-127 | null exactly when a client can be set up, otherwise the one-element list of the exception's message |
| NetDocs.NetDocsServiceFactory.Create | app/Services/NetDocsService.cs:216-224 | a blank alias throws with the registry unchanged; an existing alias returns its service and ignores the settings; a new alias registers a fresh service |
| NetDocs.NetDocsServiceFactory.Get | app/Services/NetDocsService.cs:226-233 | the service registered under exactly that alias; otherwise it throws and creates nothing |
| NetDocsToken.SplitJoined | app/Services/NetDocsService.cs:172 | "{id}\|{repo}:{secret}" splits at the first '\|' and the next ':' back into its three parts when id has no '\|' and repo no ':' |
| NetDocsToken.CredentialSplits | app/Services/NetDocsService.cs:172 | the token endpoint splits the Basic credential "{clientId}\|{repositoryId}:{clientSecret}" back into exactly those three parts when the client id has no '\|' and the repository id no ':' |
| NetDocsToken.ParseTokenReply | app/Services/NetDocsService.cs:185-193 | success exactly for a non-empty string token and a string lifetime that `int.TryParse` reads; the result is those two; each failure is the exception of its step |
| NetDocsToken.ParseTokenReplyRoundTrip | app/Services/NetDocsService.cs:187-193 | a reply with a token and a decimal lifetime is read back exactly |
| NetDocsToken.NumericLifetimeRefused | app/Services/NetDocsService.cs:191 | a lifetime sent as a JSON number throws: it is read as a string |
| NetDocsToken.ExpiryFor | app/Services/NetDocsService.cs:196 | the expiry is now plus the lifetime less five seconds |
| NetDocsToken.FreshTokenNotExpired | app/Services/NetDocsService.cs:196-210 | a token living longer than the margin is not expired when received |
| NetDocsToken.MostNegativeLifetimeWraps | app/Services/NetDocsService.cs:196 | the unchecked `expires - 5` turns the most negative lifetime into about 68 years |
| NetDocsToken.NetDocsTokenService.constructor | app/Services/NetDocsService.cs:138-153 | the credentials as given; no token and a default expiry |
| NetDocsToken.RefreshOutcome | app/Services/NetDocsService.cs:164-205 | the cache changes only on a successful reply that parses, and then holds its token and ExpiryFor its lifetime; a transport error or bad reply throws and keeps the cache; a non-success status is silent and keeps it; a returned token is always the cached one |
| NetDocsToken.GoodReplyServedWithoutRefetch | app/Services/NetDocsService.cs:154-196 | a good reply with a lifetime above the margin yields its token, and the next GetAccessToken at the same instant serves that token without another request |
| NetDocsToken.NetDocsTokenService.Request | app/Services/NetDocsService.cs:169-180 | the POST to the token URL with User-Agent and Accept JSON; its form carries grant_type=client_credentials and scope=full; its Basic credential splits back into the service's client id, repository id and client secret |
| NetDocsToken.NetDocsTokenService.Refresh | app/Services/NetDocsService.cs:164-205 | one request per call, and the result and new cache are exactly RefreshOutcome of the old cache and the reply |
| NetDocsToken.NetDocsTokenService.GetAccessToken | app/Services/NetDocsService.cs:154-162 | the result and new cache are TokenStep of the old cache: the cached token, untouched and without a request, unless it is empty or now is past its expiry; otherwise exactly one refresh |
| AuthenticatedHandler.AuthenticatedHttpClientHandler.SendAsync | app/Helpers/AuthenticatedHttpClientHandler.cs:16-37 | the first request carries the token TokenStep yields from the old cache and tokenReply; a token exception sends nothing; a non-401 answer is returned with the cache TokenStep left; after a 401 the cache is RefreshOutcome of that cache with refreshReply at a second clock reading, taken after the first round trip, and the resend carries its token and its answer is returned (a refresh exception ends the call); token requests are counted |
| AuthenticatedHandler.NewHandler | app/Helpers/AuthenticatedHttpClientHandler.cs:10-14 | a null token service throws ArgumentNull("tokenService") |
| Prime.HexValue | app/Services/PrimeService.cs:132 | a lower-case hex digit reads back to the digit that prints as it |
| Prime.ParseWebhookIdRoundTrip | app/Services/PrimeService.cs:132 | every webhook id "webhook_" + 32 lower-case hex digits reads back as its GUID |
| Prime.WebhookIdOfParsed | app/Services/PrimeService.cs:132 | every string that reads as a webhook id is the id of that GUID |
| Prime.WebhookIdInjective | app/Services/PrimeService.cs:132 | distinct GUIDs give distinct webhook ids |
| Prime.WebhookIdsDistinct | app/Services/PrimeService.cs:50-68 | the four registrations carry four different ids |
| Prime.BaseUrl | app/Services/PrimeService.cs:156 | the tenant override when not null or empty, otherwise the base URL; a null configuration or URL throws |
| Prime.BaseUrlOverride | app/Services/PrimeService.cs:156 | a tenant override wins whatever the base settings hold |
| Prime.BaseUrlFallback | app/Services/PrimeService.cs:156 | an empty or missing override falls back to the base URL |
| Prime.BaseUrlWithoutTag | app/Services/PrimeService.cs:156 | a URL without "{tenant}" is used unchanged |
| Prime.BaseUrlSubstitutes | app/Services/PrimeService.cs:156 | a URL with one "{tenant}" and no '{' before it gets the alias in its place; several tags are covered by applying ReplaceAfterPrefix once per tag, as Replace is the left-to-right scan itself |
| Prime.ParseOAuthToken | app/Services/PrimeService.cs:185-197 | success exactly for a string access_token and a 32-bit integer expires_in; each missing property is reported with its own message |
| Prime.EmptyTokenAccepted | app/Services/PrimeService.cs:195 | an empty token string is accepted; only null is refused |
| Prime.WideLifetimeRefused | app/Services/PrimeService.cs:192-193 | a lifetime outside 32 bits is reported as missing |
| Prime.TokenOutcome | app/Services/PrimeService.cs:169-203 | a non-success status throws; otherwise the token and an expiry of exactly now plus the lifetime, no margin |
| Prime.PrimeService.constructor | app/Services/PrimeService.cs:8-12 | health starts Degraded "Starting up..." with no client and no token |
| Prime.PrimeService.Address | app/Services/PrimeService.cs:154-157 | the client is built at BaseUrl of the tenant and base settings exactly when BaseUrl succeeds and the Uri parser accepts it; otherwise the exception of whichever step failed |
| Prime.PrimeService.TokenRequest | app/Services/PrimeService.cs:171-183 | the POST to TokenEndpoint whose form carries grant_type=client_credentials and the client id, client secret and scope, each under its own name, and no other field |
| Prime.PrimeService.GetOAuthToken | app/Services/PrimeService.cs:169-203 | one token request is logged and the outcome is TokenOutcome; a null configuration throws first |
| Prime.PrimeService.GetHttpClient | app/Services/PrimeService.cs:152-167 | the base address is fixed on first success; a token is fetched exactly when none is recorded or it expired strictly before now; a failed fetch keeps the expiry and header; a success sets both |
| Prime.PrimeService.RegisterWebhook | app/Services/PrimeService.cs:120-139 | at most one PUT, registering the webhook with its id, receiver, secret and events, under the Bearer header GetHttpClient left; success exactly when that PUT was sent and accepted; any failure becomes "Failed to register webhook" |
| Prime.PrimeService.RegisterStep | app/Services/PrimeService.cs:50-68 | the next registration keeps the PUTs in webhook order; it succeeds exactly when its PUT was sent and all PUTs so far were accepted; a null ReceiverUrl throws ArgumentNull with no PUT |
| Prime.PrimeService.RegisterAll | app/Services/PrimeService.cs:50-68 | the registrations go in order client, document, matter, settings; success exactly when all four PUTs were sent and accepted; every PUT but the last was accepted, so the first failure ends the run; a null ReceiverUrl throws ArgumentNull before any PUT |
| Prime.PrimeService.InitAsync | app/Services/PrimeService.cs:46-78 | Healthy "Webhook registered" exactly when all four PUTs were sent and accepted; otherwise Unhealthy "Failed to register webhook" and the exception is rethrown; a refused PUT is the last one sent |
| Prime.PrimeServiceFactory.Create | app/Services/PrimeService.cs:211-219 | a null or blank alias throws with the registry unchanged; an existing alias returns its service and ignores the settings; a new alias registers a fresh Degraded service |
| Prime.PrimeServiceFactory.Get | app/Services/PrimeService.cs:221-228 | the service under exactly that alias, no case folding; otherwise it throws and creates nothing |
| Startup.AttemptTime | app/Program.cs:89-102 | the k-th attempt starts at least 5k seconds after the first, whatever the attempts before it took; the elapsed time of each attempt is a parameter |
| Startup.AttemptsAtLeastIntervalApart | app/Program.cs:93-100 | the next attempt starts five seconds after the previous one ended: exactly its elapsed time plus five seconds later, so never less than five seconds |
| Startup.InstantAttemptsEvenlySpaced | app/Program.cs:89-102 | attempts that take no time are exactly five seconds apart: the even spacing holds for instant attempts only |
| Startup.Register | app/Program.cs:82-83 | the loop body: a missing Prime section or blank alias throws with both registries unchanged; otherwise both registries hold the tenant's services under its alias, existing ones kept |
| Startup.RegisterNext | app/Program.cs:80-87 | one iteration keeps the registry invariant: every queued pair is registered under its tenant's alias, the registries gain exactly the aliases met, and the first tenant with an alias configures its services |
| Startup.RegisterTenants | app/Program.cs:80-87 | the loop registers every tenant up to the first that throws, which ends the loop; the registries satisfy the invariant for the tenants processed |
| Startup.RunOnStartup | app/Program.cs:70-87 | a null tenant list registers nothing; otherwise the loop over the live list with the base Prime settings, first entry per alias winning |
| Startup.StartApplication | app/Program.cs:59-63 | the service starts listening exactly when every configured tenant has Prime settings and a non-blank alias, and then every tenant was queued for initialisation |
| Startup.QueuePrimeInit | app/Program.cs:89-102 | each attempt starts five seconds after the previous one ended (AttemptTime); a success ends the retries and a failure is retried; health reflects the last attempt; without base settings every attempt fails |
| Startup.QueueNetDocsInit | app/Program.cs:89-102 | the same schedule as QueuePrimeInit; valid settings succeed at the first attempt (Healthy); invalid settings fail at every attempt with the same error |

## Left out

- File persistence: the temporary file, the JSON serialiser and the atomic move of `WriteConfig` are not modelled. The overlay is the ghost value the write would serialise.
- Concurrency: the reader/writer lock, the token semaphore and the fire-and-forget `queueInit` tasks are not modelled. Calls run one at a time, and the services' retries run one after another.
- Prime.TokenOutcome: the exception for a non-success status carries a fixed message. The status code and response body that the source appends to it are not modelled.
- ConfigStore.ConfigService.GetConfig: a tenant list is a sequence of non-null entries. A null element, on which the source throws NullReference in the lookup and in the start-up loop, is not modelled.
- Startup.QueuePrimeInit: retries are bounded by a caller-chosen `horizon` instead of running forever. Within the horizon, a failure is always retried five seconds after it ended.
- Startup.QueueNetDocsInit: the retry bound works the same way as for `QueuePrimeInit`.
- Startup.RunOnStartup: returns the pairs of services it hands to `queueInit`. The initialisation of each pair is `QueuePrimeInit` and `QueueNetDocsInit`, not chained inside it.
- Common.ToLowerInvariant: lower-cases ASCII letters only. Non-ASCII case mapping is not modelled.
- Authorization.HeaderValues: matches header names exactly. ASP.NET Core matches them case-insensitively.
- WebhookAuth.IsValidTimestamp: `TotalMinutes` is a double. The model compares integer ticks against five minutes, and `DateTime.Now` is the `now` parameter.
- WebhookAuth.IsValidSignature: the `InvariantCulture` comparison is modelled as ordinal string equality.
- WebhookAuth.WebhookAuthorizationHandler.Handle: the cast of `User.Identity` to `ClaimsIdentity` is assumed to succeed. The claim type `ClaimNames.Tenant` is not part of this model.
- Prime.PrimeService.InitAsync / NetDocsToken.NetDocsTokenService.GetAccessToken: each call reads the clock once. The source reads `DateTime.Now` or `UtcNow` again after each HTTP round trip: in every GetHttpClient call of the four registrations, and for the expiry after the token reply. Time elapsed inside a call is not modelled; between retry attempts it is the `elapsed` parameter, and `SendAsync` takes a second reading for its refresh.
- Clock: one integer clock stands for both `DateTime.Now` (NetDocuments, webhooks) and `DateTime.UtcNow` (Prime). The local-time offset is not modelled, nor is the range of `DateTime`, whose `AddSeconds` can throw for huge values.
- Cryptography and encodings are the `sign` parameter and are not modelled: HMAC-SHA256, base64, the UTF-8 encoding and `Guid.ToByteArray`.
- Date parsing: `DateTime.Parse` is the `parse` parameter.
- URIs: `new Uri` is the `uriError` and `resolve` parameters.
- JSON: a reply body is a map from property names to JSON value kinds, or None when it is not a JSON object. Duplicate properties and number formats are not modelled. A body that is well-formed JSON but not an object (`[]`, `null`, `1`) throws InvalidOperationException in .NET at `GetProperty` or `TryGetProperty`; the model gives it the JsonException kind `MalformedJson`. Both are exceptions, so the behaviour is kept and only the exception kind and message differ.
- Http.ParseInt32: covers `NumberStyles.Integer` with the invariant culture's signs. Trailing NUL characters, which .NET also accepts, are not modelled.
- Outbound API calls are not modelled because they are network wrappers: `GetSettings`, `PutSettings`, `GetClient`, `GetMatter`, `GetCollection`, `GetDocument`, `DownloadDocument`, `EnsureClient`, `EnsureMatter` and `UploadDocument`. Only `Sanitise`, which they use, is modelled.
- `UnregisterWebhookAsync` is never called and is not modelled.
- The Accept header of the NetDocuments client is not modelled.
- Logging is not modelled.
- `PrimeConfig.IntegrationId` is not read by the core and is not modelled.
- `CheckHealth` is not modelled as a separate member: it returns the `health` field, which the model exposes directly.
- app/Controllers/PrimeController.cs, app/Configurations/AspNetExtensions.cs and app/Observability.cs are not part of this model.

## Findings

| source | as written | input that shows it | evidently intended | confidence | as-written member | corrected member |
|---|---|---|---|---|---|---|
| app/Controllers/ConsoleController.cs:25-31 | The secret is redacted on the object the store returned, which is the store's own entry (app/Services/ConfigService.cs:50-51). | One tenant "acme" with client secret "s3cret". An admin `GET console/config?tenantAlias=ACME`, then a delete of the absent alias "other". The store now holds "\<redacted\>", the overlay written by the delete persists it, and later NetDocs client set-ups read it as the secret. | Redact a copy for the response only. The store and the persisted overlay keep the real secret. | high (not executed) | Console.LookupThenDeleteAsWritten | Console.LookupThenDeleteCorrected |
