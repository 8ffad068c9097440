/** Start-up (RunOnStartup in Program.cs): one Prime service and one NetDocuments service per
    configured tenant, each then initialised in the background and retried every five seconds
    until its initialisation succeeds. The background retries are modelled as a sequential
    loop of attempts up to a horizon chosen by the caller. */
module Startup {
  import opened Common
  import opened Configurations
  import opened ConfigStore
  import opened Prime
  import opened NetDocs
  import opened Http

  /** The pause between a failed initialisation and the next attempt. */
  const RetryIntervalSeconds: int := 5

  /** The clock reading at the start of the k-th attempt of an initialisation started at
      `start`, when attempt i takes `elapsed(i)` ticks: after a failure, the next attempt waits
      five seconds from the moment the failure is caught. */
  function AttemptTime(start: int, elapsed: nat -> nat, k: nat): (t: int)
    ensures t >= AddSeconds(start, k * RetryIntervalSeconds)
  {
    if k == 0 then start
    else AddSeconds(AttemptTime(start, elapsed, k - 1) + elapsed(k - 1), RetryIntervalSeconds)
  }

  /** Consecutive attempts are at least five seconds apart, and exactly that plus the time the
      earlier one took. */
  lemma AttemptsAtLeastIntervalApart(start: int, elapsed: nat -> nat, k: nat)
    requires k > 0
    ensures AttemptTime(start, elapsed, k) - AttemptTime(start, elapsed, k - 1)
      == elapsed(k - 1) + RetryIntervalSeconds * TicksPerSecond
    ensures AttemptTime(start, elapsed, k) >= AddSeconds(AttemptTime(start, elapsed, k - 1), RetryIntervalSeconds)
  {
  }

  /** Attempts that take no time are exactly five seconds apart. */
  lemma {:induction false} InstantAttemptsEvenlySpaced(start: int, elapsed: nat -> nat, k: nat)
    requires forall i :: elapsed(i) == 0
    ensures AttemptTime(start, elapsed, k) == AddSeconds(start, k * RetryIntervalSeconds)
  {
    if k > 0 {
      InstantAttemptsEvenlySpaced(start, elapsed, k - 1);
    }
  }

  /** The loop body succeeds for a tenant exactly when it has Prime settings with an alias. */
  predicate Registrable(t: TenantConfig)
    reads t.prime
  {
    t.prime != null && !IsNullOrWhiteSpace(t.prime.tenant)
  }

  /** The exception the loop body throws for a tenant that is not registrable: the Prime
      factory dereferences the missing section, or rejects the blank alias. */
  function RegistrationError(t: TenantConfig): Error
    reads t.prime
  {
    if t.prime == null then NullReference else ArgumentNull("config.Tenant")
  }

  /** The aliases of a tenant list, entry by entry. */
  ghost function Aliases(ts: seq<TenantConfig>): (r: seq<Option<string>>)
    reads set t | t in ts :: t.prime
    ensures |r| == |ts| && forall j :: 0 <= j < |ts| ==> r[j] == AliasOf(ts[j])
  {
    seq(|ts|, j reads set t | t in ts :: t.prime requires 0 <= j < |ts| => AliasOf(ts[j]))
  }

  /** No earlier entry carries the alias of entry j. */
  ghost predicate FirstOfAlias(aliases: seq<Option<string>>, j: nat)
    requires j < |aliases|
  {
    forall i :: 0 <= i < j ==> aliases[i] != aliases[j]
  }

  /** Each alias among the first n entries, mapped to the first entry that carries it. */
  ghost function FirstIndex(aliases: seq<Option<string>>, n: nat): (m: map<string, nat>)
    requires n <= |aliases|
    ensures forall a :: a in m ==> m[a] < n && aliases[m[a]] == Some(a)
  {
    if n == 0 then map[]
    else
      var m := FirstIndex(aliases, n - 1);
      if aliases[n - 1].None? || aliases[n - 1].value in m then m else m[aliases[n - 1].value := n - 1]
  }

  /** FirstIndex holds every alias of the first n entries. */
  lemma {:induction false} FirstIndexComplete(aliases: seq<Option<string>>, n: nat)
    requires n <= |aliases|
    ensures forall j :: 0 <= j < n && aliases[j].Some? ==> aliases[j].value in FirstIndex(aliases, n)
  {
    if n > 0 {
      FirstIndexComplete(aliases, n - 1);
    }
  }

  /** FirstIndex maps each alias to the first entry carrying it. */
  lemma {:induction false} FirstIndexFirst(aliases: seq<Option<string>>, n: nat)
    requires n <= |aliases|
    ensures forall a :: a in FirstIndex(aliases, n) ==> FirstOfAlias(aliases, FirstIndex(aliases, n)[a])
  {
    if n > 0 {
      FirstIndexFirst(aliases, n - 1);
      var m := FirstIndex(aliases, n - 1);
      if aliases[n - 1].Some? && aliases[n - 1].value !in m {
        FirstIndexComplete(aliases, n - 1);
        forall i | 0 <= i < n - 1 ensures aliases[i] != aliases[n - 1] {
          if aliases[i].Some? {
            assert aliases[i].value in m;
          }
        }
      }
    }
  }

  /** One iteration of the loop: the Prime service for the tenant's settings, then the NetDocs
      service under the same alias. The NetDocs factory's own blank-alias check cannot fire, the
      Prime factory having rejected a blank alias first. */
  method Register(primes: PrimeServiceFactory, netDocs: NetDocsServiceFactory, base: PrimeConfig?, t: TenantConfig)
    returns (r: Result<(PrimeService, NetDocsService), Error>)
    modifies primes, netDocs
    ensures r.Err? <==> !Registrable(t)
    ensures r.Err? ==> r.error == RegistrationError(t) && primes.tenants == old(primes.tenants) && netDocs.tenants == old(netDocs.tenants)
    ensures r.Ok? ==> var a := t.prime.tenant.value;
      && primes.tenants == old(primes.tenants)[a := r.value.0]
      && netDocs.tenants == old(netDocs.tenants)[a := r.value.1]
      && (a in old(primes.tenants) ==> r.value.0 == old(primes.tenants)[a])
      && (a in old(netDocs.tenants) ==> r.value.1 == old(netDocs.tenants)[a])
      && (a !in old(primes.tenants) ==>
            fresh(r.value.0) && r.value.0.config == base && r.value.0.tenantConfig == t.prime && r.value.0.health == StartingUp)
      && (a !in old(netDocs.tenants) ==>
            fresh(r.value.1) && r.value.1.config == t.netDocs && r.value.1.health == DefaultHealth)
  {
    var prime := primes.Create(base, t.prime);
    if prime.Err? {
      return Err(prime.error);
    }
    var netDoc := netDocs.Create(t.prime.tenant, t.netDocs);
    if netDoc.Err? {
      assert false;
    }
    r := Ok((prime.value, netDoc.value));
  }

  /** Each of the first iterations had a tenant with an alias and queued the services that the
      registries `pm` and `nm` hold under it. */
  ghost predicate QueuedUnder(queued: seq<(PrimeService, NetDocsService)>, aliases: seq<Option<string>>,
                              pm: map<string, PrimeService>, nm: map<string, NetDocsService>)
    requires |queued| <= |aliases|
  {
    forall j :: 0 <= j < |queued| ==>
      && !IsNullOrWhiteSpace(aliases[j]) && aliases[j].value in pm && aliases[j].value in nm
      && queued[j] == (pm[aliases[j].value], nm[aliases[j].value])
  }

  /** A registry that held `m0` gained exactly the aliases in `first` and kept its old entries. */
  ghost predicate Grown<V>(m0: map<string, V>, m: map<string, V>, first: map<string, nat>) {
    && (forall a :: a in m <==> a in m0 || a in first)
    && (forall a :: a in m0 ==> m[a] == m0[a])
  }

  /** Each new Prime alias is served as the first tenant carrying it configured it. */
  ghost predicate PrimeFirstWins(ts: seq<TenantConfig>, base: PrimeConfig?, first: map<string, nat>,
                                 pm0: map<string, PrimeService>, pm: map<string, PrimeService>)
  {
    forall a :: a in first && a !in pm0 && a in pm ==>
      first[a] < |ts| && pm[a].config == base && pm[a].tenantConfig == ts[first[a]].prime
  }

  /** Each new NetDocs alias is served with the settings of the first tenant carrying it. */
  ghost predicate NetDocsFirstWins(ts: seq<TenantConfig>, first: map<string, nat>,
                                   nm0: map<string, NetDocsService>, nm: map<string, NetDocsService>)
  {
    forall a :: a in first && a !in nm0 && a in nm ==> first[a] < |ts| && nm[a].config == ts[first[a]].netDocs
  }

  /** The registries `pm` and `nm`, which held `pm0` and `nm0`, after the iterations for the
      first n entries of `ts` queued `queued`. */
  ghost predicate Registry(ts: seq<TenantConfig>, aliases: seq<Option<string>>, base: PrimeConfig?,
                           pm0: map<string, PrimeService>, nm0: map<string, NetDocsService>, n: nat,
                           queued: seq<(PrimeService, NetDocsService)>,
                           pm: map<string, PrimeService>, nm: map<string, NetDocsService>)
  {
    && n == |queued| <= |aliases|
    && var first := FirstIndex(aliases, n);
    && QueuedUnder(queued, aliases, pm, nm)
    && Grown(pm0, pm, first) && Grown(nm0, nm, first)
    && PrimeFirstWins(ts, base, first, pm0, pm) && NetDocsFirstWins(ts, first, nm0, nm)
  }

  /** Before the first iteration the registries are as they were. */
  lemma RegistryStart(ts: seq<TenantConfig>, aliases: seq<Option<string>>, base: PrimeConfig?,
                      pm0: map<string, PrimeService>, nm0: map<string, NetDocsService>)
    ensures Registry(ts, aliases, base, pm0, nm0, 0, [], pm0, nm0)
  {
  }

  lemma QueuedStep(queued: seq<(PrimeService, NetDocsService)>, aliases: seq<Option<string>>,
                   pm: map<string, PrimeService>, nm: map<string, NetDocsService>, p: PrimeService, d: NetDocsService)
    requires |queued| < |aliases| && QueuedUnder(queued, aliases, pm, nm)
    requires !IsNullOrWhiteSpace(aliases[|queued|])
    requires var a := aliases[|queued|].value; (a in pm ==> p == pm[a]) && (a in nm ==> d == nm[a])
    ensures var a := aliases[|queued|].value; QueuedUnder(queued + [(p, d)], aliases, pm[a := p], nm[a := d])
  {
  }

  lemma GrownStep<V>(m0: map<string, V>, m: map<string, V>, first: map<string, nat>, a: string, n: nat, v: V)
    requires Grown(m0, m, first)
    requires a in m ==> v == m[a]
    ensures Grown(m0, m[a := v], if a in first then first else first[a := n])
  {
  }

  lemma PrimeFirstWinsStep(ts: seq<TenantConfig>, base: PrimeConfig?, first: map<string, nat>,
                           pm0: map<string, PrimeService>, pm: map<string, PrimeService>, a: string, n: nat, p: PrimeService)
    requires n < |ts| && Grown(pm0, pm, first) && PrimeFirstWins(ts, base, first, pm0, pm)
    requires a in pm ==> p == pm[a]
    requires a !in pm ==> p.config == base && p.tenantConfig == ts[n].prime
    ensures PrimeFirstWins(ts, base, if a in first then first else first[a := n], pm0, pm[a := p])
  {
  }

  lemma NetDocsFirstWinsStep(ts: seq<TenantConfig>, first: map<string, nat>,
                             nm0: map<string, NetDocsService>, nm: map<string, NetDocsService>, a: string, n: nat, d: NetDocsService)
    requires n < |ts| && Grown(nm0, nm, first) && NetDocsFirstWins(ts, first, nm0, nm)
    requires a in nm ==> d == nm[a]
    requires a !in nm ==> d.config == ts[n].netDocs
    ensures NetDocsFirstWins(ts, if a in first then first else first[a := n], nm0, nm[a := d])
  {
  }

  /** The loop body against the loop's description of the registries: after the iteration
      for entry n, the description holds for the first n + 1 entries. */
  method RegisterNext(primes: PrimeServiceFactory, netDocs: NetDocsServiceFactory, base: PrimeConfig?,
                      ts: seq<TenantConfig>, n: nat, ghost queued: seq<(PrimeService, NetDocsService)>,
                      ghost aliases: seq<Option<string>>, ghost pm0: map<string, PrimeService>, ghost nm0: map<string, NetDocsService>)
    returns (r: Result<(PrimeService, NetDocsService), Error>)
    requires n < |ts| == |aliases| && forall j :: 0 <= j < |ts| ==> AliasOf(ts[j]) == aliases[j]
    requires Registry(ts, aliases, base, pm0, nm0, n, queued, primes.tenants, netDocs.tenants)
    modifies primes, netDocs
    ensures forall j :: 0 <= j < |ts| ==> AliasOf(ts[j]) == aliases[j]
    ensures r.Err? <==> !Registrable(ts[n])
    ensures r.Err? ==>
      r.error == RegistrationError(ts[n]) && primes.tenants == old(primes.tenants) && netDocs.tenants == old(netDocs.tenants)
    ensures r.Ok? ==> Registry(ts, aliases, base, pm0, nm0, n + 1, queued + [r.value], primes.tenants, netDocs.tenants)
  {
    ghost var pm, nm := primes.tenants, netDocs.tenants;
    ghost var first := FirstIndex(aliases, n);
    r := Register(primes, netDocs, base, ts[n]);
    if r.Ok? {
      ghost var a := aliases[n].value;
      var p, d := r.value.0, r.value.1;
      QueuedStep(queued, aliases, pm, nm, p, d);
      GrownStep(pm0, pm, first, a, n, p);
      GrownStep(nm0, nm, first, a, n, d);
      PrimeFirstWinsStep(ts, base, first, pm0, pm, a, n, p);
      NetDocsFirstWinsStep(ts, first, nm0, nm, a, n, d);
    }
  }

  /** The registration loop over the tenant list `ts`, whose aliases are `aliases`. `queued`
      lists the pair of services each iteration hands to queueInit. An iteration whose tenant
      has no Prime settings or a blank alias throws, ending the loop: the later tenants are not
      registered. Every iteration queues the services registered under its tenant's alias; the
      registries gain exactly the aliases met, keep their old entries, and serve a new alias as
      the first tenant carrying it configures it. */
  method RegisterTenants(primes: PrimeServiceFactory, netDocs: NetDocsServiceFactory, base: PrimeConfig?,
                         ts: seq<TenantConfig>, ghost aliases: seq<Option<string>>)
    returns (r: Result<(), Error>, queued: seq<(PrimeService, NetDocsService)>)
    requires |aliases| == |ts| && forall j :: 0 <= j < |ts| ==> AliasOf(ts[j]) == aliases[j]
    modifies primes, netDocs
    ensures r.Ok? <==> |queued| == |ts|
    ensures r.Err? ==> |queued| < |ts| && !Registrable(ts[|queued|]) && r.error == RegistrationError(ts[|queued|])
    ensures Registry(ts, aliases, base, old(primes.tenants), old(netDocs.tenants), |queued|, queued, primes.tenants, netDocs.tenants)
  {
    ghost var pm0, nm0 := primes.tenants, netDocs.tenants;
    queued := [];
    RegistryStart(ts, aliases, base, pm0, nm0);
    for i := 0 to |ts|
      invariant forall j :: 0 <= j < |ts| ==> AliasOf(ts[j]) == aliases[j]
      invariant Registry(ts, aliases, base, pm0, nm0, i, queued, primes.tenants, netDocs.tenants)
    {
      var registered := RegisterNext(primes, netDocs, base, ts, i, queued, aliases, pm0, nm0);
      if registered.Err? {
        return Err(registered.error), queued;
      }
      queued := queued + [registered.value];
    }
    r := Ok(());
  }

  /** RunOnStartup: the registration loop over `Tenants ?? []` of the live configuration, each
      Prime service built on its base Prime settings. */
  method RunOnStartup(store: ConfigService, primes: PrimeServiceFactory, netDocs: NetDocsServiceFactory)
    returns (r: Result<(), Error>, queued: seq<(PrimeService, NetDocsService)>)
    modifies primes, netDocs
    ensures var ts := old(store.Entries());
      && (r.Ok? <==> |queued| == |ts|)
      && (r.Err? ==> |queued| < |ts| && !Registrable(ts[|queued|]) && r.error == RegistrationError(ts[|queued|]))
    ensures Registry(old(store.Entries()), old(Aliases(store.Entries())), old(store.config.prime),
                     old(primes.tenants), old(netDocs.tenants), |queued|, queued, primes.tenants, netDocs.tenants)
  {
    var config := store.GetAppConfig();
    var ts := if config.tenants.Some? then config.tenants.value else [];
    r, queued := RegisterTenants(primes, netDocs, config.prime, ts, Aliases(ts));
  }

  /** The program's top level: RunOnStartup is awaited before the host runs, so an exception
      from the registration loop ends the program and the service never starts listening. It
      listens exactly when every configured tenant has Prime settings and a non-blank alias. */
  method StartApplication(store: ConfigService, primes: PrimeServiceFactory, netDocs: NetDocsServiceFactory)
    returns (listening: bool, queued: seq<(PrimeService, NetDocsService)>)
    modifies primes, netDocs
    ensures listening <==> forall j :: 0 <= j < |old(store.Entries())| ==> Registrable(old(store.Entries())[j])
    ensures listening ==> |queued| == |old(store.Entries())|
  {
    ghost var ts := store.Entries();
    ghost var aliases := Aliases(ts);
    var r;
    r, queued := RunOnStartup(store, primes, netDocs);
    listening := r.Ok?;
    if listening {
      forall j | 0 <= j < |ts| ensures Registrable(ts[j]) {
        assert aliases[j] == AliasOf(ts[j]);
      }
    }
  }

  /** queueInit for a Prime service: InitAsync at `start`, and after each failure again five
      seconds after the failed attempt ended, until one succeeds or `horizon` attempts have been
      made. Attempt k takes `elapsed(k)` ticks, gets the token replies `tokenReplies(k)` and
      the webhook API `put(k)`. */
  method QueuePrimeInit(service: PrimeService, start: int, elapsed: nat -> nat, horizon: nat,
                        tokenReplies: nat -> nat -> Result<TokenResponse, Error>, uriError: string -> Option<Error>,
                        resolve: (string, string) -> Result<string, Error>,
                        put: nat -> (nat, WebhookPut) -> Result<int, Error>)
    returns (times: seq<int>, outcomes: seq<Result<(), Error>>)
    modifies service
    ensures |times| == |outcomes| <= horizon
    ensures forall k :: 0 <= k < |times| ==> times[k] == AttemptTime(start, elapsed, k)
    // a success ends the retries; a failure is retried
    ensures forall k :: 0 <= k < |outcomes| - 1 ==> outcomes[k].Err?
    ensures |outcomes| < horizon ==> outcomes != [] && outcomes[|outcomes| - 1].Ok?
    ensures outcomes != [] ==> (outcomes[|outcomes| - 1].Ok? <==> service.health == Registered)
    ensures outcomes != [] && outcomes[|outcomes| - 1].Err? ==> service.health == NotRegistered
    // without base settings no attempt can succeed
    ensures service.config == null ==> |outcomes| == horizon && forall k :: 0 <= k < |outcomes| ==> outcomes[k] == Err(NullReference)
  {
    times, outcomes := [], [];
    while |outcomes| < horizon && (outcomes == [] || outcomes[|outcomes| - 1].Err?)
      invariant |times| == |outcomes| <= horizon
      invariant forall k :: 0 <= k < |times| ==> times[k] == AttemptTime(start, elapsed, k)
      invariant forall k :: 0 <= k < |outcomes| - 1 ==> outcomes[k].Err?
      invariant outcomes != [] ==> (outcomes[|outcomes| - 1].Ok? <==> service.health == Registered)
      invariant outcomes != [] && outcomes[|outcomes| - 1].Err? ==> service.health == NotRegistered
      invariant service.config == null ==> forall k :: 0 <= k < |outcomes| ==> outcomes[k] == Err(NullReference)
      decreases horizon - |outcomes|
    {
      var k := |outcomes|;
      var now := AttemptTime(start, elapsed, k);
      var r := service.InitAsync(now, tokenReplies(k), uriError, resolve, put(k));
      times, outcomes := times + [now], outcomes + [r];
    }
  }

  /** queueInit for a NetDocs service, with the same schedule (attempt k takes `elapsed(k)`). Its initialisation fetches no
      token: the outcome is fixed by the settings, so a first failure repeats at every attempt
      up to the horizon. */
  method QueueNetDocsInit(service: NetDocsService, start: int, elapsed: nat -> nat, horizon: nat, uriError: string -> Option<Error>)
    returns (times: seq<int>, outcomes: seq<Result<(), Error>>)
    modifies service
    ensures |times| == |outcomes| <= horizon
    ensures forall k :: 0 <= k < |times| ==> times[k] == AttemptTime(start, elapsed, k)
    ensures forall k :: 0 <= k < |outcomes| - 1 ==> outcomes[k].Err?
    ensures |outcomes| < horizon ==> outcomes != [] && outcomes[|outcomes| - 1].Ok?
    ensures horizon > 0 && SetupError(service.config, uriError).None? ==>
      |outcomes| == 1 && outcomes[0].Ok? && service.health == HealthCheckResult(Healthy, None)
    ensures SetupError(service.config, uriError).Some? ==>
      && |outcomes| == horizon
      && (forall k :: 0 <= k < |outcomes| ==> outcomes[k] == Err(SetupError(service.config, uriError).value))
      && (horizon > 0 ==> service.health == InitFailureHealth(SetupError(service.config, uriError).value))
  {
    ghost var e := SetupError(service.config, uriError);
    times, outcomes := [], [];
    while |outcomes| < horizon && (outcomes == [] || outcomes[|outcomes| - 1].Err?)
      invariant |times| == |outcomes| <= horizon
      invariant forall k :: 0 <= k < |times| ==> times[k] == AttemptTime(start, elapsed, k)
      invariant SetupError(service.config, uriError) == e
      invariant e.None? ==> |outcomes| <= 1 && (outcomes != [] ==> outcomes[0].Ok? && service.health == HealthCheckResult(Healthy, None))
      invariant e.Some? ==>
        && (forall k :: 0 <= k < |outcomes| ==> outcomes[k] == Err(e.value))
        && (outcomes != [] ==> service.health == InitFailureHealth(e.value))
      decreases horizon - |outcomes|
    {
      var k := |outcomes|;
      var now := AttemptTime(start, elapsed, k);
      var r := service.InitAsync(uriError);
      times, outcomes := times + [now], outcomes + [r];
    }
  }
}
