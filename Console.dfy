/** The admin console (ConsoleController): argument checks in front of the configuration store,
    and the redaction of the NetDocuments client secret in the configuration it returns. */
module Console {
  import opened Common
  import opened Configurations
  import opened ConfigStore

  const Redacted := "<redacted>"
  const AliasRequired := "Argument tenantAlias must be specified"
  const TenantRequired := "Property config.Prime.Tenant must be specified"

  /** The two answers of a lookup that does not throw: 404 with a message, or the entry. */
  datatype ConfigResponse = NotFound(message: string) | Found(config: TenantConfig)

  /** The answer of the corrected lookup: the entry as a value, detached from the store. */
  datatype RecordResponse = RecordNotFound(message: string) | RecordFound(record: TenantRecord)

  /** A NetDocuments record with its client secret replaced by the redaction marker. */
  function RedactRecord(t: TenantRecord): TenantRecord
    requires t.netDocs.Some?
  {
    t.(netDocs := Some(t.netDocs.value.(clientSecret := Some(Redacted))))
  }

  /** What a redacted record shows: every setting but the client secret, which is the marker.
      Two records redact to the same response exactly when they differ at most in the secret, so
      the response reveals nothing of it; redacting again changes nothing. */
  lemma RedactionHidesOnlySecret(t: TenantRecord, u: TenantRecord)
    requires t.netDocs.Some? && u.netDocs.Some?
    ensures RedactRecord(t).prime == t.prime && RedactRecord(t).netDocs.Some?
    ensures RedactRecord(t).netDocs.value.clientSecret == Some(Redacted)
    ensures RedactRecord(t).netDocs.value.(clientSecret := t.netDocs.value.clientSecret) == t.netDocs.value
    ensures RedactRecord(t) == RedactRecord(u) <==>
      t.prime == u.prime && t.netDocs.value.(clientSecret := u.netDocs.value.clientSecret) == u.netDocs.value
    ensures RedactRecord(RedactRecord(t)) == RedactRecord(t)
  {
  }

  class ConsoleController {
    const store: ConfigService

    constructor (store: ConfigService)
      ensures this.store == store
    {
      this.store := store;
    }

    /** GET console/config: a blank alias is rejected before the store is consulted; an alias
        with no entry is a 404; otherwise the store's own entry is returned after its NetDocs
        client secret has been overwritten in place. An entry without NetDocs settings throws. */
    method GetConfig(alias: Option<string>) returns (r: Result<ConfigResponse, Error>)
      modifies store.config`tenants, NetDocsOf(store.Entries())
      ensures IsNullOrWhiteSpace(alias) ==>
        && r == Err(Argument(AliasRequired))
        && store.config.tenants == old(store.config.tenants)
        && unchanged(NetDocsOf(old(store.Entries())))
      ensures !IsNullOrWhiteSpace(alias) ==>
        var m := old(FirstMatch(store.Entries(), ToLowerInvariant(alias.value)));
        && store.config.tenants == Some(old(store.Entries()))
        && (m.None? ==>
              r == Ok(NotFound("No configuration found for tenant " + alias.value))
              && unchanged(NetDocsOf(old(store.Entries()))))
        && (m.Some? && old(store.Entries())[m.value].netDocs == null ==>
              r == Err(NullReference) && unchanged(NetDocsOf(old(store.Entries()))))
        && (m.Some? && old(store.Entries())[m.value].netDocs != null ==>
              var entry := old(store.Entries())[m.value];
              && r == Ok(Found(entry))
              && TenantValue(entry) == RedactRecord(old(TenantValue(entry)))
              && forall n :: n in old(NetDocsOf(store.Entries())) && n != entry.netDocs ==> unchanged(n))
    {
      if IsNullOrWhiteSpace(alias) {
        return Err(Argument(AliasRequired));
      }
      var found := store.GetConfig(alias);
      if found.Err? {
        assert false;
      }
      ghost var key := ToLowerInvariant(alias.value);
      AliasesFrame(old(store.Entries()));
      FirstMatchIs(old(store.Entries()), key, old(FirstMatch(store.Entries(), key)));
      var entry := found.value;
      if entry == null {
        return Ok(NotFound("No configuration found for tenant " + alias.value));
      }
      if entry.netDocs == null {
        return Err(NullReference);
      }
      entry.netDocs.clientSecret := Some(Redacted);
      r := Ok(Found(entry));
    }

    /** PUT console/config: a null Prime section throws on the member access, a blank alias is
        rejected; only then is the store's SetConfig called. */
    method PutConfig(c: TenantConfig) returns (r: Result<(), Error>)
      modifies store.config`tenants, c.prime, store`persisted
      ensures c.prime != null ==> c.prime.apiUrl == old(c.prime.apiUrl)
      ensures r.Ok? <==> c.prime != null && !IsNullOrWhiteSpace(old(c.prime.tenant))
      ensures r.Err? ==>
        && store.config.tenants == old(store.config.tenants)
        && store.persisted == old(store.persisted)
        && (c.prime == null ==> r.error == NullReference)
        && (c.prime != null ==> r.error == Argument(TenantRequired) && c.prime.tenant == old(c.prime.tenant))
      ensures r.Ok? ==>
        var key := ToLowerInvariant(old(c.prime.tenant).value);
        && c.prime.tenant == Some(key)
        && store.config.tenants == Some(Without(old(store.Entries()), FirstMatch(old(store.Entries()), key)) + [c])
        && store.persisted == Some(store.Snapshot())
      // a request body is deserialised afresh, so its Prime object is never already stored
      ensures r.Ok? && c.prime !in PrimesOf(old(store.Entries())) && old(UniqueAliases(store.Entries())) ==>
        UniqueAliases(store.Entries())
    {
      if c.prime == null {
        return Err(NullReference);
      }
      if IsNullOrWhiteSpace(c.prime.tenant) {
        return Err(Argument(TenantRequired));
      }
      r := store.SetConfig(c);
    }

    /** DELETE console/config: a blank alias is rejected before the store is called. */
    method DeleteConfig(alias: Option<string>) returns (r: Result<(), Error>)
      modifies store.config`tenants, store`persisted
      ensures r.Err? <==> IsNullOrWhiteSpace(alias)
      ensures r.Err? ==>
        && r.error == Argument(AliasRequired)
        && store.config.tenants == old(store.config.tenants)
        && store.persisted == old(store.persisted)
      ensures r.Ok? ==>
        && store.config.tenants == Some(Without(old(store.Entries()), old(FirstMatch(store.Entries(), ToLowerInvariant(alias.value)))))
        && store.persisted == Some(store.Snapshot())
    {
      if IsNullOrWhiteSpace(alias) {
        return Err(Argument(AliasRequired));
      }
      r := store.DeleteConfig(alias);
    }

    /** The lookup with the redaction applied to a copy: the response carries the entry's
        settings with the secret replaced, and the store's objects keep the real secret. */
    method GetConfigRedacted(alias: Option<string>) returns (r: Result<RecordResponse, Error>)
      modifies store.config`tenants
      ensures IsNullOrWhiteSpace(alias) ==> r == Err(Argument(AliasRequired))
      ensures IsNullOrWhiteSpace(alias) ==> store.config.tenants == old(store.config.tenants)
      ensures !IsNullOrWhiteSpace(alias) ==>
        var m := old(FirstMatch(store.Entries(), ToLowerInvariant(alias.value)));
        && store.config.tenants == Some(old(store.Entries()))
        && (m.None? ==> r == Ok(RecordNotFound("No configuration found for tenant " + alias.value)))
        && (m.Some? && old(store.Entries())[m.value].netDocs == null ==> r == Err(NullReference))
        && (m.Some? && old(store.Entries())[m.value].netDocs != null ==>
              r == Ok(RecordFound(RedactRecord(TenantValue(old(store.Entries())[m.value])))))
    {
      if IsNullOrWhiteSpace(alias) {
        return Err(Argument(AliasRequired));
      }
      var found := store.GetConfig(alias);
      if found.Err? {
        assert false;
      }
      var entry := found.value;
      if entry == null {
        return Ok(RecordNotFound("No configuration found for tenant " + alias.value));
      }
      if entry.netDocs == null {
        return Err(NullReference);
      }
      r := Ok(RecordFound(RedactRecord(TenantValue(entry))));
    }
  }

  // ---------------------------------------------------------------------------------------
  // The in-place redaction, end to end: one tenant "acme" whose NetDocs secret is "s3cret".
  // An admin lookup by "ACME" is followed by a delete of the absent alias "other", which
  // rewrites the overlay.

  lemma ScenarioAliases()
    ensures !IsNullOrWhiteSpace(Some("ACME")) && ToLowerInvariant("ACME") == "acme"
    ensures !IsNullOrWhiteSpace(Some("other")) && ToLowerInvariant("other") == "other"
  {
    assert !IsWhiteSpace("ACME"[0]) && !IsWhiteSpace("other"[0]);
  }

  /** A console over a store holding the single tenant of the scenario. */
  method NewScenario() returns (console: ConsoleController, t: TenantConfig)
    ensures fresh(console) && fresh(console.store) && fresh(console.store.config)
    ensures console.store.Entries() == [t] && fresh(t) && fresh(t.netDocs) && t.netDocs != null
    ensures AliasOf(t) == Some("acme") && t.netDocs.clientSecret == Some("s3cret")
    ensures console.store.persisted.None?
  {
    var nd := new NetDocsConfig();
    nd.clientSecret := Some("s3cret");
    var p := new PrimeTenantConfig(Some("acme"), None);
    t := new TenantConfig(p, nd);
    var app := new AppConfig(null, Some([t]));
    var store := new ConfigService(app);
    console := new ConsoleController(store);
  }

  /** As written: after the lookup the store's own NetDocs object holds the marker, and the next
      overlay write persists the marker in place of the secret. */
  method LookupThenDeleteAsWritten() returns (before: Option<string>, after: Option<string>, ghost overlay: TenantsFile)
    ensures before == Some("s3cret") && after == Some(Redacted)
    ensures |overlay.tenants| == 1 && overlay.tenants[0].netDocs.Some?
    ensures overlay.tenants[0].netDocs.value.clientSecret == Some(Redacted)
  {
    var console, t := NewScenario();
    ScenarioAliases();
    before := t.netDocs.clientSecret;
    assert FirstMatch([t], "acme") == Some(0);
    var got := console.GetConfig(Some("ACME"));
    assert FirstMatch([t], "other") == None;
    var deleted := console.DeleteConfig(Some("other"));
    after := t.netDocs.clientSecret;
    overlay := console.store.persisted.value;
    assert console.store.Entries() == [t];
  }

  /** Corrected: the lookup redacts a copy, so the store's object and the next overlay write keep
      the real secret while the response carries the marker. */
  method LookupThenDeleteCorrected() returns (shown: Option<string>, after: Option<string>, ghost overlay: TenantsFile)
    ensures shown == Some(Redacted) && after == Some("s3cret")
    ensures |overlay.tenants| == 1 && overlay.tenants[0].netDocs.Some?
    ensures overlay.tenants[0].netDocs.value.clientSecret == Some("s3cret")
  {
    var console, t := NewScenario();
    ScenarioAliases();
    assert FirstMatch([t], "acme") == Some(0);
    var got := console.GetConfigRedacted(Some("ACME"));
    assert got == Ok(RecordFound(RedactRecord(TenantValue(t))));
    shown := got.value.record.netDocs.value.clientSecret;
    assert FirstMatch([t], "other") == None;
    var deleted := console.DeleteConfig(Some("other"));
    after := t.netDocs.clientSecret;
    overlay := console.store.persisted.value;
    assert console.store.Entries() == [t];
  }
}
