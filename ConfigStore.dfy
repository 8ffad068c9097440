/** The tenant configuration store (ConfigService): the live AppConfig whose tenant list is
    looked up by lower-cased alias, upserted and deleted in place, with every mutation rewriting
    the persisted tenant overlay. The reader/writer lock is left out (calls are sequential), and
    the overlay file is the ghost field `persisted`: the value the last write serialised. */
module ConfigStore {
  import opened Common
  import opened Configurations

  /** The position of the first entry whose `Prime?.Tenant` equals `key` (FirstOrDefault); an
      entry with a null Prime never matches. */
  function FirstMatch(ts: seq<TenantConfig>, key: string): (r: Option<nat>)
    reads PrimesOf(ts)
    ensures r.Some? ==> r.value < |ts| && AliasOf(ts[r.value]) == Some(key)
    ensures forall j :: 0 <= j < |ts| && (r.None? || j < r.value) ==> AliasOf(ts[j]) != Some(key)
  {
    if ts == [] then None
    else if AliasOf(ts[0]) == Some(key) then Some(0)
    else
      match FirstMatch(ts[1..], key)
      case None => None
      case Some(i) => Some(i + 1)
  }

  /** The first match is the only position with its characterisation. */
  lemma FirstMatchIs(ts: seq<TenantConfig>, key: string, r: Option<nat>)
    requires r.Some? ==> r.value < |ts| && AliasOf(ts[r.value]) == Some(key)
    requires forall j :: 0 <= j < |ts| && (r.None? || j < r.value) ==> AliasOf(ts[j]) != Some(key)
    ensures FirstMatch(ts, key) == r
  {
  }

  /** List.Remove: drops the first occurrence of `x`, compared by reference. */
  function ListRemove<T(==)>(s: seq<T>, x: T): (r: seq<T>)
    ensures x !in s ==> r == s
    ensures x in s ==> |r| == |s| - 1
  {
    if s == [] then []
    else if s[0] == x then s[1..]
    else [s[0]] + ListRemove(s[1..], x)
  }

  /** The sequence without the entry at the given position, if any. */
  function Without<T>(s: seq<T>, at: Option<nat>): (r: seq<T>)
    requires at.Some? ==> at.value < |s|
    ensures |r| == if at.Some? then |s| - 1 else |s|
  {
    if at.None? then s else s[..at.value] + s[at.value + 1..]
  }

  /** The entry at position `k` after removing position `at`. */
  lemma WithoutAt<T>(s: seq<T>, at: Option<nat>, k: nat)
    requires at.Some? ==> at.value < |s|
    requires k < |Without(s, at)|
    ensures Without(s, at)[k] == if at.Some? && at.value <= k then s[k + 1] else s[k]
  {
  }

  /** List.Remove of the element at position `i`, when no earlier element equals it, removes
      exactly position `i`. */
  lemma {:induction false} ListRemoveAt<T>(s: seq<T>, i: nat)
    requires i < |s| && forall j :: 0 <= j < i ==> s[j] != s[i]
    ensures ListRemove(s, s[i]) == s[..i] + s[i + 1..]
  {
    if i > 0 {
      var tail := s[1..];
      assert tail[i - 1] == s[i];
      ListRemoveAt(tail, i - 1);
      assert ListRemove(s, s[i]) == [s[0]] + (tail[..i - 1] + tail[i..]);
      assert tail[..i - 1] == s[1..i] && tail[i..] == s[i + 1..];
      assert [s[0]] + s[1..i] == s[..i];
    }
  }

  /** Removing the first entry with an alias removes exactly that position: no earlier entry can
      be the same object, since it would carry the same alias. */
  lemma ListRemoveFirstMatch(ts: seq<TenantConfig>, key: string)
    requires FirstMatch(ts, key).Some?
    ensures ListRemove(ts, ts[FirstMatch(ts, key).value]) == Without(ts, FirstMatch(ts, key))
  {
    var i := FirstMatch(ts, key).value;
    forall j | 0 <= j < i ensures ts[j] != ts[i] {
      assert AliasOf(ts[j]) != AliasOf(ts[i]);
    }
    ListRemoveAt(ts, i);
  }

  /** At most one entry per alias. */
  ghost predicate UniqueAliases(ts: seq<TenantConfig>)
    reads PrimesOf(ts)
  {
    forall i, j :: 0 <= i < j < |ts| && AliasOf(ts[i]).Some? ==> AliasOf(ts[i]) != AliasOf(ts[j])
  }

  /** Uniqueness depends on the entries' Prime settings objects only. */
  twostate lemma UniqueAliasesFrame(ts: seq<TenantConfig>)
    requires unchanged(PrimesOf(ts))
    ensures UniqueAliases(ts) == old(UniqueAliases(ts))
  {
  }

  /** Every entry's alias depends on its Prime settings object only. */
  twostate lemma AliasesFrame(ts: seq<TenantConfig>)
    requires unchanged(PrimesOf(ts))
    ensures forall j :: 0 <= j < |ts| ==> AliasOf(ts[j]) == old(AliasOf(ts[j]))
  {
  }

  /** Upsert keeps aliases unique: dropping the first (hence only) entry with the new alias and
      appending the new entry leaves one entry per alias. */
  lemma UpsertKeepsUnique(ts: seq<TenantConfig>, c: TenantConfig, key: string)
    requires UniqueAliases(ts) && AliasOf(c) == Some(key)
    ensures UniqueAliases(Without(ts, FirstMatch(ts, key)) + [c])
  {
    var m := FirstMatch(ts, key);
    var rest := Without(ts, m);
    var s := rest + [c];
    forall k | 0 <= k < |rest| ensures AliasOf(rest[k]) != Some(key) {
      WithoutAt(ts, m, k);
    }
    forall i, j | 0 <= i < j < |s| && AliasOf(s[i]).Some? ensures AliasOf(s[i]) != AliasOf(s[j]) {
      if j < |rest| {
        WithoutAt(ts, m, i);
        WithoutAt(ts, m, j);
      }
    }
  }

  /** After an upsert, looking up the new alias finds the new entry, at the end of the list. */
  lemma LookupAfterUpsert(ts: seq<TenantConfig>, c: TenantConfig, key: string)
    requires UniqueAliases(ts) && AliasOf(c) == Some(key)
    ensures var s := Without(ts, FirstMatch(ts, key)) + [c];
      FirstMatch(s, key) == Some(|s| - 1) && s[|s| - 1] == c
  {
    var m := FirstMatch(ts, key);
    var rest := Without(ts, m);
    var s := rest + [c];
    forall k | 0 <= k < |rest| ensures AliasOf(s[k]) != Some(key) {
      WithoutAt(ts, m, k);
    }
    var r := FirstMatch(s, key);
    assert r.Some? by { assert AliasOf(s[|s| - 1]) == Some(key); }
  }

  /** After an upsert under the lower-cased form of `given`, a lookup with any case variant of
      `given` finds the new entry. */
  lemma UpsertThenLookupAnyCase(ts: seq<TenantConfig>, c: TenantConfig, given: string, query: string)
    requires UniqueAliases(ts) && AliasOf(c) == Some(ToLowerInvariant(given))
    requires CaseVariants(query, given)
    ensures var s := Without(ts, FirstMatch(ts, ToLowerInvariant(given))) + [c];
      FirstMatch(s, ToLowerInvariant(query)) == Some(|s| - 1) && s[|s| - 1] == c
  {
    ToLowerEqualIffCaseVariants(query, given);
    LookupAfterUpsert(ts, c, ToLowerInvariant(given));
  }

  class ConfigService {
    /** The live configuration; reads hand out this very object and its entries. */
    const config: AppConfig
    /** The tenant overlay as the last write left it; None until the first write. */
    ghost var persisted: Option<TenantsFile>

    constructor (config: AppConfig)
      ensures this.config == config && persisted.None?
    {
      this.config := config;
      persisted := None;
    }

    /** The tenant list, a null list read as empty. */
    function Entries(): seq<TenantConfig>
      reads config
    {
      if config.tenants.Some? then config.tenants.value else []
    }

    /** What serialising the tenant list writes now: the tenants and nothing of the base settings. */
    ghost function Snapshot(): TenantsFile
      reads config, PrimesOf(Entries()), NetDocsOf(Entries())
    {
      TenantsFile(TenantsValue(Entries()))
    }

    /** GetConfig(): the live configuration object, not a copy. */
    method GetAppConfig() returns (c: AppConfig)
      ensures c == config
    {
      c := config;
    }

    /** GetConfig(alias): the first entry whose alias is the lower-cased argument, or null. The
        null tenant list is replaced by an empty one even when the alias is then rejected. */
    method GetConfig(alias: Option<string>) returns (r: Result<TenantConfig?, Error>)
      modifies config`tenants
      ensures config.tenants == Some(old(Entries()))
      ensures r.Err? <==> IsNullOrWhiteSpace(alias)
      ensures r.Err? ==> r.error == ArgumentNull("tenantAlias")
      ensures r.Ok? && r.value != null ==>
        r.value in Entries() && AliasOf(r.value) == Some(ToLowerInvariant(alias.value))
      ensures r.Ok? && r.value == null ==>
        forall t :: t in Entries() ==> AliasOf(t) != Some(ToLowerInvariant(alias.value))
      ensures r.Ok? ==> r.value == match FirstMatch(Entries(), ToLowerInvariant(alias.value))
                                   case None => null
                                   case Some(i) => Entries()[i]
    {
      if config.tenants.None? {
        config.tenants := Some([]);
      }
      var tenants := config.tenants.value;
      if IsNullOrWhiteSpace(alias) {
        return Err(ArgumentNull("tenantAlias"));
      }
      var existing := FirstMatch(tenants, ToLowerInvariant(alias.value));
      if existing.Some? {
        r := Ok(tenants[existing.value]);
      } else {
        r := Ok(null);
      }
    }

    /** SetConfig: lower-cases the caller's own `Prime.Tenant` in place, removes the first entry
        with that alias, appends the caller's object and rewrites the overlay. */
    method SetConfig(c: TenantConfig) returns (r: Result<(), Error>)
      modifies config`tenants, c.prime, this`persisted
      ensures c.prime != null ==> c.prime.apiUrl == old(c.prime.apiUrl)
      ensures r.Ok? <==> c.prime != null && !IsNullOrWhiteSpace(old(c.prime.tenant))
      ensures c.prime == null ==> r == Err(NullReference)
      ensures r.Err? ==>
        && config.tenants == Some(old(Entries()))
        && persisted == old(persisted)
        && (c.prime != null ==> r == Err(ArgumentNull("Tenant")) && c.prime.tenant == old(c.prime.tenant))
      ensures r.Ok? ==>
        var key := ToLowerInvariant(old(c.prime.tenant).value);
        && c.prime.tenant == Some(key)
        && config.tenants == Some(Without(old(Entries()), FirstMatch(old(Entries()), key)) + [c])
        && persisted == Some(Snapshot())
      ensures r.Ok? && c.prime !in PrimesOf(old(Entries())) && old(UniqueAliases(Entries())) ==>
        UniqueAliases(Entries())
    {
      if config.tenants.None? {
        config.tenants := Some([]);
      }
      var tenants := config.tenants.value;
      if c.prime == null {
        return Err(NullReference);
      }
      if IsNullOrWhiteSpace(c.prime.tenant) {
        return Err(ArgumentNull("Tenant"));
      }
      c.prime.tenant := Some(ToLowerInvariant(c.prime.tenant.value));
      var key := c.prime.tenant.value;
      if c.prime !in PrimesOf(tenants) {
        UniqueAliasesFrame(tenants);
      }
      Upsert(c, key);
      r := Ok(());
    }

    /** The list update of SetConfig once the alias is lower-cased, and the overlay write. */
    method Upsert(c: TenantConfig, key: string)
      requires AliasOf(c) == Some(key)
      modifies config`tenants, this`persisted
      ensures config.tenants == Some(Without(old(Entries()), FirstMatch(old(Entries()), key)) + [c])
      ensures persisted == Some(Snapshot())
      ensures old(UniqueAliases(Entries())) ==> UniqueAliases(Entries())
    {
      var tenants := Entries();
      var existing := FirstMatch(tenants, key);
      var kept := tenants;
      if existing.Some? {
        ListRemoveFirstMatch(tenants, key);
        kept := ListRemove(tenants, tenants[existing.value]);
      }
      assert kept == Without(tenants, existing);
      var updated := kept + [c];
      if UniqueAliases(tenants) {
        UpsertKeepsUnique(tenants, c, key);
      }
      config.tenants := Some(updated);
      WriteConfig();
      UniqueAliasesFrame(updated);
      AliasesFrame(tenants);
      FirstMatchIs(tenants, key, existing);
    }

    /** DeleteConfig: removes the first entry with the lower-cased alias, if any, and rewrites
        the overlay either way. */
    method DeleteConfig(alias: Option<string>) returns (r: Result<(), Error>)
      modifies config`tenants, this`persisted
      ensures r.Err? <==> IsNullOrWhiteSpace(alias)
      ensures r.Err? ==>
        r.error == ArgumentNull("tenantAlias") && config.tenants == Some(old(Entries())) && persisted == old(persisted)
      ensures r.Ok? ==>
        && config.tenants == Some(Without(old(Entries()), old(FirstMatch(Entries(), ToLowerInvariant(alias.value)))))
        && persisted == Some(Snapshot())
    {
      if config.tenants.None? {
        config.tenants := Some([]);
      }
      var tenants := config.tenants.value;
      if IsNullOrWhiteSpace(alias) {
        return Err(ArgumentNull("tenantAlias"));
      }
      var key := ToLowerInvariant(alias.value);
      var existing := FirstMatch(tenants, key);
      if existing.Some? {
        ListRemoveFirstMatch(tenants, key);
        tenants := ListRemove(tenants, tenants[existing.value]);
        config.tenants := Some(tenants);
      }
      WriteConfig();
      r := Ok(());
    }

    /** WriteConfig: the overlay becomes the serialised tenant list (the temporary file and the
        atomic move are left out). */
    method WriteConfig()
      modifies this`persisted
      ensures persisted == Some(Snapshot())
    {
      ghost var file := Snapshot();
      persisted := Some(file);
      assert Entries() == old(Entries());
      assert PrimesOf(Entries()) == old(PrimesOf(Entries()));
      assert NetDocsOf(Entries()) == old(NetDocsOf(Entries()));
    }
  }

  /** Deleting an alias that is absent changes nothing; deleting a present one removes exactly
      one entry. */
  lemma DeleteRemovesAtMostOne(ts: seq<TenantConfig>, key: string)
    ensures FirstMatch(ts, key).None? ==> Without(ts, FirstMatch(ts, key)) == ts
    ensures FirstMatch(ts, key).Some? ==>
      |Without(ts, FirstMatch(ts, key))| == |ts| - 1 &&
      forall t :: t in Without(ts, FirstMatch(ts, key)) ==> t in ts
  {
  }
}
