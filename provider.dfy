/**
 * `TenantsServiceProvider::resolveActiveTenant()`: at boot, resolve the tenant
 * of the request once and bind it as the `request.tenant` singleton. Any
 * exception raised while probing the database or resolving is swallowed and
 * the binding is null.
 */
module Provider {
  import opened Wrappers
  import opened Tenants
  import opened Resolvers
  import Domains

  /** What `Schema::hasTable()` does for the tenants table. */
  datatype TableCheck = TableExists | TableMissing | TableCheckThrows

  /** Everything the boot step reads from the environment. */
  datatype BootEnvironment = BootEnvironment(
    dbReachable: bool,               // `DB::connection()->getPdo()` does not throw
    host: string,                    // `request()->getHost()`
    appDomains: set<string>,         // the keys of `config('app.domains')`
    tableCheck: TableCheck,
    resolver: ResolverKind,          // `config('rinvex.tenants.resolver')`
    config: Domains.Config,
    urlHost: string -> string,       // `parse_url($url, PHP_URL_HOST)`
    isNumeric: string -> bool)       // `is_numeric`

  /** `central_domains()` as the resolvers call it, reading `alias_domains` as written. */
  function Central(env: BootEnvironment): (r: seq<string>)
    ensures |r| >= 1 && r[0] == env.urlHost(env.config.appUrl)
  {
    Domains.CentralDomainsAsWritten(env.config, env.urlHost)
  }

  function ResolveIn(env: BootEnvironment, ts: seq<Tenant>): Resolution {
    Resolve(env.resolver, env.host, Central(env), ts, env.isNumeric)
  }

  /** The value the `request.tenant` singleton returns. */
  function PublishedTenant(env: BootEnvironment, ts: seq<Tenant>): (r: Option<Tenant>)
    ensures r.None? <==>
      !env.dbReachable || env.host in env.appDomains || env.tableCheck != TableExists
      || ResolveIn(env, ts).Failed?
    ensures r.Some? ==> ResolveIn(env, ts) == Resolved(r.value)
  {
    if !env.dbReachable then None
    else if env.host in env.appDomains then None
    else match env.tableCheck
      case TableMissing => None
      case TableCheckThrows => None
      case TableExists =>
        match ResolveIn(env, ts)
        case Resolved(t) => Some(t)
        case Failed(_) => None
  }

  /** Whatever is published is an active tenant of the table. */
  lemma PublishedTenantIsActive(env: BootEnvironment, ts: seq<Tenant>)
    ensures var r := PublishedTenant(env, ts);
            r.Some? ==> r.value in ts && r.value.isActive
  {
  }

  /** The service container's singleton bindings for the tenant. */
  class Container {
    var bindings: map<string, Option<Tenant>>
    var registrations: seq<string>

    constructor()
      ensures bindings == map[] && registrations == []
    {
      bindings := map[];
      registrations := [];
    }

    /** `$app->singleton($key, fn () => $value)`; a later registration replaces an earlier one. */
    method Singleton(key: string, value: Option<Tenant>)
      modifies this
      ensures bindings == old(bindings)[key := value]
      ensures registrations == old(registrations) + [key]
    {
      bindings := bindings[key := value];
      registrations := registrations + [key];
    }
  }

  /**
   * The boot step, in the order the provider runs it: the connection probe,
   * the app-domain test, which short-circuits the table check, then the
   * resolver; an exception from any of them leaves the tenant null.
   */
  method ResolveActiveTenant(app: Container, env: BootEnvironment, ts: seq<Tenant>)
    modifies app
    ensures app.bindings == old(app.bindings)["request.tenant" := PublishedTenant(env, ts)]
    ensures app.registrations == old(app.registrations) + ["request.tenant"]
  {
    var tenant: Option<Tenant> := None;
    var thrown := !env.dbReachable;
    if !thrown {
      if env.host !in env.appDomains {
        match env.tableCheck
        case TableCheckThrows =>
          thrown := true;
        case TableMissing =>
        case TableExists =>
          var r := ResolveIn(env, ts);
          if r.Resolved? {
            tenant := Some(r.tenant);
          } else {
            thrown := true;
          }
      }
    }
    if thrown {
      tenant := None;
    }
    app.Singleton("request.tenant", tenant);
  }

  /** A host listed under `app.domains` never gets a tenant, whatever the table holds. */
  lemma AppDomainHasNoTenant(env: BootEnvironment, ts: seq<Tenant>)
    requires env.host in env.appDomains
    ensures PublishedTenant(env, ts) == None
  {
  }

  /** A resolver failure is swallowed: no exception escapes and the tenant is null. */
  lemma ResolverFailureSwallowed(env: BootEnvironment, ts: seq<Tenant>)
    requires env.dbReachable && env.host !in env.appDomains && env.tableCheck == TableExists
    ensures PublishedTenant(env, ts).None? <==> ResolveIn(env, ts).Failed?
    ensures ResolveIn(env, ts).Resolved? ==> PublishedTenant(env, ts) == Some(ResolveIn(env, ts).tenant)
  {
  }

  /**
   * With the shipped configuration the subdomain resolver only accepts
   * subdomains of the application host: a host such as `acme.app.rinvex.test`
   * gets no tenant, whatever the table holds.
   */
  lemma ShippedConfigSubdomainGetsNoTenant(env: BootEnvironment, ts: seq<Tenant>)
    requires env.config == Domains.ShippedConfig(env.config.appUrl)
    requires env.resolver == SubdomainResolver
    requires !Text.EndsWith(env.host, env.urlHost(env.config.appUrl))
    ensures Central(env) == [env.urlHost(env.config.appUrl)]
    ensures PublishedTenant(env, ts) == None
  {
    assert Domains.AliasDomainsKey !in env.config.values;
    assert Central(env) == [env.urlHost(env.config.appUrl)];
    ForeignHostRejected(env.host, Central(env), ts, env.isNumeric);
  }

  /**
   * End to end with the domain resolver: an active tenant that owns the
   * request host is published, provided the database is up, the host is not
   * an app domain and the table exists.
   */
  lemma DomainTenantPublished(env: BootEnvironment, ts: seq<Tenant>, t: Tenant)
    requires env.dbReachable && env.host !in env.appDomains && env.tableCheck == TableExists
    requires env.resolver == DomainResolver
    requires UniqueDomains(ts) && t in ts && t.isActive && t.domain == Some(env.host)
    ensures PublishedTenant(env, ts) == Some(t)
  {
    DomainRoundTrip(env.host, ts, t);
  }
}
