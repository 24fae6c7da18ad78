/**
 * The domain helpers of src/Support/helpers.php: the central domains (the
 * application's own host plus configured extra domains) and the domains of
 * the resolved tenant. Configuration is an explicit value; `parse_url`'s
 * host extraction is a function parameter.
 */
module Domains {
  import opened Wrappers
  import opened Tenants

  /** A configuration entry as the helpers can meet it. */
  datatype ConfigValue = NullConfig | StringConfig(s: string) | ListConfig(items: seq<string>)

  /** `config('app.url')` and the package's dotted configuration keys. */
  datatype Config = Config(appUrl: string, values: map<string, ConfigValue>)

  const AliasDomainsKey := "rinvex.tenants.alias_domains"
  const CentralDomainsKey := "rinvex.tenants.central_domains"

  /** `config($key)`: a missing key reads as null. */
  function Lookup(c: Config, key: string): ConfigValue {
    if key in c.values then c.values[key] else NullConfig
  }

  /** PHP's `(array)` cast: null becomes [], a scalar becomes a one-element list. */
  function ArrayCast(v: ConfigValue): (r: seq<string>)
    ensures v.NullConfig? ==> r == []
    ensures v.StringConfig? ==> r == [v.s]
    ensures v.ListConfig? ==> r == v.items
  {
    match v
    case NullConfig => []
    case StringConfig(s) => [s]
    case ListConfig(items) => items
  }

  /** `central_domain()`: the host component of `app.url`. */
  function CentralDomain(c: Config, urlHost: string -> string): string {
    urlHost(c.appUrl)
  }

  /**
   * `central_domains()` as written: it reads the key `alias_domains`, which the
   * package's own configuration file never defines.
   */
  function CentralDomainsAsWritten(c: Config, urlHost: string -> string): (r: seq<string>)
    ensures |r| >= 1 && r[0] == CentralDomain(c, urlHost)
  {
    [CentralDomain(c, urlHost)] + ArrayCast(Lookup(c, AliasDomainsKey))
  }

  /** `central_domains()` reading the key the configuration file does define. */
  function CentralDomains(c: Config, urlHost: string -> string): (r: seq<string>)
    ensures |r| >= 1 && r[0] == CentralDomain(c, urlHost)
  {
    [CentralDomain(c, urlHost)] + ArrayCast(Lookup(c, CentralDomainsKey))
  }

  /** The package configuration as shipped, merged under `rinvex.tenants`. */
  function ShippedConfig(appUrl: string): Config {
    Config(appUrl, map[CentralDomainsKey := ListConfig(["app.rinvex.test"])])
  }

  /**
   * The central domains are the application host followed by the configured
   * ones, in order: as written from `alias_domains`, as intended from
   * `central_domains`. The two agree exactly when the keys cast to the same list.
   */
  lemma CentralDomainsShape(c: Config, urlHost: string -> string)
    ensures |CentralDomainsAsWritten(c, urlHost)| == 1 + |ArrayCast(Lookup(c, AliasDomainsKey))|
    ensures CentralDomainsAsWritten(c, urlHost)[0] == urlHost(c.appUrl)
    ensures CentralDomainsAsWritten(c, urlHost)[1..] == ArrayCast(Lookup(c, AliasDomainsKey))
    ensures Lookup(c, AliasDomainsKey).NullConfig? ==> CentralDomainsAsWritten(c, urlHost) == [urlHost(c.appUrl)]
    ensures |CentralDomains(c, urlHost)| == 1 + |ArrayCast(Lookup(c, CentralDomainsKey))|
    ensures CentralDomains(c, urlHost)[0] == urlHost(c.appUrl)
    ensures CentralDomains(c, urlHost)[1..] == ArrayCast(Lookup(c, CentralDomainsKey))
    ensures Lookup(c, CentralDomainsKey).NullConfig? ==> CentralDomains(c, urlHost) == [urlHost(c.appUrl)]
    ensures CentralDomainsAsWritten(c, urlHost) == CentralDomains(c, urlHost) <==>
            ArrayCast(Lookup(c, AliasDomainsKey)) == ArrayCast(Lookup(c, CentralDomainsKey))
  {
    var w, f := CentralDomainsAsWritten(c, urlHost), CentralDomains(c, urlHost);
    if w == f {
      assert w[1..] == f[1..];
    }
  }

  /** As written, the shipped configuration contributes nothing: only the `app.url` host is central. */
  lemma AsWrittenIgnoresShippedDomains(appUrl: string, urlHost: string -> string)
    requires urlHost(appUrl) != "app.rinvex.test"
    ensures CentralDomainsAsWritten(ShippedConfig(appUrl), urlHost) == [urlHost(appUrl)]
    ensures "app.rinvex.test" !in CentralDomainsAsWritten(ShippedConfig(appUrl), urlHost)
  {
    assert AliasDomainsKey !in ShippedConfig(appUrl).values;
  }

  /** Reading the defined key, the shipped extra domain is central. */
  lemma ShippedDomainsAreCentral(appUrl: string, urlHost: string -> string)
    ensures CentralDomains(ShippedConfig(appUrl), urlHost) == [urlHost(appUrl), "app.rinvex.test"]
  {
  }

  /** `central_subdomains()`: `slug.d` for every central domain `d`, or [] with no resolved tenant. */
  function CentralSubdomains(requestTenant: Option<Tenant>, central: seq<string>): (r: seq<string>)
    ensures requestTenant.None? ==> r == []
    ensures requestTenant.Some? ==> |r| == |central|
    ensures requestTenant.Some? ==>
      forall k :: 0 <= k < |r| ==> r[k] == requestTenant.value.slug + "." + central[k]
  {
    match requestTenant
    case None => []
    case Some(t) => seq(|central|, k requires 0 <= k < |central| => t.slug + "." + central[k])
  }

  /**
   * `tenant_domains()`: the central subdomains followed by the tenant's own
   * `domain`, which is appended even when it is null.
   */
  function TenantDomains(requestTenant: Option<Tenant>, central: seq<string>): (r: seq<Option<string>>)
    ensures requestTenant.None? ==> r == []
    ensures requestTenant.Some? ==> |r| == |central| + 1 && r[|central|] == requestTenant.value.domain
    ensures requestTenant.Some? ==>
      forall k :: 0 <= k < |central| ==> r[k] == Some(CentralSubdomains(requestTenant, central)[k])
  {
    match requestTenant
    case None => []
    case Some(t) =>
      var subs := CentralSubdomains(requestTenant, central);
      seq(|subs|, k requires 0 <= k < |subs| => Some(subs[k])) + [t.domain]
  }
}
