/**
 * The three tenant resolvers: by subdomain (host validation gate, then a slug
 * lookup), by domain (exact lookup of the `domain` column) and the composite
 * that dispatches on a suffix test. Each maps the request host and the tenants
 * table to a tenant or a typed failure; PHP's `is_numeric` is the parameter
 * `isNumeric`.
 */
module Resolvers {
  import opened Wrappers
  import opened Text
  import opened Tenants
  import opened Exceptions
  import Domains

  /** What `resolve()` produces: a tenant, or the exception it throws. */
  datatype Resolution = Resolved(tenant: Tenant) | Failed(error: TenantException)

  /** `count(array_filter($labels, $p))`. */
  function CountWhere(labels: seq<string>, p: string -> bool): (n: nat)
    ensures n <= |labels|
  {
    if labels == [] then 0 else (if p(labels[0]) then 1 else 0) + CountWhere(labels[1..], p)
  }

  /** Every label passes the filter exactly when the filter keeps all of them. */
  lemma {:induction false} CountWhereAll(labels: seq<string>, p: string -> bool)
    ensures CountWhere(labels, p) == |labels| <==> forall j :: 0 <= j < |labels| ==> p(labels[j])
  {
    if labels != [] {
      CountWhereAll(labels[1..], p);
      if !p(labels[0]) {
        assert CountWhere(labels, p) < |labels|;
      }
      assert forall j :: 1 <= j < |labels| ==> labels[j] == labels[1..][j - 1];
    }
  }

  /** The four ways a host fails the subdomain gate. */
  predicate FailsSubdomainGate(host: string, central: seq<string>, isNumeric: string -> bool) {
    var segments := Explode(host);
    host in central
    || |segments| == 1
    || CountWhere(segments, isNumeric) == |segments|
    || !EndsWithAny(host, central)
  }

  /** `where('is_active', true)->where($column, $value)`. */
  function ActiveWith(column: string, value: string): seq<TenantWhere> {
    [Where("is_active", BoolV(true)), Where(column, StrV(value))]
  }

  lemma ActiveWithMeans(t: Tenant, column: string, value: string)
    ensures SatisfiesAll(t, ActiveWith(column, value)) <==> t.isActive && ColumnValue(t, column) == StrV(value)
  {
    assert Satisfies(t, ActiveWith(column, value)[0]) <==> t.isActive;
    assert ActiveWith(column, value)[1] == Where(column, StrV(value));
  }

  /** `SubdomainTenantResolver::resolve()`. */
  function ResolveSubdomain(host: string, central: seq<string>, ts: seq<Tenant>, isNumeric: string -> bool): (r: Resolution)
    ensures r == Failed(InvalidSubdomainTenant(host)) <==> FailsSubdomainGate(host, central, isNumeric)
    ensures r.Resolved? ==> r.tenant in ts && r.tenant.isActive && r.tenant.slug == Explode(host)[0]
    ensures r.Failed? && r.error.InvalidDomainTenant? ==>
      r.error.value == Explode(host)[0]
      && forall t :: t in ts ==> !(t.isActive && t.slug == Explode(host)[0])
    ensures r.Failed? && r.error.InvalidSubdomainTenant? ==> r.error.host == host
  {
    var segments := Explode(host);
    var isLocalhost := |segments| == 1;
    var isCentralDomain := host in central;
    var isNotCentralSubdomain := !EndsWithAny(host, central);
    var isIpAddress := CountWhere(segments, isNumeric) == |segments|;
    if isCentralDomain || isLocalhost || isIpAddress || isNotCentralSubdomain then
      Failed(InvalidSubdomainTenant(host))
    else
      var tenantSlug := segments[0];
      var found := First(ts, ActiveWith("slug", tenantSlug));
      assert found.Some? ==> SatisfiesAll(found.value, ActiveWith("slug", tenantSlug));
      if found.Some? then
        ActiveWithMeans(found.value, "slug", tenantSlug);
        Resolved(found.value)
      else
        assert forall t :: t in ts ==> !(t.isActive && t.slug == tenantSlug) by {
          forall t | t in ts ensures !(t.isActive && t.slug == tenantSlug) {
            ActiveWithMeans(t, "slug", tenantSlug);
          }
        }
        Failed(InvalidDomainTenant(tenantSlug))
  }

  /** `DomainTenantResolver::resolve()`: no shape check, one exact lookup. */
  function ResolveDomain(host: string, ts: seq<Tenant>): (r: Resolution)
    ensures r.Resolved? ==> r.tenant in ts && r.tenant.isActive && r.tenant.domain == Some(host)
    ensures r.Failed? <==> forall t :: t in ts ==> !(t.isActive && t.domain == Some(host))
    ensures r.Failed? ==> r.error == InvalidDomainTenant(host)
  {
    var found := First(ts, ActiveWith("domain", host));
    if found.Some? then
      ActiveWithMeans(found.value, "domain", host);
      Resolved(found.value)
    else
      assert forall t :: t in ts ==> !(t.isActive && t.domain == Some(host)) by {
        forall t | t in ts ensures !(t.isActive && t.domain == Some(host)) {
          ActiveWithMeans(t, "domain", host);
        }
      }
      Failed(InvalidDomainTenant(host))
  }

  /** `SubdomainOrDomainTenantResolver::resolve()`. */
  function ResolveSubdomainOrDomain(host: string, central: seq<string>, ts: seq<Tenant>, isNumeric: string -> bool): (r: Resolution)
    ensures r.Resolved? ==> r.tenant in ts && r.tenant.isActive
    ensures r.Resolved? && EndsWithAny(host, central) ==> r.tenant.slug == Explode(host)[0]
    ensures r.Resolved? && !EndsWithAny(host, central) ==> r.tenant.domain == Some(host)
    ensures !EndsWithAny(host, central) ==>
      (r.Failed? <==> forall t :: t in ts ==> !(t.isActive && t.domain == Some(host)))
    ensures r.Failed? && !EndsWithAny(host, central) ==> r.error == InvalidDomainTenant(host)
    ensures r.Failed? && r.error.InvalidSubdomainTenant? ==> EndsWithAny(host, central) && r.error.host == host
  {
    if EndsWithAny(host, central) then ResolveSubdomain(host, central, ts, isNumeric) else ResolveDomain(host, ts)
  }

  /** The resolver class named by configuration. */
  datatype ResolverKind = DomainResolver | SubdomainResolver | SubdomainOrDomainResolver

  function Resolve(kind: ResolverKind, host: string, central: seq<string>, ts: seq<Tenant>, isNumeric: string -> bool): (r: Resolution)
    ensures r.Resolved? ==> r.tenant in ts && r.tenant.isActive
    ensures r.Resolved? && kind == DomainResolver ==> r.tenant.domain == Some(host)
    ensures r.Resolved? && kind == SubdomainResolver ==> r.tenant.slug == Explode(host)[0]
    ensures r.Failed? && r.error.InvalidSubdomainTenant? ==> kind != DomainResolver && r.error.host == host
  {
    match kind
    case DomainResolver => ResolveDomain(host, ts)
    case SubdomainResolver => ResolveSubdomain(host, central, ts, isNumeric)
    case SubdomainOrDomainResolver => ResolveSubdomainOrDomain(host, central, ts, isNumeric)
  }

  // The subdomain gate.

  /** A bare central domain is not a subdomain. */
  lemma CentralHostRejected(host: string, central: seq<string>, ts: seq<Tenant>, isNumeric: string -> bool)
    requires host in central
    ensures ResolveSubdomain(host, central, ts, isNumeric) == Failed(InvalidSubdomainTenant(host))
  {
  }

  /** A host without a dot (`localhost`) is rejected. */
  lemma SingleLabelRejected(host: string, central: seq<string>, ts: seq<Tenant>, isNumeric: string -> bool)
    requires DotFree(host)
    ensures ResolveSubdomain(host, central, ts, isNumeric) == Failed(InvalidSubdomainTenant(host))
  {
    ExplodeSingle(host);
  }

  /** A host whose every label is numeric (an IPv4 address) is rejected. */
  lemma NumericHostRejected(host: string, central: seq<string>, ts: seq<Tenant>, isNumeric: string -> bool)
    requires forall j :: 0 <= j < |Explode(host)| ==> isNumeric(Explode(host)[j])
    ensures ResolveSubdomain(host, central, ts, isNumeric) == Failed(InvalidSubdomainTenant(host))
  {
    CountWhereAll(Explode(host), isNumeric);
  }

  /** A host that has no central domain as a plain suffix is rejected. */
  lemma ForeignHostRejected(host: string, central: seq<string>, ts: seq<Tenant>, isNumeric: string -> bool)
    requires forall j :: 0 <= j < |central| ==> !EndsWith(host, central[j])
    ensures ResolveSubdomain(host, central, ts, isNumeric) == Failed(InvalidSubdomainTenant(host))
  {
  }

  /**
   * The suffix test is not label-aligned: `evilapp.test` passes it for central
   * domain `app.test`, so the subdomain resolver looks up the slug `evilapp`
   * for a host that is no subdomain of `app.test`.
   */
  lemma SuffixTestNotLabelAligned(host: string, central: seq<string>, ts: seq<Tenant>, isNumeric: string -> bool)
    requires host == "evilapp.test" && central == ["app.test"] && !isNumeric("evilapp")
    ensures EndsWithAny(host, central)
    ensures !FailsSubdomainGate(host, central, isNumeric)
    ensures var r := ResolveSubdomain(host, central, ts, isNumeric);
            (r.Resolved? ==> r.tenant.slug == "evilapp") && (r.Failed? ==> r.error == InvalidDomainTenant("evilapp"))
  {
    assert EndsWith(host, central[0]) by {
      assert host[|host| - 8..] == "app.test";
    }
    var labels := Explode(host);
    assert labels[0] == "evilapp" && |labels| > 1 by {
      EvilAppLabels(host);
    }
    assert host !in central;
    CountWhereAll(labels, isNumeric);
  }

  lemma EvilAppLabels(host: string)
    requires host == "evilapp.test"
    ensures Explode(host)[0] == "evilapp" && |Explode(host)| > 1
  {
    var a := "evilapp";
    assert DotFree(a) by {
      forall k | 0 <= k < |a| ensures a[k] != '.' {
      }
    }
    ExplodeDotted(a, "test");
    assert a + "." + "test" == host;
  }

  /** Past the gate, an active tenant with the candidate slug is what is returned. */
  lemma {:induction false} SubdomainLookupFinds(host: string, central: seq<string>, ts: seq<Tenant>, isNumeric: string -> bool, t: Tenant)
    requires !FailsSubdomainGate(host, central, isNumeric)
    requires UniqueSlugs(ts) && t in ts && t.isActive && t.slug == host[..DotIndex(host)]
    ensures ResolveSubdomain(host, central, ts, isNumeric) == Resolved(t)
  {
    ExplodeHead(host);
    var r := ResolveSubdomain(host, central, ts, isNumeric);
    if r.Failed? {
      assert false;
    }
    SlugDeterminesTenant(ts, r.tenant, t);
  }

  /** An inactive tenant is not found by slug: the failure carries the slug, not the host. */
  lemma {:induction false} InactiveSlugFails(host: string, central: seq<string>, ts: seq<Tenant>, isNumeric: string -> bool, t: Tenant)
    requires !FailsSubdomainGate(host, central, isNumeric)
    requires UniqueSlugs(ts) && t in ts && !t.isActive && t.slug == host[..DotIndex(host)]
    ensures ResolveSubdomain(host, central, ts, isNumeric) == Failed(InvalidDomainTenant(t.slug))
  {
    ExplodeHead(host);
    forall u | u in ts && u.slug == t.slug
      ensures !u.isActive
    {
      SlugDeterminesTenant(ts, u, t);
    }
  }

  /**
   * Round trip: for an active tenant with dot-free slug `s` and a non-empty
   * central domain `c`, host `s.c` resolves to that tenant, unless `s.c` is
   * itself central or all-numeric.
   */
  lemma {:induction false} SubdomainRoundTrip(t: Tenant, c: string, central: seq<string>, ts: seq<Tenant>, isNumeric: string -> bool)
    requires UniqueSlugs(ts) && t in ts && t.isActive && DotFree(t.slug)
    requires c in central && c != ""
    requires t.slug + "." + c !in central
    requires CountWhere(Explode(t.slug + "." + c), isNumeric) != |Explode(t.slug + "." + c)|
    ensures ResolveSubdomain(t.slug + "." + c, central, ts, isNumeric) == Resolved(t)
  {
    var host := t.slug + "." + c;
    DotIndexAfter(t.slug, c);
    assert host[|t.slug|] == '.';
    assert !DotFree(host);
    ExplodeSingle(host);
    EndsWithConcat(t.slug + ".", c);
    var j :| 0 <= j < |central| && central[j] == c;
    assert EndsWith(host, central[j]);
    assert host[..DotIndex(host)] == t.slug;
    SubdomainLookupFinds(host, central, ts, isNumeric, t);
  }

  /** Every central subdomain of the resolved tenant leads back to it. */
  lemma CentralSubdomainsResolveToTenant(t: Tenant, central: seq<string>, ts: seq<Tenant>, isNumeric: string -> bool, k: nat)
    requires UniqueSlugs(ts) && t in ts && t.isActive && DotFree(t.slug)
    requires k < |central| && central[k] != ""
    requires t.slug + "." + central[k] !in central
    requires CountWhere(Explode(t.slug + "." + central[k]), isNumeric) != |Explode(t.slug + "." + central[k])|
    ensures |Domains.CentralSubdomains(Some(t), central)| == |central|
    ensures ResolveSubdomain(Domains.CentralSubdomains(Some(t), central)[k], central, ts, isNumeric) == Resolved(t)
  {
    SubdomainRoundTrip(t, central[k], central, ts, isNumeric);
  }

  // The domain resolver.

  /** Because `domain` is unique, the active tenant owning a host is the one returned. */
  lemma DomainRoundTrip(host: string, ts: seq<Tenant>, t: Tenant)
    requires UniqueDomains(ts) && t in ts && t.isActive && t.domain == Some(host)
    ensures ResolveDomain(host, ts) == Resolved(t)
  {
    DomainDeterminesTenant(ts, ResolveDomain(host, ts).tenant, t);
  }

  /** The tenant's own domain in `tenant_domains()` leads back to it. */
  lemma TenantDomainResolvesToTenant(t: Tenant, central: seq<string>, ts: seq<Tenant>)
    requires UniqueDomains(ts) && t in ts && t.isActive && t.domain.Some?
    ensures Domains.TenantDomains(Some(t), central)[|central|] == t.domain
    ensures ResolveDomain(t.domain.value, ts) == Resolved(t)
  {
    DomainRoundTrip(t.domain.value, ts, t);
  }

  /** Deactivating a tenant leaves its row in place but no strategy resolves it any more. */
  lemma {:induction false} DeactivatedTenantUnresolvable(kind: ResolverKind, host: string, central: seq<string>, ts: seq<Tenant>, isNumeric: string -> bool, t: Tenant)
    requires UniqueIds(ts) && t in ts
    ensures t.(isActive := false) in SetActive(ts, t.id, false)
    ensures var r := Resolve(kind, host, central, SetActive(ts, t.id, false), isNumeric);
            !(r.Resolved? && r.tenant.id == t.id)
  {
    var ts' := SetActive(ts, t.id, false);
    var i :| 0 <= i < |ts| && ts[i] == t;
    assert ts'[i] == t.(isActive := false);
  }

  // The composite resolver.

  /** A bare central domain fails with the subdomain error, not with absence. */
  lemma CompositeCentralHostFails(host: string, central: seq<string>, ts: seq<Tenant>, isNumeric: string -> bool)
    requires host in central && host != ""
    ensures ResolveSubdomainOrDomain(host, central, ts, isNumeric) == Failed(InvalidSubdomainTenant(host))
  {
    var j :| 0 <= j < |central| && central[j] == host;
    assert host[|host| - |host|..] == host;
    assert EndsWith(host, central[j]);
  }

  /**
   * A custom domain that string-ends with a central domain is never looked up
   * by `domain`: if no active tenant has its first label as slug, it fails
   * although an active tenant owns the domain.
   */
  lemma CustomDomainUnderCentralSuffixFails(host: string, central: seq<string>, ts: seq<Tenant>, isNumeric: string -> bool, t: Tenant)
    requires t in ts && t.isActive && t.domain == Some(host)
    requires EndsWithAny(host, central)
    requires forall u :: u in ts ==> !(u.isActive && u.slug == Explode(host)[0])
    ensures ResolveSubdomainOrDomain(host, central, ts, isNumeric).Failed?
    ensures ResolveDomain(host, ts) == Resolved(First(ts, ActiveWith("domain", host)).value)
  {
  }
}
