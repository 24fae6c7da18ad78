# Tenant resolution and scoping for rinvex/laravel-tenants

This project is a Dafny model of the multi-tenancy core of the Laravel package
`rinvex/laravel-tenants`, together with proofs about that model. It covers:

- **How a request's active tenant is found.** The subdomain, domain and
  subdomain-or-domain resolvers; the central-domain helpers; and the service
  provider's `resolveActiveTenant`, which publishes the result as the
  `request.tenant` singleton.
- **How tenant-owned models are filtered.** The `tenant` global scope that
  `Tenantable` registers, plus `TenantableScope` and `TenantableChildScope` with
  their `withoutTenants` / `withoutTenantables` builder macros.
- **How models are associated with tenants.** Attach, detach, the queue of
  tenants set before a model is saved, the `created` and `deleted` hooks, the
  `withAllTenants` / `withAnyTenants` / `withoutTenants` / `withoutAnyTenants`
  query scopes, and `findOrFail`, which tells "missing" apart from "hidden by
  the tenant scope".
- **The tenant model itself.** Validation rules, slug generation,
  `active` / `inactive` / `withGroup`, and `activate` / `deactivate`. The
  legacy `src/Tenant.php` model is covered too: translatable name and
  description, the `validating` listener that fills the slug, and `findByName`.
- **The three exceptions** and their messages.

## How the model is built

- **Database.** It is a value: `Tenants.Store` holds the tenants rows and the
  `tenantables` join rows. The ghost predicate `WellFormed` states the
  migrations' constraints: unique ids, slugs and domains, and join rows that
  point at existing tenants.
- **Classes.** Objects the source changes in place are Dafny classes whose
  methods state their whole new state. These are the container, the query
  builder, a model class's table of global scopes, a tenantable model, and the
  two tenant records.
- **Pure logic.** Resolvers, helpers, scope constraints and validation are
  functions, with lemmas about them.
- **Foreign functions are parameters.** PHP's `is_numeric`, `parse_url`'s host,
  `Str::slug`, the sluggable generator, and the email, country, language and
  date validators are passed in as parameters. They are not modelled.
- **As written first.** The provider, the builder's macros and the tenant records run the code as written. The three discrepancies under "## Findings" each have a corrected definition beside the as-written one, with the intended property proved about it.
- **PHP's `(array)` cast and `collect()`.** They are modelled explicitly: null
  becomes the empty list, and a scalar becomes a one-element list.

## Model

| member | source | states |
|---|---|---|
| Text.Explode | src/Resolvers/SubdomainTenantResolver.php:24 | splitting a host on dots always yields at least one label |
| Text.ExplodeSingle | src/Resolvers/SubdomainTenantResolver.php:24-27 | a host splits into a single label exactly when it contains no dot |
| Text.ExplodeHead | src/Resolvers/SubdomainTenantResolver.php:35 | the first label is the text before the first dot (the whole host when there is none) |
| Text.ExplodeLabelsDotFree | src/Resolvers/SubdomainTenantResolver.php:24 | no label contains a dot |
| Text.ImplodeExplode | src/Resolvers/SubdomainTenantResolver.php:24 | joining the labels with dots gives back the host |
| Text.ExplodeImplode | src/Resolvers/SubdomainTenantResolver.php:24 | splitting the dot-join of dot-free labels gives back those labels |
| Text.EndsWithConcat | src/Resolvers/SubdomainTenantResolver.php:29 | any host built by prefixing a non-empty central domain ends with it |
| Tenants.Get | src/Models/Tenant.php:227-230 | `get()` returns exactly the rows meeting every condition, never more rows than the table |
| Tenants.First | src/Resolvers/DomainTenantResolver.php:22 | `first()` returns a tenant meeting every condition, and returns none exactly when no tenant does |
| Tenants.FirstIsHeadOfGet | src/Resolvers/DomainTenantResolver.php:22 | `first()` is the head of `get()` in table order |
| Tenants.SlugDeterminesTenant | database/migrations/2020_01_01_000001_create_tenants_table.php:42 | with slugs unique, two tenants with the same slug are the same tenant |
| Tenants.DomainDeterminesTenant | database/migrations/2020_01_01_000001_create_tenants_table.php:43 | with domains unique, two tenants with the same non-null domain are the same tenant |
| Tenants.SetActiveKeepsWellFormed | src/Models/Tenant.php:274-291 | changing one tenant's active flag keeps ids, slugs and domains unique and every join row pointing at a tenant |
| Exceptions.InvalidSubdomainMessage | src/Exceptions/InvalidSubdomainTenantException.php:11 | the message is the fixed prefix, the host, then the fixed suffix |
| Exceptions.SubdomainMessageRoundTrip | src/Exceptions/InvalidSubdomainTenantException.php:11 | the host can be read back from the message |
| Exceptions.SubdomainMessageInjective | src/Exceptions/InvalidSubdomainTenantException.php:11 | different hosts give different messages |
| Exceptions.InvalidDomainMessage | src/Exceptions/InvalidDomainTenantException.php:11 | the message is the fixed prefix followed by the value |
| Exceptions.DomainMessageEndsWithValue | src/Exceptions/InvalidDomainTenantException.php:11 | the message ends with the offending value, and different values give different messages |
| Exceptions.NotFoundForTenantMessage | src/Exceptions/ModelNotFoundForTenantException.php:20 | the message is the fixed text wrapped around the model class name |
| Exceptions.ModelNotFoundForTenantException.SetModel | src/Exceptions/ModelNotFoundForTenantException.php:17-23 | sets the model and the tenant message, leaves the ids unset, and returns the same object |
| Domains.ArrayCast | src/Support/helpers.php:13 | `(array)` maps null to the empty list, a string to a one-element list, and leaves a list unchanged |
| Domains.CentralDomainsAsWritten | src/Support/helpers.php:11-14 | as written, the application URL's host (`central_domain()`) comes first |
| Domains.CentralDomains | src/Support/helpers.php:11-14 | corrected: the application URL's host comes first |
| Domains.CentralDomainsShape | src/Support/helpers.php:11-14 | both readings are the application URL's host followed by the cast value of their key (`alias_domains` as written, `central_domains` corrected), in order, and only that host when the key is unset; they agree exactly when the two keys cast to the same list |
| Domains.AsWrittenIgnoresShippedDomains | src/Support/helpers.php:13 | as written, with the shipped configuration, the configured central domains are dropped and only the application host remains |
| Domains.ShippedDomainsAreCentral | config/config.php:37-39 | once the key the configuration defines is read, every configured central domain is central |
| Domains.CentralSubdomains | src/Support/helpers.php:35-38 | one `slug.central` host per central domain, in order, and none without a tenant |
| Domains.TenantDomains | src/Support/helpers.php:47-50 | a tenant's hosts are its central subdomains followed by its own domain |
| Resolvers.CountWhereAll | src/Resolvers/SubdomainTenantResolver.php:30 | every label is numeric exactly when the count of numeric labels equals the number of labels |
| Resolvers.ResolveSubdomain | src/Resolvers/SubdomainTenantResolver.php:22-41 | rejects with the host exactly when the gate fails (central host, single label, all-numeric host, or no central suffix); a resolved tenant is active and its slug is the first label; otherwise fails on that label, and only when no active tenant has that slug |
| Resolvers.CentralHostRejected | src/Resolvers/SubdomainTenantResolver.php:28-33 | a central domain itself is never resolved as a subdomain |
| Resolvers.SingleLabelRejected | src/Resolvers/SubdomainTenantResolver.php:27-33 | a host without a dot, `localhost` included, is rejected |
| Resolvers.NumericHostRejected | src/Resolvers/SubdomainTenantResolver.php:30-33 | a host made only of numeric labels (an IPv4 address) is rejected |
| Resolvers.ForeignHostRejected | src/Resolvers/SubdomainTenantResolver.php:29-33 | a host ending in no central domain is rejected |
| Resolvers.SuffixTestNotLabelAligned | src/Resolvers/SubdomainTenantResolver.php:29-40 | the suffix test is on characters, not labels: for central domain `app.test` the host `evilapp.test` passes the whole gate, and the resolver returns an active tenant with slug `evilapp` or fails on that slug |
| Resolvers.SubdomainLookupFinds | src/Resolvers/SubdomainTenantResolver.php:35-40 | past the gate, an active tenant whose slug is the first label is returned |
| Resolvers.InactiveSlugFails | src/Resolvers/SubdomainTenantResolver.php:35-38 | past the gate, a slug held only by an inactive tenant fails with that label |
| Resolvers.SubdomainRoundTrip | src/Resolvers/SubdomainTenantResolver.php:24-40 | with unique slugs, an active tenant with a dot-free slug is resolved from `slug.c` for a central domain `c`, when that host is neither central itself nor all-numeric |
| Resolvers.CentralSubdomainsResolveToTenant | src/Support/helpers.php:35-38 | every host `central_subdomains` produces for an active tenant resolves back to that tenant, under the same conditions |
| Resolvers.ResolveDomain | src/Resolvers/DomainTenantResolver.php:20-27 | returns an active tenant whose domain is the host, and fails with the host exactly when there is none |
| Resolvers.DomainRoundTrip | src/Resolvers/DomainTenantResolver.php:22-26 | with unique domains, an active tenant's own domain resolves to it |
| Resolvers.TenantDomainResolvesToTenant | src/Support/helpers.php:47-50 | the last host `tenant_domains` lists is the tenant's own domain, and the domain resolver maps it back to the tenant |
| Resolvers.DeactivatedTenantUnresolvable | src/Resolvers/DomainTenantResolver.php:22 | after deactivation the row is still there, but no resolver returns a tenant with its id for any host |
| Resolvers.ResolveSubdomainOrDomain | src/Resolvers/SubdomainOrDomainTenantResolver.php:20-27 | a resolved tenant is an active row; under a central suffix its slug is the first label, otherwise its domain is the host; off the suffix it fails with `InvalidDomainTenant(host)` exactly when no active tenant has that domain; a subdomain rejection only happens under the suffix and names the host |
| Resolvers.Resolve | src/Providers/TenantsServiceProvider.php:85 | whichever resolver is configured, a resolved tenant is an active row; the domain resolver matches on the domain, the subdomain resolver on the first label, and only the subdomain-based resolvers reject with `InvalidSubdomainTenant` for the host |
| Resolvers.CompositeCentralHostFails | src/Resolvers/SubdomainOrDomainTenantResolver.php:22-23 | a central domain itself goes to the subdomain resolver and is rejected |
| Resolvers.CustomDomainUnderCentralSuffixFails | src/Resolvers/SubdomainOrDomainTenantResolver.php:22-23 | a tenant's custom domain that ends with a central domain fails in the composite, though the domain resolver alone would find a tenant |
| Provider.Central | src/Support/helpers.php:11-14 | the central domains the provider's resolvers see are the as-written list, headed by the application URL's host |
| Provider.PublishedTenant | src/Providers/TenantsServiceProvider.php:75-93 | no tenant exactly when the database is unreachable, the host is an application domain, the tenants table is missing or its check throws, or the resolver fails (against the as-written central domains); otherwise the resolver's tenant |
| Provider.ShippedConfigSubdomainGetsNoTenant | src/Support/helpers.php:13 | with the shipped configuration the provider's central list is only the application host, so a host under `app.rinvex.test` but not under that host gets no tenant from the subdomain resolver |
| Provider.PublishedTenantIsActive | src/Providers/TenantsServiceProvider.php:85 | a published tenant is an active row of the table |
| Provider.Container.Singleton | src/Providers/TenantsServiceProvider.php:92 | binds the key to the value and records the registration |
| Provider.ResolveActiveTenant | src/Providers/TenantsServiceProvider.php:75-93 | `request.tenant` is bound to the tenant published with the as-written central domains, and nothing else changes |
| Provider.AppDomainHasNoTenant | src/Providers/TenantsServiceProvider.php:84 | an application domain never gets a tenant |
| Provider.ResolverFailureSwallowed | src/Providers/TenantsServiceProvider.php:87-89 | a resolver exception leaves the request without a tenant rather than failing it |
| Provider.DomainTenantPublished | src/Providers/TenantsServiceProvider.php:75-93 | with everything available, an active tenant's domain publishes that tenant |
| Scopes.ConfiguredTenantWhere | src/Traits/Tenantable.php:104-106 | a string tenant is matched on `slug` and any other tenant on `id` |
| Scopes.ScopeConstraints | src/Scopes/TenantableScope.php:39-44 | the tenant scope adds one `whereHas` on the tenants relation; the child scope one `has` on its relation; the configured `tenant` scope adds nothing exactly when no tenant is configured |
| Scopes.Scope.Apply | src/Scopes/TenantableScope.php:39-44 | adds exactly the scope's constraints to the builder |
| Scopes.Scope.Extend | src/Scopes/TenantableScope.php:53-58 | registers exactly the scope's as-written macros on the builder |
| Scopes.ExtensionMacros | src/Scopes/TenantableChildScope.php:33-38 | as written: `withoutTenants` removes the `TenantableScope` class key and `withoutTenantables` the `TenantableChildScope` class key, so no macro removes `tenantable-child`; the closure scope adds no macro |
| Scopes.WithoutTenantablesIntended | src/Traits/TenantableChild.php:16 | the corrected `withoutTenantables` removes `tenantable-child`, the key the child scope is registered under |
| Scopes.ApplyIsScopeFilter | src/Scopes/TenantableScope.php:39-44 | applying a scope keeps exactly the rows its constraints allow |
| Scopes.ScopeNarrows | src/Scopes/TenantableScope.php:41 | adding a scope never adds rows |
| Scopes.TenantScopeKeeps | src/Scopes/TenantableScope.php:39-44 | with the tenant scope a row stays exactly when it is associated with that tenant and the tenant is active |
| Scopes.InactiveTenantHidesAll | src/Scopes/TenantableScope.php:42 | the scope of an inactive tenant hides every row |
| Scopes.ChildScopeKeeps | src/Scopes/TenantableChildScope.php:21-24 | with the child scope a row stays exactly when its relation to the tenantable parent is non-empty |
| Scopes.ConfiguredScopeNoOpWhenFalsy | src/Traits/Tenantable.php:101-102 | with no configured tenant the `tenant` scope changes no query |
| Scopes.ConfiguredScopeKeeps | src/Traits/Tenantable.php:101-109 | with a configured tenant a row stays exactly when it is associated with a tenant matching it by slug or id |
| Scopes.WithoutTenantsRestores | src/Scopes/TenantableScope.php:53-58 | `withoutTenants` on a builder with the scope under its class name gives the unscoped query |
| Scopes.WithoutTenantablesRestores | src/Scopes/TenantableChildScope.php:33-38 | the corrected `withoutTenantables` on a booted child gives the unscoped query |
| Scopes.WithoutTenantablesAsWrittenKeepsScope | src/Scopes/TenantableChildScope.php:33-38 | as written, `withoutTenantables` on a booted child leaves the child scope in place |
| Scopes.Builder.WithGlobalScope | src/Scopes/TenantableScope.php:53 | records the scope and adds its as-written macros |
| Scopes.Builder.WithoutGlobalScope | src/Scopes/TenantableScope.php:56 | removes only that key |
| Scopes.Builder.WithoutGlobalScopes | src/Traits/Tenantable.php:275 | removes only those keys |
| Scopes.Builder.CallMacro | src/Scopes/TenantableScope.php:55-57 | a registered macro runs on the builder's scopes, and an unknown name changes nothing and reports that it is undefined |
| Scopes.ModelScopes.AddGlobalScope | src/Traits/TenantableChild.php:16 | registers the scope under the identifier, replacing an earlier one |
| Scopes.ModelScopes.NewQuery | src/Traits/Tenantable.php:275 | a fresh builder carries every registered scope and every as-written macro those scopes define, and no constraints |
| TenantableChild.BootTenantableChild | src/Traits/TenantableChild.php:13-18 | the child scope is registered under `tenantable-child` exactly when a request tenant is set |
| TenantableChild.ChildBootFiltersOnlyWithTenant | src/Traits/TenantableChild.php:15-16 | with no request tenant queries are unchanged; with one they keep exactly the rows whose relation is non-empty |
| Tenantable.ParseIds | src/Traits/Tenantable.php:131-134 | an id, a list of ids, a tenant or a collection of tenants stands for those tenant keys, in order |
| Tenantable.Attach | src/Traits/Tenantable.php:131-134 | keeps every existing row; adds only this model's rows for listed, existing tenants; succeeds exactly when every id names a tenant or is already attached; on success the rows are the old ones plus one per id |
| Tenantable.AttachIdempotent | src/Traits/Tenantable.php:131-134 | attaching the same ids twice is the same as attaching them once |
| Tenantable.AttachKeepsWellFormed | database/migrations/2020_01_01_000002_create_tenantables_table.php:25-27 | attaching keeps the table well formed: join rows point at tenants, and ids, slugs and domains stay unique |
| Tenantable.Detach | src/Traits/Tenantable.php:143-146 | removes only this model's rows: all of them for no argument, otherwise exactly those for the listed ids |
| Tenantable.DetachUndoesAttach | src/Traits/Tenantable.php:131-146 | detaching the ids just attached gives the same table as detaching them before the attach did |
| Tenantable.TenantableEntity.AttachTenants | src/Traits/Tenantable.php:131-134 | the join table becomes the attach result, and the model itself is unchanged |
| Tenantable.TenantableEntity.DetachTenants | src/Traits/Tenantable.php:143-146 | the join table becomes the detach result |
| Tenantable.TenantableEntity.SetTenants | src/Traits/Tenantable.php:83-92 | an unsaved model queues the tenants; a saved one attaches them at once |
| Tenantable.TenantableEntity.Created | src/Traits/Tenantable.php:111-117 | a truthy queue is attached on creation, and the queue is cleared only when the attach completes |
| Tenantable.TenantableEntity.Deleted | src/Traits/Tenantable.php:119-121 | deleting the model detaches all of its tenants and no other model's |
| Tenantable.TenantsWithGroup | src/Traits/Tenantable.php:167-172 | a tenant is listed exactly when the model owns it and it is in the group |
| Tenantable.AsList | src/Traits/Tenantable.php:214 | a list is kept, null becomes the empty list, any other scalar a one-element list |
| Tenantable.GroupWheresMeans | src/Traits/Tenantable.php:190-192 | the group filter applies only when a group is given |
| Tenantable.AllTenantsConstraints | src/Traits/Tenantable.php:188-194 | one `whereHas` per value |
| Tenantable.WithAllTenants | src/Traits/Tenantable.php:184-197 | adds one `whereHas` per value, in order |
| Tenantable.WithAnyTenants | src/Traits/Tenantable.php:209-218 | adds one `whereHas` on any of the values |
| Tenantable.WithTenants | src/Traits/Tenantable.php:230-233 | behaves as `withAnyTenants` |
| Tenantable.WithoutTenants | src/Traits/Tenantable.php:245-254 | adds one `whereDoesntHave` on any of the values |
| Tenantable.WithoutAnyTenants | src/Traits/Tenantable.php:263-266 | adds one `doesntHave` on the relation |
| Tenantable.WithAllMeans | src/Traits/Tenantable.php:184-197 | a row passes exactly when it owns, for every value, a tenant matching it (in the group if given) |
| Tenantable.WithAnyMeans | src/Traits/Tenantable.php:209-218 | a row passes exactly when it owns a tenant matching some value (in the group if given) |
| Tenantable.AllAndAnyAgreeOnOne | src/Traits/Tenantable.php:184-218 | for a single value the two scopes keep the same rows |
| Tenantable.WithoutIsComplementOfAny | src/Traits/Tenantable.php:245-254 | `withoutTenants` keeps exactly the rows `withAnyTenants` drops |
| Tenantable.WithoutAnyMeans | src/Traits/Tenantable.php:263-266 | a row passes exactly when it owns no tenant |
| Tenantable.AttachedPassesWithAll | src/Traits/Tenantable.php:184-197 | after attaching existing ids, the model passes `withAllTenants` on those ids |
| Tenantable.ForAllTenants | src/Traits/Tenantable.php:273-276 | a new query whose rows are those of every scope but `tenant` |
| Tenantable.FindOrFail | src/Traits/Tenantable.php:290-302 | returns a visible row with the id; otherwise the tenant not-found error exactly when the row is visible without the `tenant` scope; otherwise the original not-found error for that id |
| Tenantable.FindOrFailFailuresCaught | src/Exceptions/ModelNotFoundForTenantException.php:9 | every `findOrFail` failure is caught by a handler for the framework's not-found exception, and the tenant variant (which a handler for it alone catches) arises exactly when the row is hidden only by the `tenant` scope |
| Tenantable.NoTenantVariantWithoutTenant | src/Traits/Tenantable.php:290-302 | with no configured tenant, the tenant variant of not-found never arises |
| TenantModel.TenantQuery.Active | src/Models/Tenant.php:227-230 | adds `is_active = true` |
| TenantModel.TenantQuery.Inactive | src/Models/Tenant.php:239-242 | adds `is_active = false` |
| TenantModel.TenantQuery.WithGroup | src/Models/Tenant.php:252-255 | adds `group = g` |
| TenantModel.ActiveInactivePartition | src/Models/Tenant.php:227-242 | `active` and `inactive` split any query's results with no overlap and nothing missing |
| TenantModel.WithGroupFilters | src/Models/Tenant.php:252-255 | `withGroup` keeps exactly the results in that group |
| TenantModel.FromInput | database/migrations/2020_01_01_000001_create_tenants_table.php:37 | a validated input becomes a row with its slug, domain, name, email and group; `is_active` defaults to true when absent |
| TenantModel.ValidSlugIsLabel | src/Models/Tenant.php:160 | a validated slug is non-empty and has no dot, so it is one host label |
| TenantModel.ValidatedInsertKeepsUniqueSlugs | src/Models/Tenant.php:159-175 | inserting a tenant that passed the rules keeps slugs unique |
| TenantModel.OwnSlugPassesUniqueOnUpdate | src/Models/Tenant.php:160 | the slug's `unique` rule ignores the tenant's own row: a stored tenant re-saved with its slug passes it, a new tenant with that slug fails it |
| TenantModel.ValidatingSlugCall | src/Models/Tenant.php:186-192 | the `validating` hook calls the update generator only for a saved tenant and the create generator only for an unsaved one, and calls neither exactly when the options disable the matching one |
| TenantModel.SlugGeneratedOnlyOnCreate | src/Models/Tenant.php:212-218 | with the tenant's slug options, a slug is generated only for an unsaved tenant |
| TenantModel.TenantRecord.Validating | src/Models/Tenant.php:186-192 | an unsaved tenant gets the generated slug and a saved tenant keeps its own |
| Tenants.SetActive | src/Models/Tenant.php:276 | the table keeps its length; rows with the id get the flag, every other row is unchanged |
| Tenants.WriteDirty | src/Models/Tenant.php:276 | the saved row keeps its key; a model with nothing dirty leaves the stored row as it is, and a stored row still as loaded becomes the model's attributes |
| Tenants.CleanColumnsKeepStoredValues | src/Models/Tenant.php:276 | a column the model did not change keeps the value the table holds now, even if it changed after loading; a changed flag is written |
| Tenants.SaveDirty | src/Models/Tenant.php:276 | `save()` keeps the table's length and every key, leaves rows with other keys unchanged, and changes nothing for a clean model |
| Tenants.SaveCleanIsSetActive | src/Models/Tenant.php:274-291 | with unique ids, saving a record loaded from the table whose only change is the flag is the flag update |
| TenantModel.TenantRecord.UpdateActive | src/Models/Tenant.php:276 | a tenant not in the table changes nothing; a stored one gets the flag in its attributes; when validation passes the dirty columns are written onto its row and become the original, and when it fails the save throws and the table is untouched |
| TenantModel.TenantRecord.Activate | src/Models/Tenant.php:274-279 | `update(['is_active' => true])` as above, then the same record; no record (the thrown `ValidationException`) exactly when a stored tenant fails validation |
| TenantModel.TenantRecord.Deactivate | src/Models/Tenant.php:286-291 | `update(['is_active' => false])` as above, then the same record; no record exactly when a stored tenant fails validation |
| TenantModel.SetActiveIdempotent | src/Models/Tenant.php:274-291 | setting a tenant's flag twice leaves the table as setting it once |
| TenantModel.SetActiveTargetsOneTenant | src/Models/Tenant.php:274-291 | updating one tenant's flag leaves every other row unchanged |
| LegacyTenant.Translate | src/Tenant.php:145-148 | a plain string becomes a translation for the current locale, a translation map is kept, and null stays null |
| LegacyTenant.LegacyTenantRecord.SetName | src/Tenant.php:145-148 | stores the translated name |
| LegacyTenant.LegacyTenantRecord.SetDescription | src/Tenant.php:157-160 | stores the translated description, or null for an empty value |
| LegacyTenant.LegacyTenantRecord.SetSlug | src/Tenant.php:169-172 | stores the slugified value |
| LegacyTenant.LegacyTenantRecord.Validating | src/Tenant.php:112-123 | runs the listener as written: with a dispatcher and an empty slug, the slug becomes the generator's result when the swapped call's generator runs; so a new tenant's slug is never changed |
| LegacyTenant.ListenerCall | src/Tenant.php:114-121 | corrected listener: an empty slug is generated on create for a new tenant and on update for a saved one |
| LegacyTenant.ListenerFillsOnlyNewEmptySlugs | src/Tenant.php:114-121 | with the tenant's slug options, only a new tenant without a slug gets one, and no saved tenant's slug is regenerated |
| LegacyTenant.ListenerAsWrittenMissesNewTenants | src/Tenant.php:116-120 | as written, a new tenant without a slug gets none, and a saved tenant with an emptied slug is regenerated |
| LegacyTenant.WithGroupIfGiven | src/Tenant.php:195-198 | adds a `group` condition only when a group is given |
| LegacyTenant.WithGroupIfGivenFilters | src/Tenant.php:195-198 | with a group the results are those in it; without one they are unchanged |
| LegacyTenant.FirstNamed | src/Tenant.php:208-213 | the first tenant whose name in the locale is the given one, and none exactly when no tenant has it |
| LegacyTenant.FindByName | src/Tenant.php:208-213 | a tenant named so in the given locale, or in the application locale when none is given; none exactly when no tenant is |
| LegacyTenant.StoredName | src/Tenant.php:145-148 | the stored name map has exactly the locales with a non-null translation, with those values |
| LegacyTenant.SetNameThenFind | src/Tenant.php:145-148 | a name set from a plain string is found by `findByName` in the current locale, given or defaulted; a name set from a translation map is found in each of its locales |
| LegacyTenant.NullNameNotFound | src/Tenant.php:208-213 | a name set to null is found by no value in that locale |

## Left out

- `parse_url` failing (a null host) is not modelled; the application URL's host is a parameter.
- Errors that are not `Exception`s escape `resolveActiveTenant`'s `catch`. An unset resolver class in the configuration is not modelled either. The resolver is one of the three modelled kinds.
- SQL is modelled as exact comparison on typed values. Loose type coercion, collation and case-insensitive matching are left out.
- Columns no modelled operation reads are not in the row: owner, description, phone, address fields, language, country, launch date, timestamps.
- TenantModel.PassesRules leaves out some rules. The `phone` rule (`numeric|min:4`) is not checked. The state, city, address and postal-code rules are treated as always passing. The translatable `name` is validated as a plain string. The email, country, language and date rules are parameters.
- The validating trait that runs the rules comes from another package, which is not part of this model. Its `unique` rules ignore the model's own row on update: `UniqueAmong` models that through the own id (`selfId`).
- Tenantable.FindOrFail: takes a single integer id; an array of ids and the `$columns` argument are left out.
- Tenantable.Attach: ids are integers; string keys that the database casts are not modelled.
- The `owner` relation, the country and language accessors, events, console commands, `tenantList`, `entries` and the service provider's other registrations are not part of this model.
- The `request.tenant` singleton is stored as its value, not as a closure that returns it.
- Session state, the application container's other bindings and the request object are parameters.
- TenantModel.TenantRecord.UpdateActive: the validator's verdict is a parameter (`passes`). The `ValidationException` of a failed save is the outcome `ValidationThrown`, not an unwinding exception. Model events around the save, timestamps and the no-query shortcut for a clean model (which writes nothing either way) are not modelled.
- TenantModel.TenantRecord.Activate: where the source throws `ValidationException` and never returns, the model returns `None`; the filled but unsaved flag stays in the record, as in the source.
- TenantModel.TenantRecord.Deactivate: the same as `Activate`: a thrown `ValidationException` is the result `None`.
- Provider.PublishedTenant: `config('app.domains')` is a set of hosts, so an unset key is not modelled. On PHP 8 `array_key_exists` on null throws a `TypeError`, which escapes `catch (Exception)` and fails the boot; on PHP 7 the warning becomes an `ErrorException`, which is caught and leaves the request without a tenant.
- The sluggable package's internals are abstract. This covers custom generators, uniqueness suffixes and the separator; the generated slug is a parameter.
- A `Model` instance passed to the `tenant` scope or the `withAllTenants` family is abstract; it stands for its key or attribute value.
- The `alpha` and `alpha_dash` rules are checked on ASCII letters and digits only; Unicode letters are left out.
- The older migrations (2017) and the factories are not part of this model.

## Findings

| source | as written | input that shows it | evidently intended | confidence | as-written member | corrected member |
|---|---|---|---|---|---|---|
| src/Support/helpers.php:13 | `central_domains()` reads the configuration key `alias_domains` | the shipped configuration, which sets `central_domains` to `['app.rinvex.test']` (config/config.php:37-39): `app.rinvex.test` is not a central domain | read `central_domains`, the key the configuration defines | not executed | Domains.CentralDomainsAsWritten (Domains.AsWrittenIgnoresShippedDomains, Provider.ShippedConfigSubdomainGetsNoTenant) | Domains.CentralDomains (Domains.ShippedDomainsAreCentral) |
| src/Scopes/TenantableChildScope.php:33-38 | `withoutTenantables` removes the scope keyed by its class name | a child model booted with a request tenant registers the scope under `tenantable-child` (src/Traits/TenantableChild.php:16); after `withoutTenantables()` the scope still filters | remove the scope under the key it was registered with | not executed | Scopes.ExtensionMacros (Scopes.WithoutTenantablesAsWrittenKeepsScope) | Scopes.WithoutTenantablesIntended (Scopes.WithoutTenantablesRestores) |
| src/Tenant.php:116-120 | the listener calls `generateSlugOnUpdate` for an unsaved tenant and `generateSlugOnCreate` for a saved one | a new tenant with name "Acme" and no slug: the update generator is disabled by the slug options, so the slug stays empty and the `required` slug rule fails | generate on create for a new tenant, on update for a saved one | not executed | LegacyTenant.ListenerCallAsWritten (LegacyTenant.ListenerAsWrittenMissesNewTenants) | LegacyTenant.ListenerCall (LegacyTenant.ListenerFillsOnlyNewEmptySlugs) |
