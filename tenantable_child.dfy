/**
 * The `TenantableChild` trait: a model owned through a parent relation
 * registers the child scope at boot, but only when a tenant was resolved
 * for the request.
 */
module TenantableChild {
  import opened Wrappers
  import opened Tenants
  import opened Scopes

  /** The class's scope table after `bootTenantableChild`. */
  function ScopesAfterChildBoot(table: map<string, Scope>, requestTenant: Option<Tenant>): map<string, Scope> {
    if requestTenant.Some? then table[ChildScopeKey := ChildScope] else table
  }

  /** `bootTenantableChild()`: the child scope is added under `tenantable-child` only if `request.tenant` is set. */
  method BootTenantableChild(cls: ModelScopes, requestTenant: Option<Tenant>)
    modifies cls
    ensures cls.table == ScopesAfterChildBoot(old(cls.table), requestTenant)
  {
    if requestTenant.Some? {
      cls.AddGlobalScope(ChildScopeKey, ChildScope);
    }
  }

  /**
   * Booted without a tenant, a child model's queries are exactly the
   * unscoped ones; booted with one, they keep exactly the unscoped rows whose
   * relation to the tenant-owned parent is non-empty.
   */
  lemma ChildBootFiltersOnlyWithTenant(ctx: QueryContext, m: ModelClass, table: map<string, Scope>,
                                       wheres: seq<Constraint>, requestTenant: Option<Tenant>)
    requires ChildScopeKey !in table
    ensures requestTenant.None? ==> Query(ctx, m, ScopesAfterChildBoot(table, requestTenant), wheres) == Query(ctx, m, table, wheres)
    ensures requestTenant.Some? ==>
      forall row :: row in Query(ctx, m, ScopesAfterChildBoot(table, requestTenant), wheres) <==>
        row in Query(ctx, m, table, wheres)
        && m.relationToTenantable in row.related && row.related[m.relationToTenantable] > 0
  {
    if requestTenant.Some? {
      var booted := table[ChildScopeKey := ChildScope];
      assert booted - {ChildScopeKey} == table;
      forall row
        ensures Visible(ctx, m, booted, wheres, row) <==>
          Visible(ctx, m, table, wheres, row)
          && m.relationToTenantable in row.related && row.related[m.relationToTenantable] > 0
      {
        VisibleSplit(ctx, m, booted, wheres, ChildScopeKey, row);
        HoldsAllSingle(ctx, m, row, WhereHasRelation(m.relationToTenantable));
      }
    }
  }
}
