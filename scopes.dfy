/**
 * The tenant scope engine: rows of a tenant-owned model, the existence
 * constraints global scopes add to a query (`whereHas('tenants', …)`,
 * `whereHas($relation)`), and the query builder that holds the named global
 * scopes, the constraints added so far and the macros scopes register.
 */
module Scopes {
  import opened Wrappers
  import opened Text
  import opened Tenants

  /** The class names Laravel keys a scope object by in `withoutGlobalScope($this)`. */
  const TenantScopeClass := "Rinvex\\Tenants\\Scopes\\TenantableScope"
  const ChildScopeClass := "Rinvex\\Tenants\\Scopes\\TenantableChildScope"
  /** The identifiers the traits register their scopes under. */
  const ChildScopeKey := "tenantable-child"
  const TenantScopeKey := "tenant"

  /** A row of a tenant-owned (or child) model: its key and, per relation, how many rows it relates to. */
  datatype Row = Row(key: int, related: map<string, nat>)

  /** What the scopes read of the queried model class; every child model supplies its relation name. */
  datatype ModelClass = ModelClass(className: string, morphType: string, relationToTenantable: string)

  /** The value of `config('rinvex.tenantable.tenant')`. */
  datatype ConfiguredTenant = NoTenant | ModelTenant(tenant: Tenant) | IntTenant(i: int) | StringTenant(s: string)

  /** PHP truthiness of the configured tenant: null, 0, "" and "0" are false, a model is true. */
  predicate ConfiguredTruthy(c: ConfiguredTenant) {
    match c
    case NoTenant => false
    case ModelTenant(_) => true
    case IntTenant(i) => i != 0
    case StringTenant(s) => Truthy(s)
  }

  /** The tenant condition of the `tenant` global scope: primary key for a model, `id` for an int, `slug` otherwise. */
  function ConfiguredTenantWhere(c: ConfiguredTenant): (w: TenantWhere)
    requires !c.NoTenant?
    ensures c.StringTenant? <==> w.column == "slug"
    ensures w.Where?
  {
    match c
    case ModelTenant(t) => Where("id", IntV(t.id))
    case IntTenant(i) => Where("id", IntV(i))
    case StringTenant(s) => Where("slug", StrV(s))
  }

  /** The tables a query runs against and the configured tenant it reads when it runs. */
  datatype QueryContext = QueryContext(store: Store, rows: seq<Row>, configured: ConfiguredTenant)

  /** A constraint on the rows of a model. */
  datatype Constraint =
    | WhereHasTenants(conds: seq<TenantWhere>)          // whereHas('tenants', fn => conds)
    | WhereDoesntHaveTenants(conds: seq<TenantWhere>)   // whereDoesntHave('tenants', fn => conds)
    | WhereHasRelation(relation: string)                // whereHas($relation)

  /** The row is joined through `tenantables` to a tenant satisfying `conds`. */
  predicate HasTenantWhere(s: Store, m: ModelClass, row: Row, conds: seq<TenantWhere>) {
    exists t :: t in s.tenants && Tenantable(t.id, row.key, m.morphType) in s.tenantables && SatisfiesAll(t, conds)
  }

  predicate Holds(ctx: QueryContext, m: ModelClass, row: Row, c: Constraint) {
    match c
    case WhereHasTenants(conds) => HasTenantWhere(ctx.store, m, row, conds)
    case WhereDoesntHaveTenants(conds) => !HasTenantWhere(ctx.store, m, row, conds)
    case WhereHasRelation(rel) => rel in row.related && row.related[rel] > 0
  }

  predicate HoldsAll(ctx: QueryContext, m: ModelClass, row: Row, cs: seq<Constraint>) {
    forall j :: 0 <= j < |cs| ==> Holds(ctx, m, row, cs[j])
  }

  lemma HoldsAllConcat(ctx: QueryContext, m: ModelClass, row: Row, a: seq<Constraint>, b: seq<Constraint>)
    ensures HoldsAll(ctx, m, row, a + b) <==> HoldsAll(ctx, m, row, a) && HoldsAll(ctx, m, row, b)
  {
    if HoldsAll(ctx, m, row, a) && HoldsAll(ctx, m, row, b) {
      forall j | 0 <= j < |a + b| ensures Holds(ctx, m, row, (a + b)[j]) {
        if j >= |a| {
          assert (a + b)[j] == b[j - |a|];
        }
      }
    }
    if HoldsAll(ctx, m, row, a + b) {
      forall j | 0 <= j < |a| ensures Holds(ctx, m, row, a[j]) {
        assert (a + b)[j] == a[j];
      }
      forall j | 0 <= j < |b| ensures Holds(ctx, m, row, b[j]) {
        assert (a + b)[|a| + j] == b[j];
      }
    }
  }

  /**
   * The global scopes: `TenantableScope` (fixed tenant), `TenantableChildScope`
   * (relation existence) and the `tenant` closure the `Tenantable` trait
   * registers, which reads the configured tenant when the query runs.
   */
  datatype Scope = TenantScope(tenant: Tenant) | ChildScope | ConfiguredTenantScope
  {
    /** `apply($builder, $model)`: appends this scope's constraints to the builder. */
    method Apply(b: Builder)
      modifies b
      ensures b.wheres == old(b.wheres) + ScopeConstraints(this, b.model, b.context)
      ensures b.scopes == old(b.scopes) && b.macros == old(b.macros)
    {
      b.AddConstraints(ScopeConstraints(this, b.model, b.context));
    }

    /** `extend($builder)`: registers this scope's removal macro on the builder. */
    method Extend(b: Builder)
      modifies b
      ensures b.macros == old(b.macros) + ExtensionMacros(this)
      ensures b.scopes == old(b.scopes) && b.wheres == old(b.wheres)
    {
      var ms := ExtensionMacros(this);
      if "withoutTenants" in ms {
        b.Macro("withoutTenants", ms["withoutTenants"]);
      }
      if "withoutTenantables" in ms {
        b.Macro("withoutTenantables", ms["withoutTenantables"]);
      }
    }
  }

  /** The constraints `apply` adds for scope `s` on model `m`. */
  function ScopeConstraints(s: Scope, m: ModelClass, ctx: QueryContext): (cs: seq<Constraint>)
    ensures s.TenantScope? ==> |cs| == 1 && cs[0].WhereHasTenants?
    ensures s.ChildScope? ==> cs == [WhereHasRelation(m.relationToTenantable)]
    ensures s.ConfiguredTenantScope? ==> (cs == [] <==> !ConfiguredTruthy(ctx.configured))
  {
    match s
    case TenantScope(t) => [WhereHasTenants([Where("id", IntV(t.id)), Where("is_active", BoolV(true))])]
    case ChildScope => [WhereHasRelation(m.relationToTenantable)]
    case ConfiguredTenantScope =>
      if ConfiguredTruthy(ctx.configured) then [WhereHasTenants([ConfiguredTenantWhere(ctx.configured)])] else []
  }

  /** A builder macro: `withoutGlobalScope($key)`. */
  datatype Macro = WithoutScope(key: string)

  /**
   * The macros `extend` registers. Both call `withoutGlobalScope($this)`, which
   * removes the scope's class name: right for `TenantableScope`, but the child
   * scope is registered under `tenantable-child`, so as written its macro misses it.
   */
  function ExtensionMacros(s: Scope): (ms: map<string, Macro>)
    ensures s.TenantScope? ==> ms == map["withoutTenants" := WithoutScope(TenantScopeClass)]
    ensures s.ChildScope? ==> ms == map["withoutTenantables" := WithoutScope(ChildScopeClass)]
    ensures s.ConfiguredTenantScope? ==> ms == map[]
    ensures forall name :: name in ms ==> ms[name].key != ChildScopeKey
  {
    match s
    case TenantScope(_) => map["withoutTenants" := WithoutScope(TenantScopeClass)]
    case ChildScope => map["withoutTenantables" := WithoutScope(ChildScopeClass)]
    case ConfiguredTenantScope => map[]
  }

  /** The `withoutTenantables` macro as intended: it removes the key the child scope is registered under. */
  function WithoutTenantablesIntended(): (mac: Macro)
    ensures mac.key == ChildScopeKey
  {
    WithoutScope(ChildScopeKey)
  }

  /** A row is visible when it meets the builder's constraints and those of every global scope still present. */
  predicate Visible(ctx: QueryContext, m: ModelClass, scopes: map<string, Scope>, wheres: seq<Constraint>, row: Row) {
    HoldsAll(ctx, m, row, wheres)
    && forall k :: k in scopes ==> HoldsAll(ctx, m, row, ScopeConstraints(scopes[k], m, ctx))
  }

  /** Visibility under a scope table is visibility under the rest of the table and this scope's constraints. */
  lemma VisibleSplit(ctx: QueryContext, m: ModelClass, scopes: map<string, Scope>, wheres: seq<Constraint>, k: string, row: Row)
    requires k in scopes
    ensures Visible(ctx, m, scopes, wheres, row) <==>
      Visible(ctx, m, scopes - {k}, wheres, row) && HoldsAll(ctx, m, row, ScopeConstraints(scopes[k], m, ctx))
  {
    var rest := scopes - {k};
    if Visible(ctx, m, rest, wheres, row) && HoldsAll(ctx, m, row, ScopeConstraints(scopes[k], m, ctx)) {
      forall k' | k' in scopes ensures HoldsAll(ctx, m, row, ScopeConstraints(scopes[k'], m, ctx)) {
        if k' != k {
          assert k' in rest && rest[k'] == scopes[k'];
        }
      }
    }
    if Visible(ctx, m, scopes, wheres, row) {
      forall k' | k' in rest ensures HoldsAll(ctx, m, row, ScopeConstraints(rest[k'], m, ctx)) {
        assert k' in scopes && rest[k'] == scopes[k'];
      }
    }
  }

  lemma VisibleSingle(ctx: QueryContext, m: ModelClass, k: string, s: Scope, wheres: seq<Constraint>, row: Row)
    ensures Visible(ctx, m, map[k := s], wheres, row) <==>
      HoldsAll(ctx, m, row, wheres) && HoldsAll(ctx, m, row, ScopeConstraints(s, m, ctx))
  {
    VisibleSplit(ctx, m, map[k := s], wheres, k, row);
    assert map[k := s] - {k} == map[];
  }

  function Select(rows: seq<Row>, ctx: QueryContext, m: ModelClass, scopes: map<string, Scope>, wheres: seq<Constraint>): (r: seq<Row>)
    ensures |r| <= |rows|
    ensures forall row :: row in r <==> row in rows && Visible(ctx, m, scopes, wheres, row)
  {
    if rows == [] then []
    else if Visible(ctx, m, scopes, wheres, rows[0]) then [rows[0]] + Select(rows[1..], ctx, m, scopes, wheres)
    else Select(rows[1..], ctx, m, scopes, wheres)
  }

  /** `->get()`: the visible rows of the model's table, in table order. */
  function Query(ctx: QueryContext, m: ModelClass, scopes: map<string, Scope>, wheres: seq<Constraint>): seq<Row> {
    Select(ctx.rows, ctx, m, scopes, wheres)
  }

  /** Two queries whose visibility agrees on every row return the same rows. */
  lemma {:induction false} SelectCongruent(rows: seq<Row>, ctx: QueryContext, m: ModelClass,
                                          s1: map<string, Scope>, w1: seq<Constraint>,
                                          s2: map<string, Scope>, w2: seq<Constraint>)
    requires forall row :: row in rows ==> (Visible(ctx, m, s1, w1, row) <==> Visible(ctx, m, s2, w2, row))
    ensures Select(rows, ctx, m, s1, w1) == Select(rows, ctx, m, s2, w2)
  {
    if rows != [] {
      SelectCongruent(rows[1..], ctx, m, s1, w1, s2, w2);
    }
  }

  /** Applying a scope into the constraints and dropping it from the table gives the same rows: `apply` is the filter. */
  lemma ApplyIsScopeFilter(ctx: QueryContext, m: ModelClass, scopes: map<string, Scope>, wheres: seq<Constraint>, k: string)
    requires k in scopes
    ensures Query(ctx, m, scopes - {k}, wheres + ScopeConstraints(scopes[k], m, ctx)) == Query(ctx, m, scopes, wheres)
  {
    var extra := ScopeConstraints(scopes[k], m, ctx);
    forall row | row in ctx.rows
      ensures Visible(ctx, m, scopes - {k}, wheres + extra, row) <==> Visible(ctx, m, scopes, wheres, row)
    {
      HoldsAllConcat(ctx, m, row, wheres, extra);
      VisibleSplit(ctx, m, scopes, wheres, k, row);
    }
    SelectCongruent(ctx.rows, ctx, m, scopes - {k}, wheres + extra, scopes, wheres);
  }

  /** Every scope only adds constraints: the rows with a scope are among the rows without it. */
  lemma ScopeNarrows(ctx: QueryContext, m: ModelClass, scopes: map<string, Scope>, wheres: seq<Constraint>, k: string)
    ensures forall row :: row in Query(ctx, m, scopes, wheres) ==> row in Query(ctx, m, scopes - {k}, wheres)
  {
    if k in scopes {
      forall row | row in Query(ctx, m, scopes, wheres) ensures row in Query(ctx, m, scopes - {k}, wheres) {
        VisibleSplit(ctx, m, scopes, wheres, k, row);
      }
    } else {
      assert scopes - {k} == scopes;
    }
  }

  lemma HoldsAllSingle(ctx: QueryContext, m: ModelClass, row: Row, c: Constraint)
    ensures HoldsAll(ctx, m, row, [c]) <==> Holds(ctx, m, row, c)
  {
    assert [c][0] == c;
  }

  /** `TenantableScope`: a row is kept iff it is associated with an active stored tenant carrying the scope tenant's key. */
  lemma TenantScopeKeeps(ctx: QueryContext, m: ModelClass, t: Tenant, k: string, row: Row)
    ensures Visible(ctx, m, map[k := TenantScope(t)], [], row) <==>
      exists u :: u in ctx.store.tenants && u.id == t.id && u.isActive
                  && Tenantable(t.id, row.key, m.morphType) in ctx.store.tenantables
  {
    var conds := [Where("id", IntV(t.id)), Where("is_active", BoolV(true))];
    assert ScopeConstraints(TenantScope(t), m, ctx) == [WhereHasTenants(conds)];
    VisibleSingle(ctx, m, k, TenantScope(t), [], row);
    HoldsAllSingle(ctx, m, row, WhereHasTenants(conds));
    if HasTenantWhere(ctx.store, m, row, conds) {
      var u :| u in ctx.store.tenants && Tenantable(u.id, row.key, m.morphType) in ctx.store.tenantables && SatisfiesAll(u, conds);
      assert Satisfies(u, conds[0]) && Satisfies(u, conds[1]);
    }
    if exists u :: u in ctx.store.tenants && u.id == t.id && u.isActive
                  && Tenantable(t.id, row.key, m.morphType) in ctx.store.tenantables {
      var u :| u in ctx.store.tenants && u.id == t.id && u.isActive
                  && Tenantable(t.id, row.key, m.morphType) in ctx.store.tenantables;
      assert SatisfiesAll(u, conds);
    }
  }

  /** When the stored tenant is inactive, the tenant scope hides every row. */
  lemma {:induction false} InactiveTenantHidesAll(ctx: QueryContext, m: ModelClass, t: Tenant, k: string, wheres: seq<Constraint>)
    requires UniqueIds(ctx.store.tenants) && t in ctx.store.tenants && !t.isActive
    ensures Query(ctx, m, map[k := TenantScope(t)], wheres) == []
  {
    var r := Query(ctx, m, map[k := TenantScope(t)], wheres);
    if r != [] {
      var row := r[0];
      assert Visible(ctx, m, map[k := TenantScope(t)], wheres, row);
      VisibleSingle(ctx, m, k, TenantScope(t), wheres, row);
      VisibleSingle(ctx, m, k, TenantScope(t), [], row);
      TenantScopeKeeps(ctx, m, t, k, row);
      assert false;
    }
  }

  /** `TenantableChildScope`: a row is kept iff the queried model's own relation has at least one row. */
  lemma ChildScopeKeeps(ctx: QueryContext, m: ModelClass, k: string, row: Row)
    ensures Visible(ctx, m, map[k := ChildScope], [], row) <==>
      m.relationToTenantable in row.related && row.related[m.relationToTenantable] > 0
  {
    assert ScopeConstraints(ChildScope, m, ctx) == [WhereHasRelation(m.relationToTenantable)];
    VisibleSingle(ctx, m, k, ChildScope, [], row);
    HoldsAllSingle(ctx, m, row, WhereHasRelation(m.relationToTenantable));
  }

  /** The `tenant` closure scope is a no-op when the configured tenant is falsy. */
  lemma ConfiguredScopeNoOpWhenFalsy(ctx: QueryContext, m: ModelClass, scopes: map<string, Scope>, wheres: seq<Constraint>)
    requires !ConfiguredTruthy(ctx.configured)
    ensures Query(ctx, m, scopes[TenantScopeKey := ConfiguredTenantScope], wheres) == Query(ctx, m, scopes - {TenantScopeKey}, wheres)
  {
    var with := scopes[TenantScopeKey := ConfiguredTenantScope];
    assert with - {TenantScopeKey} == scopes - {TenantScopeKey};
    forall row | row in ctx.rows
      ensures Visible(ctx, m, with, wheres, row) <==> Visible(ctx, m, scopes - {TenantScopeKey}, wheres, row)
    {
      VisibleSplit(ctx, m, with, wheres, TenantScopeKey, row);
    }
    SelectCongruent(ctx.rows, ctx, m, with, wheres, scopes - {TenantScopeKey}, wheres);
  }

  /**
   * With a configured tenant, the `tenant` scope keeps a row iff it is
   * associated with a stored tenant matched on `id` (a model or an int) or
   * on `slug` (a string, numeric or not); activity is not checked.
   */
  lemma ConfiguredScopeKeeps(ctx: QueryContext, m: ModelClass, row: Row)
    requires ConfiguredTruthy(ctx.configured)
    ensures Visible(ctx, m, map[TenantScopeKey := ConfiguredTenantScope], [], row) <==>
      exists u :: u in ctx.store.tenants && Tenantable(u.id, row.key, m.morphType) in ctx.store.tenantables
        && Matches(ctx.configured, u)
  {
    var w := ConfiguredTenantWhere(ctx.configured);
    assert ScopeConstraints(ConfiguredTenantScope, m, ctx) == [WhereHasTenants([w])];
    VisibleSingle(ctx, m, TenantScopeKey, ConfiguredTenantScope, [], row);
    HoldsAllSingle(ctx, m, row, WhereHasTenants([w]));
    forall u ensures SatisfiesAll(u, [w]) <==> Matches(ctx.configured, u) {
      assert [w][0] == w;
    }
    if HasTenantWhere(ctx.store, m, row, [w]) {
      var u :| u in ctx.store.tenants && Tenantable(u.id, row.key, m.morphType) in ctx.store.tenantables && SatisfiesAll(u, [w]);
    }
  }

  /** The stored tenant the configured value designates. */
  predicate Matches(c: ConfiguredTenant, u: Tenant) {
    match c
    case ModelTenant(t) => u.id == t.id
    case IntTenant(i) => u.id == i
    case StringTenant(s) => u.slug == s
    case NoTenant => false
  }

  /** What a macro leaves of the scope table. */
  function RunMacro(scopes: map<string, Scope>, mac: Macro): map<string, Scope> {
    scopes - {mac.key}
  }

  /** `withoutTenants` on a builder whose `TenantableScope` is registered by class restores the unscoped rows. */
  lemma WithoutTenantsRestores(ctx: QueryContext, m: ModelClass, scopes: map<string, Scope>, t: Tenant, wheres: seq<Constraint>)
    ensures var after := RunMacro(scopes[TenantScopeClass := TenantScope(t)], ExtensionMacros(TenantScope(t))["withoutTenants"]);
            TenantScopeClass !in after
            && Query(ctx, m, after, wheres) == Query(ctx, m, scopes - {TenantScopeClass}, wheres)
  {
    var after := RunMacro(scopes[TenantScopeClass := TenantScope(t)], ExtensionMacros(TenantScope(t))["withoutTenants"]);
    assert after == scopes - {TenantScopeClass};
  }

  /** The intended `withoutTenantables` removes the child scope registered as `tenantable-child`. */
  lemma WithoutTenantablesRestores(ctx: QueryContext, m: ModelClass, scopes: map<string, Scope>, wheres: seq<Constraint>)
    ensures var after := RunMacro(scopes[ChildScopeKey := ChildScope], WithoutTenantablesIntended());
            ChildScopeKey !in after
            && Query(ctx, m, after, wheres) == Query(ctx, m, scopes - {ChildScopeKey}, wheres)
  {
    var after := RunMacro(scopes[ChildScopeKey := ChildScope], WithoutTenantablesIntended());
    assert after == scopes - {ChildScopeKey};
  }

  /**
   * As written, `withoutTenantables` on a child model booted with a tenant
   * leaves the scope in place: every row still needs a related row, and a
   * row with none stays hidden.
   */
  lemma WithoutTenantablesAsWrittenKeepsScope(ctx: QueryContext, m: ModelClass, scopes: map<string, Scope>, wheres: seq<Constraint>, row: Row)
    requires row in ctx.rows && m.relationToTenantable !in row.related
    ensures var after := RunMacro(scopes[ChildScopeKey := ChildScope], ExtensionMacros(ChildScope)["withoutTenantables"]);
            ChildScopeKey in after && after[ChildScopeKey] == ChildScope
            && row !in Query(ctx, m, after, wheres)
  {
    var after := RunMacro(scopes[ChildScopeKey := ChildScope], ExtensionMacros(ChildScope)["withoutTenantables"]);
    assert ChildScopeKey != ChildScopeClass;
    assert ChildScopeKey in after && after[ChildScopeKey] == ChildScope;
    assert !HoldsAll(ctx, m, row, ScopeConstraints(after[ChildScopeKey], m, ctx)) by {
      assert ScopeConstraints(ChildScope, m, ctx)[0] == WhereHasRelation(m.relationToTenantable);
    }
  }

  /** An Eloquent builder for one model: the global scopes still applied, the added constraints, the macros. */
  class Builder {
    const model: ModelClass
    const context: QueryContext
    var scopes: map<string, Scope>
    var wheres: seq<Constraint>
    var macros: map<string, Macro>

    constructor(model: ModelClass, context: QueryContext)
      ensures this.model == model && this.context == context
      ensures scopes == map[] && wheres == [] && macros == map[]
    {
      this.model := model;
      this.context := context;
      scopes, wheres, macros := map[], [], map[];
    }

    /** `withGlobalScope($identifier, $scope)`: records the scope and lets it extend the builder. */
    method WithGlobalScope(identifier: string, scope: Scope)
      modifies this
      ensures scopes == old(scopes)[identifier := scope]
      ensures macros == old(macros) + ExtensionMacros(scope)
      ensures wheres == old(wheres)
    {
      scopes := scopes[identifier := scope];
      scope.Extend(this);
    }

    /** `withoutGlobalScope($key)`. */
    method WithoutGlobalScope(key: string)
      modifies this
      ensures scopes == old(scopes) - {key}
      ensures wheres == old(wheres) && macros == old(macros)
    {
      scopes := scopes - {key};
    }

    /** `withoutGlobalScopes($keys)`. */
    method WithoutGlobalScopes(keys: set<string>)
      modifies this
      ensures scopes == old(scopes) - keys
      ensures wheres == old(wheres) && macros == old(macros)
    {
      scopes := scopes - keys;
    }

    /** `macro($name, $fn)`. */
    method Macro(name: string, mac: Macro)
      modifies this
      ensures macros == old(macros)[name := mac]
      ensures scopes == old(scopes) && wheres == old(wheres)
    {
      macros := macros[name := mac];
    }

    /** Calling a builder method that only a macro defines; `defined` is false where PHP throws `BadMethodCallException`. */
    method CallMacro(name: string) returns (defined: bool)
      modifies this
      ensures defined <==> name in old(macros)
      ensures defined ==> scopes == RunMacro(old(scopes), old(macros)[name])
      ensures !defined ==> scopes == old(scopes)
      ensures wheres == old(wheres) && macros == old(macros)
    {
      defined := name in macros;
      if defined {
        scopes := RunMacro(scopes, macros[name]);
      }
    }

    method AddConstraints(cs: seq<Constraint>)
      modifies this
      ensures wheres == old(wheres) + cs
      ensures scopes == old(scopes) && macros == old(macros)
    {
      wheres := wheres + cs;
    }

    /** `->get()`. */
    function Rows(): seq<Row>
      reads this
    {
      Query(context, model, scopes, wheres)
    }
  }

  /** `static::$globalScopes[static::class]`: the global scopes a model class registers when it boots. */
  class ModelScopes {
    const model: ModelClass
    var table: map<string, Scope>

    constructor(model: ModelClass)
      ensures this.model == model && table == map[]
    {
      this.model := model;
      table := map[];
    }

    /** `static::addGlobalScope($identifier, $scope)`: a later registration under the same identifier replaces the earlier. */
    method AddGlobalScope(identifier: string, scope: Scope)
      modifies this
      ensures table == old(table)[identifier := scope]
    {
      table := table[identifier := scope];
    }

    /** `newQuery()`: a builder carrying every registered scope, each of which has extended it with its macros. */
    method NewQuery(context: QueryContext) returns (b: Builder)
      ensures fresh(b)
      ensures b.model == model && b.context == context
      ensures b.scopes == table && b.wheres == []
      ensures forall k, name :: k in table && name in ExtensionMacros(table[k]) ==>
                name in b.macros && b.macros[name] == ExtensionMacros(table[k])[name]
    {
      b := new Builder(model, context);
      var remaining := table.Keys;
      while remaining != {}
        invariant remaining <= table.Keys
        invariant b.model == model && b.context == context && b.wheres == []
        invariant b.scopes == map k | k in table.Keys - remaining :: table[k]
        invariant forall k, name :: k in table.Keys - remaining && name in ExtensionMacros(table[k]) ==>
                    name in b.macros && b.macros[name] == ExtensionMacros(table[k])[name]
        decreases remaining
      {
        var k :| k in remaining;
        b.WithGlobalScope(k, table[k]);
        remaining := remaining - {k};
      }
    }
  }
}
