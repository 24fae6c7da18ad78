/**
 * The `Tenantable` trait: the association manager of a tenant-owned model
 * (attach, detach, the queue of tenants set before the model is saved, the
 * `created` and `deleted` hooks), the query scopes over its associations,
 * and `findOrFail`, which tells "missing" from "hidden by the tenant scope".
 */
module Tenantable {
  import opened Wrappers
  import opened Text
  import opened Tenants
  import opened Exceptions
  import opened Scopes

  /** What `attachTenants`, `detachTenants` and the `tenants` attribute accept. */
  datatype TenantIds = OneId(id: int) | IdList(ids: seq<int>) | OneTenant(tenant: Tenant) | TenantCollection(tenants: seq<Tenant>)

  /** The relation's `parseIds`: the tenant keys a value stands for. */
  function ParseIds(v: TenantIds): (ids: seq<int>)
    ensures v.OneId? ==> ids == [v.id]
    ensures v.OneTenant? ==> ids == [v.tenant.id]
    ensures v.IdList? ==> ids == v.ids
    ensures v.TenantCollection? ==> |ids| == |v.tenants| && forall k :: 0 <= k < |ids| ==> ids[k] == v.tenants[k].id
  {
    match v
    case OneId(id) => [id]
    case IdList(ids) => ids
    case OneTenant(t) => [t.id]
    case TenantCollection(ts) => seq(|ts|, k requires 0 <= k < |ts| => ts[k].id)
  }

  /** PHP truthiness of the queue: 0 and [] are false, objects are always true. */
  predicate QueueTruthy(v: TenantIds) {
    match v
    case OneId(id) => id != 0
    case IdList(ids) => ids != []
    case OneTenant(_) => true
    case TenantCollection(_) => true
  }

  /** The ids of the stored tenants: the foreign key of `tenantables.tenant_id`. */
  function KnownIds(s: Store): set<int> {
    set t | t in s.tenants :: t.id
  }

  /** The join rows linking entity (`key`, `morphType`) to each of `ids`. */
  function JoinRows(key: int, morphType: string, ids: seq<int>): set<Tenantable> {
    set id | id in ids :: Tenantable(id, key, morphType)
  }

  /** The result of `syncWithoutDetaching`: the join rows afterwards, and whether every insert succeeded. */
  datatype AttachOutcome = AttachOutcome(rows: set<Tenantable>, ok: bool)

  /**
   * `syncWithoutDetaching($ids)`: inserts the missing join rows one id at a
   * time; an id with no tenant row violates the foreign key, which aborts the
   * call and keeps the rows inserted before it.
   */
  function Attach(rows: set<Tenantable>, known: set<int>, key: int, morphType: string, ids: seq<int>): (r: AttachOutcome)
    ensures rows <= r.rows
    ensures forall a :: a in r.rows - rows ==>
      a.tenantableId == key && a.tenantableType == morphType && a.tenantId in ids && a.tenantId in known
    ensures r.ok <==> forall j :: 0 <= j < |ids| ==> ids[j] in known || Tenantable(ids[j], key, morphType) in rows
    ensures r.ok ==> r.rows == rows + JoinRows(key, morphType, ids)
    decreases |ids|
  {
    if ids == [] then AttachOutcome(rows, true)
    else
      var row := Tenantable(ids[0], key, morphType);
      if row in rows then
        var r := Attach(rows, known, key, morphType, ids[1..]);
        assert forall j :: 1 <= j < |ids| ==> ids[j] == ids[1..][j - 1];
        assert JoinRows(key, morphType, ids) == {row} + JoinRows(key, morphType, ids[1..]);
        r
      else if ids[0] !in known then AttachOutcome(rows, false)
      else
        var r := Attach(rows + {row}, known, key, morphType, ids[1..]);
        assert forall j :: 1 <= j < |ids| ==> ids[j] == ids[1..][j - 1];
        assert JoinRows(key, morphType, ids) == {row} + JoinRows(key, morphType, ids[1..]);
        r
  }

  /** Attaching again what was just attached changes nothing and succeeds. */
  lemma AttachIdempotent(rows: set<Tenantable>, known: set<int>, key: int, morphType: string, ids: seq<int>)
    requires Attach(rows, known, key, morphType, ids).ok
    ensures var once := Attach(rows, known, key, morphType, ids).rows;
            Attach(once, known, key, morphType, ids) == AttachOutcome(once, true)
  {
    var once := Attach(rows, known, key, morphType, ids).rows;
    var again := Attach(once, known, key, morphType, ids);
    assert forall j :: 0 <= j < |ids| ==> Tenantable(ids[j], key, morphType) in once;
    assert again.rows == once + JoinRows(key, morphType, ids);
  }

  /** Attaching only known tenants keeps every join row pointing at a tenant. */
  lemma AttachKeepsWellFormed(s: Store, key: int, morphType: string, ids: seq<int>)
    requires WellFormed(s)
    ensures WellFormed(s.(tenantables := Attach(s.tenantables, KnownIds(s), key, morphType, ids).rows))
  {
    var r := Attach(s.tenantables, KnownIds(s), key, morphType, ids);
    forall a | a in r.rows ensures exists t :: t in s.tenants && t.id == a.tenantId {
      if a !in s.tenantables {
        assert a.tenantId in KnownIds(s);
      }
    }
  }

  /**
   * `detach($ids)`: null removes every join row of the entity; a list removes
   * the entity's rows for exactly those tenants (none for an empty list).
   * Rows of other entities are untouched.
   */
  function Detach(rows: set<Tenantable>, key: int, morphType: string, ids: Option<seq<int>>): (r: set<Tenantable>)
    ensures r <= rows
    ensures forall a :: a in rows && (a.tenantableId != key || a.tenantableType != morphType) ==> a in r
    ensures ids.None? ==> forall a :: a in r ==> a.tenantableId != key || a.tenantableType != morphType
    ensures ids.Some? ==> forall a :: a in rows && a.tenantId !in ids.value ==> a in r
    ensures ids.Some? ==> forall id :: id in ids.value ==> Tenantable(id, key, morphType) !in r
  {
    match ids
    case None => set a | a in rows && (a.tenantableId != key || a.tenantableType != morphType)
    case Some(xs) => set a | a in rows && (a.tenantableId != key || a.tenantableType != morphType || a.tenantId !in xs)
  }

  /** Detaching what was attached restores the entity's other associations and nothing more. */
  lemma {:induction false} DetachUndoesAttach(rows: set<Tenantable>, known: set<int>, key: int, morphType: string, ids: seq<int>)
    requires Attach(rows, known, key, morphType, ids).ok
    ensures Detach(Attach(rows, known, key, morphType, ids).rows, key, morphType, Some(ids)) == Detach(rows, key, morphType, Some(ids))
  {
    var once := Attach(rows, known, key, morphType, ids).rows;
    assert once == rows + JoinRows(key, morphType, ids);
    var l := Detach(once, key, morphType, Some(ids));
    var r := Detach(rows, key, morphType, Some(ids));
    forall a | a in l ensures a in r {
      assert a in rows || a in JoinRows(key, morphType, ids);
    }
  }

  /** A tenant-owned model instance: its key, whether it is saved, and the queue of tenants set before it was. */
  class TenantableEntity {
    const model: ModelClass
    const key: int
    var persisted: bool  // `$exists`
    var queuedTenants: TenantIds

    /** A new, unsaved instance with an empty queue. */
    constructor(model: ModelClass, key: int)
      ensures this.model == model && this.key == key
      ensures !persisted && queuedTenants == IdList([])
    {
      this.model := model;
      this.key := key;
      persisted := false;
      queuedTenants := IdList([]);
    }

    /** `attachTenants($tenants)`. */
    method AttachTenants(db: Database, tenants: TenantIds) returns (ok: bool)
      modifies db
      ensures var r := Attach(old(db.store.tenantables), KnownIds(old(db.store)), key, model.morphType, ParseIds(tenants));
              db.store == old(db.store).(tenantables := r.rows) && ok == r.ok
    {
      var r := Attach(db.store.tenantables, KnownIds(db.store), key, model.morphType, ParseIds(tenants));
      db.store := db.store.(tenantables := r.rows);
      ok := r.ok;
    }

    /** `detachTenants($tenants = null)`. */
    method DetachTenants(db: Database, tenants: Option<TenantIds>)
      modifies db
      ensures db.store == old(db.store).(tenantables :=
        Detach(old(db.store.tenantables), key, model.morphType, if tenants.Some? then Some(ParseIds(tenants.value)) else None))
    {
      var ids := if tenants.Some? then Some(ParseIds(tenants.value)) else None;
      db.store := db.store.(tenantables := Detach(db.store.tenantables, key, model.morphType, ids));
    }

    /** `setTenantsAttribute($tenants)`: an unsaved model only replaces its queue; a saved one attaches. */
    method SetTenants(db: Database, tenants: TenantIds) returns (ok: bool)
      modifies this, db
      ensures persisted == old(persisted)
      ensures !old(persisted) ==> queuedTenants == tenants && db.store == old(db.store) && ok
      ensures old(persisted) ==> queuedTenants == old(queuedTenants)
      ensures old(persisted) ==>
        var r := Attach(old(db.store.tenantables), KnownIds(old(db.store)), key, model.morphType, ParseIds(tenants));
        db.store == old(db.store).(tenantables := r.rows) && ok == r.ok
    {
      if !persisted {
        queuedTenants := tenants;
        ok := true;
        return;
      }
      ok := AttachTenants(db, tenants);
    }

    /**
     * The model is inserted and the `created` hook runs: a truthy queue is
     * attached and then emptied; when an insert fails the hook stops before
     * emptying it.
     */
    method Created(db: Database) returns (ok: bool)
      modifies this, db
      ensures persisted
      ensures !QueueTruthy(old(queuedTenants)) ==> queuedTenants == old(queuedTenants) && db.store == old(db.store) && ok
      ensures QueueTruthy(old(queuedTenants)) ==>
        var r := Attach(old(db.store.tenantables), KnownIds(old(db.store)), key, model.morphType, ParseIds(old(queuedTenants)));
        db.store == old(db.store).(tenantables := r.rows) && ok == r.ok
        && queuedTenants == (if r.ok then IdList([]) else old(queuedTenants))
    {
      persisted := true;
      ok := true;
      if QueueTruthy(queuedTenants) {
        ok := AttachTenants(db, queuedTenants);
        if ok {
          queuedTenants := IdList([]);
        }
      }
    }

    /** The model is deleted and the `deleted` hook detaches every tenant. */
    method Deleted(db: Database)
      modifies this, db
      ensures !persisted && queuedTenants == old(queuedTenants)
      ensures db.store == old(db.store).(tenantables := Detach(old(db.store.tenantables), key, model.morphType, None))
    {
      persisted := false;
      DetachTenants(db, None);
    }
  }

  /** The entity's tenants: the stored tenants joined to it. */
  predicate Owns(s: Store, m: ModelClass, key: int, t: Tenant) {
    t in s.tenants && Tenantable(t.id, key, m.morphType) in s.tenantables
  }

  function OwnedTenants(ts: seq<Tenant>, s: Store, m: ModelClass, key: int, group: Option<string>): (r: seq<Tenant>)
    ensures |r| <= |ts|
    ensures forall t :: t in r <==> t in ts && Tenantable(t.id, key, m.morphType) in s.tenantables && t.group == group
  {
    if ts == [] then []
    else if Tenantable(ts[0].id, key, m.morphType) in s.tenantables && ts[0].group == group then
      [ts[0]] + OwnedTenants(ts[1..], s, m, key, group)
    else OwnedTenants(ts[1..], s, m, key, group)
  }

  /** `tenantsWithGroup($group)`: the entity's tenants whose group is strictly equal to `group` (null matches null). */
  function TenantsWithGroup(s: Store, m: ModelClass, key: int, group: Option<string>): (r: seq<Tenant>)
    ensures |r| <= |s.tenants|
    ensures forall t :: t in r <==> Owns(s, m, key, t) && t.group == group
  {
    OwnedTenants(s.tenants, s, m, key, group)
  }

  /** What the builder scopes normalise their `$tenants` argument into: one value, or a list. */
  datatype ScopeValue = Scalar(v: Value) | ValueList(vs: seq<Value>)

  /** The `$tenants` argument of the query scopes. */
  datatype ScopeTenantsArg = ModelArg(tenant: Tenant) | CollectionArg(tenants: seq<Tenant>) | PlainArg(value: ScopeValue)

  /**
   * The first line of each scope: a collection is plucked on `$column`, a
   * plain value is kept, and a model yields `modelAttr`, the attribute the
   * model's key value names.
   */
  function Normalise(arg: ScopeTenantsArg, column: string, modelAttr: Tenant -> ScopeValue): ScopeValue {
    match arg
    case ModelArg(t) => modelAttr(t)
    case CollectionArg(ts) => ValueList(seq(|ts|, k requires 0 <= k < |ts| => ColumnValue(ts[k], column)))
    case PlainArg(v) => v
  }

  /** `collect($v)` and `(array) $v`: null is the empty list, a scalar a one-element list. */
  function AsList(v: ScopeValue): (vs: seq<Value>)
    ensures v == Scalar(NullV) ==> vs == []
    ensures v.Scalar? && v.v != NullV ==> vs == [v.v]
    ensures v.ValueList? ==> vs == v.vs
  {
    match v
    case Scalar(x) => if x == NullV then [] else [x]
    case ValueList(xs) => xs
  }

  function TenantValues(arg: ScopeTenantsArg, column: string, modelAttr: Tenant -> ScopeValue): seq<Value> {
    AsList(Normalise(arg, column, modelAttr))
  }

  /** `->when($group, fn => where('group', $group))`: only a truthy group constrains. */
  function GroupWheres(group: Option<string>): seq<TenantWhere> {
    if group.Some? && Truthy(group.value) then [Where("group", StrV(group.value))] else []
  }

  predicate InGroup(t: Tenant, group: Option<string>) {
    group.Some? && Truthy(group.value) ==> t.group == group
  }

  lemma GroupWheresMeans(t: Tenant, conds: seq<TenantWhere>, group: Option<string>)
    ensures SatisfiesAll(t, conds + GroupWheres(group)) <==> SatisfiesAll(t, conds) && InGroup(t, group)
  {
    var all := conds + GroupWheres(group);
    if SatisfiesAll(t, all) {
      forall j | 0 <= j < |conds| ensures Satisfies(t, conds[j]) {
        assert all[j] == conds[j];
      }
      if group.Some? && Truthy(group.value) {
        assert all[|conds|] == Where("group", StrV(group.value));
      }
    }
    if SatisfiesAll(t, conds) && InGroup(t, group) {
      forall j | 0 <= j < |all| ensures Satisfies(t, all[j]) {
        if j >= |conds| {
          assert all[j] == GroupWheres(group)[j - |conds|];
        }
      }
    }
  }

  /** The constraint `withAllTenants` adds for one tenant value. */
  function HasTenantWith(column: string, v: Value, group: Option<string>): Constraint {
    WhereHasTenants([Where(column, v)] + GroupWheres(group))
  }

  /** One `whereHas` per value: what the loop of `withAllTenants` adds. */
  function AllTenantsConstraints(vs: seq<Value>, column: string, group: Option<string>): (cs: seq<Constraint>)
    ensures |cs| == |vs|
  {
    seq(|vs|, k requires 0 <= k < |vs| => HasTenantWith(column, vs[k], group))
  }

  function AnyTenantsConditions(vs: seq<Value>, column: string, group: Option<string>): seq<TenantWhere> {
    [WhereIn(column, vs)] + GroupWheres(group)
  }

  /** `scopeWithAllTenants`: one existence constraint per tenant value. */
  method WithAllTenants(b: Builder, tenants: ScopeTenantsArg, column: string, group: Option<string>, modelAttr: Tenant -> ScopeValue)
    modifies b
    ensures b.wheres == old(b.wheres) + AllTenantsConstraints(TenantValues(tenants, column, modelAttr), column, group)
    ensures b.scopes == old(b.scopes) && b.macros == old(b.macros)
  {
    var values := TenantValues(tenants, column, modelAttr);
    var i := 0;
    while i < |values|
      invariant 0 <= i <= |values|
      invariant b.wheres == old(b.wheres) + AllTenantsConstraints(values[..i], column, group)
      invariant b.scopes == old(b.scopes) && b.macros == old(b.macros)
    {
      b.AddConstraints([HasTenantWith(column, values[i], group)]);
      assert AllTenantsConstraints(values[..i + 1], column, group)
          == AllTenantsConstraints(values[..i], column, group) + [HasTenantWith(column, values[i], group)];
      i := i + 1;
    }
    assert values[..i] == values;
  }

  /** `scopeWithAnyTenants`: one existence constraint with `whereIn`. */
  method WithAnyTenants(b: Builder, tenants: ScopeTenantsArg, column: string, group: Option<string>, modelAttr: Tenant -> ScopeValue)
    modifies b
    ensures b.wheres == old(b.wheres) + [WhereHasTenants(AnyTenantsConditions(TenantValues(tenants, column, modelAttr), column, group))]
    ensures b.scopes == old(b.scopes) && b.macros == old(b.macros)
  {
    b.AddConstraints([WhereHasTenants(AnyTenantsConditions(TenantValues(tenants, column, modelAttr), column, group))]);
  }

  /** `scopeWithTenants`: the same as `scopeWithAnyTenants`. */
  method WithTenants(b: Builder, tenants: ScopeTenantsArg, column: string, group: Option<string>, modelAttr: Tenant -> ScopeValue)
    modifies b
    ensures b.wheres == old(b.wheres) + [WhereHasTenants(AnyTenantsConditions(TenantValues(tenants, column, modelAttr), column, group))]
    ensures b.scopes == old(b.scopes) && b.macros == old(b.macros)
  {
    WithAnyTenants(b, tenants, column, group, modelAttr);
  }

  /** `scopeWithoutTenants`: the negated existence constraint of `scopeWithAnyTenants`. */
  method WithoutTenants(b: Builder, tenants: ScopeTenantsArg, column: string, group: Option<string>, modelAttr: Tenant -> ScopeValue)
    modifies b
    ensures b.wheres == old(b.wheres) + [WhereDoesntHaveTenants(AnyTenantsConditions(TenantValues(tenants, column, modelAttr), column, group))]
    ensures b.scopes == old(b.scopes) && b.macros == old(b.macros)
  {
    b.AddConstraints([WhereDoesntHaveTenants(AnyTenantsConditions(TenantValues(tenants, column, modelAttr), column, group))]);
  }

  /** `scopeWithoutAnyTenants`: `doesntHave('tenants')`. */
  method WithoutAnyTenants(b: Builder)
    modifies b
    ensures b.wheres == old(b.wheres) + [WhereDoesntHaveTenants([])]
    ensures b.scopes == old(b.scopes) && b.macros == old(b.macros)
  {
    b.AddConstraints([WhereDoesntHaveTenants([])]);
  }

  /** One of the entity's tenants has value `v` in `column` and is in the group. */
  ghost predicate OwnsWith(s: Store, m: ModelClass, key: int, column: string, v: Value, group: Option<string>) {
    exists t :: Owns(s, m, key, t) && ColumnValue(t, column) == v && InGroup(t, group)
  }

  /** `withAllTenants` keeps a row iff, for every value, one of its tenants has that value in `column` (and is in the group). */
  lemma WithAllMeans(ctx: QueryContext, m: ModelClass, row: Row, vs: seq<Value>, column: string, group: Option<string>)
    ensures HoldsAll(ctx, m, row, AllTenantsConstraints(vs, column, group)) <==>
      forall k :: 0 <= k < |vs| ==> OwnsWith(ctx.store, m, row.key, column, vs[k], group)
  {
    var cs := AllTenantsConstraints(vs, column, group);
    forall k | 0 <= k < |vs|
      ensures Holds(ctx, m, row, cs[k]) <==> OwnsWith(ctx.store, m, row.key, column, vs[k], group)
    {
      var conds := [Where(column, vs[k])] + GroupWheres(group);
      assert cs[k] == WhereHasTenants(conds);
      forall t ensures SatisfiesAll(t, conds) <==> ColumnValue(t, column) == vs[k] && InGroup(t, group) {
        GroupWheresMeans(t, [Where(column, vs[k])], group);
        SatisfiesAllSingle(t, Where(column, vs[k]));
      }
      if HasTenantWhere(ctx.store, m, row, conds) {
        var t :| t in ctx.store.tenants && Tenantable(t.id, row.key, m.morphType) in ctx.store.tenantables && SatisfiesAll(t, conds);
        assert Owns(ctx.store, m, row.key, t);
      }
    }
  }

  /** `withAnyTenants` keeps a row iff one of its tenants has a non-null `column` value among the values (and is in the group). */
  lemma WithAnyMeans(ctx: QueryContext, m: ModelClass, row: Row, vs: seq<Value>, column: string, group: Option<string>)
    ensures Holds(ctx, m, row, WhereHasTenants(AnyTenantsConditions(vs, column, group))) <==>
      exists t :: Owns(ctx.store, m, row.key, t) && ColumnValue(t, column) != NullV && ColumnValue(t, column) in vs && InGroup(t, group)
  {
    forall t ensures SatisfiesAll(t, AnyTenantsConditions(vs, column, group)) <==>
                     ColumnValue(t, column) != NullV && ColumnValue(t, column) in vs && InGroup(t, group) {
      GroupWheresMeans(t, [WhereIn(column, vs)], group);
      SatisfiesAllSingle(t, WhereIn(column, vs));
    }
  }

  /** For a single non-null value, `withAllTenants` and `withAnyTenants` agree. */
  lemma AllAndAnyAgreeOnOne(ctx: QueryContext, m: ModelClass, row: Row, v: Value, column: string, group: Option<string>)
    requires v != NullV
    ensures HoldsAll(ctx, m, row, AllTenantsConstraints([v], column, group)) <==>
            Holds(ctx, m, row, WhereHasTenants(AnyTenantsConditions([v], column, group)))
  {
    WithAllMeans(ctx, m, row, [v], column, group);
    WithAnyMeans(ctx, m, row, [v], column, group);
    assert [v][0] == v;
    if OwnsWith(ctx.store, m, row.key, column, v, group) {
      var t :| Owns(ctx.store, m, row.key, t) && ColumnValue(t, column) == v && InGroup(t, group);
      assert ColumnValue(t, column) in [v];
    }
    if Holds(ctx, m, row, WhereHasTenants(AnyTenantsConditions([v], column, group))) {
      var t :| Owns(ctx.store, m, row.key, t) && ColumnValue(t, column) != NullV && ColumnValue(t, column) in [v] && InGroup(t, group);
      assert OwnsWith(ctx.store, m, row.key, column, v, group);
    }
  }

  /** On top of any query, `withoutTenants` keeps exactly the rows `withAnyTenants` drops. */
  lemma WithoutIsComplementOfAny(ctx: QueryContext, m: ModelClass, scopes: map<string, Scope>, wheres: seq<Constraint>,
                                 vs: seq<Value>, column: string, group: Option<string>)
    ensures var any := Query(ctx, m, scopes, wheres + [WhereHasTenants(AnyTenantsConditions(vs, column, group))]);
            var without := Query(ctx, m, scopes, wheres + [WhereDoesntHaveTenants(AnyTenantsConditions(vs, column, group))]);
            forall row :: (row in Query(ctx, m, scopes, wheres) <==> (row in any || row in without))
                          && !(row in any && row in without)
  {
    var conds := AnyTenantsConditions(vs, column, group);
    forall row
      ensures Visible(ctx, m, scopes, wheres + [WhereHasTenants(conds)], row) <==>
                Visible(ctx, m, scopes, wheres, row) && Holds(ctx, m, row, WhereHasTenants(conds))
      ensures Visible(ctx, m, scopes, wheres + [WhereDoesntHaveTenants(conds)], row) <==>
                Visible(ctx, m, scopes, wheres, row) && !Holds(ctx, m, row, WhereHasTenants(conds))
    {
      HoldsAllConcat(ctx, m, row, wheres, [WhereHasTenants(conds)]);
      HoldsAllSingle(ctx, m, row, WhereHasTenants(conds));
      HoldsAllConcat(ctx, m, row, wheres, [WhereDoesntHaveTenants(conds)]);
      HoldsAllSingle(ctx, m, row, WhereDoesntHaveTenants(conds));
    }
  }

  /** `withoutAnyTenants` keeps exactly the rows joined to no stored tenant. */
  lemma WithoutAnyMeans(ctx: QueryContext, m: ModelClass, row: Row)
    ensures Holds(ctx, m, row, WhereDoesntHaveTenants([])) <==> forall t :: t in ctx.store.tenants ==> !Owns(ctx.store, m, row.key, t)
  {
  }

  /** After a successful attach, the entity's row passes `withAllTenants` on `id` for the attached ids. */
  lemma AttachedPassesWithAll(ctx: QueryContext, m: ModelClass, row: Row, rows0: set<Tenantable>, ids: seq<int>)
    requires Attach(rows0, KnownIds(ctx.store), row.key, m.morphType, ids).ok
    requires ctx.store.tenantables == Attach(rows0, KnownIds(ctx.store), row.key, m.morphType, ids).rows
    requires forall j :: 0 <= j < |ids| ==> ids[j] in KnownIds(ctx.store)
    ensures HoldsAll(ctx, m, row, AllTenantsConstraints(seq(|ids|, k requires 0 <= k < |ids| => IntV(ids[k])), "id", None))
  {
    var vs := seq(|ids|, k requires 0 <= k < |ids| => IntV(ids[k]));
    WithAllMeans(ctx, m, row, vs, "id", None);
    forall k | 0 <= k < |vs|
      ensures OwnsWith(ctx.store, m, row.key, "id", vs[k], None)
    {
      var t :| t in ctx.store.tenants && t.id == ids[k];
      assert Tenantable(ids[k], row.key, m.morphType) in JoinRows(row.key, m.morphType, ids);
      assert Owns(ctx.store, m, row.key, t);
    }
  }

  /** `forAllTenants()`: a new query on the model class with the `tenant` scope alone removed. */
  method ForAllTenants(cls: ModelScopes, context: QueryContext) returns (b: Builder)
    ensures fresh(b)
    ensures b.scopes == cls.table - {TenantScopeKey} && b.wheres == []
    ensures b.Rows() == Query(context, cls.model, cls.table - {TenantScopeKey}, [])
  {
    b := cls.NewQuery(context);
    b.WithoutGlobalScope(TenantScopeKey);
  }

  /** The three outcomes of `findOrFail($id)`. */
  datatype FindOutcome = Found(row: Row) | Failure(error: NotFoundError)

  function FirstWithKey(rows: seq<Row>, id: int): (r: Option<Row>)
    ensures r.Some? ==> r.value in rows && r.value.key == id
    ensures r.None? <==> forall row :: row in rows ==> row.key != id
  {
    if rows == [] then None
    else if rows[0].key == id then Some(rows[0])
    else FirstWithKey(rows[1..], id)
  }

  /**
   * `findOrFail($id)`: the row if it is visible with every global scope;
   * otherwise, if it is visible once the `tenant` scope alone is removed
   * (`forAllTenants`), the tenant variant of not-found; otherwise the
   * original not-found for `[$id]`.
   */
  function FindOrFail(ctx: QueryContext, m: ModelClass, scopes: map<string, Scope>, id: int): (r: FindOutcome)
    ensures r.Found? ==> r.row in Query(ctx, m, scopes, []) && r.row.key == id
    ensures r.Found? <==> exists row :: row in Query(ctx, m, scopes, []) && row.key == id
    ensures r.Failure? && r.error.ModelNotFoundForTenant? <==>
      (forall row :: row in Query(ctx, m, scopes, []) ==> row.key != id)
      && exists row :: row in Query(ctx, m, scopes - {TenantScopeKey}, []) && row.key == id
    ensures r.Failure? && r.error.ModelNotFoundForTenant? ==>
      r.error == ModelNotFoundForTenant(m.className, NotFoundForTenantMessage(m.className))
    ensures r.Failure? && r.error.ModelNotFound? ==> r.error == ModelNotFound(m.className, [id])
  {
    match FirstWithKey(Query(ctx, m, scopes, []), id)
    case Some(row) => Found(row)
    case None =>
      if FirstWithKey(Query(ctx, m, scopes - {TenantScopeKey}, []), id).Some? then
        Failure(ModelNotFoundForTenant(m.className, NotFoundForTenantMessage(m.className)))
      else
        Failure(ModelNotFound(m.className, [id]))
  }

  /**
   * Callers catching the framework's `ModelNotFoundException` still catch
   * every failure of `findOrFail`, since the tenant variant extends it; a
   * handler for the tenant variant fires exactly when the row exists but the
   * `tenant` scope hides it.
   */
  lemma FindOrFailFailuresCaught(ctx: QueryContext, m: ModelClass, scopes: map<string, Scope>, id: int)
    ensures var r := FindOrFail(ctx, m, scopes, id);
            r.Failure? ==> Catches(CatchModelNotFound, r.error)
    ensures var r := FindOrFail(ctx, m, scopes, id);
            (r.Failure? && Catches(CatchModelNotFoundForTenant, r.error)) <==>
              (forall row :: row in Query(ctx, m, scopes, []) ==> row.key != id)
              && exists row :: row in Query(ctx, m, scopes - {TenantScopeKey}, []) && row.key == id
  {
  }

  /** With a falsy configured tenant the `tenant` scope hides nothing, so the tenant variant never arises. */
  lemma NoTenantVariantWithoutTenant(ctx: QueryContext, m: ModelClass, scopes: map<string, Scope>, id: int)
    requires !ConfiguredTruthy(ctx.configured)
    requires TenantScopeKey in scopes ==> scopes[TenantScopeKey] == ConfiguredTenantScope
    ensures !(FindOrFail(ctx, m, scopes, id).Failure? && FindOrFail(ctx, m, scopes, id).error.ModelNotFoundForTenant?)
  {
    if TenantScopeKey in scopes {
      assert scopes == (scopes - {TenantScopeKey})[TenantScopeKey := ConfiguredTenantScope];
      ConfiguredScopeNoOpWhenFalsy(ctx, m, scopes - {TenantScopeKey}, []);
      assert (scopes - {TenantScopeKey}) - {TenantScopeKey} == scopes - {TenantScopeKey};
    } else {
      assert scopes - {TenantScopeKey} == scopes;
    }
  }
}
